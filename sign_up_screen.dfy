/**
 * The sign-up form's validation: one message per field, computed from the four inputs on every
 * render, and the submit guard. Lengths are JavaScript lengths (UTF-16 code units).
 */
module SignUpScreen {
  import opened Wrappers
  import opened Strings

  const NICKNAME_MSG := "닉네임은 2자 이상이어야 합니다."
  const USERNAME_MSG := "아이디는 4자 이상, 영문자 및 숫자로만 구성되어야 합니다."
  const PW_MSG := "비밀번호는 6자 이상, 반드시 영문자와 숫자, 특수문자로 구성해야 합니다."
  const PW2_MSG := "비밀번호가 일치하지 않습니다"

  /** Where a confirmed sign-up goes. */
  const LOGIN_PATH := "/login"

  datatype Errors = Errors(nickname: string, username: string, pw: string, pw2: string)

  /** The `errors` object: a message where a rule fails, `""` where it holds. The username and
      password messages mention character classes, but only the length is checked. */
  function ErrorsOf(nickname: string, username: string, pw: string, pw2: string): (e: Errors)
    ensures e.nickname != "" <==> Utf16Length(JsTrim(nickname)) < 2
    ensures e.username != "" <==> Utf16Length(JsTrim(username)) < 4
    ensures e.pw != "" <==> Utf16Length(pw) < 6
    ensures e.pw2 != "" <==> pw2 != pw
  {
    Errors(if Utf16Length(JsTrim(nickname)) < 2 then NICKNAME_MSG else "",
           if Utf16Length(JsTrim(username)) < 4 then USERNAME_MSG else "",
           if Utf16Length(pw) < 6 then PW_MSG else "",
           if pw2 != pw then PW2_MSG else "")
  }

  /** `isValid`: no message and no empty field. */
  predicate IsValid(nickname: string, username: string, pw: string, pw2: string) {
    var e := ErrorsOf(nickname, username, pw, pw2);
    e.nickname == "" && e.username == "" && e.pw == "" && e.pw2 == "" &&
    nickname != "" && username != "" && pw != "" && pw2 != ""
  }

  /** `onSubmit`: the confirmed alert leads to the login screen; an invalid form does nothing. */
  function OnSubmit(nickname: string, username: string, pw: string, pw2: string): (dest: Option<string>)
    ensures dest.Some? <==> IsValid(nickname, username, pw, pw2)
    ensures dest.Some? ==> dest.value == LOGIN_PATH
  {
    if IsValid(nickname, username, pw, pw2) then Some(LOGIN_PATH) else None
  }

  /** The form is valid exactly when the four length and match rules hold: the separate
      non-empty checks add nothing, since each rule already rules out an empty field. */
  lemma IsValidIff(nickname: string, username: string, pw: string, pw2: string)
    ensures IsValid(nickname, username, pw, pw2) <==>
      Utf16Length(JsTrim(nickname)) >= 2 && Utf16Length(JsTrim(username)) >= 4 &&
      Utf16Length(pw) >= 6 && pw2 == pw
  {
    if nickname == "" {
      assert JsTrim(nickname) == "";
    }
    if username == "" {
      assert JsTrim(username) == "";
    }
  }

  /** White space around the nickname or the username changes neither message. */
  lemma PaddingDoesNotCount(nickname: string, username: string, pw: string, pw2: string, pad: string)
    requires forall i :: 0 <= i < |pad| ==> IsJsWhitespace(pad[i])
    ensures ErrorsOf(pad + nickname + pad, pad + username + pad, pw, pw2) == ErrorsOf(nickname, username, pw, pw2)
  {
    JsTrimPadding(nickname, pad);
    JsTrimPadding(username, pad);
  }
}
