/**
 * The profile editor: avatar, nickname and bio, a snapshot of what was last loaded or saved, and
 * the "dirty" flag that enables the save button. The state cells and the snapshot (`initialRef`)
 * are the fields of `EditProfileScreen`; device storage is the loaded value or the saved payload.
 */
module EditProfileScreen {
  import opened Wrappers
  import opened Strings

  const BIO_MAX := 200
  const DEFAULT_NICKNAME := "충주시민"

  datatype Profile = Profile(avatarUri: Option<string>, nickname: string, bio: string)

  const DEFAULT_PROFILE := Profile(None, DEFAULT_NICKNAME, "")

  /** The stored JSON: any field may be missing or `null`. */
  datatype StoredProfile = StoredProfile(avatarUri: Option<string>, nickname: Option<string>, bio: Option<string>)

  /** The profile a load produces: stored fields where present, the defaults elsewhere; nothing
      stored gives the default profile. */
  function Loaded(saved: Option<StoredProfile>): (p: Profile)
    ensures saved.None? ==> p == DEFAULT_PROFILE
    ensures saved.Some? ==>
      (saved.value.avatarUri.Some? ==> p.avatarUri == saved.value.avatarUri) &&
      (saved.value.nickname.Some? ==> p.nickname == saved.value.nickname.value) &&
      (saved.value.bio.Some? ==> p.bio == saved.value.bio.value)
    ensures saved.Some? ==>
      (saved.value.avatarUri.None? ==> p.avatarUri.None?) &&
      (saved.value.nickname.None? ==> p.nickname == DEFAULT_NICKNAME) &&
      (saved.value.bio.None? ==> p.bio == "")
  {
    match saved
    case None => DEFAULT_PROFILE
    case Some(s) => Profile(s.avatarUri, s.nickname.GetOr(DEFAULT_NICKNAME), s.bio.GetOr(""))
  }

  /** `nickname.trim() || "충주시민"`. */
  function SavedNickname(nickname: string): string {
    if JsTrim(nickname) == [] then DEFAULT_NICKNAME else JsTrim(nickname)
  }

  /** The saved nickname is the trimmed input, or the default when the input is blank; it is
      never blank, already trimmed, and saving it again gives it back. */
  lemma SavedNicknameSpec(nickname: string)
    ensures JsBlank(nickname) ==> SavedNickname(nickname) == DEFAULT_NICKNAME
    ensures !JsBlank(nickname) ==> SavedNickname(nickname) == JsTrim(nickname)
    ensures !JsBlank(SavedNickname(nickname)) && JsTrim(SavedNickname(nickname)) == SavedNickname(nickname)
    ensures SavedNickname(SavedNickname(nickname)) == SavedNickname(nickname)
  {
    JsTrimIdempotent(nickname);
    assert JsTrim(DEFAULT_NICKNAME) == DEFAULT_NICKNAME by {
      assert !IsJsWhitespace(DEFAULT_NICKNAME[0]) && !IsJsWhitespace(DEFAULT_NICKNAME[|DEFAULT_NICKNAME| - 1]);
    }
  }

  /** Whether the form differs from a snapshot. */
  predicate Differs(avatarUri: Option<string>, nickname: string, bio: string, snapshot: Profile) {
    avatarUri != snapshot.avatarUri || nickname != snapshot.nickname || bio != snapshot.bio
  }

  /** A form differs from a snapshot exactly when it is not that snapshot. */
  lemma DiffersIff(avatarUri: Option<string>, nickname: string, bio: string, snapshot: Profile)
    ensures Differs(avatarUri, nickname, bio, snapshot) <==> Profile(avatarUri, nickname, bio) != snapshot
  {
  }

  /**
   * The screen's cells, the snapshot `initialRef` and the memoized `dirty` flag. `useMemo` over
   * `[avatarUri, nickname, bio]` recomputes the flag only on a render where one of the three cells
   * changed; writing the snapshot alone does not recompute it.
   */
  class EditProfileScreen {
    var avatarUri: Option<string>
    var nickname: string
    var bio: string
    var initial: Profile
    var dirty: bool

    constructor()
      ensures avatarUri.None? && nickname == DEFAULT_NICKNAME && bio == "" && initial == DEFAULT_PROFILE
      ensures !dirty
    {
      avatarUri := None;
      nickname := DEFAULT_NICKNAME;
      bio := "";
      initial := DEFAULT_PROFILE;
      dirty := false;
    }

    /** The render after a state update: the memo recomputes `dirty` against the current snapshot
        exactly when the form is no longer `prev`. */
    method Rerender(prev: Profile)
      modifies this
      ensures Profile(avatarUri, nickname, bio) != prev ==> dirty == Differs(avatarUri, nickname, bio, initial)
      ensures Profile(avatarUri, nickname, bio) == prev ==> dirty == old(dirty)
      ensures avatarUri == old(avatarUri) && nickname == old(nickname) && bio == old(bio) && initial == old(initial)
    {
      if Profile(avatarUri, nickname, bio) != prev {
        dirty := Differs(avatarUri, nickname, bio, initial);
      }
    }

    /** The load effect, with the parsed stored profile as a parameter. With something stored,
        the form and the snapshot both take the loaded profile, so a form that changed is clean
        afterwards; a load that changes no cell leaves the flag as it was. With nothing stored only
        the snapshot is reset to the defaults and the flag is not recomputed. */
    method Load(saved: Option<StoredProfile>)
      modifies this
      ensures initial == Loaded(saved)
      ensures saved.Some? ==> Profile(avatarUri, nickname, bio) == Loaded(saved)
      ensures saved.Some? && Loaded(saved) != old(Profile(avatarUri, nickname, bio)) ==> !dirty
      ensures saved.Some? && Loaded(saved) == old(Profile(avatarUri, nickname, bio)) ==> dirty == old(dirty)
      ensures saved.None? ==> avatarUri == old(avatarUri) && nickname == old(nickname) && bio == old(bio)
      ensures saved.None? ==> dirty == old(dirty)
    {
      if saved.Some? {
        var prev := Profile(avatarUri, nickname, bio);
        var s := saved.value;
        avatarUri := s.avatarUri;
        nickname := s.nickname.GetOr(DEFAULT_NICKNAME);
        bio := s.bio.GetOr("");
        initial := Profile(s.avatarUri, s.nickname.GetOr(DEFAULT_NICKNAME), s.bio.GetOr(""));
        Rerender(prev);
      } else {
        initial := Profile(None, DEFAULT_NICKNAME, "");
      }
    }

    /** The bio field's change handler: text longer than `BIO_MAX` is ignored, so typing never
        takes the bio past the limit. An accepted new text recomputes the flag. */
    method ChangeBio(t: string)
      modifies this
      ensures Utf16Length(t) <= BIO_MAX ==> bio == t
      ensures Utf16Length(t) > BIO_MAX ==> bio == old(bio)
      ensures Utf16Length(old(bio)) <= BIO_MAX ==> Utf16Length(bio) <= BIO_MAX
      ensures bio != old(bio) ==> dirty == Differs(avatarUri, nickname, bio, initial)
      ensures bio == old(bio) ==> dirty == old(dirty)
      ensures avatarUri == old(avatarUri) && nickname == old(nickname) && initial == old(initial)
    {
      var prev := Profile(avatarUri, nickname, bio);
      if Utf16Length(t) <= BIO_MAX {
        bio := t;
      }
      Rerender(prev);
    }

    /** The nickname field's change handler: a new text recomputes the flag. */
    method ChangeNickname(t: string)
      modifies this
      ensures nickname == t
      ensures t != old(nickname) ==> dirty == Differs(avatarUri, nickname, bio, initial)
      ensures t == old(nickname) ==> dirty == old(dirty)
      ensures avatarUri == old(avatarUri) && bio == old(bio) && initial == old(initial)
    {
      var prev := Profile(avatarUri, nickname, bio);
      nickname := t;
      Rerender(prev);
    }

    /**
     * `handleSave`, when the storage write succeeds. Both save controls are enabled only while the
     * form is dirty. The payload carries the saved nickname and becomes the snapshot; no cell
     * changes, so the memoized flag stays set even where the form now equals the snapshot.
     */
    method HandleSave() returns (payload: Profile)
      requires dirty
      modifies this
      ensures payload == Profile(old(avatarUri), SavedNickname(old(nickname)), old(bio))
      ensures initial == payload
      ensures avatarUri == old(avatarUri) && nickname == old(nickname) && bio == old(bio)
      ensures dirty
      ensures Differs(avatarUri, nickname, bio, initial) <==> nickname != SavedNickname(nickname)
    {
      payload := Profile(avatarUri, if JsTrim(nickname) == [] then DEFAULT_NICKNAME else JsTrim(nickname), bio);
      initial := payload;
    }
  }
}
