/** The two list updates the screens use: `Array.prototype.filter` on an element test and on the index. */
module Lists {

  /** `s.filter(keep)`: the kept elements, in their original order. */
  function Filter<T(!new)>(s: seq<T>, keep: T -> bool): (r: seq<T>)
    ensures |r| <= |s|
    ensures forall x :: x in r <==> x in s && keep(x)
  {
    if s == [] then []
    else
      var rest := Filter(s[1..], keep);
      assert forall x :: x in s <==> x == s[0] || x in s[1..];
      if keep(s[0]) then [s[0]] + rest else rest
  }

  /** Filtering distributes over concatenation, so the kept elements stay in their relative order. */
  lemma {:induction false} FilterAppend<T(!new)>(a: seq<T>, b: seq<T>, keep: T -> bool)
    ensures Filter(a + b, keep) == Filter(a, keep) + Filter(b, keep)
  {
    if a == [] {
      assert a + b == b;
    } else {
      assert (a + b)[0] == a[0];
      assert (a + b)[1..] == a[1..] + b;
      FilterAppend(a[1..], b, keep);
    }
  }

  /** Nothing is removed when every element passes. */
  lemma {:induction false} FilterKeepsAll<T(!new)>(s: seq<T>, keep: T -> bool)
    requires forall i :: 0 <= i < |s| ==> keep(s[i])
    ensures Filter(s, keep) == s
  {
    if s != [] {
      FilterKeepsAll(s[1..], keep);
    }
  }

  /** `s.filter((_, i) => i !== idx)`. */
  function RemoveAt<T>(s: seq<T>, idx: int): seq<T> {
    if s == [] then []
    else (if idx == 0 then [] else [s[0]]) + RemoveAt(s[1..], idx - 1)
  }

  /** Removing position `idx` deletes exactly that element and keeps the rest in order; an index
      outside the list removes nothing. */
  lemma {:induction false} RemoveAtSpec<T>(s: seq<T>, idx: int)
    ensures 0 <= idx < |s| ==> RemoveAt(s, idx) == s[..idx] + s[idx + 1..]
    ensures !(0 <= idx < |s|) ==> RemoveAt(s, idx) == s
  {
    if s != [] {
      RemoveAtSpec(s[1..], idx - 1);
      if 0 < idx < |s| {
        assert s[1..][..idx - 1] == s[1..idx];
        assert s[1..][idx..] == s[idx + 1..];
        assert [s[0]] + s[1..idx] == s[..idx];
      } else if idx == 0 {
        assert s[1..] == s[idx + 1..];
      }
    }
  }
}
