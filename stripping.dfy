/** Where `strip` cuts: the stripped text is a slice of its argument with
    only whitespace on either side, so it keeps every other character. */
module Stripping {
  import opened Seqs
  import opened Strings

  /** What `strip` returns is a slice of its argument, and only whitespace
      was cut off on either side. */
  lemma StripIsSlice(s: string) returns (a: nat)
    ensures a + |Strip(s)| <= |s|
    ensures Strip(s) == s[a..a + |Strip(s)|]
    ensures forall i :: 0 <= i < a ==> IsSpace(s[i])
    ensures forall i :: a + |Strip(s)| <= i < |s| ==> IsSpace(s[i])
  {
    a := |s| - |LStrip(s)|;
    StripSliceAt(s);
    StripCutsSpace(s);
  }

  lemma StripSliceAt(s: string)
    ensures |s| - |LStrip(s)| + |Strip(s)| <= |s|
    ensures Strip(s) == s[|s| - |LStrip(s)|..|s| - |LStrip(s)| + |Strip(s)|]
  {
    var l := LStrip(s);
    var r := RStrip(l);
    assert r == l[..|r|];
    PrefixOfSuffix(s, l, r);
  }

  /** A prefix `r` of a suffix `l` of `s` is the slice of `s` where `l`
      starts. */
  lemma PrefixOfSuffix(s: string, l: string, r: string)
    requires |l| <= |s| && l == s[|s| - |l|..]
    requires |r| <= |l| && r == l[..|r|]
    ensures r == s[|s| - |l|..|s| - |l| + |r|]
  {
  }

  lemma StripCutsSpace(s: string)
    ensures forall i :: |s| - |LStrip(s)| + |Strip(s)| <= i < |s| ==> IsSpace(s[i])
  {
    var l := LStrip(s);
    var a := |s| - |l|;
    var r := RStrip(l);
    forall i | a + |r| <= i < |s|
      ensures IsSpace(s[i])
    {
      assert s[i] == l[i - a];
    }
  }

  /** `strip` returns a slice of its argument. */
  lemma StripSlice(s: string) returns (a: nat, b: nat)
    ensures a <= b <= |s| && Strip(s) == s[a..b]
  {
    a := StripIsSlice(s);
    b := a + |Strip(s)|;
  }

  /** A string with a non-space character keeps a non-empty stripped form. */
  lemma StripNonEmpty(s: string, i: int)
    requires 0 <= i < |s| && !IsSpace(s[i])
    ensures Strip(s) != []
  {
    var a := StripIsSlice(s);
  }

  /** `strip` removes only whitespace: the other characters stay, in order. */
  lemma StripKeepsOthers(s: string)
    ensures Filter(Strip(s), Not(IsSpace)) == Filter(s, Not(IsSpace))
  {
    var keep := Not(IsSpace);
    var a := StripIsSlice(s);
    var b := a + |Strip(s)|;
    var front, mid, back := s[..a], s[a..b], s[b..];
    Split3(s, a, b);
    FilterNone(front, keep);
    FilterNone(back, keep);
    FilterAppend(front + mid, back, keep);
    FilterAppend(front, mid, keep);
    EmptyAppend(Filter(mid, keep));
    AppendEmpty(Filter(mid, keep));
  }
}
