/** The web client's text helpers: `capitalize` and `pluralize`. */
module Format {
  import opened Seqs
  import opened Strings

  /** `s.charAt(0).toUpperCase() + s.slice(1)`: the first character upper
      cased, the rest verbatim; an empty string stays empty. */
  function Capitalize(s: string): (r: string)
    ensures s == [] ==> r == []
    ensures s != [] ==> |r| == |s| && r[0] == UpperChar(s[0]) && r[1..] == s[1..]
  {
    if s == [] then [] else [UpperChar(s[0])] + s[1..]
  }

  /** Capitalizing a capitalized string changes nothing. */
  lemma CapitalizeIdempotent(s: string)
    ensures Capitalize(Capitalize(s)) == Capitalize(s)
  {
    if s != [] {
      var c := UpperChar(s[0]);
      assert !('a' <= c <= 'z');
      assert Capitalize(s)[1..] == s[1..];
    }
  }

  /** `count === 1 ? singular : (plural ?? singular + "s")`. */
  function Pluralize(count: int, singular: string, plural: Option<string>): (r: string)
    ensures count == 1 ==> r == singular
    ensures count != 1 && plural.Some? ==> r == plural.value
    ensures count != 1 && plural.None? ==> StartsWith(r, singular) && |r| == |singular| + 1 && r[|r| - 1] == 's'
  {
    if count == 1 then singular
    else if plural.Some? then plural.value
    else singular + "s"
  }
}
