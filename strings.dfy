/** Character and string helpers shared by the model: Python's whitespace
    test and `strip`, ASCII case mapping, substring search, decimal
    rendering and `"sep".join`. */
module Strings {
  import Seqs

  /** Python's `str.isspace` for one character: the characters that
      `str.strip()` with no argument removes. */
  predicate IsSpace(c: char) {
    c == ' ' || c == '\t' || c == '\n' || c == '\r' ||
    c == '\U{0B}' || c == '\U{0C}' ||
    ('\U{1C}' <= c <= '\U{1F}') ||
    c == '\U{85}' || c == '\U{A0}' || c == '\U{1680}' ||
    ('\U{2000}' <= c <= '\U{200A}') ||
    c == '\U{2028}' || c == '\U{2029}' || c == '\U{202F}' ||
    c == '\U{205F}' || c == '\U{3000}'
  }

  predicate IsDigit(c: char) {
    '0' <= c <= '9'
  }

  /** `toLowerCase` / `casefold` restricted to ASCII letters. */
  function LowerChar(c: char): (r: char)
    ensures 'A' <= c <= 'Z' ==> r as int == c as int + 32
    ensures !('A' <= c <= 'Z') ==> r == c
  {
    if 'A' <= c <= 'Z' then (c as int + 32) as char else c
  }

  /** `toUpperCase` restricted to ASCII letters. */
  function UpperChar(c: char): (r: char)
    ensures 'a' <= c <= 'z' ==> r as int == c as int - 32
    ensures !('a' <= c <= 'z') ==> r == c
  {
    if 'a' <= c <= 'z' then (c as int - 32) as char else c
  }

  function Lower(s: string): (r: string)
    ensures |r| == |s|
    ensures forall i :: 0 <= i < |s| ==> r[i] == LowerChar(s[i])
  {
    if s == [] then [] else [LowerChar(s[0])] + Lower(s[1..])
  }

  predicate StartsWith(s: string, prefix: string) {
    |prefix| <= |s| && s[..|prefix|] == prefix
  }

  predicate EndsWith(s: string, suffix: string) {
    |suffix| <= |s| && s[|s| - |suffix|..] == suffix
  }

  /** `needle in haystack` / `haystack.includes(needle)`. */
  predicate Contains(haystack: string, needle: string) {
    exists i | 0 <= i <= |haystack| - |needle| :: OccursAt(haystack, needle, i)
  }

  /** `needle` occurs in `haystack` starting at index `i`. */
  predicate OccursAt(haystack: string, needle: string, i: int) {
    0 <= i && i + |needle| <= |haystack| && haystack[i..i + |needle|] == needle
  }

  lemma ContainsAt(haystack: string, needle: string, i: int)
    requires OccursAt(haystack, needle, i)
    ensures Contains(haystack, needle)
  {
  }

  /** A string inside a string inside `a` is inside `a`. */
  lemma ContainsTrans(a: string, b: string, c: string)
    requires Contains(a, b) && Contains(b, c)
    ensures Contains(a, c)
  {
    var i :| 0 <= i <= |a| - |b| && OccursAt(a, b, i);
    var j :| 0 <= j <= |b| - |c| && OccursAt(b, c, j);
    forall k | 0 <= k < |c| ensures a[i + j + k] == c[k] {
      assert a[i..i + |b|][j + k] == b[j + k];
      assert b[j..j + |c|][k] == c[k];
    }
    assert a[i + j..i + j + |c|] == c;
    ContainsAt(a, c, i + j);
  }

  /** Lower-casing twice is lower-casing once. */
  lemma LowerIdempotent(s: string)
    ensures Lower(Lower(s)) == Lower(s)
  {
    assert forall i :: 0 <= i < |s| ==> LowerChar(LowerChar(s[i])) == LowerChar(s[i]);
  }

  /** `s.lstrip()`: drops the leading whitespace and nothing else. */
  function LStrip(s: string): (r: string)
    ensures |r| <= |s| && r == s[|s| - |r|..]
    ensures forall i :: 0 <= i < |s| - |r| ==> IsSpace(s[i])
    ensures r == [] || !IsSpace(r[0])
  {
    if s != [] && IsSpace(s[0]) then LStrip(s[1..]) else s
  }

  /** `s.rstrip()`: drops the trailing whitespace and nothing else. */
  function RStrip(s: string): (r: string)
    ensures |r| <= |s| && r == s[..|r|]
    ensures forall i :: |r| <= i < |s| ==> IsSpace(s[i])
    ensures r == [] || !IsSpace(r[|r| - 1])
  {
    if s != [] && IsSpace(s[|s| - 1]) then RStrip(s[..|s| - 1]) else s
  }

  /** `s.strip()`. */
  function Strip(s: string): (r: string)
    ensures |r| <= |s|
    ensures r == [] || (!IsSpace(r[0]) && !IsSpace(r[|r| - 1]))
  {
    RStrip(LStrip(s))
  }

  predicate NoOuterSpace(s: string) {
    s == [] || (!IsSpace(s[0]) && !IsSpace(s[|s| - 1]))
  }

  /** `strip` leaves a string without outer whitespace as it is: together
      with Strip's own contract this makes `strip` idempotent. */
  lemma StripKeeps(s: string)
    requires NoOuterSpace(s)
    ensures Strip(s) == s
  {
  }

  /** Lower-casing a concatenation lower-cases each part. */
  lemma LowerAppend(a: string, b: string)
    ensures Lower(a + b) == Lower(a) + Lower(b)
  {
    assert forall i :: 0 <= i < |a + b| ==> Lower(a + b)[i] == (Lower(a) + Lower(b))[i];
  }

  /** Lower-casing neither makes nor unmakes whitespace, so it commutes
      with dropping the whitespace. */
  lemma {:induction false} LowerKeepsOthers(s: string)
    ensures Seqs.Filter(Lower(s), Seqs.Not(IsSpace)) == Lower(Seqs.Filter(s, Seqs.Not(IsSpace)))
    decreases |s|
  {
    if s != [] {
      Seqs.InitLast(s);
      LowerKeepsOthers(s[..|s| - 1]);
      LowerKeepsOthersStep(s[..|s| - 1], s[|s| - 1]);
    }
  }

  /** The step of `LowerKeepsOthers` for one more character. */
  lemma LowerKeepsOthersStep(init: string, c: char)
    requires Seqs.Filter(Lower(init), Seqs.Not(IsSpace)) == Lower(Seqs.Filter(init, Seqs.Not(IsSpace)))
    ensures Seqs.Filter(Lower(init + [c]), Seqs.Not(IsSpace)) == Lower(Seqs.Filter(init + [c], Seqs.Not(IsSpace)))
  {
    var keep := Seqs.Not(IsSpace);
    LowerKeepsSpace(c);
    assert keep(c) == !IsSpace(c) && keep(LowerChar(c)) == !IsSpace(c);
    LowerSnoc(init, c);
    Seqs.FilterSnoc(Lower(init), LowerChar(c), keep);
    Seqs.FilterSnoc(init, c, keep);
    LowerSnoc(Seqs.Filter(init, keep), c);
  }

  /** Lower-casing a character keeps it whitespace or not. */
  lemma LowerKeepsSpace(c: char)
    ensures IsSpace(LowerChar(c)) <==> IsSpace(c)
  {
  }

  /** Lower-casing one more character at the end. */
  lemma LowerSnoc(s: string, c: char)
    ensures Lower(s + [c]) == Lower(s) + [LowerChar(c)]
  {
    assert forall i :: 0 <= i < |s| + 1 ==> Lower(s + [c])[i] == (Lower(s) + [LowerChar(c)])[i];
  }

    function DigitChar(d: nat): (c: char)
    requires d < 10
    ensures IsDigit(c)
  {
    ('0' as int + d) as char
  }

  /** Decimal rendering of a natural number, as Python's `str` / `f"{n}"`. */
  function NatToString(n: nat): (r: string)
    ensures r != []
    ensures forall i :: 0 <= i < |r| ==> IsDigit(r[i])
  {
    if n < 10 then [DigitChar(n)] else NatToString(n / 10) + [DigitChar(n % 10)]
  }

  /** Decimal rendering of an integer, with a leading '-' when negative. */
  function IntToString(n: int): (r: string)
    ensures r != []
    ensures n >= 0 ==> r == NatToString(n)
    ensures n < 0 ==> r == "-" + NatToString(-n)
  {
    if n >= 0 then NatToString(n) else "-" + NatToString(-n)
  }

  /** `sep.join(parts)`. */
  function Join(parts: seq<string>, sep: string): (r: string)
    ensures parts == [] ==> r == []
    ensures |parts| == 1 ==> r == parts[0]
    ensures |parts| >= 1 ==> StartsWith(r, parts[0])
  {
    if parts == [] then []
    else if |parts| == 1 then parts[0]
    else parts[0] + sep + Join(parts[1..], sep)
  }

  /** A join of two or more parts starts with the first two and the
      separator between them. */
  lemma JoinStartsWithTwo(parts: seq<string>, sep: string)
    requires |parts| >= 2
    ensures StartsWith(Join(parts, sep), parts[0] + sep + parts[1])
  {
    var rest := Join(parts[1..], sep);
    assert StartsWith(rest, parts[1]);
    assert (parts[0] + sep + rest)[..|parts[0] + sep + parts[1]|] == parts[0] + sep + parts[1];
  }

  /** `strip` keeps a prefix that begins and ends with a non-space. */
  lemma StripKeepsPrefix(s: string, p: string)
    requires StartsWith(s, p) && p != [] && !IsSpace(p[0]) && !IsSpace(p[|p| - 1])
    ensures StartsWith(Strip(s), p)
  {
    var l := LStrip(s);
    assert s[0] == p[0];
    assert l == s;
    var r := RStrip(l);
    assert !IsSpace(s[|p| - 1]);
    assert |r| >= |p|;
    assert r[..|p|] == s[..|p|];
  }

  /** The leading run of `isRun` characters removed. */
  function DropRun(s: string, isRun: char -> bool): (r: string)
    ensures |r| <= |s| && r == s[|s| - |r|..]
    ensures forall i :: 0 <= i < |s| - |r| ==> isRun(s[i])
    ensures r == [] || !isRun(r[0])
  {
    if s != [] && isRun(s[0]) then DropRun(s[1..], isRun) else s
  }

  /** No two neighbouring characters are both run characters. */
  predicate NoAdjacentRuns(s: string, isRun: char -> bool) {
    forall i :: 0 <= i < |s| - 1 ==> !(isRun(s[i]) && isRun(s[i + 1]))
  }

  /** `re.sub(r"<class>+", " ", s)`: every maximal run of characters of the
      class becomes one space. */
  function CollapseRuns(s: string, isRun: char -> bool): (r: string)
    requires isRun(' ')
    ensures NoAdjacentRuns(r, isRun)
    ensures forall i :: 0 <= i < |r| && isRun(r[i]) ==> r[i] == ' '
    ensures r == [] <==> s == []
    ensures r != [] ==> (isRun(r[0]) <==> isRun(s[0]))
    ensures |r| <= |s|
    decreases |s|
  {
    if s == [] then []
    else if isRun(s[0]) then
      var rest := CollapseRuns(DropRun(s, isRun), isRun);
      assert NoAdjacentRuns([' '] + rest, isRun) by {
        forall i | 0 <= i < |[' '] + rest| - 1
          ensures !(isRun(([' '] + rest)[i]) && isRun(([' '] + rest)[i + 1]))
        {
          if i > 0 {
            assert ([' '] + rest)[i] == rest[i - 1];
            assert ([' '] + rest)[i + 1] == rest[i];
          }
        }
      }
      [' '] + rest
    else
      var rest := CollapseRuns(s[1..], isRun);
      assert NoAdjacentRuns([s[0]] + rest, isRun) by {
        forall i | 0 <= i < |[s[0]] + rest| - 1
          ensures !(isRun(([s[0]] + rest)[i]) && isRun(([s[0]] + rest)[i + 1]))
        {
          if i > 0 {
            assert ([s[0]] + rest)[i] == rest[i - 1];
            assert ([s[0]] + rest)[i + 1] == rest[i];
          }
        }
      }
      [s[0]] + rest
  }

  /** Collapsing keeps every character outside the class, in order. */
  lemma {:induction false} CollapseKeepsOthers(s: string, isRun: char -> bool)
    requires isRun(' ')
    ensures Seqs.Filter(CollapseRuns(s, isRun), Seqs.Not(isRun)) == Seqs.Filter(s, Seqs.Not(isRun))
    decreases |s|
  {
    if s != [] {
      if isRun(s[0]) {
        var d := DropRun(s, isRun);
        var w := LeadingRun(s, isRun);
        CollapseKeepsOthers(d, isRun);
        KeepsOthersRun(w, d, isRun);
      } else {
        Seqs.HeadTail(s);
        CollapseKeepsOthers(s[1..], isRun);
        KeepsOthersOther(s[0], s[1..], isRun);
      }
    }
  }

  /** The leading run of a string that opens with one: `s` is that run
      followed by `DropRun(s, isRun)`. */
  lemma LeadingRun(s: string, isRun: char -> bool) returns (w: string)
    requires s != [] && isRun(s[0])
    ensures w != [] && (forall i :: 0 <= i < |w| ==> isRun(w[i]))
    ensures s == w + DropRun(s, isRun)
  {
    var d := DropRun(s, isRun);
    w := s[..|s| - |d|];
    Seqs.SplitAt(s, |s| - |d|);
    if d != [] {
      assert d[0] == s[|s| - |d|];
    }
  }

  /** The step of `CollapseKeepsOthers` for a string opening with a run. */
  lemma KeepsOthersRun(w: string, d: string, isRun: char -> bool)
    requires isRun(' ') && w != [] && forall i :: 0 <= i < |w| ==> isRun(w[i])
    requires d == [] || !isRun(d[0])
    requires Seqs.Filter(CollapseRuns(d, isRun), Seqs.Not(isRun)) == Seqs.Filter(d, Seqs.Not(isRun))
    ensures Seqs.Filter(CollapseRuns(w + d, isRun), Seqs.Not(isRun)) == Seqs.Filter(w + d, Seqs.Not(isRun))
  {
    CollapseRunThen(w, d, isRun);
    FilterSkipsRun(w, d, isRun);
    FilterSkipsRun([' '], CollapseRuns(d, isRun), isRun);
  }

  /** A leading run of class characters leaves no trace in the filter. */
  lemma FilterSkipsRun(w: string, x: string, isRun: char -> bool)
    requires forall i :: 0 <= i < |w| ==> isRun(w[i])
    ensures Seqs.Filter(w + x, Seqs.Not(isRun)) == Seqs.Filter(x, Seqs.Not(isRun))
  {
    var keep := Seqs.Not(isRun);
    Seqs.FilterNone(w, keep);
    Seqs.FilterAppend(w, x, keep);
    Seqs.EmptyAppend(Seqs.Filter(x, keep));
  }

  /** The step of `CollapseKeepsOthers` for a string opening outside the
      class. */
  lemma KeepsOthersOther(c: char, t: string, isRun: char -> bool)
    requires isRun(' ') && !isRun(c)
    requires Seqs.Filter(CollapseRuns(t, isRun), Seqs.Not(isRun)) == Seqs.Filter(t, Seqs.Not(isRun))
    ensures Seqs.Filter(CollapseRuns([c] + t, isRun), Seqs.Not(isRun)) == Seqs.Filter([c] + t, Seqs.Not(isRun))
  {
    var keep := Seqs.Not(isRun);
    CollapseOther(c, t, isRun);
    Seqs.FilterAppend([c], t, keep);
    Seqs.FilterAppend([c], CollapseRuns(t, isRun), keep);
  }

  /** A character outside the class is copied, and collapsing goes on
      after it. */
  lemma CollapseOther(c: char, t: string, isRun: char -> bool)
    requires isRun(' ') && !isRun(c)
    ensures CollapseRuns([c] + t, isRun) == [c] + CollapseRuns(t, isRun)
  {
    assert ([c] + t)[1..] == t;
  }

  /** A non-empty run followed by the end of the string or by a character
      outside the class becomes one space, and collapsing goes on after it. */
  lemma CollapseRunThen(w: string, t: string, isRun: char -> bool)
    requires isRun(' ') && w != [] && forall i :: 0 <= i < |w| ==> isRun(w[i])
    requires t == [] || !isRun(t[0])
    ensures CollapseRuns(w + t, isRun) == [' '] + CollapseRuns(t, isRun)
  {
    assert (w + t)[0] == w[0];
    DropRunJoin(w, t, isRun);
    DropWholeRun(w, isRun);
  }

  /** A whole run of class characters becomes one space. */
  lemma CollapseWholeRun(s: string, isRun: char -> bool)
    requires isRun(' ') && s != []
    requires forall i :: 0 <= i < |s| ==> isRun(s[i])
    ensures CollapseRuns(s, isRun) == " "
  {
    DropWholeRun(s, isRun);
  }

  /** Dropping the leading run of a string made only of class characters
      leaves nothing. */
  lemma {:induction false} DropWholeRun(s: string, isRun: char -> bool)
    requires forall i :: 0 <= i < |s| ==> isRun(s[i])
    ensures DropRun(s, isRun) == []
    decreases |s|
  {
    if s != [] {
      DropWholeRun(s[1..], isRun);
    }
  }

  /** Where the left part ends, or the right part starts, outside the
      class, dropping the leading run of the join is dropping that of the
      left part. */
  lemma {:induction false} DropRunJoin(a: string, b: string, isRun: char -> bool)
    requires b == [] || !isRun(b[0]) || (a != [] && !isRun(a[|a| - 1]))
    ensures DropRun(a + b, isRun) == DropRun(a, isRun) + b
    decreases |a|
  {
    if a == [] {
      assert a + b == b;
    } else if isRun(a[0]) {
      assert (a + b)[0] == a[0];
      assert (a + b)[1..] == a[1..] + b;
      DropRunJoin(a[1..], b, isRun);
    } else {
      assert (a + b)[0] == a[0];
    }
  }

  /** Collapsing distributes over a join at a boundary with a character
      outside the class on one side: each run lies wholly in one part. */
  lemma {:induction false} CollapseJoin(a: string, b: string, isRun: char -> bool)
    requires isRun(' ')
    requires a == [] || b == [] || !isRun(a[|a| - 1]) || !isRun(b[0])
    ensures CollapseRuns(a + b, isRun) == CollapseRuns(a, isRun) + CollapseRuns(b, isRun)
    decreases |a|
  {
    if a == [] {
      assert a + b == b;
    } else if isRun(a[0]) {
      var d := DropRun(a, isRun);
      var w := LeadingRun(a, isRun);
      if d != [] {
        assert d[|d| - 1] == a[|a| - 1];
      }
      CollapseJoin(d, b, isRun);
      JoinRun(w, d, b, isRun);
    } else {
      var t := a[1..];
      Seqs.HeadTail(a);
      if t != [] {
        assert t[|t| - 1] == a[|a| - 1];
      }
      CollapseJoin(t, b, isRun);
      JoinOther(a[0], t, b, isRun);
    }
  }

  /** The step of `CollapseJoin` for a left part opening with a run. */
  lemma JoinRun(w: string, d: string, b: string, isRun: char -> bool)
    requires isRun(' ') && w != [] && forall i :: 0 <= i < |w| ==> isRun(w[i])
    requires d == [] || !isRun(d[0])
    requires d == [] ==> b == [] || !isRun(b[0])
    requires CollapseRuns(d + b, isRun) == CollapseRuns(d, isRun) + CollapseRuns(b, isRun)
    ensures CollapseRuns(w + d + b, isRun) == CollapseRuns(w + d, isRun) + CollapseRuns(b, isRun)
  {
    Seqs.AppendAssoc(w, d, b);
    if d != [] {
      assert (d + b)[0] == d[0];
    } else {
      Seqs.EmptyAppend(b);
    }
    CollapseRunThen(w, d, isRun);
    CollapseRunThen(w, d + b, isRun);
    Seqs.AppendAssoc([' '], CollapseRuns(d, isRun), CollapseRuns(b, isRun));
  }

  /** The step of `CollapseJoin` for a left part opening outside the class. */
  lemma JoinOther(c: char, t: string, b: string, isRun: char -> bool)
    requires isRun(' ') && !isRun(c)
    requires CollapseRuns(t + b, isRun) == CollapseRuns(t, isRun) + CollapseRuns(b, isRun)
    ensures CollapseRuns([c] + t + b, isRun) == CollapseRuns([c] + t, isRun) + CollapseRuns(b, isRun)
  {
    Seqs.AppendAssoc([c], t, b);
    CollapseOther(c, t, isRun);
    CollapseOther(c, t + b, isRun);
    Seqs.AppendAssoc([c], CollapseRuns(t, isRun), CollapseRuns(b, isRun));
  }

  /** A string already free of runs is left as it is, so collapsing twice
      is collapsing once. */
  lemma {:induction false} CollapseFixed(s: string, isRun: char -> bool)
    requires isRun(' ')
    requires NoAdjacentRuns(s, isRun)
    requires forall i :: 0 <= i < |s| && isRun(s[i]) ==> s[i] == ' '
    ensures CollapseRuns(s, isRun) == s
    decreases |s|
  {
    if s != [] {
      var tail := s[1..];
      CollapsedTail(s, isRun);
      CollapseFixed(tail, isRun);
      if isRun(s[0]) {
        assert tail == [] || !isRun(tail[0]);
        assert DropRun(s, isRun) == tail;
        assert s == [' '] + tail;
      } else {
        assert s == [s[0]] + tail;
      }
    }
  }

  /** The tail of a collapsed string is collapsed. */
  lemma CollapsedTail(s: string, isRun: char -> bool)
    requires s != [] && NoAdjacentRuns(s, isRun)
    requires forall i :: 0 <= i < |s| && isRun(s[i]) ==> s[i] == ' '
    ensures NoAdjacentRuns(s[1..], isRun)
    ensures forall i :: 0 <= i < |s| - 1 && isRun(s[1..][i]) ==> s[1..][i] == ' '
  {
    var tail := s[1..];
    forall i | 0 <= i < |tail| - 1 ensures !(isRun(tail[i]) && isRun(tail[i + 1])) {
      assert tail[i] == s[i + 1] && tail[i + 1] == s[i + 2];
    }
    forall i | 0 <= i < |tail| && isRun(tail[i]) ensures tail[i] == ' ' {
      assert tail[i] == s[i + 1];
    }
  }

  lemma CollapseIdempotent(s: string, isRun: char -> bool)
    requires isRun(' ')
    ensures CollapseRuns(CollapseRuns(s, isRun), isRun) == CollapseRuns(s, isRun)
  {
    CollapseFixed(CollapseRuns(s, isRun), isRun);
  }
}
