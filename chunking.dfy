/** Text chunking of the ingest pipeline (`chunking.py`): `clean_text`
    normalises an extracted text, and `chunk_text` cuts it into windows of
    at most `maxChars` characters, preferring a paragraph break in the
    second half of a window, with `overlap` characters carried over. */
module Chunking {
  import opened Seqs
  import opened Strings
  import opened Stripping

  const Nul: char := '\U{0}'

  /** The characters of the class `[ \t]`. */
  predicate IsBlank(c: char) {
    c == ' ' || c == '\t'
  }

  predicate NoNul(s: string) {
    forall i :: 0 <= i < |s| ==> s[i] != Nul
  }

  /** No run of two or more spaces or tabs, and no tab at all. */
  predicate Collapsed(s: string) {
    NoAdjacentRuns(s, IsBlank) && forall i :: 0 <= i < |s| && IsBlank(s[i]) ==> s[i] == ' '
  }

  /** No run of three or more newlines. */
  predicate NoTripleNewline(s: string) {
    forall i :: 0 <= i < |s| - 2 ==> !(s[i] == '\n' && s[i + 1] == '\n' && s[i + 2] == '\n')
  }

  /** `t.replace("\x00", "")`. */
  function RemoveNul(s: string): (r: string)
    ensures NoNul(r)
    ensures multiset(r) == multiset(s)[Nul := 0]
    ensures NoNul(s) ==> r == s
  {
    if s == [] then []
    else
      assert s == [s[0]] + s[1..];
      (if s[0] == Nul then [] else [s[0]]) + RemoveNul(s[1..])
  }

  /** Collapsing blank runs brings in no NUL. */
  lemma {:induction false} CollapseKeepsNoNul(s: string)
    requires NoNul(s)
    ensures NoNul(CollapseRuns(s, IsBlank))
    decreases |s|
  {
    if s != [] {
      var r := CollapseRuns(s, IsBlank);
      var d := if IsBlank(s[0]) then DropRun(s, IsBlank) else s[1..];
      assert forall i :: 0 <= i < |d| ==> d[i] == s[|s| - |d| + i];
      CollapseKeepsNoNul(d);
      var tail := CollapseRuns(d, IsBlank);
      assert r == [r[0]] + tail;
      forall i | 0 <= i < |r| ensures r[i] != Nul {
        if i > 0 {
          assert r[i] == tail[i - 1];
        }
      }
    }
  }

  /** The leading run of newlines removed. */
  function DropNewlines(s: string): (r: string)
    ensures |r| <= |s| && r == s[|s| - |r|..]
    ensures forall i :: 0 <= i < |s| - |r| ==> s[i] == '\n'
    ensures r == [] || r[0] != '\n'
  {
    if s != [] && s[0] == '\n' then DropNewlines(s[1..]) else s
  }

  predicate IsNewline(c: char) {
    c == '\n'
  }

  /** `k` newlines. */
  function Newlines(k: nat): (r: string)
    ensures |r| == k && forall i :: 0 <= i < k ==> r[i] == '\n'
  {
    if k == 0 then [] else ['\n'] + Newlines(k - 1)
  }

  /** `re.sub(r"\n{3,}", "\n\n", t)`: every run of three or more newlines
      becomes two; shorter runs stay. */
  function CapNewlines(s: string): (r: string)
    ensures r == [] <==> s == []
    ensures r != [] ==> r[0] == s[0]
    decreases |s|
  {
    if s == [] then []
    else if s[0] == '\n' then
      var rest := DropNewlines(s);
      var run := |s| - |rest|;
      (if run >= 3 then "\n\n" else s[..run]) + CapNewlines(rest)
    else [s[0]] + CapNewlines(s[1..])
  }

  /** Dropping a run of newlines that ends at the end of the string or at
      another character leaves what follows it. */
  lemma {:induction false} DropNewlinesAfter(k: nat, t: string)
    requires t == [] || t[0] != '\n'
    ensures DropNewlines(Newlines(k) + t) == t
    decreases k
  {
    if k == 0 {
      EmptyAppend(t);
    } else {
      DropNewlinesAfter(k - 1, t);
      AppendAssoc(['\n'], Newlines(k - 1), t);
      assert (['\n'] + (Newlines(k - 1) + t))[1..] == Newlines(k - 1) + t;
    }
  }

  /** A run of `k` newlines, followed by the end of the string or by
      another character, becomes two newlines when `k` is three or more and
      stays as it is otherwise; capping goes on after it. */
  lemma CapRun(k: nat, t: string)
    requires t == [] || t[0] != '\n'
    ensures CapNewlines(Newlines(k) + t) ==
              Newlines(if k >= 3 then 2 else k) + CapNewlines(t)
  {
    if k == 0 {
      EmptyAppend(t);
      EmptyAppend(CapNewlines(t));
    } else {
      var s := Newlines(k) + t;
      assert s[0] == '\n';
      DropNewlinesAfter(k, t);
      assert s[..k] == Newlines(k);
      assert Newlines(2) == "\n\n";
    }
  }

  /** A character other than a newline is copied; capping goes on after it. */
  lemma CapOther(c: char, t: string)
    requires c != '\n'
    ensures CapNewlines([c] + t) == [c] + CapNewlines(t)
  {
    assert ([c] + t)[1..] == t;
  }

  /** Capping keeps every character other than a newline, in order. */
  lemma {:induction false} CapKeepsOthers(s: string)
    ensures Filter(CapNewlines(s), Not(IsNewline)) == Filter(s, Not(IsNewline))
    decreases |s|
  {
    if s != [] {
      if s[0] == '\n' {
        var rest := DropNewlines(s);
        var k := |s| - |rest|;
        SplitAt(s, k);
        assert s[..k] == Newlines(k);
        CapKeepsOthers(rest);
        CapRun(k, rest);
        FilterSkipsRun(Newlines(k), rest, IsNewline);
        FilterSkipsRun(Newlines(if k >= 3 then 2 else k), CapNewlines(rest), IsNewline);
      } else {
        HeadTail(s);
        CapKeepsOthers(s[1..]);
        CapOther(s[0], s[1..]);
        FilterAppend([s[0]], s[1..], Not(IsNewline));
        FilterAppend([s[0]], CapNewlines(s[1..]), Not(IsNewline));
      }
    }
  }

  /** The output has no run of three newlines. */
  lemma {:induction false} CapNoTriple(s: string)
    ensures NoTripleNewline(CapNewlines(s))
    decreases |s|
  {
    if s != [] {
      if s[0] == '\n' {
        var rest := DropNewlines(s);
        var run := |s| - |rest|;
        CapNoTriple(rest);
        NoTripleJoin(if run >= 3 then "\n\n" else s[..run], CapNewlines(rest));
      } else {
        CapNoTriple(s[1..]);
        NoTripleJoin([s[0]], CapNewlines(s[1..]));
      }
    }
  }

  /** Capping newline runs brings in no NUL. */
  lemma {:induction false} CapKeepsNoNul(s: string)
    requires NoNul(s)
    ensures NoNul(CapNewlines(s))
    decreases |s|
  {
    if s != [] {
      if s[0] == '\n' {
        var rest := DropNewlines(s);
        var run := |s| - |rest|;
        NoNulSlice(s, run, |s|);
        CapKeepsNoNul(rest);
        NoNulJoin(if run >= 3 then "\n\n" else s[..run], CapNewlines(rest));
      } else {
        NoNulSlice(s, 1, |s|);
        CapKeepsNoNul(s[1..]);
        NoNulJoin([s[0]], CapNewlines(s[1..]));
      }
    }
  }

  /** Capping newline runs keeps a string free of blank runs. */
  lemma {:induction false} CapKeepsCollapsed(s: string)
    requires Collapsed(s)
    ensures Collapsed(CapNewlines(s))
    decreases |s|
  {
    if s != [] {
      if s[0] == '\n' {
        var rest := DropNewlines(s);
        var run := |s| - |rest|;
        CollapsedSlice(s, run, |s|);
        CapKeepsCollapsed(rest);
        var p := if run >= 3 then "\n\n" else s[..run];
        assert p[|p| - 1] == '\n';
        CollapsedJoin(p, CapNewlines(rest));
      } else {
        CollapsedSlice(s, 1, |s|);
        CapKeepsCollapsed(s[1..]);
        CollapsedJoin([s[0]], CapNewlines(s[1..]));
      }
    }
  }

  lemma NoNulJoin(a: string, b: string)
    requires NoNul(a) && NoNul(b)
    ensures NoNul(a + b)
  {
    assert forall i :: |a| <= i < |a + b| ==> (a + b)[i] == b[i - |a|];
  }

  /** Two strings without a triple newline, not both newlines where they
      meet, join into one without. */
  lemma NoTripleJoin(a: string, b: string)
    requires NoTripleNewline(a) && NoTripleNewline(b)
    requires a == [] || b == [] || a[|a| - 1] != '\n' || b[0] != '\n'
    ensures NoTripleNewline(a + b)
  {
    var r := a + b;
    forall i | 0 <= i < |r| - 2 ensures !(r[i] == '\n' && r[i + 1] == '\n' && r[i + 2] == '\n') {
      if i + 2 < |a| {
        assert r[i] == a[i] && r[i + 1] == a[i + 1] && r[i + 2] == a[i + 2];
      } else if i >= |a| {
        assert r[i] == b[i - |a|] && r[i + 1] == b[i - |a| + 1] && r[i + 2] == b[i - |a| + 2];
      } else {
        assert r[|a| - 1] == a[|a| - 1] && r[|a|] == b[0];
      }
    }
  }

  /** Two collapsed strings, not both blank where they meet, join into a
      collapsed one. */
  lemma CollapsedJoin(a: string, b: string)
    requires Collapsed(a) && Collapsed(b)
    requires a == [] || b == [] || !IsBlank(a[|a| - 1]) || !IsBlank(b[0])
    ensures Collapsed(a + b)
  {
    var r := a + b;
    forall i | 0 <= i < |r| - 1 ensures !(IsBlank(r[i]) && IsBlank(r[i + 1])) {
      if i + 1 < |a| {
        assert r[i] == a[i] && r[i + 1] == a[i + 1];
      } else if i >= |a| {
        assert r[i] == b[i - |a|] && r[i + 1] == b[i - |a| + 1];
      } else {
        assert r[i] == a[|a| - 1] && r[i + 1] == b[0];
      }
    }
    forall i | 0 <= i < |r| && IsBlank(r[i]) ensures r[i] == ' ' {
      if i < |a| {
        assert r[i] == a[i];
      } else {
        assert r[i] == b[i - |a|];
      }
    }
  }

  /** A string without a triple newline is left as it is. */
  lemma {:induction false} CapFixed(s: string)
    requires NoTripleNewline(s)
    ensures CapNewlines(s) == s
    decreases |s|
  {
    if s != [] {
      var k := if s[0] == '\n' then |s| - |DropNewlines(s)| else 1;
      if s[0] == '\n' && |s| > 2 {
        assert !(s[0] == '\n' && s[1] == '\n' && s[2] == '\n');
      }
      NoTripleSlice(s, k, |s|);
      CapFixed(s[k..]);
      assert s[..k] + s[k..] == s;
    }
  }

  lemma NoNulSlice(s: string, a: int, b: int)
    requires 0 <= a <= b <= |s| && NoNul(s)
    ensures NoNul(s[a..b])
  {
    assert forall i :: 0 <= i < b - a ==> s[a..b][i] == s[a + i];
  }

  lemma CollapsedSlice(s: string, a: int, b: int)
    requires 0 <= a <= b <= |s| && Collapsed(s)
    ensures Collapsed(s[a..b])
  {
    var t := s[a..b];
    forall i | 0 <= i < |t| - 1 ensures !(IsBlank(t[i]) && IsBlank(t[i + 1])) {
      assert t[i] == s[a + i] && t[i + 1] == s[a + i + 1];
    }
    forall i | 0 <= i < |t| && IsBlank(t[i]) ensures t[i] == ' ' {
      assert t[i] == s[a + i];
    }
  }

  lemma NoTripleSlice(s: string, a: int, b: int)
    requires 0 <= a <= b <= |s| && NoTripleNewline(s)
    ensures NoTripleNewline(s[a..b])
  {
    var t := s[a..b];
    forall i | 0 <= i < |t| - 2 ensures !(t[i] == '\n' && t[i + 1] == '\n' && t[i + 2] == '\n') {
      assert t[i] == s[a + i] && t[i + 1] == s[a + i + 1] && t[i + 2] == s[a + i + 2];
    }
  }

  /** `clean_text`: NULs removed, each run of spaces and tabs one space,
      each run of three or more newlines two, outer whitespace stripped. */
  function CleanText(t: string): (r: string)
    ensures NoNul(r) && Collapsed(r) && NoTripleNewline(r) && NoOuterSpace(r)
  {
    var a := RemoveNul(t);
    CleanShape(a);
    Strip(CapNewlines(CollapseRuns(a, IsBlank)))
  }

  lemma CleanShape(a: string)
    requires NoNul(a)
    ensures var c := CapNewlines(CollapseRuns(a, IsBlank));
            NoNul(Strip(c)) && Collapsed(Strip(c)) && NoTripleNewline(Strip(c))
  {
    var b := CollapseRuns(a, IsBlank);
    var c := CapNewlines(b);
    CapNoTriple(b);
    CollapseKeepsNoNul(a);
    CapKeepsNoNul(b);
    StripKeepsNoNul(c);
    CapKeepsCollapsed(b);
    StripKeepsCollapsed(c);
    StripKeepsNoTriple(c);
  }

  lemma StripKeepsNoNul(c: string)
    requires NoNul(c)
    ensures NoNul(Strip(c))
  {
    var a, b := StripSlice(c);
    NoNulSlice(c, a, b);
  }

  lemma StripKeepsCollapsed(c: string)
    requires Collapsed(c)
    ensures Collapsed(Strip(c))
  {
    var a, b := StripSlice(c);
    CollapsedSlice(c, a, b);
  }

  lemma StripKeepsNoTriple(c: string)
    requires NoTripleNewline(c)
    ensures NoTripleNewline(Strip(c))
  {
    var a, b := StripSlice(c);
    NoTripleSlice(c, a, b);
  }

  /** Cleaning keeps every character of the NUL-free text that is not
      whitespace, in order: only whitespace is rewritten or dropped. */
  lemma CleanKeepsText(t: string)
    ensures Filter(CleanText(t), Not(IsSpace)) == Filter(RemoveNul(t), Not(IsSpace))
  {
    var a := RemoveNul(t);
    var b := CollapseRuns(a, IsBlank);
    var c := CapNewlines(b);
    StripKeepsOthers(c);
    CapKeepsOthers(b);
    CollapseKeepsOthers(a, IsBlank);
    SpacesOnly(c, IsNewline);
    SpacesOnly(b, IsNewline);
    SpacesOnly(b, IsBlank);
    SpacesOnly(a, IsBlank);
  }

  /** Dropping some whitespace first does not change which characters
      other than whitespace remain. */
  lemma SpacesOnly(x: string, isRun: char -> bool)
    requires forall c :: isRun(c) ==> IsSpace(c)
    ensures Filter(Filter(x, Not(isRun)), Not(IsSpace)) == Filter(x, Not(IsSpace))
  {
    FilterFilter(x, Not(isRun), Not(IsSpace));
  }

  /** Cleaning a cleaned text changes nothing. */
  lemma CleanIdempotent(t: string)
    ensures CleanText(CleanText(t)) == CleanText(t)
  {
    var x := CleanText(t);
    CollapseFixed(x, IsBlank);
    CapFixed(x);
    CapNoTriple(x);
    StripKeeps(x);
  }

  // ---- chunk_text ----

  /** A paragraph break `"\n\n"` starts at `k`. */
  predicate ParaBreakAt(text: string, k: int) {
    0 <= k && k + 1 < |text| && text[k] == '\n' && text[k + 1] == '\n'
  }

  /** `text.rfind("\n\n", lo, hi)`: the last paragraph break lying wholly
      inside `text[lo:hi]`, or -1. */
  function RFindBreak(text: string, lo: int, hi: int): (k: int)
    requires 0 <= lo && hi <= |text|
    ensures k == -1 || (lo <= k && k + 2 <= hi && ParaBreakAt(text, k))
    ensures k == -1 ==> forall m :: lo <= m && m + 2 <= hi ==> !ParaBreakAt(text, m)
    ensures k != -1 ==> forall m :: k < m && m + 2 <= hi ==> !ParaBreakAt(text, m)
    decreases hi - lo
  {
    if hi - lo < 2 then -1
    else if ParaBreakAt(text, hi - 2) then hi - 2
    else RFindBreak(text, lo, hi - 1)
  }

  /** Where the window starting at `i` is cut: the window's end
      `min(n, i + maxChars)`, unless the last paragraph break inside the
      window lies at least half a window past `i` (`cut >= i + maxChars *
      0.5`, doubled to stay in integers), which is then the cut. */
  function Cut(text: string, i: int, maxChars: int): (cut: int)
    requires 0 <= i < |text| && maxChars >= 1
    ensures i < cut <= Min(|text|, i + maxChars)
  {
    var j := Min(|text|, i + maxChars);
    var k := RFindBreak(text, i, j);
    if k == -1 || 2 * k < 2 * i + maxChars then j else k
  }

  /** The cut is the window end or a paragraph break in the second half
      of the window with no later one inside it, and it is a break
      whenever the second half holds one. */
  lemma CutChoice(text: string, i: int, maxChars: int)
    requires 0 <= i < |text| && maxChars >= 1
    ensures var cut := Cut(text, i, maxChars);
            cut == Min(|text|, i + maxChars) ||
            (ParaBreakAt(text, cut) && cut + 2 <= Min(|text|, i + maxChars) && 2 * cut >= 2 * i + maxChars)
    ensures var cut := Cut(text, i, maxChars);
            cut != Min(|text|, i + maxChars) ==>
              forall m :: cut < m && m + 2 <= Min(|text|, i + maxChars) ==> !ParaBreakAt(text, m)
    ensures (exists m :: 2 * m >= 2 * i + maxChars && m + 2 <= Min(|text|, i + maxChars) && ParaBreakAt(text, m)) ==>
              Cut(text, i, maxChars) != Min(|text|, i + maxChars)
  {
  }

  function Min(a: int, b: int): int {
    if a <= b then a else b
  }

  function Max(a: int, b: int): int {
    if a >= b then a else b
  }

  /** Every chunk is non-empty, at most `maxChars` long, without outer
      whitespace, and a piece of the cleaned text. */
  predicate GoodChunk(chunk: string, text: string, maxChars: int) {
    chunk != [] && |chunk| <= maxChars && NoOuterSpace(chunk) && Contains(text, chunk)
  }

  /** One window's chunk: the stripped text between `i` and the cut. */
  function Window(t: string, i: int, cut: int): (chunk: string)
    requires 0 <= i < cut <= |t|
  {
    Strip(t[i..cut])
  }

  /** The stripped piece is no longer than the window, has no outer
      whitespace, occurs in the text, and is non-empty when the window
      starts on a non-space. */
  lemma WindowShape(t: string, i: int, cut: int)
    requires 0 <= i < cut <= |t|
    ensures var chunk := Window(t, i, cut);
            |chunk| <= cut - i && NoOuterSpace(chunk) && (chunk != [] ==> Contains(t, chunk)) &&
            (!IsSpace(t[i]) ==> chunk != [])
  {
    var piece := t[i..cut];
    WindowFacts(piece, t, i);
  }

  lemma WindowFacts(piece: string, t: string, i: int)
    requires 0 <= i && i + |piece| <= |t| && piece == t[i..i + |piece|] && piece != []
    ensures Contains(t, Strip(piece))
    ensures !IsSpace(t[i]) ==> Strip(piece) != []
  {
    WindowNonEmpty(piece, t, i);
    var a, b := StripSlice(piece);
    SliceOfSlice(t, i, piece, a, b);
    ContainsAt(t, piece[a..b], i + a);
  }

  lemma WindowNonEmpty(piece: string, t: string, i: int)
    requires 0 <= i < |t| && piece != [] && piece[0] == t[i]
    ensures !IsSpace(t[i]) ==> Strip(piece) != []
  {
    if !IsSpace(t[i]) {
      StripNonEmpty(piece, 0);
    }
  }

  /** A slice of a slice of `t` occurs in `t`. */
  lemma SliceOfSlice(t: string, i: int, piece: string, a: int, b: int)
    requires 0 <= i && i + |piece| <= |t| && piece == t[i..i + |piece|]
    requires 0 <= a <= b <= |piece|
    ensures OccursAt(t, piece[a..b], i + a)
  {
    forall k | 0 <= k < b - a
      ensures t[i + a..i + b][k] == piece[a..b][k]
    {
      assert piece[a + k] == t[i + a + k];
    }
  }

  // ---- The walk of the chunking loop ----

  /** The positions `i, next(i), next(next(i)), …` below `n`, keeping
      each non-empty `piece(j)` in order. */
  function Walk(n: int, i: int, next: int -> int, piece: int -> string): seq<string>
    requires forall j :: next(j) > j
    decreases n - i
  {
    if i >= n then []
    else
      var rest := Walk(n, next(i), next, piece);
      if piece(i) != [] then [piece(i)] + rest else rest
  }

  /** The positions whose piece the walk keeps, in the same order. */
  ghost function WalkStarts(n: int, i: int, next: int -> int, piece: int -> string): seq<int>
    requires forall j :: next(j) > j
    decreases n - i
  {
    if i >= n then []
    else
      var rest := WalkStarts(n, next(i), next, piece);
      if piece(i) != [] then [i] + rest else rest
  }

  /** Element `k` of the walk is the non-empty piece of its start `k`,
      which lies in `[i, n)`. */
  lemma {:induction false} WalkAt(n: int, i: int, next: int -> int, piece: int -> string, k: int)
    requires forall j :: next(j) > j
    requires 0 <= k < |Walk(n, i, next, piece)|
    ensures |WalkStarts(n, i, next, piece)| == |Walk(n, i, next, piece)|
    ensures var s := WalkStarts(n, i, next, piece)[k];
            i <= s < n && piece(s) != [] && Walk(n, i, next, piece)[k] == piece(s)
    decreases n - i
  {
    WalkLength(n, i, next, piece);
    var rest := Walk(n, next(i), next, piece);
    var rs := WalkStarts(n, next(i), next, piece);
    if piece(i) != [] {
      if k > 0 {
        WalkAt(n, next(i), next, piece, k - 1);
        assert WalkStarts(n, i, next, piece)[k] == rs[k - 1];
        assert Walk(n, i, next, piece)[k] == rest[k - 1];
      }
    } else {
      WalkAt(n, next(i), next, piece, k);
    }
  }

  /** There is one start per kept piece. */
  lemma {:induction false} WalkLength(n: int, i: int, next: int -> int, piece: int -> string)
    requires forall j :: next(j) > j
    ensures |WalkStarts(n, i, next, piece)| == |Walk(n, i, next, piece)|
    decreases n - i
  {
    if i < n {
      WalkLength(n, next(i), next, piece);
    }
  }

  /** The starts strictly increase. */
  lemma {:induction false} WalkOrdered(n: int, i: int, next: int -> int, piece: int -> string, a: int, b: int)
    requires forall j :: next(j) > j
    requires 0 <= a < b < |WalkStarts(n, i, next, piece)|
    ensures WalkStarts(n, i, next, piece)[a] < WalkStarts(n, i, next, piece)[b]
    decreases n - i
  {
    var ws := WalkStarts(n, i, next, piece);
    var rs := WalkStarts(n, next(i), next, piece);
    WalkLength(n, next(i), next, piece);
    if piece(i) != [] {
      assert ws[b] == rs[b - 1];
      if a == 0 {
        WalkAt(n, next(i), next, piece, b - 1);
      } else {
        WalkOrdered(n, next(i), next, piece, a - 1, b - 1);
        assert ws[a] == rs[a - 1];
      }
    } else {
      WalkOrdered(n, next(i), next, piece, a, b);
    }
  }

  /** When every step stays within the window `[j, end(j))` it leaves,
      and every window holding `p` has a non-empty piece, some kept start
      has `p` in its window. */
  lemma {:induction false} WalkCovers(n: int, i: int, next: int -> int, piece: int -> string, end: int -> int, p: int)
    returns (k: int)
    requires forall j :: next(j) > j
    requires forall j :: next(j) <= end(j)
    requires forall j :: i <= j <= p < end(j) ==> piece(j) != []
    requires i <= p < n
    ensures 0 <= k < |WalkStarts(n, i, next, piece)|
    ensures WalkStarts(n, i, next, piece)[k] <= p < end(WalkStarts(n, i, next, piece)[k])
    decreases n - i
  {
    var rs := WalkStarts(n, next(i), next, piece);
    if p < end(i) {
      k := 0;
    } else {
      var k' := WalkCovers(n, next(i), next, piece, end, p);
      if piece(i) != [] {
        k := k' + 1;
        assert WalkStarts(n, i, next, piece)[k] == rs[k'];
      } else {
        k := k';
      }
    }
  }

  // ---- chunk_text's loop as a walk ----

  /** Where the loop goes on from a window starting at `j`:
      `max(j + 1, cut - overlap)`. */
  function NextStart(t: string, maxChars: int, overlap: int): (next: int -> int)
    requires maxChars >= 1
    ensures forall j :: next(j) > j
  {
    (j: int) => if 0 <= j < |t| then Max(j + 1, Cut(t, j, maxChars) - overlap) else j + 1
  }

  /** The stripped text of the window starting at `j`. */
  function WindowAt(t: string, maxChars: int): int -> string
    requires maxChars >= 1
  {
    (j: int) => if 0 <= j < |t| then Window(t, j, Cut(t, j, maxChars)) else []
  }

  /** The end of the window starting at `j`. */
  function CutAt(t: string, maxChars: int): int -> int
    requires maxChars >= 1
  {
    (j: int) => if 0 <= j < |t| then Cut(t, j, maxChars) else j + 1
  }

  /** The chunks the loop of `chunk_text` produces from position `i` on:
      the window from `i` is cut, its stripped text kept when non-empty,
      and the loop goes on from `max(i + 1, cut - overlap)`. */
  function Chunks(t: string, i: int, maxChars: int, overlap: int): seq<string>
    requires maxChars >= 1
  {
    Walk(|t|, i, NextStart(t, maxChars, overlap), WindowAt(t, maxChars))
  }

  /** The window starts of those chunks. */
  ghost function ChunkStarts(t: string, i: int, maxChars: int, overlap: int): seq<int>
    requires maxChars >= 1
  {
    WalkStarts(|t|, i, NextStart(t, maxChars, overlap), WindowAt(t, maxChars))
  }

  /** One turn of the loop: the window from `i` contributes its stripped
      text when non-empty, and the loop goes on from `max(i + 1, cut - overlap)`. */
  lemma ChunksStep(t: string, i: int, maxChars: int, overlap: int, chunk: string, next: int)
    requires maxChars >= 1 && 0 <= i < |t|
    requires chunk == Window(t, i, Cut(t, i, maxChars)) && next == Max(i + 1, Cut(t, i, maxChars) - overlap)
    ensures next > i
    ensures Chunks(t, i, maxChars, overlap) == (if chunk != [] then [chunk] else []) + Chunks(t, next, maxChars, overlap)
  {
    assert NextStart(t, maxChars, overlap)(i) == next;
    assert WindowAt(t, maxChars)(i) == chunk;
  }

  /** Chunk `k` is the non-empty stripped text of the window from start `k`, which
      lies in the text at or after `i` and ends at its cut. */
  lemma ChunkStartsMatch(t: string, i: int, maxChars: int, overlap: int, k: int)
    requires maxChars >= 1 && 0 <= k < |Chunks(t, i, maxChars, overlap)|
    ensures |ChunkStarts(t, i, maxChars, overlap)| == |Chunks(t, i, maxChars, overlap)|
    ensures var s := ChunkStarts(t, i, maxChars, overlap)[k];
            i <= s && 0 <= s < |t| && Chunks(t, i, maxChars, overlap)[k] == Window(t, s, Cut(t, s, maxChars)) &&
            Chunks(t, i, maxChars, overlap)[k] != []
  {
    WalkAt(|t|, i, NextStart(t, maxChars, overlap), WindowAt(t, maxChars), k);
  }

  /** The chunks come in text order: their window starts strictly
      increase. */
  lemma ChunkStartsOrdered(t: string, i: int, maxChars: int, overlap: int, a: int, b: int)
    requires maxChars >= 1 && 0 <= a < b < |ChunkStarts(t, i, maxChars, overlap)|
    ensures ChunkStarts(t, i, maxChars, overlap)[a] < ChunkStarts(t, i, maxChars, overlap)[b]
  {
    WalkOrdered(|t|, i, NextStart(t, maxChars, overlap), WindowAt(t, maxChars), a, b);
  }

  /** With a non-negative overlap no character is skipped: every
      non-whitespace character from `i` on lies in the window of some
      chunk. */
  lemma ChunksCover(t: string, i: int, maxChars: int, overlap: int, p: int) returns (k: int)
    requires maxChars >= 1 && overlap >= 0 && 0 <= i <= p < |t| && !IsSpace(t[p])
    ensures 0 <= k < |ChunkStarts(t, i, maxChars, overlap)|
    ensures var s := ChunkStarts(t, i, maxChars, overlap)[k];
            0 <= s <= p < |t| && p < Cut(t, s, maxChars)
  {
    var next := NextStart(t, maxChars, overlap);
    var piece := WindowAt(t, maxChars);
    var end := CutAt(t, maxChars);
    forall j ensures next(j) <= end(j) {
      if 0 <= j < |t| {
        assert Cut(t, j, maxChars) > j;
      }
    }
    forall j | i <= j <= p < end(j) ensures piece(j) != [] {
      var cut := Cut(t, j, maxChars);
      var w := t[j..cut];
      assert w[p - j] == t[p];
      StripNonEmpty(w, p - j);
    }
    k := WalkCovers(|t|, i, next, piece, end, p);
    WalkLength(|t|, i, next, piece);
    WalkAt(|t|, i, next, piece, k);
  }

  /** Chunk `k` is non-empty, at most `maxChars` long, without outer
      whitespace, and a piece of the text. */
  lemma ChunkGood(t: string, maxChars: int, overlap: int, k: int)
    requires maxChars >= 1 && 0 <= k < |Chunks(t, 0, maxChars, overlap)|
    ensures GoodChunk(Chunks(t, 0, maxChars, overlap)[k], t, maxChars)
  {
    ChunkStartsMatch(t, 0, maxChars, overlap, k);
    var s := ChunkStarts(t, 0, maxChars, overlap)[k];
    var cut := Cut(t, s, maxChars);
    var chunk := Window(t, s, cut);
    WindowShape(t, s, cut);
    assert |chunk| <= cut - s <= maxChars;
  }

  /** Every chunk is non-empty, at most `maxChars` long, without outer
      whitespace, and a piece of the text; a text that starts with a
      non-whitespace character yields at least one chunk. */
  lemma ChunksGood(t: string, maxChars: int, overlap: int)
    requires maxChars >= 1
    ensures forall k :: 0 <= k < |Chunks(t, 0, maxChars, overlap)| ==> GoodChunk(Chunks(t, 0, maxChars, overlap)[k], t, maxChars)
    ensures t != [] && !IsSpace(t[0]) ==> Chunks(t, 0, maxChars, overlap) != []
  {
    var cs := Chunks(t, 0, maxChars, overlap);
    forall k | 0 <= k < |cs| ensures GoodChunk(cs[k], t, maxChars) {
      ChunkGood(t, maxChars, overlap, k);
    }
    if t != [] && !IsSpace(t[0]) {
      var cut := Cut(t, 0, maxChars);
      WindowShape(t, 0, cut);
      ChunksStep(t, 0, maxChars, overlap, Window(t, 0, cut), Max(1, cut - overlap));
    }
  }

  /** `chunk_text`: the chunks of the cleaned text, in order; none exactly
      when the cleaned text is empty. */
  method ChunkText(text: string, maxChars: int, overlap: int) returns (chunks: seq<string>)
    requires maxChars >= 1
    ensures chunks == Chunks(CleanText(text), 0, maxChars, overlap)
    ensures chunks == [] <==> CleanText(text) == []
    ensures forall k :: 0 <= k < |chunks| ==> GoodChunk(chunks[k], CleanText(text), maxChars)
  {
    var t := CleanText(text);
    if t == [] {
      return [];
    }
    chunks := ChunkCleaned(t, maxChars, overlap);
    ChunksGood(t, maxChars, overlap);
  }

  /** Appending a non-empty chunk to the chunks found so far keeps them,
      followed by the rest, equal to the whole. */
  lemma KeepStep(chunks: seq<string>, chunk: string, here: seq<string>, rest: seq<string>, whole: seq<string>)
    requires chunks + here == whole
    requires here == (if chunk != [] then [chunk] else []) + rest
    ensures (if chunk != [] then chunks + [chunk] else chunks) + rest == whole
  {
    if chunk != [] {
      assert (chunks + [chunk]) + rest == chunks + ([chunk] + rest);
    } else {
      assert here == rest;
    }
  }

  /** The loop of `chunk_text` over the cleaned text. */
  method ChunkCleaned(t: string, maxChars: int, overlap: int) returns (chunks: seq<string>)
    requires maxChars >= 1
    ensures chunks == Chunks(t, 0, maxChars, overlap)
  {
    ghost var whole := Chunks(t, 0, maxChars, overlap);
    chunks := [];
    var i := 0;
    var n := |t|;
    while i < n
      invariant 0 <= i
      invariant chunks + Chunks(t, i, maxChars, overlap) == whole
      decreases n - i
    {
      var cut := Cut(t, i, maxChars);
      var chunk := Window(t, i, cut);
      var next := Max(i + 1, cut - overlap);
      ChunksStep(t, i, maxChars, overlap, chunk, next);
      KeepStep(chunks, chunk, Chunks(t, i, maxChars, overlap), Chunks(t, next, maxChars, overlap), whole);
      if chunk != [] {
        chunks := chunks + [chunk];
      }
      i := next;
    }
  }
}
