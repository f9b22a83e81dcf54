/** Chapter segmentation of an ingested book (`chapterize` and its helpers).
    Candidate spans come from the PDF outline's page numbers, from a printed
    table of contents, from heading candidates or from an even split by
    pages; `FinalizeSpans` turns any of them into the final chapter list.

    The regular-expression helpers are parameters: `_clean_title` is
    `cleanTitle`, `_chapter_number` is `chapterNumber`, and the results of
    `_spans_from_toc_titles`, `_extract_printed_toc` and `_heading_candidates`
    are inputs of `Chapterize`. `page_offsets` are the character offsets at
    which the pages start; the functions that bisect them require them
    sorted, which the extractors guarantee by building them cumulatively. */
module Chapterize {
  import opened Seqs
  import opened Strings
  import opened Stripping
  import opened ChapterSpans

  /** Sort key of `_finalize_spans`: by start, longer first on ties. */
  function StartThenLonger(s: Span): (int, int) {
    (s.start, -(s.end - s.start))
  }

  lemma SortedStarts(ss: seq<Span>)
    requires SortedBy(ss, StartThenLonger)
    ensures forall i, j :: 0 <= i < j < |ss| ==> ss[i].start <= ss[j].start
  {
    forall i, j | 0 <= i < j < |ss| ensures ss[i].start <= ss[j].start {
      assert KeyLe(StartThenLonger(ss[i]), StartThenLonger(ss[j]));
    }
  }

  /** The clamped, unnumbered form of an input span. */
  function Clamped(s: Span, textLen: int): Span
    requires textLen >= 0
  {
    Span(0, s.title, Clamp(s.start, textLen), Clamp(s.end, textLen))
  }

  /** One pass of the merge loop of `_finalize_spans` for the clamped span
      `c`: an empty span is skipped; one that starts before the last kept
      span ends replaces it when strictly longer and is dropped otherwise;
      any other is appended. */
  function MergeStep(merged: seq<Span>, c: Span): (r: seq<Span>)
    requires NonEmptySpans(merged) && Disjoint(merged)
    requires merged != [] ==> merged[|merged| - 1].start <= c.start
    ensures NonEmptySpans(r) && Disjoint(r)
    ensures c.start >= c.end ==> r == merged
    ensures c.start < c.end && merged != [] && c.start < merged[|merged| - 1].end ==>
              (Len(c) > Len(merged[|merged| - 1]) ==> r == merged[|merged| - 1 := c]) &&
              (Len(c) <= Len(merged[|merged| - 1]) ==> r == merged)
    ensures c.start < c.end && (merged == [] || c.start >= merged[|merged| - 1].end) ==> r == merged + [c]
    ensures forall x :: x in r ==> x in merged || x == c
    ensures merged != [] ==>
              |r| >= |merged| && r[..|merged| - 1] == merged[..|merged| - 1] &&
              Len(r[|merged| - 1]) >= Len(merged[|merged| - 1])
    ensures c.start < c.end ==> r != [] && Len(r[|r| - 1]) >= Len(c)
    ensures r != [] ==> r[|r| - 1].start <= c.start
  {
    if c.end <= c.start then merged
    else if merged != [] && c.start < merged[|merged| - 1].end then
      if Len(c) > Len(merged[|merged| - 1]) then merged[|merged| - 1 := c] else merged
    else merged + [c]
  }

  /** The input spans clamped to the text, in order. */
  function ClampAll(ss: seq<Span>, textLen: int): (cs: seq<Span>)
    requires textLen >= 0
    ensures |cs| == |ss|
    ensures forall i :: 0 <= i < |ss| ==> cs[i] == Clamped(ss[i], textLen)
  {
    if ss == [] then [] else ClampAll(ss[..|ss| - 1], textLen) + [Clamped(ss[|ss| - 1], textLen)]
  }

  /** Each non-empty span among the first `k` of `cs` is matched by a merged
      span at least as long. */
  ghost predicate Dominated(merged: seq<Span>, cs: seq<Span>, k: int)
    requires 0 <= k <= |cs|
  {
    forall j :: 0 <= j < k && Len(cs[j]) > 0 ==> exists i :: 0 <= i < |merged| && Len(merged[i]) >= Len(cs[j])
  }

  /** One merge step keeps every span inside the text and drawn from the
      clamped inputs seen so far. */
  lemma MergeStepProvenance(merged: seq<Span>, cs: seq<Span>, k: int, textLen: int)
    requires 0 <= k < |cs|
    requires NonEmptySpans(merged) && Disjoint(merged) && InBounds(merged, textLen)
    requires 0 <= cs[k].start && cs[k].end <= textLen
    requires merged != [] ==> merged[|merged| - 1].start <= cs[k].start
    requires forall x :: x in merged ==> x in cs[..k]
    ensures InBounds(MergeStep(merged, cs[k]), textLen)
    ensures forall x :: x in MergeStep(merged, cs[k]) ==> x in cs[..k + 1]
  {
    var r := MergeStep(merged, cs[k]);
    assert cs[..k + 1] == cs[..k] + [cs[k]];
    forall i | 0 <= i < |r| ensures r[i] in cs[..k + 1] && 0 <= r[i].start <= r[i].end <= textLen {
      if r[i] != cs[k] {
        assert r[i] in merged;
      }
    }
  }

  /** One merge step keeps every non-empty clamped input seen so far
      matched by a kept span at least as long. */
  lemma MergeStepDominance(merged: seq<Span>, cs: seq<Span>, k: int)
    requires 0 <= k < |cs|
    requires NonEmptySpans(merged) && Disjoint(merged)
    requires merged != [] ==> merged[|merged| - 1].start <= cs[k].start
    requires Dominated(merged, cs, k)
    ensures Dominated(MergeStep(merged, cs[k]), cs, k + 1)
  {
    var c := cs[k];
    var r := MergeStep(merged, c);
    forall j | 0 <= j < k + 1 && Len(cs[j]) > 0
      ensures exists i :: 0 <= i < |r| && Len(r[i]) >= Len(cs[j])
    {
      if j == k {
        assert Len(r[|r| - 1]) >= Len(c);
      } else {
        var i :| 0 <= i < |merged| && Len(merged[i]) >= Len(cs[j]);
        if i < |merged| - 1 {
          assert r[..|merged| - 1][i] == merged[..|merged| - 1][i];
        }
      }
    }
  }

  /** The starts never decrease. */
  predicate StartsSorted(ss: seq<Span>) {
    forall i, j :: 0 <= i < j < |ss| ==> ss[i].start <= ss[j].start
  }

  /** Clamping keeps the starts in order. */
  lemma ClampAllSorted(ss: seq<Span>, textLen: int)
    requires textLen >= 0 && StartsSorted(ss)
    ensures StartsSorted(ClampAll(ss, textLen))
  {
    var cs := ClampAll(ss, textLen);
    forall i, j | 0 <= i < j < |cs| ensures cs[i].start <= cs[j].start {
      ClampMonotone(ss[i].start, ss[j].start, textLen);
    }
  }

  /** The merge loop of `_finalize_spans` as a fold: `MergeStep` applied to
      each clamped span in turn, starting from no span. */
  function MergeAll(cs: seq<Span>): (m: seq<Span>)
    requires StartsSorted(cs)
    ensures NonEmptySpans(m) && Disjoint(m)
    ensures cs == [] ==> m == []
    ensures m != [] ==> m[|m| - 1].start <= cs[|cs| - 1].start
  {
    if cs == [] then [] else MergeStep(MergeAll(cs[..|cs| - 1]), cs[|cs| - 1])
  }

  /** Every span lies between 0 and `textLen`, possibly empty. */
  predicate Inside(cs: seq<Span>, textLen: int) {
    forall i :: 0 <= i < |cs| ==> 0 <= cs[i].start && cs[i].end <= textLen
  }

  /** The merged spans lie inside the text, each one of the inputs, and no
      non-empty input is longer than every merged span. */
  lemma {:induction false} MergeAllKeeps(cs: seq<Span>, textLen: int)
    requires StartsSorted(cs) && Inside(cs, textLen)
    ensures InBounds(MergeAll(cs), textLen)
    ensures forall x :: x in MergeAll(cs) ==> x in cs
    ensures Dominated(MergeAll(cs), cs, |cs|)
  {
    if cs != [] {
      var n := |cs| - 1;
      var init := cs[..n];
      SortedInsidePrefix(cs, textLen, n);
      MergeAllKeeps(init, textLen);
      var m := MergeAll(init);
      DominatedPrefix(m, cs, n);
      MergeStepProvenance(m, cs, n, textLen);
      MergeStepDominance(m, cs, n);
      assert cs[..n + 1] == cs;
    }
  }

  /** Domination of a prefix's first `n` inputs is domination of the
      whole list's first `n`. */
  lemma DominatedPrefix(merged: seq<Span>, cs: seq<Span>, n: int)
    requires 0 <= n <= |cs| && Dominated(merged, cs[..n], n)
    ensures Dominated(merged, cs, n)
  {
    assert forall j :: 0 <= j < n ==> cs[..n][j] == cs[j];
  }

  /** A prefix of sorted spans inside the text is sorted and inside it. */
  lemma SortedInsidePrefix(cs: seq<Span>, textLen: int, n: int)
    requires StartsSorted(cs) && Inside(cs, textLen) && 0 <= n <= |cs|
    ensures StartsSorted(cs[..n]) && Inside(cs[..n], textLen)
  {
    assert forall j :: 0 <= j < n ==> cs[..n][j] == cs[j];
  }

  /** The merge loop of `_finalize_spans` over spans sorted by start
      computes the fold `MergeAll` of the clamped spans. */
  method MergeOverlaps(sorted: seq<Span>, textLen: int) returns (merged: seq<Span>)
    requires textLen >= 0 && StartsSorted(sorted)
    ensures StartsSorted(ClampAll(sorted, textLen))
    ensures merged == MergeAll(ClampAll(sorted, textLen))
  {
    ghost var cs := ClampAll(sorted, textLen);
    ClampAllSorted(sorted, textLen);
    merged := [];
    for k := 0 to |sorted|
      invariant merged == MergeAll(cs[..k])
    {
      var s := sorted[k];
      var c := Span(0, s.title, Clamp(s.start, textLen), Clamp(s.end, textLen));
      assert cs[..k + 1][..k] == cs[..k] && cs[..k + 1][k] == c;
      merged := MergeStep(merged, c);
    }
    assert cs[..|sorted|] == cs;
  }

  /** `[s for s in merged if (s.end - s.start) >= min_chapter_chars]`. */
  function LongSpans(ms: seq<Span>, minChars: int): (r: seq<Span>)
    ensures |r| <= |ms|
  {
    if ms == [] then []
    else LongSpans(ms[..|ms| - 1], minChars) + (if Len(ms[|ms| - 1]) >= minChars then [ms[|ms| - 1]] else [])
  }

  /** The length filter keeps exactly the long spans, in order, so it keeps
      disjointness and bounds. */
  lemma {:induction false} LongSpansKeep(ms: seq<Span>, minChars: int)
    ensures AllLong(LongSpans(ms, minChars), minChars)
    ensures forall x :: x in LongSpans(ms, minChars) ==> x in ms
    ensures forall x :: x in ms && Len(x) >= minChars ==> x in LongSpans(ms, minChars)
    ensures Disjoint(ms) ==> Disjoint(LongSpans(ms, minChars))
  {
    if ms != [] {
      var init := ms[..|ms| - 1];
      LongSpansKeep(init, minChars);
      assert ms == init + [ms[|ms| - 1]];
      var r := LongSpans(ms, minChars);
      var p := LongSpans(init, minChars);
      if Disjoint(ms) {
        assert Disjoint(init);
        forall i, j | 0 <= i < j < |r| ensures r[i].end <= r[j].start {
          if j == |p| {
            assert r[i] in init;
          }
        }
      }
    }
  }

  /** The filter of `_finalize_spans`: `LongSpans` of the merged spans. */
  method DropShort(merged: seq<Span>, minChars: int) returns (kept: seq<Span>)
    ensures kept == LongSpans(merged, minChars)
  {
    kept := [];
    for k := 0 to |merged|
      invariant kept == LongSpans(merged[..k], minChars)
    {
      assert merged[..k + 1][..k] == merged[..k];
      if Len(merged[k]) >= minChars {
        kept := kept + [merged[k]];
      }
    }
    assert merged[..|merged|] == merged;
  }

  /** `_clean_title(t) or t or f"Section {i}"`. */
  function TitleFor(cleanTitle: string -> string, t: string, i: int): (title: string)
    ensures title != []
    ensures cleanTitle(t) != "" ==> title == cleanTitle(t)
    ensures cleanTitle(t) == "" && t != "" ==> title == t
    ensures cleanTitle(t) == "" && t == "" ==> title == "Section " + IntToString(i)
  {
    if cleanTitle(t) != "" then cleanTitle(t)
    else if t != "" then t
    else "Section " + IntToString(i)
  }

  /** The spans numbered 1, 2, ... with their titles cleaned. */
  function Numbered(kept: seq<Span>, cleanTitle: string -> string): seq<Span> {
    seq(|kept|, i requires 0 <= i < |kept| =>
      Span(i + 1, TitleFor(cleanTitle, kept[i].title, i + 1), kept[i].start, kept[i].end))
  }

  /** The numbering loop: spans keep their ranges, get indices 1, 2, ...
      and a non-empty title. */
  method NumberSpans(kept: seq<Span>, cleanTitle: string -> string) returns (out: seq<Span>)
    ensures out == Numbered(kept, cleanTitle)
    ensures |out| == |kept| && Indexed(out)
    ensures forall i :: 0 <= i < |out| ==>
              out[i].start == kept[i].start && out[i].end == kept[i].end && out[i].title != []
  {
    out := [];
    for i := 0 to |kept|
      invariant |out| == i
      invariant forall j :: 0 <= j < i ==>
                  out[j] == Span(j + 1, TitleFor(cleanTitle, kept[j].title, j + 1), kept[j].start, kept[j].end)
    {
      var s := kept[i];
      out := out + [Span(i + 1, TitleFor(cleanTitle, s.title, i + 1), s.start, s.end)];
    }
  }

  /** What survives sorting, merging and the length filter of
      `_finalize_spans`. */
  function Survivors(spans: seq<Span>, textLen: int, minChars: int): seq<Span>
    requires textLen >= 0
  {
    var sorted := SortBy(spans, StartThenLonger);
    SortedStarts(sorted);
    ClampAllSorted(sorted, textLen);
    LongSpans(MergeAll(ClampAll(sorted, textLen)), minChars)
  }

  /** `_finalize_spans` as a function: "Full Text" when there is no input
      or nothing survives, else the survivors numbered. */
  function Finalized(spans: seq<Span>, textLen: int, minChars: int, cleanTitle: string -> string): seq<Span>
    requires textLen >= 0
  {
    if spans == [] then [FullText(textLen)]
    else
      var kept := Survivors(spans, textLen, minChars);
      if kept == [] then [FullText(textLen)] else Numbered(kept, cleanTitle)
  }

  /** The survivors are inside the text, non-empty, disjoint, at least
      `minChars` long, and each the clamped range of an input span. */
  lemma SurvivorsShape(spans: seq<Span>, textLen: int, minChars: int)
    requires textLen >= 0
    ensures var kept := Survivors(spans, textLen, minChars);
            InBounds(kept, textLen) && NonEmptySpans(kept) && Disjoint(kept) && AllLong(kept, minChars) &&
            forall i :: 0 <= i < |kept| ==> FromInput(kept[i], spans, textLen)
  {
    var sorted := SortBy(spans, StartThenLonger);
    SortedStarts(sorted);
    ClampAllSorted(sorted, textLen);
    var cs := ClampAll(sorted, textLen);
    var merged := MergeAll(cs);
    MergeAllKeeps(cs, textLen);
    LongSpansKeep(merged, minChars);
    var kept := LongSpans(merged, minChars);
    forall i | 0 <= i < |kept|
      ensures FromInput(kept[i], spans, textLen) && 0 <= kept[i].start < kept[i].end <= textLen
    {
      KeptFromInput(kept[i], merged, sorted, spans, textLen);
    }
  }

  /** The span is the clamped range of some input span. */
  ghost predicate FromInput(x: Span, spans: seq<Span>, textLen: int)
    requires textLen >= 0
  {
    exists k :: 0 <= k < |spans| && x.start == Clamp(spans[k].start, textLen) && x.end == Clamp(spans[k].end, textLen)
  }

  /** Numbering keeps the ranges, and gives indices 1, 2, ... and titles
      that are not empty. */
  lemma NumberedShape(kept: seq<Span>, cleanTitle: string -> string, textLen: int, minChars: int)
    ensures var out := Numbered(kept, cleanTitle);
            |out| == |kept| && Indexed(out) && (forall i :: 0 <= i < |out| ==> out[i].title != []) &&
            forall i :: 0 <= i < |out| ==> out[i].start == kept[i].start && out[i].end == kept[i].end
    ensures InBounds(kept, textLen) ==> InBounds(Numbered(kept, cleanTitle), textLen)
    ensures Disjoint(kept) ==> Disjoint(Numbered(kept, cleanTitle))
    ensures NonEmptySpans(kept) ==> NonEmptySpans(Numbered(kept, cleanTitle))
    ensures AllLong(kept, minChars) ==> AllLong(Numbered(kept, cleanTitle), minChars)
  {
  }

  /** `_finalize_spans`: never empty; "Full Text" exactly when the input is
      empty or no span survives; otherwise the survivors, numbered 1..n
      with non-empty titles, inside the text, disjoint, each at least
      `minChars` long and the clamped range of an input span. */
  lemma FinalizedShape(spans: seq<Span>, textLen: int, minChars: int, cleanTitle: string -> string)
    requires textLen >= 0
    ensures var out := Finalized(spans, textLen, minChars, cleanTitle);
            |out| >= 1 && InBounds(out, textLen) && Disjoint(out) && Indexed(out) &&
            (forall i :: 0 <= i < |out| ==> out[i].title != [])
    ensures spans == [] || Survivors(spans, textLen, minChars) == [] ==>
              Finalized(spans, textLen, minChars, cleanTitle) == [FullText(textLen)]
    ensures var out := Finalized(spans, textLen, minChars, cleanTitle);
            var kept := Survivors(spans, textLen, minChars);
            spans != [] && kept != [] ==>
              |out| == |kept| && AllLong(out, minChars) && NonEmptySpans(out) &&
              forall i :: 0 <= i < |out| ==> FromInput(out[i], spans, textLen)
  {
    SurvivorsShape(spans, textLen, minChars);
    var kept := Survivors(spans, textLen, minChars);
    var out := Finalized(spans, textLen, minChars, cleanTitle);
    if spans != [] && kept != [] {
      assert out == Numbered(kept, cleanTitle);
      NumberedShape(kept, cleanTitle, textLen, minChars);
      forall i | 0 <= i < |out| ensures FromInput(out[i], spans, textLen) {
        assert FromInput(kept[i], spans, textLen);
        assert out[i].start == kept[i].start && out[i].end == kept[i].end;
      }
    }
  }

  /** `_finalize_spans`, step by step. */
  method FinalizeSpans(spans: seq<Span>, textLen: int, minChars: int, cleanTitle: string -> string)
    returns (out: seq<Span>)
    requires textLen >= 0
    ensures out == Finalized(spans, textLen, minChars, cleanTitle)
  {
    if spans == [] {
      return [FullText(textLen)];
    }
    var sorted := SortBy(spans, StartThenLonger);
    SortedStarts(sorted);
    var merged := MergeOverlaps(sorted, textLen);
    var kept := DropShort(merged, minChars);
    assert kept == Survivors(spans, textLen, minChars);
    if kept == [] {
      return [FullText(textLen)];
    }
    out := NumberSpans(kept, cleanTitle);
  }

  /** A span that survived the merge is the clamped range of an input span,
      and lies non-empty inside the text. */
  lemma KeptFromInput(x: Span, merged: seq<Span>, sorted: seq<Span>, spans: seq<Span>, textLen: int)
    requires textLen >= 0
    requires x in merged
    requires NonEmptySpans(merged) && InBounds(merged, textLen)
    requires forall y :: y in merged ==> y in ClampAll(sorted, textLen)
    requires multiset(sorted) == multiset(spans)
    ensures FromInput(x, spans, textLen)
    ensures 0 <= x.start < x.end <= textLen
  {
    var cs := ClampAll(sorted, textLen);
    var m :| 0 <= m < |cs| && cs[m] == x;
    InMultiset(sorted, spans, m);
    var k :| 0 <= k < |spans| && spans[k] == sorted[m];
    var j :| 0 <= j < |merged| && merged[j] == x;
  }

  // ---- table-of-contents headings ----

  /** `_norm_title`: stripped, case-folded, each whitespace run one space. */
  function NormTitle(t: string): (k: string)
    ensures NoAdjacentRuns(k, IsSpace)
    ensures forall i :: 0 <= i < |k| && IsSpace(k[i]) ==> k[i] == ' '
    ensures k == [] <==> Strip(t) == []
    ensures k != [] ==> !IsSpace(k[0])
  {
    var l := Lower(Strip(t));
    if l != [] then LowerKeepsSpace(Strip(t)[0]); CollapseRuns(l, IsSpace)
    else CollapseRuns(l, IsSpace)
  }

  /** The key keeps every non-whitespace character of the title,
      lower-cased and in order: two titles share a key only if they spell
      the same words. */
  lemma NormTitleKeepsText(t: string)
    ensures Filter(NormTitle(t), Not(IsSpace)) == Lower(Filter(t, Not(IsSpace)))
  {
    StripKeepsOthers(t);
    LowerKeepsOthers(Strip(t));
    CollapseKeepsOthers(Lower(Strip(t)), IsSpace);
  }

  /** Two words separated by any run of whitespace give the two keys
      separated by one space. */
  lemma NormTitleWords(a: string, w: string, b: string)
    requires a != [] && b != [] && w != []
    requires NoOuterSpace(a) && NoOuterSpace(b)
    requires forall i :: 0 <= i < |w| ==> IsSpace(w[i])
    ensures NormTitle(a + w + b) == NormTitle(a) + " " + NormTitle(b)
  {
    var s := a + w + b;
    assert s[0] == a[0] && s[|s| - 1] == b[|b| - 1];
    StripKeeps(s);
    StripKeeps(a);
    StripKeeps(b);
    var la, lw, lb := Lower(a), Lower(w), Lower(b);
    LowerAppend(a + w, b);
    LowerAppend(a, w);
    AppendAssoc(la, lw, lb);
    LowerKeepsSpace(a[|a| - 1]);
    LowerKeepsSpace(b[0]);
    forall i | 0 <= i < |lw|
      ensures IsSpace(lw[i])
    {
      LowerKeepsSpace(w[i]);
    }
    CollapseJoin(la, lw + lb, IsSpace);
    CollapseRunThen(lw, lb, IsSpace);
    AppendAssoc(CollapseRuns(la, IsSpace), " ", CollapseRuns(lb, IsSpace));
  }

  /** A table-of-contents heading: its title and its physical page (1-based). */
  type Heading = (string, int)

  /** The key `_dedupe_toc_headings` compares. */
  function Key(h: Heading): (string, int) {
    (NormTitle(h.0), h.1)
  }

  /** The first loop's key: every heading has one. */
  function TitleKey(h: Heading): Option<(string, int)> {
    Some(Key(h))
  }

  /** The second loop's key: the chapter number, when the title has one. */
  function NumberKey(chapterNumber: string -> Option<int>): Heading -> Option<int> {
    (h: Heading) => chapterNumber(h.0)
  }

  /** The keys the entries carry; an entry whose key is `None` carries none. */
  function KeysOf<K(==)>(hs: seq<Heading>, key: Heading -> Option<K>): set<K> {
    if hs == [] then {}
    else
      var k := key(hs[|hs| - 1]);
      KeysOf(hs[..|hs| - 1], key) + (if k.Some? then {k.value} else {})
  }

  /** A key is among `KeysOf` exactly when some entry carries it. */
  lemma {:induction false} KeysOfMembers<K>(hs: seq<Heading>, key: Heading -> Option<K>)
    ensures forall j :: 0 <= j < |hs| && key(hs[j]).Some? ==> key(hs[j]).value in KeysOf(hs, key)
    ensures forall k :: k in KeysOf(hs, key) ==> exists j :: 0 <= j < |hs| && key(hs[j]) == Some(k)
  {
    if hs != [] {
      var init := hs[..|hs| - 1];
      KeysOfMembers(init, key);
      assert forall j :: 0 <= j < |init| ==> init[j] == hs[j];
    }
  }

  /** Entry `i` is kept: it has no key, or no earlier entry has its key. */
  predicate KeptAt<K(==)>(hs: seq<Heading>, key: Heading -> Option<K>, i: int)
    requires 0 <= i < |hs|
  {
    key(hs[i]).None? || forall j :: 0 <= j < i ==> key(hs[j]) != key(hs[i])
  }

  /** The entries kept by a "first occurrence per key" loop, in order:
      every entry without a key, and each keyed entry whose key no earlier
      entry has. */
  function FirstPer<K(==)>(hs: seq<Heading>, key: Heading -> Option<K>): (r: seq<Heading>)
    ensures |r| <= |hs|
  {
    if hs == [] then []
    else FirstPer(hs[..|hs| - 1], key) + (if KeptAt(hs, key, |hs| - 1) then [hs[|hs| - 1]] else [])
  }

  /** A keyed entry is kept exactly when its key is not among the keys
      seen before it. */
  lemma KeptAtIffUnseen<K>(hs: seq<Heading>, key: Heading -> Option<K>, i: int)
    requires 0 <= i < |hs|
    ensures KeptAt(hs, key, i) <==> key(hs[i]).None? || key(hs[i]).value !in KeysOf(hs[..i], key)
  {
    KeysOfMembers(hs[..i], key);
    if key(hs[i]).Some? && key(hs[i]).value in KeysOf(hs[..i], key) {
      var j :| 0 <= j < i && key(hs[..i][j]) == key(hs[i]);
      assert hs[..i][j] == hs[j];
    }
    if !KeptAt(hs, key, i) {
      var j :| 0 <= j < i && key(hs[j]) == key(hs[i]);
      assert hs[..i][j] == hs[j];
    }
  }

  /** One more entry: the loop keeps it exactly when its key is unseen, and
      adds its key to the seen ones. */
  lemma FirstPerStep<K>(hs: seq<Heading>, key: Heading -> Option<K>, k: int)
    requires 0 <= k < |hs|
    ensures var keep := key(hs[k]).None? || key(hs[k]).value !in KeysOf(hs[..k], key);
            FirstPer(hs[..k + 1], key) == FirstPer(hs[..k], key) + (if keep then [hs[k]] else [])
    ensures KeysOf(hs[..k + 1], key) ==
              KeysOf(hs[..k], key) + (if key(hs[k]).Some? then {key(hs[k]).value} else {})
  {
    var prefix := hs[..k + 1];
    assert prefix[..k] == hs[..k] && prefix[k] == hs[k];
    KeptAtIffUnseen(prefix, key, k);
  }

  /** The selection is an order-preserving subsequence of its input. */
  lemma {:induction false} FirstPerSubseq<K>(hs: seq<Heading>, key: Heading -> Option<K>)
    ensures IsSubseq(FirstPer(hs, key), hs)
  {
    if hs != [] {
      var init := hs[..|hs| - 1];
      var x := hs[|hs| - 1];
      FirstPerSubseq(init, key);
      assert init + [x] == hs;
      SubseqOfPrefix(FirstPer(init, key), init, x);
      if KeptAt(hs, key, |hs| - 1) {
        assert FirstPer(hs, key) == FirstPer(init, key) + [x];
      } else {
        assert FirstPer(hs, key) == FirstPer(init, key);
      }
    }
  }

  /** Every entry without a key is kept. */
  lemma {:induction false} FirstPerKeepsUnkeyed<K>(hs: seq<Heading>, key: Heading -> Option<K>)
    ensures forall i :: 0 <= i < |hs| && key(hs[i]).None? ==> hs[i] in FirstPer(hs, key)
  {
    if hs != [] {
      var init := hs[..|hs| - 1];
      FirstPerKeepsUnkeyed(init, key);
      assert forall i :: 0 <= i < |init| ==> init[i] == hs[i];
    }
  }

  /** No key is lost: the kept entries carry every key of the input. */
  lemma {:induction false} FirstPerKeys<K>(hs: seq<Heading>, key: Heading -> Option<K>)
    ensures KeysOf(FirstPer(hs, key), key) == KeysOf(hs, key)
  {
    if hs != [] {
      var n := |hs| - 1;
      var init := hs[..n];
      FirstPerKeys(init, key);
      var p := FirstPer(init, key);
      var r := FirstPer(hs, key);
      assert KeysOf(hs, key) == KeysOf(init, key) + (if key(hs[n]).Some? then {key(hs[n]).value} else {});
      if KeptAt(hs, key, n) {
        assert r == p + [hs[n]];
        assert r[..|r| - 1] == p && r[|r| - 1] == hs[n];
      } else {
        assert r == p;
        KeptAtIffUnseen(hs, key, n);
        assert hs[..n] == init;
      }
    }
  }

  /** No two entries carrying a key carry the same one. */
  ghost predicate KeyedDistinct<K>(r: seq<Heading>, key: Heading -> Option<K>) {
    forall i, j :: 0 <= i < j < |r| && key(r[i]).Some? ==> key(r[i]) != key(r[j])
  }

  /** No two kept entries share a key. */
  lemma {:induction false} FirstPerDistinct<K>(hs: seq<Heading>, key: Heading -> Option<K>)
    ensures KeyedDistinct(FirstPer(hs, key), key)
  {
    if hs != [] {
      var n := |hs| - 1;
      var init := hs[..n];
      FirstPerDistinct(init, key);
      var p := FirstPer(init, key);
      var r := FirstPer(hs, key);
      if !KeptAt(hs, key, n) {
        assert r == p;
      } else {
        assert r == p + [hs[n]];
        FirstPerSubseq(init, key);
        SubseqMembers(p, init);
        forall i, j | 0 <= i < j < |r| && key(r[i]).Some? ensures key(r[i]) != key(r[j]) {
          if j == |p| {
            assert r[i] == p[i] && p[i] in init && r[j] == hs[n];
            var m :| 0 <= m < n && init[m] == r[i];
            assert init[m] == hs[m];
            assert key(hs[m]) != key(hs[n]);
          } else {
            assert r[i] == p[i] && r[j] == p[j];
          }
        }
      }
    }
  }

  /** The first loop of `_dedupe_toc_headings`: the first heading of each
      (normalised title, page) key. */
  method DedupeByKey(headings: seq<Heading>) returns (deduped: seq<Heading>)
    ensures deduped == FirstPer(headings, TitleKey)
  {
    var seen: set<(string, int)> := {};
    deduped := [];
    for k := 0 to |headings|
      invariant deduped == FirstPer(headings[..k], TitleKey)
      invariant seen == KeysOf(headings[..k], TitleKey)
    {
      FirstPerStep(headings, TitleKey, k);
      var kk := Key(headings[k]);
      assert TitleKey(headings[k]) == Some(kk);
      if kk in seen {
        continue;
      }
      seen := seen + {kk};
      deduped := deduped + [headings[k]];
    }
    assert headings[..|headings|] == headings;
  }

  /** The second loop: the first heading of each chapter number, and every
      heading without one. */
  method KeepFirstPerNumber(deduped: seq<Heading>, chapterNumber: string -> Option<int>)
    returns (out: seq<Heading>)
    ensures out == FirstPer(deduped, NumberKey(chapterNumber))
  {
    var seenNumbers: set<int> := {};
    out := [];
    for k := 0 to |deduped|
      invariant out == FirstPer(deduped[..k], NumberKey(chapterNumber))
      invariant seenNumbers == KeysOf(deduped[..k], NumberKey(chapterNumber))
    {
      FirstPerStep(deduped, NumberKey(chapterNumber), k);
      var num := chapterNumber(deduped[k].0);
      assert NumberKey(chapterNumber)(deduped[k]) == num;
      if num.Some? {
        if num.value in seenNumbers {
          continue;
        }
        seenNumbers := seenNumbers + {num.value};
      }
      out := out + [deduped[k]];
    }
    assert deduped[..|deduped|] == deduped;
  }

  /** `_dedupe_toc_headings` as a function: the first heading per key, then,
      when at least three distinct chapter numbers remain, the first heading
      per chapter number. */
  function TocDeduped(headings: seq<Heading>, chapterNumber: string -> Option<int>): seq<Heading> {
    var deduped := FirstPer(headings, TitleKey);
    if |KeysOf(deduped, NumberKey(chapterNumber))| >= 3 then FirstPer(deduped, NumberKey(chapterNumber))
    else deduped
  }

  /** `_dedupe_toc_headings`. */
  method DedupeTocHeadings(headings: seq<Heading>, chapterNumber: string -> Option<int>)
    returns (out: seq<Heading>)
    ensures out == TocDeduped(headings, chapterNumber)
  {
    var deduped := DedupeByKey(headings);
    if |KeysOf(deduped, NumberKey(chapterNumber))| >= 3 {
      out := KeepFirstPerNumber(deduped, chapterNumber);
    } else {
      out := deduped;
    }
  }

  /** After the first loop no two headings share a (normalised title, page) key. */
  lemma FirstPerTitleKeysDistinct(headings: seq<Heading>)
    ensures DistinctKeys(FirstPer(headings, TitleKey), Key)
  {
    var deduped := FirstPer(headings, TitleKey);
    FirstPerDistinct(headings, TitleKey);
    forall i, j | 0 <= i < j < |deduped| ensures Key(deduped[i]) != Key(deduped[j]) {
      assert TitleKey(deduped[i]).Some? && TitleKey(deduped[i]) != TitleKey(deduped[j]);
    }
  }

  /** The deduplicated headings are an order-preserving selection with no
      repeated (normalised title, page) key. */
  lemma TocDedupedDistinct(headings: seq<Heading>, chapterNumber: string -> Option<int>)
    ensures var out := TocDeduped(headings, chapterNumber);
            IsSubseq(out, headings) && DistinctKeys(out, Key)
  {
    var deduped := FirstPer(headings, TitleKey);
    FirstPerSubseq(headings, TitleKey);
    FirstPerTitleKeysDistinct(headings);
    var out := TocDeduped(headings, chapterNumber);
    if out != deduped {
      FirstPerSubseq(deduped, NumberKey(chapterNumber));
      SubseqTrans(out, deduped, headings);
      SubseqKeepsDistinct(out, deduped, Key);
    }
  }

  /** When at least three chapter numbers occur after the first loop, the
      result repeats no number, loses no number, and keeps every heading
      without a number; otherwise it loses no (normalised title, page) key. */
  lemma TocDedupedNumbers(headings: seq<Heading>, chapterNumber: string -> Option<int>)
    ensures var deduped := FirstPer(headings, TitleKey);
            var out := TocDeduped(headings, chapterNumber);
            var nk := NumberKey(chapterNumber);
            |KeysOf(deduped, nk)| >= 3 ==>
              KeysOf(out, nk) == KeysOf(deduped, nk) &&
              KeyedDistinct(out, nk) &&
              (forall i :: 0 <= i < |deduped| && nk(deduped[i]).None? ==> deduped[i] in out)
    ensures var deduped := FirstPer(headings, TitleKey);
            |KeysOf(deduped, NumberKey(chapterNumber))| < 3 ==>
              KeysOf(TocDeduped(headings, chapterNumber), TitleKey) == KeysOf(headings, TitleKey)
  {
    var deduped := FirstPer(headings, TitleKey);
    var nk := NumberKey(chapterNumber);
    if |KeysOf(deduped, nk)| >= 3 {
      FirstPerKeys(deduped, nk);
      FirstPerDistinct(deduped, nk);
      FirstPerKeepsUnkeyed(deduped, nk);
    } else {
      FirstPerKeys(headings, TitleKey);
    }
  }

  /** No two entries share a key. */
  predicate DistinctKeys<K(==)>(hs: seq<Heading>, key: Heading -> K) {
    forall i, j :: 0 <= i < j < |hs| ==> key(hs[i]) != key(hs[j])
  }

  /** A subsequence of entries with distinct keys has distinct keys. */
  lemma {:induction false} SubseqKeepsDistinct<K>(a: seq<Heading>, b: seq<Heading>, key: Heading -> K)
    requires IsSubseq(a, b) && DistinctKeys(b, key)
    ensures DistinctKeys(a, key)
    decreases |b|
  {
    if a != [] {
      if a[0] == b[0] {
        SubseqKeepsDistinct(a[1..], b[1..], key);
        forall j | 0 < j < |a| ensures key(a[0]) != key(a[j]) {
          assert a[j] == a[1..][j - 1];
          SubseqMember(a[1..], b[1..], j - 1);
        }
      } else {
        SubseqKeepsDistinct(a, b[1..], key);
      }
    }
  }

  /** An element of a subsequence is an element of the sequence. */
  lemma {:induction false} SubseqMember<T>(a: seq<T>, b: seq<T>, i: int)
    requires IsSubseq(a, b) && 0 <= i < |a|
    ensures a[i] in b
    decreases |b|
  {
    if a[0] == b[0] {
      if i > 0 {
        SubseqMember(a[1..], b[1..], i - 1);
      }
    } else {
      SubseqMember(a, b[1..], i);
    }
  }

  // ---- spans between consecutive starts ----

  /** Where the span opened at `starts[i]` ends: the next start, or the end
      of the text after the last one. */
  function EndAt(starts: seq<(string, int)>, i: int, textLen: int): int
    requires 0 <= i < |starts|
  {
    if i + 1 < |starts| then starts[i + 1].1 else textLen
  }

  /** How many of the first `k` starts open a span of at least `minChars`. */
  function CountLong(starts: seq<(string, int)>, textLen: int, minChars: int, k: int): (n: nat)
    requires 0 <= k <= |starts|
    ensures n <= k
  {
    if k == 0 then 0
    else CountLong(starts, textLen, minChars, k - 1) +
         (if EndAt(starts, k - 1, textLen) - starts[k - 1].1 >= minChars then 1 else 0)
  }

  /** The starts strictly increase. */
  predicate StrictlyIncreasing(starts: seq<(string, int)>) {
    forall i, j :: 0 <= i < j < |starts| ==> starts[i].1 < starts[j].1
  }

  /** The starts never decrease. */
  predicate NonDecreasing(starts: seq<(string, int)>) {
    forall i, j :: 0 <= i < j < |starts| ==> starts[i].1 <= starts[j].1
  }

  /** Every start lies inside the text. */
  predicate StartsWithin(starts: seq<(string, int)>, textLen: int) {
    forall i :: 0 <= i < |starts| ==> 0 <= starts[i].1 <= textLen
  }

  /** `"Section " + str(i)`. */
  function SectionTitle(i: int): string {
    "Section " + IntToString(i)
  }

  /** The spans the shared segmentation loop has cut from the first `k`
      starts: start `i` opens a span up to `EndAt(starts, i, textLen)`,
      kept when it is at least `minChars` long and numbered after the spans
      kept before it. */
  function CutUpTo(starts: seq<(string, int)>, textLen: int, minChars: int, sectionTitles: bool, k: int)
    : (ss: seq<Span>)
    requires 0 <= k <= |starts|
    ensures |ss| == CountLong(starts, textLen, minChars, k)
  {
    if k == 0 then []
    else
      var prev := CutUpTo(starts, textLen, minChars, sectionTitles, k - 1);
      var end := EndAt(starts, k - 1, textLen);
      if end - starts[k - 1].1 >= minChars then
        var t := if sectionTitles then SectionTitle(|prev| + 1) else starts[k - 1].0;
        prev + [Span(|prev| + 1, t, starts[k - 1].1, end)]
      else prev
  }

  /** The spans the shared segmentation loop cuts from all the starts. */
  function Segmented(starts: seq<(string, int)>, textLen: int, minChars: int, sectionTitles: bool): seq<Span> {
    CutUpTo(starts, textLen, minChars, sectionTitles, |starts|)
  }

  /** The loop shared by `_build_spans_from_headings`, the heading path of
      `chapterize` and `_fallback_page_splits`: each start opens a span up
      to the next start (or the end of the text), spans shorter than
      `minChars` are skipped, and the rest are numbered 1, 2, ... and
      titled by their start or, with `sectionTitles`, "Section <index>". */
  method Segment(starts: seq<(string, int)>, textLen: int, minChars: int, sectionTitles: bool)
    returns (spans: seq<Span>)
    ensures spans == Segmented(starts, textLen, minChars, sectionTitles)
    ensures Indexed(spans) && AllLong(spans, minChars)
    ensures |spans| == CountLong(starts, textLen, minChars, |starts|)
    ensures forall j :: 0 <= j < |spans| ==> Origin(spans[j], starts, textLen, sectionTitles)
    ensures sectionTitles ==> forall j :: 0 <= j < |spans| ==> spans[j].title == SectionTitle(j + 1)
    ensures NonDecreasing(starts) ==> Disjoint(spans)
    ensures StrictlyIncreasing(starts) ==> IncreasingStarts(spans)
    ensures NonDecreasing(starts) && StartsWithin(starts, textLen) ==> InBounds(spans, textLen)
  {
    ghost var from;
    spans, from := SegmentLoop(starts, textLen, minChars, sectionTitles);
    SegmentShape(spans, starts, from, textLen, sectionTitles);
  }

  /** The loop of `Segment`, with the position in `starts` each span was
      cut at. */
  method SegmentLoop(starts: seq<(string, int)>, textLen: int, minChars: int, sectionTitles: bool)
    returns (spans: seq<Span>, ghost from: seq<int>)
    ensures spans == Segmented(starts, textLen, minChars, sectionTitles)
    ensures |from| == |spans| == CountLong(starts, textLen, minChars, |starts|)
    ensures forall j :: 0 <= j < |spans| ==>
              0 <= from[j] < |starts| && spans[j].start == starts[from[j]].1 &&
              spans[j].end == EndAt(starts, from[j], textLen) &&
              (!sectionTitles ==> spans[j].title == starts[from[j]].0)
    ensures forall a, b :: 0 <= a < b < |from| ==> from[a] < from[b]
    ensures Indexed(spans) && AllLong(spans, minChars)
    ensures sectionTitles ==> forall j :: 0 <= j < |spans| ==> spans[j].title == SectionTitle(j + 1)
  {
    spans := [];
    from := [];
    for i := 0 to |starts|
      invariant spans == CutUpTo(starts, textLen, minChars, sectionTitles, i)
      invariant |spans| == CountLong(starts, textLen, minChars, i)
      invariant CutSoFar(spans, from, starts, textLen, minChars, sectionTitles, i)
    {
      var title := starts[i].0;
      var start := starts[i].1;
      var end := if i + 1 < |starts| then starts[i + 1].1 else textLen;
      assert end == EndAt(starts, i, textLen);
      if end - start >= minChars {
        var t := if sectionTitles then SectionTitle(|spans| + 1) else title;
        CutAppend(spans, from, starts, textLen, minChars, sectionTitles, i);
        spans := spans + [Span(|spans| + 1, t, start, end)];
        from := from + [i];
      } else {
        CutSkip(spans, from, starts, textLen, minChars, sectionTitles, i);
      }
    }
  }

  /** What the loop has cut from the first `i` starts: each span opens at
      the start it was cut at and ends at the next, the positions increase,
      the spans are numbered from 1, long enough, and titled. */
  ghost predicate CutSoFar(spans: seq<Span>, from: seq<int>, starts: seq<(string, int)>, textLen: int,
                           minChars: int, sectionTitles: bool, i: int)
  {
    |from| == |spans| &&
    (forall j :: 0 <= j < |spans| ==>
       0 <= from[j] < |starts| && from[j] < i && spans[j].start == starts[from[j]].1 &&
       spans[j].end == EndAt(starts, from[j], textLen) &&
       (!sectionTitles ==> spans[j].title == starts[from[j]].0)) &&
    (forall a, b :: 0 <= a < b < |from| ==> from[a] < from[b]) &&
    Indexed(spans) && AllLong(spans, minChars) &&
    (sectionTitles ==> forall j :: 0 <= j < |spans| ==> spans[j].title == SectionTitle(j + 1))
  }

  lemma CutAppend(spans: seq<Span>, from: seq<int>, starts: seq<(string, int)>, textLen: int,
                  minChars: int, sectionTitles: bool, i: int)
    requires 0 <= i < |starts| && CutSoFar(spans, from, starts, textLen, minChars, sectionTitles, i)
    requires EndAt(starts, i, textLen) - starts[i].1 >= minChars
    ensures var t := if sectionTitles then SectionTitle(|spans| + 1) else starts[i].0;
            CutSoFar(spans + [Span(|spans| + 1, t, starts[i].1, EndAt(starts, i, textLen))], from + [i],
                     starts, textLen, minChars, sectionTitles, i + 1)
  {
    var t := if sectionTitles then SectionTitle(|spans| + 1) else starts[i].0;
    var spans' := spans + [Span(|spans| + 1, t, starts[i].1, EndAt(starts, i, textLen))];
    var from' := from + [i];
    forall j | 0 <= j < |spans'|
      ensures 0 <= from'[j] < |starts| && from'[j] < i + 1 && spans'[j].start == starts[from'[j]].1
      ensures spans'[j].end == EndAt(starts, from'[j], textLen)
      ensures !sectionTitles ==> spans'[j].title == starts[from'[j]].0
      ensures spans'[j].index == j + 1 && Len(spans'[j]) >= minChars
      ensures sectionTitles ==> spans'[j].title == SectionTitle(j + 1)
    {
      if j < |spans| {
        assert spans'[j] == spans[j] && from'[j] == from[j];
      }
    }
    forall a, b | 0 <= a < b < |from'|
      ensures from'[a] < from'[b]
    {
      assert from'[a] == from[a];
      if b < |from| {
        assert from'[b] == from[b];
      }
    }
  }

  lemma CutSkip(spans: seq<Span>, from: seq<int>, starts: seq<(string, int)>, textLen: int,
                minChars: int, sectionTitles: bool, i: int)
    requires CutSoFar(spans, from, starts, textLen, minChars, sectionTitles, i)
    ensures CutSoFar(spans, from, starts, textLen, minChars, sectionTitles, i + 1)
  {
  }

  /** The span runs from some start to the next one (or the end of the
      text), and without `sectionTitles` carries that start's title. */
  ghost predicate Origin(sp: Span, starts: seq<(string, int)>, textLen: int, sectionTitles: bool) {
    exists i :: 0 <= i < |starts| && sp.start == starts[i].1 && sp.end == EndAt(starts, i, textLen) &&
                (!sectionTitles ==> sp.title == starts[i].0)
  }

  /** Each span cut at position `from[j]` of `starts` comes from some
      start. */
  lemma SegmentOrigins(spans: seq<Span>, starts: seq<(string, int)>, from: seq<int>, textLen: int, sectionTitles: bool)
    requires |from| == |spans|
    requires forall j :: 0 <= j < |spans| ==>
               0 <= from[j] < |starts| && spans[j].start == starts[from[j]].1 &&
               spans[j].end == EndAt(starts, from[j], textLen) &&
               (!sectionTitles ==> spans[j].title == starts[from[j]].0)
    ensures forall j :: 0 <= j < |spans| ==> Origin(spans[j], starts, textLen, sectionTitles)
  {
    forall j | 0 <= j < |spans|
      ensures Origin(spans[j], starts, textLen, sectionTitles)
    {
      var i := from[j];
      assert 0 <= i < |starts| && spans[j].start == starts[i].1;
    }
  }

  /** Spans cut at increasing positions of `starts` inherit its order and
      bounds. */
  lemma SegmentShape(spans: seq<Span>, starts: seq<(string, int)>, from: seq<int>, textLen: int, sectionTitles: bool)
    requires |from| == |spans|
    requires forall j :: 0 <= j < |spans| ==>
               0 <= from[j] < |starts| && spans[j].start == starts[from[j]].1 &&
               spans[j].end == EndAt(starts, from[j], textLen) &&
               (!sectionTitles ==> spans[j].title == starts[from[j]].0)
    requires forall a, b :: 0 <= a < b < |from| ==> from[a] < from[b]
    ensures forall j :: 0 <= j < |spans| ==> Origin(spans[j], starts, textLen, sectionTitles)
    ensures NonDecreasing(starts) ==> Disjoint(spans)
    ensures StrictlyIncreasing(starts) ==> IncreasingStarts(spans)
    ensures NonDecreasing(starts) && StartsWithin(starts, textLen) ==> InBounds(spans, textLen)
  {
    SegmentOrigins(spans, starts, from, textLen, sectionTitles);
    if NonDecreasing(starts) {
      forall a, b | 0 <= a < b < |spans| ensures spans[a].end <= spans[b].start {
        assert from[a] + 1 <= from[b];
      }
      if StartsWithin(starts, textLen) {
        forall j | 0 <= j < |spans| ensures 0 <= spans[j].start <= spans[j].end <= textLen {
          if from[j] + 1 < |starts| {
            assert starts[from[j]].1 <= starts[from[j] + 1].1;
          }
        }
      }
    }
    if StrictlyIncreasing(starts) {
      forall a, b | 0 <= a < b < |spans| ensures spans[a].start < spans[b].start {
        assert from[a] < from[b];
      }
    }
  }

  /** Every heading's page lies inside the document. */
  predicate PagesWithin(hs: seq<Heading>, pageCount: int) {
    forall i :: 0 <= i < |hs| ==> 1 <= hs[i].1 <= pageCount
  }

  /** The starts the first loop of `_build_spans_from_headings` keeps: a
      heading's page start offset is kept, with its title, when it exceeds
      the last offset kept before it. */
  function KeptStarts(hs: seq<Heading>, pageOffsets: seq<int>): (st: seq<(string, int)>)
    requires PagesWithin(hs, |pageOffsets|)
    ensures |st| <= |hs|
  {
    if hs == [] then []
    else
      var prev := KeptStarts(hs[..|hs| - 1], pageOffsets);
      var h := hs[|hs| - 1];
      var start := pageOffsets[h.1 - 1];
      if start <= LastStart(prev) then prev else prev + [(h.0, start)]
  }

  /** The kept starts strictly increase; each is a heading's title and page
      offset; and no heading's offset exceeds the last kept start, so a
      heading is dropped only when an earlier one reached its offset. */
  lemma {:induction false} KeptStartsShape(hs: seq<Heading>, pageOffsets: seq<int>)
    requires PagesWithin(hs, |pageOffsets|)
    ensures var st := KeptStarts(hs, pageOffsets);
            StrictlyIncreasing(st) &&
            (forall s :: s in st ==> exists h :: h in hs && s == (h.0, pageOffsets[h.1 - 1])) &&
            (forall i :: 0 <= i < |hs| ==> pageOffsets[hs[i].1 - 1] <= LastStart(st))
  {
    if hs != [] {
      var init := hs[..|hs| - 1];
      KeptStartsShape(init, pageOffsets);
      assert forall i :: 0 <= i < |init| ==> init[i] == hs[i];
      var prev := KeptStarts(init, pageOffsets);
      var st := KeptStarts(hs, pageOffsets);
      var h := hs[|hs| - 1];
      if pageOffsets[h.1 - 1] > LastStart(prev) {
        forall s | s in st ensures exists g :: g in hs && s == (g.0, pageOffsets[g.1 - 1]) {
          if s in prev {
            var g :| g in init && s == (g.0, pageOffsets[g.1 - 1]);
            assert g in hs;
          } else {
            assert h in hs;
          }
        }
      } else {
        forall s | s in st ensures exists g :: g in hs && s == (g.0, pageOffsets[g.1 - 1]) {
          var g :| g in init && s == (g.0, pageOffsets[g.1 - 1]);
          assert g in hs;
        }
      }
    }
  }

  /** The first loop of `_build_spans_from_headings`. */
  method StrictStarts(headings: seq<Heading>, pageOffsets: seq<int>) returns (starts: seq<(string, int)>)
    requires forall h :: h in headings ==> 1 <= h.1 <= |pageOffsets|
    ensures PagesWithin(headings, |pageOffsets|) && starts == KeptStarts(headings, pageOffsets)
    ensures StrictlyIncreasing(starts)
    ensures forall s :: s in starts ==> exists h :: h in headings && s == (h.0, pageOffsets[h.1 - 1])
    ensures forall h :: h in headings ==> pageOffsets[h.1 - 1] <= LastStart(starts)
    ensures forall s :: s in starts ==> s.1 in pageOffsets
  {
    PagesWithinAll(headings, |pageOffsets|);
    starts := [];
    var lastStart := -1;
    ghost var done: seq<Heading> := [];
    for k := 0 to |headings|
      invariant done == headings[..k]
      invariant PagesWithin(done, |pageOffsets|) && starts == KeptStarts(done, pageOffsets)
      invariant lastStart == LastStart(starts)
    {
      var h := headings[k];
      PagesWithinAppend(done, h, |pageOffsets|);
      KeptStartsLast(done + [h], pageOffsets, done, h);
      TakeOneMore(headings, k);
      done := done + [h];
      var start := pageOffsets[h.1 - 1];
      if start > lastStart {
        starts := starts + [(h.0, start)];
        lastStart := start;
      }
    }
    assert done == headings;
    KeptStartsFacts(headings, pageOffsets);
  }

  /** A heading whose page is in range extends a list whose pages are. */
  lemma PagesWithinAppend(hs: seq<Heading>, h: Heading, pageCount: int)
    requires PagesWithin(hs, pageCount) && 1 <= h.1 <= pageCount
    ensures PagesWithin(hs + [h], pageCount)
  {
    forall i | 0 <= i < |hs| + 1 ensures 1 <= (hs + [h])[i].1 <= pageCount {
      if i < |hs| {
        assert (hs + [h])[i] == hs[i];
      }
    }
  }

  /** `KeptStarts` on a list split into its initial part and last heading. */
  lemma KeptStartsLast(hs: seq<Heading>, pageOffsets: seq<int>, init: seq<Heading>, last: Heading)
    requires PagesWithin(hs, |pageOffsets|) && PagesWithin(init, |pageOffsets|)
    requires hs == init + [last]
    ensures 1 <= last.1 <= |pageOffsets|
    ensures KeptStarts(hs, pageOffsets) ==
            var start := pageOffsets[last.1 - 1];
            var prev := KeptStarts(init, pageOffsets);
            if start <= LastStart(prev) then prev else prev + [(last.0, start)]
  {
    assert hs[|hs| - 1] == last;
    assert hs[..|hs| - 1] == init;
  }

  /** A heading list whose every page is in range. */
  lemma PagesWithinAll(hs: seq<Heading>, pageCount: int)
    requires forall h :: h in hs ==> 1 <= h.1 <= pageCount
    ensures PagesWithin(hs, pageCount)
  {
    forall i | 0 <= i < |hs| ensures 1 <= hs[i].1 <= pageCount {
      assert hs[i] in hs;
    }
  }

  /** The facts about the kept starts in the form the loop's callers use. */
  lemma KeptStartsFacts(hs: seq<Heading>, pageOffsets: seq<int>)
    requires forall h :: h in hs ==> 1 <= h.1 <= |pageOffsets|
    ensures PagesWithin(hs, |pageOffsets|)
    ensures StrictlyIncreasing(KeptStarts(hs, pageOffsets))
    ensures forall s :: s in KeptStarts(hs, pageOffsets) ==> exists h :: h in hs && s == (h.0, pageOffsets[h.1 - 1])
    ensures forall h :: h in hs ==> pageOffsets[h.1 - 1] <= LastStart(KeptStarts(hs, pageOffsets))
    ensures forall s :: s in KeptStarts(hs, pageOffsets) ==> s.1 in pageOffsets
  {
    PagesWithinAll(hs, |pageOffsets|);
    var starts := KeptStarts(hs, pageOffsets);
    KeptStartsShape(hs, pageOffsets);
    forall h | h in hs ensures pageOffsets[h.1 - 1] <= LastStart(starts) {
      var i :| 0 <= i < |hs| && hs[i] == h;
    }
    forall s | s in starts ensures s.1 in pageOffsets {
      var h :| h in hs && s == (h.0, pageOffsets[h.1 - 1]);
    }
  }

  /** The last kept start, or -1 before any. */
  function LastStart(starts: seq<(string, int)>): int {
    if starts == [] then -1 else starts[|starts| - 1].1
  }

  /** `_build_spans_from_headings` as a function: nothing unless two starts
      are kept, else the kept starts segmented with their titles. */
  function HeadingSpans(textLen: int, hs: seq<Heading>, pageOffsets: seq<int>, minChars: int): seq<Span>
    requires PagesWithin(hs, |pageOffsets|)
  {
    var starts := KeptStarts(hs, pageOffsets);
    if |starts| < 2 then [] else Segmented(starts, textLen, minChars, false)
  }

  /** `_build_spans_from_headings`: nothing unless two strictly increasing
      starts remain; otherwise numbered spans from heading titles, with
      strictly increasing starts, each running from a kept start to the
      next kept start (or the end of the text), none shorter than
      `minChars`, and inside the text when the page offsets are. */
  method BuildSpansFromHeadings(textLen: int, headings: seq<Heading>, pageOffsets: seq<int>, minChars: int)
    returns (spans: seq<Span>)
    requires forall h :: h in headings ==> 1 <= h.1 <= |pageOffsets|
    ensures PagesWithin(headings, |pageOffsets|) && spans == HeadingSpans(textLen, headings, pageOffsets, minChars)
    ensures PagesWithin(headings, |pageOffsets|) &&
            forall j :: 0 <= j < |spans| ==> Origin(spans[j], KeptStarts(headings, pageOffsets), textLen, false)
    ensures Indexed(spans) && AllLong(spans, minChars)
    ensures IncreasingStarts(spans) && Disjoint(spans)
    ensures forall j :: 0 <= j < |spans| ==> OpensAtHeading(spans[j], headings, pageOffsets)
    ensures forall j :: 0 <= j < |spans| ==> ClosesAtHeading(spans[j], headings, pageOffsets, textLen)
    ensures (forall o :: o in pageOffsets ==> 0 <= o <= textLen) ==> InBounds(spans, textLen)
    ensures (forall h1, h2 :: h1 in headings && h2 in headings ==> pageOffsets[h1.1 - 1] == pageOffsets[h2.1 - 1]) ==>
              spans == []
  {
    var starts := StrictStarts(headings, pageOffsets);
    if |starts| < 2 {
      return [];
    }
    spans := Segment(starts, textLen, minChars, false);
    HeadingSpansFacts(spans, starts, headings, pageOffsets, textLen, minChars);
  }

  /** What the headings' spans inherit from their starts: each opens at a
      heading and closes at one or at the end of the text, they lie inside
      the text when the offsets do, and two starts need two distinct
      heading offsets. */
  lemma HeadingSpansFacts(spans: seq<Span>, starts: seq<(string, int)>, headings: seq<Heading>,
                          pageOffsets: seq<int>, textLen: int, minChars: int)
    requires forall h :: h in headings ==> 1 <= h.1 <= |pageOffsets|
    requires StrictlyIncreasing(starts) && |starts| >= 2
    requires forall s :: s in starts ==> exists h :: h in headings && s == (h.0, pageOffsets[h.1 - 1])
    requires forall s :: s in starts ==> s.1 in pageOffsets
    requires forall j :: 0 <= j < |spans| ==> Origin(spans[j], starts, textLen, false)
    requires NonDecreasing(starts) && StartsWithin(starts, textLen) ==> InBounds(spans, textLen)
    ensures forall j :: 0 <= j < |spans| ==> OpensAtHeading(spans[j], headings, pageOffsets)
    ensures forall j :: 0 <= j < |spans| ==> ClosesAtHeading(spans[j], headings, pageOffsets, textLen)
    ensures (forall o :: o in pageOffsets ==> 0 <= o <= textLen) ==> InBounds(spans, textLen)
    ensures !(forall h1, h2 :: h1 in headings && h2 in headings ==> pageOffsets[h1.1 - 1] == pageOffsets[h2.1 - 1])
  {
    var h0, h1 := TwoStartsTwoOffsets(starts, headings, pageOffsets);
    HeadingOrigins(spans, starts, headings, pageOffsets, textLen);
    if forall o :: o in pageOffsets ==> 0 <= o <= textLen {
      StartsInside(starts, pageOffsets, textLen);
    }
  }

  /** The span carries a heading's title and opens at its page offset. */
  ghost predicate OpensAtHeading(sp: Span, headings: seq<Heading>, pageOffsets: seq<int>) {
    exists h :: h in headings && 1 <= h.1 <= |pageOffsets| && sp.title == h.0 && sp.start == pageOffsets[h.1 - 1]
  }

  /** The span ends at a heading's page offset or at the end of the text. */
  ghost predicate ClosesAtHeading(sp: Span, headings: seq<Heading>, pageOffsets: seq<int>, textLen: int) {
    sp.end == textLen || exists h :: h in headings && 1 <= h.1 <= |pageOffsets| && sp.end == pageOffsets[h.1 - 1]
  }

  /** Each span runs from a heading's page offset, carries its title, and
      ends at another heading's offset or at the end of the text. */
  lemma HeadingOrigins(spans: seq<Span>, starts: seq<(string, int)>, headings: seq<Heading>,
                       pageOffsets: seq<int>, textLen: int)
    requires forall h :: h in headings ==> 1 <= h.1 <= |pageOffsets|
    requires forall s :: s in starts ==> exists h :: h in headings && s == (h.0, pageOffsets[h.1 - 1])
    requires forall j :: 0 <= j < |spans| ==> Origin(spans[j], starts, textLen, false)
    ensures forall j :: 0 <= j < |spans| ==> OpensAtHeading(spans[j], headings, pageOffsets)
    ensures forall j :: 0 <= j < |spans| ==> ClosesAtHeading(spans[j], headings, pageOffsets, textLen)
  {
    forall j | 0 <= j < |spans|
      ensures OpensAtHeading(spans[j], headings, pageOffsets) &&
              ClosesAtHeading(spans[j], headings, pageOffsets, textLen)
    {
      assert Origin(spans[j], starts, textLen, false);
      var i :| 0 <= i < |starts| && spans[j].start == starts[i].1 && spans[j].end == EndAt(starts, i, textLen) &&
               spans[j].title == starts[i].0;
      assert starts[i] in starts;
      if i + 1 < |starts| {
        assert starts[i + 1] in starts;
      }
    }
  }

  /** Strictly increasing starts taken from offsets inside the text never
      decrease and lie inside the text. */
  lemma StartsInside(starts: seq<(string, int)>, pageOffsets: seq<int>, textLen: int)
    requires StrictlyIncreasing(starts)
    requires forall s :: s in starts ==> s.1 in pageOffsets
    requires forall o :: o in pageOffsets ==> 0 <= o <= textLen
    ensures NonDecreasing(starts) && StartsWithin(starts, textLen)
  {
    forall i | 0 <= i < |starts| ensures 0 <= starts[i].1 <= textLen {
      assert starts[i] in starts;
    }
  }

  /** Two kept starts come from headings on different offsets. */
  lemma TwoStartsTwoOffsets(starts: seq<(string, int)>, headings: seq<Heading>, pageOffsets: seq<int>)
    returns (h0: Heading, h1: Heading)
    requires forall h :: h in headings ==> 1 <= h.1 <= |pageOffsets|
    requires StrictlyIncreasing(starts) && |starts| >= 2
    requires forall s :: s in starts ==> exists h :: h in headings && s == (h.0, pageOffsets[h.1 - 1])
    ensures h0 in headings && h1 in headings && pageOffsets[h0.1 - 1] != pageOffsets[h1.1 - 1]
  {
    assert starts[0] in starts && starts[1] in starts;
    h0 :| h0 in headings && starts[0] == (h0.0, pageOffsets[h0.1 - 1]);
    h1 :| h1 in headings && starts[1] == (h1.0, pageOffsets[h1.1 - 1]);
  }

  // ---- the table-of-contents page path ----

  /** `_toc_span_score`: coverage first, then the span count, then the
      shallower level. */
  datatype Score = Score(coverage: real, count: int, negLevel: int)

  function TocSpanScore(spans: seq<Span>, textLen: int, level: int): (sc: Score)
    ensures sc.count == |spans| && sc.negLevel == -level
    ensures sc.coverage >= 0.0
    ensures sc.coverage >= 0.5 <==> HalfCovered(Covered(spans), textLen)
  {
    var covered := Covered(spans);
    var coverage := if textLen > 0 then covered as real / textLen as real else 0.0;
    if textLen > 0 then
      HalfRatio(covered, textLen);
      Score(coverage, |spans|, -level)
    else Score(coverage, |spans|, -level)
  }

  /** `c / t >= 0.5` in floating point is `2 * c >= t` on integers. */
  lemma HalfRatio(c: nat, t: int)
    requires t > 0
    ensures c as real / t as real >= 0.0
    ensures c as real / t as real >= 0.5 <==> 2 * c >= t
  {
    var r := c as real / t as real;
    assert r * t as real == c as real;
    if r >= 0.5 {
      assert r * t as real >= 0.5 * t as real;
    } else {
      assert r * t as real < 0.5 * t as real;
    }
  }

  /** Tuple comparison of two scores: `a > b`. */
  predicate ScoreGreater(a: Score, b: Score) {
    a.coverage > b.coverage ||
    (a.coverage == b.coverage && (a.count > b.count || (a.count == b.count && a.negLevel > b.negLevel)))
  }

  /** A table-of-contents entry: level, title, physical page. */
  type TocEntry = (int, string, int)

  /** The entries with a non-blank title and a page inside the document,
      titles stripped, in entry order. */
  function ValidOf(entries: seq<TocEntry>, pageCount: int): (r: seq<TocEntry>)
    ensures forall i :: 0 <= i < |r| ==> 1 <= r[i].2 <= pageCount && r[i].1 != []
  {
    if entries == [] then []
    else
      var prev := ValidOf(entries[..|entries| - 1], pageCount);
      var (lvl, title, page) := entries[|entries| - 1];
      if title == [] || Strip(title) == [] || page < 1 || page > pageCount then prev
      else prev + [(lvl, Strip(title), page)]
  }

  /** Exactly the stripped usable entries are valid. */
  lemma {:induction false} ValidOfMembers(entries: seq<TocEntry>, pageCount: int)
    ensures forall e :: e in ValidOf(entries, pageCount) ==>
              exists f :: f in entries && e == (f.0, Strip(f.1), f.2)
    ensures forall f :: f in entries && Strip(f.1) != [] && 1 <= f.2 <= pageCount ==>
              (f.0, Strip(f.1), f.2) in ValidOf(entries, pageCount)
  {
    if entries != [] {
      var init := entries[..|entries| - 1];
      ValidOfMembers(init, pageCount);
      assert entries == init + [entries[|entries| - 1]];
      forall e | e in ValidOf(entries, pageCount) ensures exists f :: f in entries && e == (f.0, Strip(f.1), f.2) {
        if e in ValidOf(init, pageCount) {
          var f :| f in init && e == (f.0, Strip(f.1), f.2);
          assert f in entries;
        } else {
          assert entries[|entries| - 1] in entries;
        }
      }
    }
  }

  /** The first loop of `_spans_from_toc_pages`. */
  method ValidEntries(entries: seq<TocEntry>, pageCount: int) returns (valid: seq<TocEntry>)
    ensures valid == ValidOf(entries, pageCount)
  {
    valid := [];
    for k := 0 to |entries|
      invariant valid == ValidOf(entries[..k], pageCount)
    {
      var (lvl, title, page) := entries[k];
      assert entries[..k + 1][..k] == entries[..k] && entries[..k + 1][k] == entries[k];
      if title == [] || Strip(title) == [] {
        continue;
      }
      if page < 1 || page > pageCount {
        continue;
      }
      valid := valid + [(lvl, Strip(title), page)];
    }
    assert entries[..|entries|] == entries;
  }

  /** The distinct levels, in first-occurrence order. */
  function LevelsOf(valid: seq<TocEntry>): (levels: seq<int>)
    ensures forall i, j :: 0 <= i < j < |levels| ==> levels[i] != levels[j]
  {
    if valid == [] then []
    else
      var prev := LevelsOf(valid[..|valid| - 1]);
      if valid[|valid| - 1].0 in prev then prev else prev + [valid[|valid| - 1].0]
  }

  /** A level is listed exactly when some entry has it. */
  lemma {:induction false} LevelsOfMembers(valid: seq<TocEntry>)
    ensures forall l :: l in LevelsOf(valid) <==> exists e :: e in valid && e.0 == l
  {
    if valid != [] {
      var init := valid[..|valid| - 1];
      LevelsOfMembers(init);
      assert valid == init + [valid[|valid| - 1]];
      forall l ensures l in LevelsOf(valid) <==> exists e :: e in valid && e.0 == l {
        if exists e :: e in valid && e.0 == l {
          var e :| e in valid && e.0 == l;
          if e in init {
            assert l in LevelsOf(init);
          }
        }
        if l in LevelsOf(init) {
          var e :| e in init && e.0 == l;
          assert e in valid;
        }
      }
    }
  }

  /** `{lvl for (lvl, _, _) in valid}` before sorting: the distinct levels. */
  method DistinctLevels(valid: seq<TocEntry>) returns (levels: seq<int>)
    ensures levels == LevelsOf(valid)
  {
    levels := [];
    for k := 0 to |valid|
      invariant levels == LevelsOf(valid[..k])
    {
      assert valid[..k + 1][..k] == valid[..k] && valid[..k + 1][k] == valid[k];
      if valid[k].0 !in levels {
        levels := levels + [valid[k].0];
      }
    }
    assert valid[..|valid|] == valid;
  }

  /** The (title, page) pairs of one level, in entry order. */
  function OfLevel(valid: seq<TocEntry>, level: int): (hs: seq<Heading>)
    ensures |hs| <= |valid|
  {
    if valid == [] then []
    else
      var prev := OfLevel(valid[..|valid| - 1], level);
      var e := valid[|valid| - 1];
      if e.0 == level then prev + [(e.1, e.2)] else prev
  }

  /** Exactly the pairs of the entries at `level` are selected. */
  lemma {:induction false} OfLevelMembers(valid: seq<TocEntry>, level: int)
    ensures forall h :: h in OfLevel(valid, level) <==> (level, h.0, h.1) in valid
  {
    if valid != [] {
      var init := valid[..|valid| - 1];
      OfLevelMembers(init, level);
      assert valid == init + [valid[|valid| - 1]];
    }
  }

  /** `[(title, page) for (lvl, title, page) in valid if lvl == level]`. */
  method LevelHeadings(valid: seq<TocEntry>, level: int) returns (headings: seq<Heading>)
    ensures headings == OfLevel(valid, level)
  {
    headings := [];
    for k := 0 to |valid|
      invariant headings == OfLevel(valid[..k], level)
    {
      assert valid[..k + 1][..k] == valid[..k] && valid[..k + 1][k] == valid[k];
      if valid[k].0 == level {
        headings := headings + [(valid[k].1, valid[k].2)];
      }
    }
    assert valid[..|valid|] == valid;
  }

  function ByLevel(l: int): (int, int) {
    (l, 0)
  }

  function ByPage(h: Heading): (int, int) {
    (h.1, 0)
  }

  /** A segmentation the page path may return: at least two numbered,
      disjoint spans with increasing starts, none shorter than `minChars`,
      starting at page offsets. */
  predicate PlausibleSpans(spans: seq<Span>, pageOffsets: seq<int>, minChars: int) {
    |spans| >= 2 && Indexed(spans) && AllLong(spans, minChars) &&
    IncreasingStarts(spans) && Disjoint(spans) &&
    forall j :: 0 <= j < |spans| ==> spans[j].start in pageOffsets
  }

  /** The headings of one level, sorted by page, keep their pages inside
      the document. */
  lemma SortedLevelPagesWithin(valid: seq<TocEntry>, level: int, pageCount: int)
    requires forall i :: 0 <= i < |valid| ==> 1 <= valid[i].2 <= pageCount
    ensures PagesWithin(SortBy(OfLevel(valid, level), ByPage), pageCount)
  {
    var hs := OfLevel(valid, level);
    var sorted := SortBy(hs, ByPage);
    OfLevelMembers(valid, level);
    forall i | 0 <= i < |sorted| ensures 1 <= sorted[i].1 <= pageCount {
      var h := sorted[i];
      assert h in multiset(sorted);
      assert h in hs;
      var j :| 0 <= j < |valid| && valid[j] == (level, h.0, h.1);
    }
  }

  /** A subsequence keeps the pages inside the document. */
  lemma SubseqPagesWithin(a: seq<Heading>, b: seq<Heading>, pageCount: int)
    requires IsSubseq(a, b) && PagesWithin(b, pageCount)
    ensures PagesWithin(a, pageCount)
  {
    forall i | 0 <= i < |a| ensures 1 <= a[i].1 <= pageCount {
      SubseqMember(a, b, i);
    }
  }

  /** The headings of one level, sorted by page and deduplicated, keep
      their pages inside the document. */
  lemma LevelPagesWithin(valid: seq<TocEntry>, level: int, pageCount: int, chapterNumber: string -> Option<int>)
    requires forall i :: 0 <= i < |valid| ==> 1 <= valid[i].2 <= pageCount
    ensures PagesWithin(TocDeduped(SortBy(OfLevel(valid, level), ByPage), chapterNumber), pageCount)
  {
    var sorted := SortBy(OfLevel(valid, level), ByPage);
    SortedLevelPagesWithin(valid, level, pageCount);
    TocDedupedDistinct(sorted, chapterNumber);
    SubseqPagesWithin(TocDeduped(sorted, chapterNumber), sorted, pageCount);
  }

  /** The spans one outline level yields: its headings sorted by page,
      deduplicated and built into spans. */
  function LevelCandidate(textLen: int, valid: seq<TocEntry>, level: int, pageOffsets: seq<int>, minChars: int,
                          chapterNumber: string -> Option<int>): seq<Span>
    requires forall i :: 0 <= i < |valid| ==> 1 <= valid[i].2 <= |pageOffsets|
  {
    LevelPagesWithin(valid, level, |pageOffsets|, chapterNumber);
    HeadingSpans(textLen, TocDeduped(SortBy(OfLevel(valid, level), ByPage), chapterNumber), pageOffsets, minChars)
  }

  /** The span list each level yields. */
  function LevelCandidates(textLen: int, valid: seq<TocEntry>, pageOffsets: seq<int>, minChars: int,
                           chapterNumber: string -> Option<int>): int -> seq<Span>
    requires forall i :: 0 <= i < |valid| ==> 1 <= valid[i].2 <= |pageOffsets|
  {
    (l: int) => LevelCandidate(textLen, valid, l, pageOffsets, minChars, chapterNumber)
  }

  /** The scored candidates of the given levels, in level order; a level
      yielding fewer than two spans is none. */
  function Scored(levels: seq<int>, cand: int -> seq<Span>, textLen: int): (cs: seq<(Score, seq<Span>)>)
    ensures |cs| <= |levels|
    ensures forall i :: 0 <= i < |cs| ==> |cs[i].1| >= 2
  {
    if levels == [] then []
    else
      var l := levels[|levels| - 1];
      var prev := Scored(levels[..|levels| - 1], cand, textLen);
      if |cand(l)| < 2 then prev else prev + [(TocSpanScore(cand(l), textLen, l), cand(l))]
  }

  /** Candidate `c` is what level `l` yields, with its score. */
  predicate IsLevelCandidate(c: (Score, seq<Span>), cand: int -> seq<Span>, textLen: int, l: int) {
    c == (TocSpanScore(cand(l), textLen, l), cand(l))
  }

  /** Every candidate is the scored span list of one of the levels, and
      every level yielding at least two spans has its candidate. */
  lemma {:induction false} ScoredLevels(levels: seq<int>, cand: int -> seq<Span>, textLen: int)
    ensures var cs := Scored(levels, cand, textLen);
            forall i :: 0 <= i < |cs| ==>
              exists j :: 0 <= j < |levels| && IsLevelCandidate(cs[i], cand, textLen, levels[j])
    ensures var cs := Scored(levels, cand, textLen);
            forall j :: 0 <= j < |levels| && |cand(levels[j])| >= 2 ==>
              (TocSpanScore(cand(levels[j]), textLen, levels[j]), cand(levels[j])) in cs
  {
    if levels != [] {
      var init := levels[..|levels| - 1];
      ScoredLevels(init, cand, textLen);
      var prev := Scored(init, cand, textLen);
      var cs := Scored(levels, cand, textLen);
      assert forall j :: 0 <= j < |init| ==> init[j] == levels[j];
      forall i | 0 <= i < |cs|
        ensures exists j :: 0 <= j < |levels| && IsLevelCandidate(cs[i], cand, textLen, levels[j])
      {
        if i < |prev| {
          assert cs[i] == prev[i];
          var j :| 0 <= j < |init| && IsLevelCandidate(prev[i], cand, textLen, init[j]);
          assert levels[j] == init[j];
        } else {
          assert IsLevelCandidate(cs[i], cand, textLen, levels[|levels| - 1]);
        }
      }
    }
  }

  /** The first candidate of greatest score: what `candidates[0]` is after
      the stable descending sort. */
  function BestOf(cs: seq<(Score, seq<Span>)>): (Score, seq<Span>)
    requires cs != []
  {
    if |cs| == 1 then cs[0]
    else
      var b := BestOf(cs[..|cs| - 1]);
      if ScoreGreater(cs[|cs| - 1].0, b.0) then cs[|cs| - 1] else b
  }

  /** `BestOf` picks a candidate no other outscores, and every candidate
      before it scores strictly lower. */
  lemma {:induction false} BestOfIsFirstMax(cs: seq<(Score, seq<Span>)>) returns (i: int)
    requires cs != []
    ensures 0 <= i < |cs| && cs[i] == BestOf(cs)
    ensures forall j :: 0 <= j < |cs| ==> !ScoreGreater(cs[j].0, cs[i].0)
    ensures forall j :: 0 <= j < i ==> ScoreGreater(cs[i].0, cs[j].0)
  {
    if |cs| == 1 {
      i := 0;
    } else {
      var init := cs[..|cs| - 1];
      var k := BestOfIsFirstMax(init);
      assert forall j :: 0 <= j < |init| ==> init[j] == cs[j];
      if ScoreGreater(cs[|cs| - 1].0, init[k].0) {
        i := |cs| - 1;
      } else {
        i := k;
      }
    }
  }

  /** The candidates `_spans_from_toc_pages` scores: none without entries
      or pages, else those of the valid entries' levels in ascending order. */
  function TocCandidates(textLen: int, entries: seq<TocEntry>, pageOffsets: seq<int>, minChars: int,
                         chapterNumber: string -> Option<int>): seq<(Score, seq<Span>)>
  {
    if entries == [] || pageOffsets == [] then []
    else
      var valid := ValidOf(entries, |pageOffsets|);
      Scored(SortBy(LevelsOf(valid), ByLevel), LevelCandidates(textLen, valid, pageOffsets, minChars, chapterNumber), textLen)
  }

  /** `_spans_from_toc_pages` as a function: the best candidate, when there
      is one with at least two spans covering half of the text. */
  function TocPageSpans(textLen: int, entries: seq<TocEntry>, pageOffsets: seq<int>, minChars: int,
                        chapterNumber: string -> Option<int>): seq<Span>
  {
    PickBest(TocCandidates(textLen, entries, pageOffsets, minChars, chapterNumber), textLen)
  }

  /** The tail of `_spans_from_toc_pages`: the best candidate when there is
      one with at least two spans covering half of the text, else nothing. */
  function PickBest(cs: seq<(Score, seq<Span>)>, textLen: int): seq<Span> {
    if cs == [] then []
    else
      var best := BestOf(cs).1;
      if |best| < 2 || !HalfCovered(Covered(best), textLen) then [] else best
  }

  /** What the picked spans inherit from the candidates: they are the
      unbeaten candidate's spans, plausible, half-covering and, when every
      page offset lies in the text, inside it. */
  lemma PickBestFacts(cs: seq<(Score, seq<Span>)>, textLen: int, pageOffsets: seq<int>, minChars: int,
                      spans: seq<Span>)
    requires forall c :: c in cs ==> PlausibleSpans(c.1, pageOffsets, minChars) && c.0.count == |c.1|
    requires (forall o :: o in pageOffsets ==> 0 <= o <= textLen) ==>
               forall c :: c in cs ==> InBounds(c.1, textLen)
    requires spans == PickBest(cs, textLen)
    ensures cs != [] ==>
              exists c :: c in cs && (forall d :: d in cs ==> !ScoreGreater(d.0, c.0)) &&
                spans == (if HalfCovered(Covered(c.1), textLen) then c.1 else [])
    ensures spans != [] ==> PlausibleSpans(spans, pageOffsets, minChars) && HalfCovered(Covered(spans), textLen)
    ensures (forall o :: o in pageOffsets ==> 0 <= o <= textLen) ==> InBounds(spans, textLen)
  {
    if cs != [] {
      var i := BestOfIsFirstMax(cs);
      assert cs[i] in cs;
    }
  }

  /** `_spans_from_toc_pages`: for each outline level (ascending), the
      level's headings sorted by page, deduplicated and turned into spans;
      levels yielding fewer than two spans are no candidates. The candidate
      with the greatest score wins (the first one on a tie, as the stable
      descending sort keeps it first), and it is returned only if it covers
      at least half of the text. `candidates` records every candidate. */
  method SpansFromTocPages(textLen: int, entries: seq<TocEntry>, pageOffsets: seq<int>, minChars: int,
                           chapterNumber: string -> Option<int>)
    returns (spans: seq<Span>, ghost candidates: seq<(Score, seq<Span>)>)
    ensures spans == TocPageSpans(textLen, entries, pageOffsets, minChars, chapterNumber)
    ensures candidates == TocCandidates(textLen, entries, pageOffsets, minChars, chapterNumber)
    ensures forall c :: c in candidates ==> PlausibleSpans(c.1, pageOffsets, minChars) && c.0.count == |c.1|
    ensures candidates != [] ==>
              exists c :: c in candidates && (forall d :: d in candidates ==> !ScoreGreater(d.0, c.0)) &&
                spans == (if HalfCovered(Covered(c.1), textLen) then c.1 else [])
    ensures spans != [] ==> PlausibleSpans(spans, pageOffsets, minChars) && HalfCovered(Covered(spans), textLen)
    ensures (forall o :: o in pageOffsets ==> 0 <= o <= textLen) ==> InBounds(spans, textLen)
  {
    var best, bestScore;
    best, bestScore, candidates := TocLevelCandidates(textLen, entries, pageOffsets, minChars, chapterNumber);
    if best == [] || |best| < 2 || !HalfCovered(Covered(best), textLen) {
      spans := [];
    } else {
      spans := best;
    }
    PickBestFacts(candidates, textLen, pageOffsets, minChars, spans);
  }

  /** The candidate gathering of `_spans_from_toc_pages`: nothing without
      entries, pages or valid entries, else the scored candidate of every
      level in ascending order, with the first of the greatest score. */
  method TocLevelCandidates(textLen: int, entries: seq<TocEntry>, pageOffsets: seq<int>, minChars: int,
                            chapterNumber: string -> Option<int>)
    returns (best: seq<Span>, bestScore: Score, ghost candidates: seq<(Score, seq<Span>)>)
    ensures candidates == TocCandidates(textLen, entries, pageOffsets, minChars, chapterNumber)
    ensures candidates == [] <==> best == []
    ensures best != [] ==> best == BestOf(candidates).1
    ensures forall c :: c in candidates ==> PlausibleSpans(c.1, pageOffsets, minChars) && c.0.count == |c.1|
    ensures (forall o :: o in pageOffsets ==> 0 <= o <= textLen) ==>
              forall c :: c in candidates ==> InBounds(c.1, textLen)
  {
    candidates := [];
    best := [];
    bestScore := Score(0.0, 0, 0);
    if entries == [] || pageOffsets == [] {
      return;
    }
    var valid := ValidEntries(entries, |pageOffsets|);
    if valid == [] {
      assert LevelsOf(valid) == [];
      return;
    }
    var distinct := DistinctLevels(valid);
    var levels := SortBy(distinct, ByLevel);
    best, bestScore, candidates := ScoreLevels(textLen, valid, levels, pageOffsets, minChars, chapterNumber);
  }

  /** The level loop of `_spans_from_toc_pages` with the sort that follows
      it: every level's candidate is scored, and `best` is the first of the
      greatest score. */
  method ScoreLevels(textLen: int, valid: seq<TocEntry>, levels: seq<int>, pageOffsets: seq<int>, minChars: int,
                     chapterNumber: string -> Option<int>)
    returns (best: seq<Span>, bestScore: Score, ghost candidates: seq<(Score, seq<Span>)>)
    requires forall i :: 0 <= i < |valid| ==> 1 <= valid[i].2 <= |pageOffsets|
    ensures candidates == Scored(levels, LevelCandidates(textLen, valid, pageOffsets, minChars, chapterNumber), textLen)
    ensures candidates == [] <==> best == []
    ensures best != [] ==> (bestScore, best) == BestOf(candidates)
    ensures forall c :: c in candidates ==> PlausibleSpans(c.1, pageOffsets, minChars) && c.0.count == |c.1|
    ensures (forall o :: o in pageOffsets ==> 0 <= o <= textLen) ==>
              forall c :: c in candidates ==> InBounds(c.1, textLen)
  {
    ghost var f := LevelCandidates(textLen, valid, pageOffsets, minChars, chapterNumber);
    candidates := [];
    best := [];
    bestScore := Score(0.0, 0, 0);
    for k := 0 to |levels|
      invariant candidates == Scored(levels[..k], f, textLen)
      invariant candidates == [] <==> best == []
      invariant best != [] ==> (bestScore, best) == BestOf(candidates)
      invariant forall c :: c in candidates ==> PlausibleSpans(c.1, pageOffsets, minChars) && c.0.count == |c.1|
      invariant (forall o :: o in pageOffsets ==> 0 <= o <= textLen) ==>
                  forall c :: c in candidates ==> InBounds(c.1, textLen)
    {
      var cand := LevelSpans(textLen, valid, levels[k], pageOffsets, minChars, chapterNumber);
      assert cand == f(levels[k]);
      ScoredStep(levels, f, textLen, k, cand);
      if |cand| >= 2 {
        var score := TocSpanScore(cand, textLen, levels[k]);
        BestOfStep(candidates, (score, cand));
        candidates := candidates + [(score, cand)];
        if best == [] || ScoreGreater(score, bestScore) {
          best, bestScore := cand, score;
        }
      }
    }
    assert levels[..|levels|] == levels;
  }

  /** One more level: its candidate is appended when it has two spans. */
  lemma ScoredStep(levels: seq<int>, cand: int -> seq<Span>, textLen: int, k: int, c: seq<Span>)
    requires 0 <= k < |levels| && c == cand(levels[k])
    ensures Scored(levels[..k + 1], cand, textLen) ==
              Scored(levels[..k], cand, textLen) + (if |c| < 2 then [] else [(TocSpanScore(c, textLen, levels[k]), c)])
  {
    assert levels[..k + 1][..k] == levels[..k] && levels[..k + 1][k] == levels[k];
  }

  /** One more candidate replaces the best only when it scores higher. */
  lemma BestOfStep(cs: seq<(Score, seq<Span>)>, c: (Score, seq<Span>))
    ensures cs == [] ==> BestOf(cs + [c]) == c
    ensures cs != [] ==> BestOf(cs + [c]) == if ScoreGreater(c.0, BestOf(cs).0) then c else BestOf(cs)
  {
    assert (cs + [c])[..|cs|] == cs;
  }

  /** The body of the level loop of `_spans_from_toc_pages`: one level's
      headings sorted by page, deduplicated and turned into spans. */
  method LevelSpans(textLen: int, valid: seq<TocEntry>, level: int, pageOffsets: seq<int>, minChars: int,
                    chapterNumber: string -> Option<int>)
    returns (spans: seq<Span>)
    requires forall i :: 0 <= i < |valid| ==> 1 <= valid[i].2 <= |pageOffsets|
    ensures spans == LevelCandidate(textLen, valid, level, pageOffsets, minChars, chapterNumber)
    ensures |spans| >= 2 ==> PlausibleSpans(spans, pageOffsets, minChars)
    ensures (forall o :: o in pageOffsets ==> 0 <= o <= textLen) ==> InBounds(spans, textLen)
  {
    var headings := LevelHeadings(valid, level);
    headings := SortBy(headings, ByPage);
    LevelPagesWithin(valid, level, |pageOffsets|, chapterNumber);
    var deduped := DedupeTocHeadings(headings, chapterNumber);
    spans := BuildSpansFromHeadings(textLen, deduped, pageOffsets, minChars);
    forall j | 0 <= j < |spans| ensures spans[j].start in pageOffsets {
      assert OpensAtHeading(spans[j], deduped, pageOffsets);
      var h :| h in deduped && 1 <= h.1 <= |pageOffsets| && spans[j].start == pageOffsets[h.1 - 1];
    }
  }

  // ---- page offsets ----

  /** The page start offsets never decrease. */
  predicate SortedOffsets(a: seq<int>) {
    forall i, j :: 0 <= i < j < |a| ==> a[i] <= a[j]
  }

  /** `bisect.bisect_right(a, x)` on a sorted list: the number of entries
      not greater than `x`. */
  function BisectRight(a: seq<int>, x: int): (r: int)
    requires SortedOffsets(a)
    ensures 0 <= r <= |a|
    ensures forall j :: 0 <= j < r ==> a[j] <= x
    ensures forall j :: r <= j < |a| ==> a[j] > x
  {
    if a == [] then 0
    else if a[|a| - 1] <= x then |a|
    else BisectRight(a[..|a| - 1], x)
  }

  const MaxCharsFromPageStart := 1400

  /** `offset` lies on page `p` (0-based): at or after its start and before
      the next page's. */
  predicate OnPage(offset: int, pageOffsets: seq<int>, p: int) {
    0 <= p < |pageOffsets| && pageOffsets[p] <= offset &&
    (p + 1 == |pageOffsets| || offset < pageOffsets[p + 1])
  }

  /** `_is_near_page_top`: with no page offsets every offset qualifies; an
      offset before the first page never does; otherwise the offset must lie
      at most 1400 characters past the start of the page containing it. */
  function IsNearPageTop(offset: int, pageOffsets: seq<int>): (near: bool)
    requires SortedOffsets(pageOffsets)
    ensures pageOffsets == [] ==> near
    ensures pageOffsets != [] && offset < pageOffsets[0] ==> !near
    ensures forall p :: OnPage(offset, pageOffsets, p) ==> (near <==> offset - pageOffsets[p] <= MaxCharsFromPageStart)
  {
    if pageOffsets == [] then true
    else
      var i := BisectRight(pageOffsets, offset) - 1;
      if i < 0 then false else offset - pageOffsets[i] <= MaxCharsFromPageStart
  }

  // ---- the printed table of contents ----

  /** `bisect_right(page_offsets, offset) - 1`: the 0-based page holding
      `offset`, or `None` when it lies before the first page. */
  function PageOf(offset: int, pageOffsets: seq<int>): (p: Option<int>)
    requires SortedOffsets(pageOffsets)
    ensures p.None? <==> pageOffsets == [] || offset < pageOffsets[0]
    ensures p.Some? ==> OnPage(offset, pageOffsets, p.value)
  {
    var i := BisectRight(pageOffsets, offset) - 1;
    if i < 0 then None else Some(i)
  }

  /** The page holding an offset is unique when the offsets are sorted:
      it is the one `PageOf` names. */
  lemma PageOfIsOnlyPage(offset: int, pageOffsets: seq<int>, p: int)
    requires SortedOffsets(pageOffsets) && OnPage(offset, pageOffsets, p)
    ensures PageOf(offset, pageOffsets) == Some(p)
  {
    var r := BisectRight(pageOffsets, offset);
    assert p < r;
    assert p + 1 >= r;
  }

  /** The number of physical pages before printed page 1: the first
      entry's printed page lands on `physicalPage` unless that would need
      a negative count, which is raised to 0. */
  function FrontMatter(physicalPage: int, firstPrinted: int): (f: int)
    ensures f >= 0
    ensures f > 0 ==> Phys(firstPrinted, f) == physicalPage
    ensures f == 0 ==> Phys(firstPrinted, 0) >= physicalPage
  {
    Max(0, physicalPage - (firstPrinted - 1))
  }

  /** The physical page (0-based) of a printed page number. */
  function Phys(printed: int, front: int): int {
    printed - 1 + front
  }

  /** The range entry `i` maps to: from the start of its physical page to
      the start of the next entry's (the end of the text for the last entry
      or when the next page is out of range); `None` when its own page is
      out of range. */
  function PrintedCut(entries: seq<(string, int)>, i: int, front: int, pageOffsets: seq<int>, textLen: int)
    : (c: Option<(int, int)>)
    requires 0 <= i < |entries|
    ensures c.None? <==> !(0 <= Phys(entries[i].1, front) < |pageOffsets|)
    ensures c.Some? ==> c.value.0 == pageOffsets[Phys(entries[i].1, front)]
    ensures c.Some? && i + 1 < |entries| && 0 <= Phys(entries[i + 1].1, front) < |pageOffsets| ==>
              c.value.1 == pageOffsets[Phys(entries[i + 1].1, front)]
    ensures c.Some? && !(i + 1 < |entries| && 0 <= Phys(entries[i + 1].1, front) < |pageOffsets|) ==>
              c.value.1 == textLen
  {
    var phys := Phys(entries[i].1, front);
    if phys < 0 || phys >= |pageOffsets| then None
    else
      var next := if i + 1 < |entries| then Phys(entries[i + 1].1, front) else -1;
      var end := if i + 1 < |entries| && 0 <= next < |pageOffsets| then pageOffsets[next] else textLen;
      Some((pageOffsets[phys], end))
  }

  /** Entry `i` yields a span: its page is in range and its range is at
      least `minChars` long. */
  predicate Usable(entries: seq<(string, int)>, i: int, front: int, pageOffsets: seq<int>, textLen: int, minChars: int)
    requires 0 <= i < |entries|
  {
    var c := PrintedCut(entries, i, front, pageOffsets, textLen);
    c.Some? && c.value.1 - c.value.0 >= minChars
  }

  /** The spans the mapping loop of `_spans_from_printed_toc` has built
      after the first `k` entries. */
  function PrintedSpans(entries: seq<(string, int)>, front: int, pageOffsets: seq<int>, textLen: int, minChars: int,
                        k: int): (ss: seq<Span>)
    requires 0 <= k <= |entries|
    ensures |ss| <= k
    ensures Indexed(ss) && AllLong(ss, minChars)
  {
    if k == 0 then []
    else
      var prev := PrintedSpans(entries, front, pageOffsets, textLen, minChars, k - 1);
      if Usable(entries, k - 1, front, pageOffsets, textLen, minChars) then
        var c := PrintedCut(entries, k - 1, front, pageOffsets, textLen).value;
        prev + [Span(|prev| + 1, entries[k - 1].0, c.0, c.1)]
      else prev
  }

  /** Span `s` is the one entry `i` yields. */
  predicate SpanOfEntry(s: Span, entries: seq<(string, int)>, i: int, front: int, pageOffsets: seq<int>,
                        textLen: int, minChars: int)
    requires 0 <= i < |entries|
  {
    Usable(entries, i, front, pageOffsets, textLen, minChars) && s.title == entries[i].0 &&
    PrintedCut(entries, i, front, pageOffsets, textLen) == Some((s.start, s.end))
  }

  /** The usable entries among the first `k`, in order. */
  function UsableEntries(entries: seq<(string, int)>, front: int, pageOffsets: seq<int>, textLen: int, minChars: int,
                         k: int): (from: seq<int>)
    requires 0 <= k <= |entries|
    ensures forall j :: 0 <= j < |from| ==> 0 <= from[j] < k
    ensures forall j :: 0 <= j < |from| ==> Usable(entries, from[j], front, pageOffsets, textLen, minChars)
    ensures forall a, b :: 0 <= a < b < |from| ==> from[a] < from[b]
    ensures forall i :: 0 <= i < k && Usable(entries, i, front, pageOffsets, textLen, minChars) ==> i in from
  {
    if k == 0 then []
    else
      UsableEntries(entries, front, pageOffsets, textLen, minChars, k - 1) +
      (if Usable(entries, k - 1, front, pageOffsets, textLen, minChars) then [k - 1] else [])
  }

  /** The spans are exactly the usable entries, in order, each with its
      entry's title and range. */
  lemma {:induction false} PrintedSpansAreUsableEntries(entries: seq<(string, int)>, front: int,
                                                        pageOffsets: seq<int>, textLen: int, minChars: int, k: int)
    requires 0 <= k <= |entries|
    ensures var ss := PrintedSpans(entries, front, pageOffsets, textLen, minChars, k);
            var from := UsableEntries(entries, front, pageOffsets, textLen, minChars, k);
            |ss| == |from| &&
            forall j :: 0 <= j < |ss| ==> SpanOfEntry(ss[j], entries, from[j], front, pageOffsets, textLen, minChars)
  {
    if k > 0 {
      PrintedSpansAreUsableEntries(entries, front, pageOffsets, textLen, minChars, k - 1);
      var prev := PrintedSpans(entries, front, pageOffsets, textLen, minChars, k - 1);
      var ss := PrintedSpans(entries, front, pageOffsets, textLen, minChars, k);
      var pf := UsableEntries(entries, front, pageOffsets, textLen, minChars, k - 1);
      var from := UsableEntries(entries, front, pageOffsets, textLen, minChars, k);
      forall j | 0 <= j < |ss|
        ensures SpanOfEntry(ss[j], entries, from[j], front, pageOffsets, textLen, minChars)
      {
        if j < |prev| {
          assert ss[j] == prev[j] && from[j] == pf[j];
        }
      }
    }
  }

  /** The mapping loop of `_spans_from_printed_toc`. */
  method MapPrintedEntries(entries: seq<(string, int)>, front: int, pageOffsets: seq<int>, textLen: int,
                           minChars: int) returns (spans: seq<Span>)
    ensures spans == PrintedSpans(entries, front, pageOffsets, textLen, minChars, |entries|)
  {
    spans := [];
    for i := 0 to |entries|
      invariant spans == PrintedSpans(entries, front, pageOffsets, textLen, minChars, i)
    {
      var (title, printed) := entries[i];
      var phys := printed - 1 + front;
      if 0 <= phys < |pageOffsets| {
        var start := pageOffsets[phys];
        var end := textLen;
        if i + 1 < |entries| {
          var nextPhys := entries[i + 1].1 - 1 + front;
          if 0 <= nextPhys < |pageOffsets| {
            end := pageOffsets[nextPhys];
          }
        }
        assert PrintedCut(entries, i, front, pageOffsets, textLen) == Some((start, end));
        if end - start >= minChars {
          spans := spans + [Span(|spans| + 1, title, start, end)];
        }
      }
    }
  }

  /** `_spans_from_printed_toc` as a function of the same inputs. */
  function PrintedTocSpans(textLen: int, entries: seq<(string, int)>, pageOffsets: seq<int>, minChars: int,
                           subtitle: string, lastMatch: Option<int>): seq<Span>
    requires SortedOffsets(pageOffsets)
  {
    if |entries| < 2 || pageOffsets == [] || |subtitle| < 10 || lastMatch.None? then []
    else
      var page := PageOf(lastMatch.value, pageOffsets);
      if page.None? then []
      else
        var front := FrontMatter(page.value, entries[0].1);
        var all := PrintedSpans(entries, front, pageOffsets, textLen, minChars, |entries|);
        if |all| >= 2 && HalfCovered(SumLen(all), textLen) then all else []
  }

  /** `_spans_from_printed_toc`. `subtitle` is the first entry's title
      without its "Chapter N:" prefix, and `lastMatch` the offset of its
      last occurrence in the text, both found by regular expressions. The
      result is empty for fewer than two entries, no pages, a subtitle
      under ten characters, no occurrence, or an occurrence before the
      first page; otherwise the entries are mapped through the front matter
      that puts the first entry on the page of the occurrence, and kept
      when there are at least two spans covering half the text. */
  method SpansFromPrintedToc(textLen: int, entries: seq<(string, int)>, pageOffsets: seq<int>, minChars: int,
                             subtitle: string, lastMatch: Option<int>) returns (spans: seq<Span>)
    requires SortedOffsets(pageOffsets)
    ensures spans == PrintedTocSpans(textLen, entries, pageOffsets, minChars, subtitle, lastMatch)
    ensures |entries| < 2 || pageOffsets == [] || |subtitle| < 10 || lastMatch.None? ==> spans == []
    ensures lastMatch.Some? && pageOffsets != [] && lastMatch.value < pageOffsets[0] ==> spans == []
    ensures spans != [] ==>
              |spans| >= 2 && Indexed(spans) && AllLong(spans, minChars) && HalfCovered(SumLen(spans), textLen)
    ensures |entries| >= 2 && |subtitle| >= 10 && lastMatch.Some? && PageOf(lastMatch.value, pageOffsets).Some? ==>
              var front := FrontMatter(PageOf(lastMatch.value, pageOffsets).value, entries[0].1);
              var all := PrintedSpans(entries, front, pageOffsets, textLen, minChars, |entries|);
              spans == (if |all| >= 2 && HalfCovered(SumLen(all), textLen) then all else [])
  {
    if |entries| < 2 || pageOffsets == [] {
      return [];
    }
    if |subtitle| < 10 || lastMatch.None? {
      return [];
    }
    var physicalPage := BisectRight(pageOffsets, lastMatch.value) - 1;
    if physicalPage < 0 {
      return [];
    }
    var front := physicalPage - (entries[0].1 - 1);
    if front < 0 {
      front := 0;
    }
    spans := MapPrintedEntries(entries, front, pageOffsets, textLen, minChars);
    if |spans| < 2 {
      return [];
    }
    if !HalfCovered(SumLen(spans), textLen) {
      return [];
    }
  }

  // ---- the even page split ----

  /** `[page_offsets[j] for j in range(i, len(page_offsets), step)]`,
      untitled. */
  function StrideFrom(pageOffsets: seq<int>, step: int, i: int): (r: seq<(string, int)>)
    requires step >= 1 && i >= 0
    decreases |pageOffsets| - i
  {
    if i >= |pageOffsets| then [] else [("", pageOffsets[i])] + StrideFrom(pageOffsets, step, i + step)
  }

  /** The strided starts are exactly the offsets at `i`, `i + step`,
      `i + 2 * step`, ... that exist. */
  lemma {:induction false} StrideFromContents(pageOffsets: seq<int>, step: int, i: int)
    requires step >= 1 && i >= 0
    ensures var r := StrideFrom(pageOffsets, step, i);
            forall m :: 0 <= m ==> (m < |r| <==> i + m * step < |pageOffsets|)
    ensures var r := StrideFrom(pageOffsets, step, i);
            forall m :: 0 <= m < |r| ==> i + m * step < |pageOffsets| && r[m] == ("", pageOffsets[i + m * step])
    decreases |pageOffsets| - i
  {
    var r := StrideFrom(pageOffsets, step, i);
    if i < |pageOffsets| {
      StrideFromContents(pageOffsets, step, i + step);
      var rest := StrideFrom(pageOffsets, step, i + step);
      assert r == [("", pageOffsets[i])] + rest;
      forall m | 0 <= m
        ensures (m < |r| <==> i + m * step < |pageOffsets|)
        ensures m < |r| ==> r[m] == ("", pageOffsets[i + m * step])
      {
        if m > 0 {
          assert i + m * step == (i + step) + (m - 1) * step;
          if m < |r| {
            assert r[m] == rest[m - 1];
          }
        }
      }
    }
  }

  /** The strided starts never decrease when the offsets do, and lie
      inside the text when the offsets do. */
  lemma StrideFromShape(pageOffsets: seq<int>, step: int, textLen: int)
    requires step >= 1
    ensures SortedOffsets(pageOffsets) ==> NonDecreasing(StrideFrom(pageOffsets, step, 0))
    ensures (forall o :: o in pageOffsets ==> 0 <= o <= textLen) ==> StartsWithin(StrideFrom(pageOffsets, step, 0), textLen)
  {
    if SortedOffsets(pageOffsets) {
      StrideFromSorted(pageOffsets, step, 0);
    }
    if forall o :: o in pageOffsets ==> 0 <= o <= textLen {
      StrideFromWithin(pageOffsets, step, 0, textLen);
    }
  }

  /** From sorted offsets the strided starts never decrease, and none is
      below the offset they start from. */
  lemma {:induction false} StrideFromSorted(pageOffsets: seq<int>, step: int, i: int)
    requires step >= 1 && i >= 0 && SortedOffsets(pageOffsets)
    ensures NonDecreasing(StrideFrom(pageOffsets, step, i))
    ensures i < |pageOffsets| ==>
              forall m :: 0 <= m < |StrideFrom(pageOffsets, step, i)| ==> pageOffsets[i] <= StrideFrom(pageOffsets, step, i)[m].1
    decreases |pageOffsets| - i
  {
    if i < |pageOffsets| {
      StrideFromSorted(pageOffsets, step, i + step);
      var r := StrideFrom(pageOffsets, step, i);
      var rest := StrideFrom(pageOffsets, step, i + step);
      assert r == [("", pageOffsets[i])] + rest;
      forall m | 1 <= m < |r| ensures pageOffsets[i] <= r[m].1 {
        assert r[m] == rest[m - 1];
      }
    }
  }

  /** Offsets inside the text give strided starts inside the text. */
  lemma {:induction false} StrideFromWithin(pageOffsets: seq<int>, step: int, i: int, textLen: int)
    requires step >= 1 && i >= 0 && forall o :: o in pageOffsets ==> 0 <= o <= textLen
    ensures StartsWithin(StrideFrom(pageOffsets, step, i), textLen)
    decreases |pageOffsets| - i
  {
    if i < |pageOffsets| {
      StrideFromWithin(pageOffsets, step, i + step, textLen);
      var r := StrideFrom(pageOffsets, step, i);
      var rest := StrideFrom(pageOffsets, step, i + step);
      assert r == [("", pageOffsets[i])] + rest;
      assert pageOffsets[i] in pageOffsets;
      forall m | 1 <= m < |r| ensures 0 <= r[m].1 <= textLen {
        assert r[m] == rest[m - 1];
      }
    }
  }

  /** `[page_offsets[i] for i in range(0, page_count, step)]`, untitled. */
  method StrideStarts(pageOffsets: seq<int>, step: int) returns (starts: seq<(string, int)>)
    requires step >= 1
    ensures starts == StrideFrom(pageOffsets, step, 0)
  {
    starts := [];
    var i := 0;
    while i < |pageOffsets|
      invariant i >= 0
      invariant StrideFrom(pageOffsets, step, 0) == starts + StrideFrom(pageOffsets, step, i)
      decreases |pageOffsets| - i
    {
      ghost var rest := StrideFrom(pageOffsets, step, i + step);
      assert StrideFrom(pageOffsets, step, i) == [("", pageOffsets[i])] + rest;
      assert starts + ([("", pageOffsets[i])] + rest) == (starts + [("", pageOffsets[i])]) + rest;
      starts := starts + [("", pageOffsets[i])];
      i := i + step;
    }
  }

  /** A leading 0 when the first start is not 0, and the last start dropped
      when it is at or past the end of the text. */
  function AdjustStarts(starts: seq<(string, int)>, textLen: int): (r: seq<(string, int)>)
    requires starts != []
    ensures r != [] ==> r[0].1 == 0
    ensures forall x :: x in r ==> x in starts || x == ("", 0)
    ensures NonDecreasing(starts) && StartsWithin(starts, textLen) ==> NonDecreasing(r) && StartsWithin(r, textLen)
  {
    var s := if starts[0].1 != 0 then [("", 0)] + starts else starts;
    if s[|s| - 1].1 >= textLen then
      s[..|s| - 1]
    else s
  }

  /** The step of the even page split: between 6 and 20 sections, so
      about `pageCount / target` pages each. */
  function SplitStep(pageCount: int): (step: int)
    ensures step >= 1
  {
    var target := Max(6, Min(20, pageCount / 20));
    Max(1, pageCount / target)
  }

  /** `_fallback_page_splits` as a function. */
  function PageSplits(textLen: int, pageOffsets: seq<int>, minChars: int): seq<Span> {
    if |pageOffsets| < 8 || textLen < minChars * 8 then []
    else
      var starts := AdjustStarts(StrideFrom(pageOffsets, SplitStep(|pageOffsets|), 0), textLen);
      if |starts| < 2 then []
      else
        var spans := Segmented(starts, textLen, minChars, true);
        if |spans| < 2 then [] else spans
  }

  /** `_fallback_page_splits`: nothing for fewer than eight pages or a text
      shorter than eight minimum chapters; otherwise between 6 and 20
      evenly spaced page starts (0 put first when missing, a last start at
      or past the end of the text dropped) are cut into "Section k" spans,
      and the result is kept only if it has at least two. */
  method FallbackPageSplits(textLen: int, pageOffsets: seq<int>, minChars: int) returns (spans: seq<Span>)
    ensures spans == PageSplits(textLen, pageOffsets, minChars)
    ensures |pageOffsets| < 8 || textLen < minChars * 8 ==> spans == []
    ensures spans != [] ==>
              |spans| >= 2 && Indexed(spans) && AllLong(spans, minChars) &&
              forall j :: 0 <= j < |spans| ==> spans[j].title == SectionTitle(j + 1)
    ensures SortedOffsets(pageOffsets) && (forall o :: o in pageOffsets ==> 0 <= o <= textLen) ==>
              InBounds(spans, textLen) && Disjoint(spans)
  {
    if |pageOffsets| < 8 {
      return [];
    }
    if textLen < minChars * 8 {
      return [];
    }
    var pageCount := |pageOffsets|;
    var target := Max(6, Min(20, pageCount / 20));
    // `target` is at least 6, so the source's `target_sections < 2` exit never fires.
    var step := Max(1, pageCount / target);
    assert step == SplitStep(pageCount);
    var strided := StrideStarts(pageOffsets, step);
    StrideFromShape(pageOffsets, step, textLen);
    var starts := AdjustStarts(strided, textLen);
    if |starts| < 2 {
      return [];
    }
    spans := Segment(starts, textLen, minChars, true);
    if |spans| < 2 {
      return [];
    }
  }

  // ---- the dispatch ----

  /** The single span of a text too short to split, or of one where no
      method found chapters. */
  function SectionOne(textLen: int): Span {
    Span(1, "Section 1", 0, textLen)
  }

  /** The heading candidates `(offset, title)` as `(title, offset)` starts. */
  function CandidateStarts(candidates: seq<(int, string)>): (starts: seq<(string, int)>)
    ensures |starts| == |candidates|
    ensures forall i :: 0 <= i < |candidates| ==> starts[i] == (candidates[i].1, candidates[i].0)
  {
    if candidates == [] then []
    else CandidateStarts(candidates[..|candidates| - 1]) +
         [(candidates[|candidates| - 1].1, candidates[|candidates| - 1].0)]
  }

  /** The fallback of the heading path as a function. */
  function FallbackOrOne(textLen: int, pageOffsets: seq<int>, minChars: int, cleanTitle: string -> string): seq<Span>
    requires textLen >= 0
  {
    var fallback := if pageOffsets != [] then PageSplits(textLen, pageOffsets, minChars) else [];
    if fallback != [] then Finalized(fallback, textLen, minChars, cleanTitle) else [SectionOne(textLen)]
  }

  /** The fallback of the heading path: the even page split when there are
      pages and it yields spans, finalized; else "Section 1". */
  method FallbackOrSectionOne(textLen: int, pageOffsets: seq<int>, minChars: int, cleanTitle: string -> string)
    returns (out: seq<Span>)
    requires textLen >= 0
    ensures out == FallbackOrOne(textLen, pageOffsets, minChars, cleanTitle)
  {
    if pageOffsets != [] {
      var fallback := FallbackPageSplits(textLen, pageOffsets, minChars);
      if fallback != [] {
        out := FinalizeSpans(fallback, textLen, minChars, cleanTitle);
        return;
      }
    }
    out := [SectionOne(textLen)];
  }

  /** The order in which `chapterize` tries its methods, given what each
      found: the outline's page numbers, then (for a text of at least
      `minChars`) the outline titles, the printed table of contents, the
      heading candidates (when there are two) and the fallback. */
  function Pick(textLen: int, tocSpans: seq<Span>, titleSpans: seq<Span>, printed: seq<Span>,
                headingSpans: Option<seq<Span>>, fallback: seq<Span>, minChars: int,
                cleanTitle: string -> string): seq<Span>
    requires textLen >= 0
  {
    if tocSpans != [] then Finalized(tocSpans, textLen, minChars, cleanTitle)
    else if textLen < minChars then [SectionOne(textLen)]
    else if titleSpans != [] then Finalized(titleSpans, textLen, minChars, cleanTitle)
    else if printed != [] then Finalized(printed, textLen, minChars, cleanTitle)
    else if headingSpans.None? || headingSpans.value == [] then fallback
    else Finalized(headingSpans.value, textLen, minChars, cleanTitle)
  }

  /** `chapterize` as a function of the same inputs. */
  function Chapterized(textLen: int, titleSpans: seq<Span>, tocEntries: seq<TocEntry>, pageOffsets: seq<int>,
                       printedEntries: seq<(string, int)>, subtitle: string, lastMatch: Option<int>,
                       candidates: seq<(int, string)>, minChars: int,
                       chapterNumber: string -> Option<int>, cleanTitle: string -> string): seq<Span>
    requires textLen >= 0
    requires SortedOffsets(pageOffsets)
  {
    var tocSpans := if tocEntries != [] && pageOffsets != [] then
                      TocPageSpans(textLen, tocEntries, pageOffsets, minChars, chapterNumber)
                    else [];
    var printed := if pageOffsets != [] && |printedEntries| >= 2 then
                     PrintedTocSpans(textLen, printedEntries, pageOffsets, minChars, subtitle, lastMatch)
                   else [];
    var headingSpans := if |candidates| < 2 then None
                        else Some(Segmented(CandidateStarts(candidates), textLen, minChars, false));
    Pick(textLen, tocSpans, titleSpans, printed, headingSpans, FallbackOrOne(textLen, pageOffsets, minChars, cleanTitle),
         minChars, cleanTitle)
  }

  /** One or more chapters inside the text, disjoint, numbered 1..n with
      non-empty titles: "Section 1", the whole text, or chapters at least
      `minChars` long and non-empty. */
  predicate ChapterList(out: seq<Span>, textLen: int, minChars: int) {
    |out| >= 1 && InBounds(out, textLen) && Disjoint(out) && Indexed(out) &&
    (forall i :: 0 <= i < |out| ==> out[i].title != []) &&
    (out == [SectionOne(textLen)] || out == [FullText(textLen)] || (AllLong(out, minChars) && NonEmptySpans(out)))
  }

  /** Finalizing any spans yields a chapter list. */
  lemma FinalizedChapterList(spans: seq<Span>, textLen: int, minChars: int, cleanTitle: string -> string)
    requires textLen >= 0
    ensures ChapterList(Finalized(spans, textLen, minChars, cleanTitle), textLen, minChars)
  {
    FinalizedShape(spans, textLen, minChars, cleanTitle);
  }

  /** The fallback is a chapter list, and "Section 1" when there are too
      few pages to split. */
  lemma FallbackOrOneShape(textLen: int, pageOffsets: seq<int>, minChars: int, cleanTitle: string -> string)
    requires textLen >= 0
    ensures ChapterList(FallbackOrOne(textLen, pageOffsets, minChars, cleanTitle), textLen, minChars)
    ensures |pageOffsets| < 8 || textLen < minChars * 8 ==>
              FallbackOrOne(textLen, pageOffsets, minChars, cleanTitle) == [SectionOne(textLen)]
  {
    var fallback := if pageOffsets != [] then PageSplits(textLen, pageOffsets, minChars) else [];
    if fallback != [] {
      FinalizedChapterList(fallback, textLen, minChars, cleanTitle);
    }
  }

  /** A text shorter than `minChars` without a usable outline is
      "Section 1". */
  lemma ChapterizedShortText(textLen: int, titleSpans: seq<Span>, tocEntries: seq<TocEntry>, pageOffsets: seq<int>,
                             printedEntries: seq<(string, int)>, subtitle: string, lastMatch: Option<int>,
                             candidates: seq<(int, string)>, minChars: int,
                             chapterNumber: string -> Option<int>, cleanTitle: string -> string)
    requires textLen >= 0
    requires SortedOffsets(pageOffsets)
    requires tocEntries == [] || pageOffsets == []
    requires textLen < minChars
    ensures Chapterized(textLen, titleSpans, tocEntries, pageOffsets, printedEntries, subtitle, lastMatch,
                        candidates, minChars, chapterNumber, cleanTitle) == [SectionOne(textLen)]
  {
  }

  /** With no outline, no outline titles, no printed table of contents,
      fewer than two heading candidates and too few pages to split, the
      result is "Section 1". */
  lemma ChapterizedNothingApplies(textLen: int, titleSpans: seq<Span>, tocEntries: seq<TocEntry>, pageOffsets: seq<int>,
                                  printedEntries: seq<(string, int)>, subtitle: string, lastMatch: Option<int>,
                                  candidates: seq<(int, string)>, minChars: int,
                                  chapterNumber: string -> Option<int>, cleanTitle: string -> string)
    requires textLen >= 0
    requires SortedOffsets(pageOffsets)
    requires tocEntries == [] || pageOffsets == []
    requires titleSpans == [] && printedEntries == [] && |candidates| < 2 && |pageOffsets| < 8
    ensures Chapterized(textLen, titleSpans, tocEntries, pageOffsets, printedEntries, subtitle, lastMatch,
                        candidates, minChars, chapterNumber, cleanTitle) == [SectionOne(textLen)]
  {
    FallbackOrOneShape(textLen, pageOffsets, minChars, cleanTitle);
  }

  /** Whichever method applies, the result is a chapter list when the
      fallback is one. */
  lemma PickShape(textLen: int, tocSpans: seq<Span>, titleSpans: seq<Span>, printed: seq<Span>,
                  headingSpans: Option<seq<Span>>, fallback: seq<Span>, minChars: int, cleanTitle: string -> string)
    requires textLen >= 0
    requires ChapterList(fallback, textLen, minChars)
    ensures ChapterList(Pick(textLen, tocSpans, titleSpans, printed, headingSpans, fallback, minChars, cleanTitle),
                        textLen, minChars)
  {
    if tocSpans != [] {
      FinalizedChapterList(tocSpans, textLen, minChars, cleanTitle);
    } else if textLen < minChars {
    } else if titleSpans != [] {
      FinalizedChapterList(titleSpans, textLen, minChars, cleanTitle);
    } else if printed != [] {
      FinalizedChapterList(printed, textLen, minChars, cleanTitle);
    } else if headingSpans.Some? && headingSpans.value != [] {
      FinalizedChapterList(headingSpans.value, textLen, minChars, cleanTitle);
    }
  }

  /** Whatever path `chapterize` takes, the result is a chapter list. */
  lemma ChapterizedShape(textLen: int, titleSpans: seq<Span>, tocEntries: seq<TocEntry>, pageOffsets: seq<int>,
                         printedEntries: seq<(string, int)>, subtitle: string, lastMatch: Option<int>,
                         candidates: seq<(int, string)>, minChars: int,
                         chapterNumber: string -> Option<int>, cleanTitle: string -> string)
    requires textLen >= 0
    requires SortedOffsets(pageOffsets)
    ensures ChapterList(Chapterized(textLen, titleSpans, tocEntries, pageOffsets, printedEntries, subtitle, lastMatch,
                                    candidates, minChars, chapterNumber, cleanTitle), textLen, minChars)
  {
    var tocSpans := if tocEntries != [] && pageOffsets != [] then
                      TocPageSpans(textLen, tocEntries, pageOffsets, minChars, chapterNumber)
                    else [];
    var printed := if pageOffsets != [] && |printedEntries| >= 2 then
                     PrintedTocSpans(textLen, printedEntries, pageOffsets, minChars, subtitle, lastMatch)
                   else [];
    var headingSpans := if |candidates| < 2 then None
                        else Some(Segmented(CandidateStarts(candidates), textLen, minChars, false));
    FallbackOrOneShape(textLen, pageOffsets, minChars, cleanTitle);
    PickShape(textLen, tocSpans, titleSpans, printed, headingSpans, FallbackOrOne(textLen, pageOffsets, minChars, cleanTitle),
              minChars, cleanTitle);
  }

  /** `chapterize`. The regular-expression stages are inputs: `titleSpans`
      is what `_spans_from_toc_titles` found (empty without outline titles),
      `printedEntries` what `_extract_printed_toc` found, `subtitle` and
      `lastMatch` its calibration, `candidates` the heading candidates.
      The methods are tried in order: outline page numbers, then (for a
      text of at least `minChars`) outline titles, the printed table of
      contents, headings, and the even page split. */
  method Chapterize(textLen: int, titleSpans: seq<Span>, tocEntries: seq<TocEntry>, pageOffsets: seq<int>,
                    printedEntries: seq<(string, int)>, subtitle: string, lastMatch: Option<int>,
                    candidates: seq<(int, string)>, minChars: int,
                    chapterNumber: string -> Option<int>, cleanTitle: string -> string)
    returns (out: seq<Span>)
    requires textLen >= 0
    requires SortedOffsets(pageOffsets)
    ensures out == Chapterized(textLen, titleSpans, tocEntries, pageOffsets, printedEntries, subtitle, lastMatch,
                               candidates, minChars, chapterNumber, cleanTitle)
  {
    ghost var tocG := if tocEntries != [] && pageOffsets != [] then
                        TocPageSpans(textLen, tocEntries, pageOffsets, minChars, chapterNumber)
                      else [];
    ghost var printedG := if pageOffsets != [] && |printedEntries| >= 2 then
                            PrintedTocSpans(textLen, printedEntries, pageOffsets, minChars, subtitle, lastMatch)
                          else [];
    ghost var headingG := if |candidates| < 2 then None
                          else Some(Segmented(CandidateStarts(candidates), textLen, minChars, false));
    ghost var fallbackG := FallbackOrOne(textLen, pageOffsets, minChars, cleanTitle);
    assert Chapterized(textLen, titleSpans, tocEntries, pageOffsets, printedEntries, subtitle, lastMatch,
                       candidates, minChars, chapterNumber, cleanTitle) ==
           Pick(textLen, tocG, titleSpans, printedG, headingG, fallbackG, minChars, cleanTitle);
    if tocEntries != [] && pageOffsets != [] {
      ghost var scored;
      var spans;
      spans, scored := SpansFromTocPages(textLen, tocEntries, pageOffsets, minChars, chapterNumber);
      if spans != [] {
        out := FinalizeSpans(spans, textLen, minChars, cleanTitle);
        return;
      }
    }
    if textLen < minChars {
      return [SectionOne(textLen)];
    }
    if titleSpans != [] {
      out := FinalizeSpans(titleSpans, textLen, minChars, cleanTitle);
      return;
    }
    if pageOffsets != [] && |printedEntries| >= 2 {
      var spans := SpansFromPrintedToc(textLen, printedEntries, pageOffsets, minChars, subtitle, lastMatch);
      if spans != [] {
        out := FinalizeSpans(spans, textLen, minChars, cleanTitle);
        return;
      }
    }
    if |candidates| < 2 {
      out := FallbackOrSectionOne(textLen, pageOffsets, minChars, cleanTitle);
      return;
    }
    var spans := Segment(CandidateStarts(candidates), textLen, minChars, false);
    if spans == [] {
      out := FallbackOrSectionOne(textLen, pageOffsets, minChars, cleanTitle);
      return;
    }
    out := FinalizeSpans(spans, textLen, minChars, cleanTitle);
  }

  function Max(a: int, b: int): int {
    if a >= b then a else b
  }

  function Min(a: int, b: int): int {
    if a <= b then a else b
  }
}
