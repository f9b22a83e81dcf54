/** Chapter spans of the ingest pipeline (`ChapterSpan`): a 1-based index, a
    title and a half-open character range `[start, end)` of the book text,
    with the shape predicates the segmentation functions establish, and the
    stable sort that `sorted(..., key=...)` performs. */
module ChapterSpans {
  import opened Strings

  datatype Span = Span(index: int, title: string, start: int, end: int)

  function Len(s: Span): int {
    s.end - s.start
  }

  /** `max(0, min(textLen, x))`. */
  function Clamp(x: int, textLen: int): (c: int)
    requires textLen >= 0
    ensures 0 <= c <= textLen
    ensures 0 <= x <= textLen ==> c == x
  {
    if x < 0 then 0 else if x > textLen then textLen else x
  }

  lemma ClampMonotone(x: int, y: int, textLen: int)
    requires textLen >= 0 && x <= y
    ensures Clamp(x, textLen) <= Clamp(y, textLen)
  {
  }

  /** Every span lies inside `[0, textLen]`. */
  predicate InBounds(ss: seq<Span>, textLen: int) {
    forall i :: 0 <= i < |ss| ==> 0 <= ss[i].start <= ss[i].end <= textLen
  }

  /** Every span is non-empty. */
  predicate NonEmptySpans(ss: seq<Span>) {
    forall i :: 0 <= i < |ss| ==> ss[i].start < ss[i].end
  }

  /** Sorted by start and pairwise non-overlapping. */
  predicate Disjoint(ss: seq<Span>) {
    forall i, j :: 0 <= i < j < |ss| ==> ss[i].end <= ss[j].start
  }

  /** The indices are exactly 1 .. |ss| in order. */
  predicate Indexed(ss: seq<Span>) {
    forall i :: 0 <= i < |ss| ==> ss[i].index == i + 1
  }

  /** The starts strictly increase. */
  predicate IncreasingStarts(ss: seq<Span>) {
    forall i, j :: 0 <= i < j < |ss| ==> ss[i].start < ss[j].start
  }

  /** Every span is at least `minChars` long. */
  predicate AllLong(ss: seq<Span>, minChars: int) {
    forall i :: 0 <= i < |ss| ==> Len(ss[i]) >= minChars
  }

  /** `sum(max(0, s.end - s.start) for s in spans)`. */
  function Covered(ss: seq<Span>): (c: int)
    ensures c >= 0
  {
    if ss == [] then 0
    else Covered(ss[..|ss| - 1]) + (if Len(ss[|ss| - 1]) > 0 then Len(ss[|ss| - 1]) else 0)
  }

  /** `sum(s.end - s.start for s in spans)`, without the clamp at 0. */
  function SumLen(ss: seq<Span>): int {
    if ss == [] then 0 else SumLen(ss[..|ss| - 1]) + Len(ss[|ss| - 1])
  }

  /** The single span returned when nothing usable was found. */
  function FullText(textLen: int): Span {
    Span(1, "Full Text", 0, textLen)
  }

  /** Python's float test `covered / text_len >= 0.5`, read with `0.0` for
      an empty text, as an integer comparison. */
  predicate HalfCovered(covered: int, textLen: int) {
    textLen > 0 && 2 * covered >= textLen
  }

  // ---- stable sort by a lexicographic pair of integers ----

  predicate KeyLe(a: (int, int), b: (int, int)) {
    a.0 < b.0 || (a.0 == b.0 && a.1 <= b.1)
  }

  predicate SortedBy<T>(xs: seq<T>, key: T -> (int, int)) {
    forall i, j :: 0 <= i < j < |xs| ==> KeyLe(key(xs[i]), key(xs[j]))
  }

  /** Inserts `x` after every element whose key is not greater, so equal
      keys keep their order. */
  function Insert<T(==)>(x: T, xs: seq<T>, key: T -> (int, int)): (r: seq<T>)
    requires SortedBy(xs, key)
    ensures SortedBy(r, key)
    ensures multiset(r) == multiset(xs) + multiset{x}
    ensures |r| == |xs| + 1
    ensures forall y :: y in r ==> y in xs || y == x
  {
    if xs == [] then [x]
    else if KeyLe(key(xs[0]), key(x)) then
      var rest := Insert(x, xs[1..], key);
      assert xs == [xs[0]] + xs[1..];
      HeadBelowRest(x, xs, key, rest);
      [xs[0]] + rest
    else
      [x] + xs
  }

  lemma HeadBelowRest<T>(x: T, xs: seq<T>, key: T -> (int, int), rest: seq<T>)
    requires xs != [] && SortedBy(xs, key) && KeyLe(key(xs[0]), key(x))
    requires forall y :: y in rest ==> y in xs[1..] || y == x
    ensures SortedBy(rest, key) ==> SortedBy([xs[0]] + rest, key)
  {
    forall k | 0 <= k < |rest| ensures KeyLe(key(xs[0]), key(rest[k])) {
      if rest[k] != x {
        assert rest[k] in xs[1..];
        var m :| 0 <= m < |xs[1..]| && xs[1..][m] == rest[k];
        assert xs[1..][m] == xs[m + 1];
      }
    }
    if SortedBy(rest, key) {
      var r := [xs[0]] + rest;
      forall i, j | 0 <= i < j < |r| ensures KeyLe(key(r[i]), key(r[j])) {
        if i == 0 {
          assert r[j] == rest[j - 1];
        } else {
          assert r[i] == rest[i - 1] && r[j] == rest[j - 1];
        }
      }
    }
  }

  /** `sorted(xs, key=key)`: Python's sort is stable. */
  function SortBy<T(==)>(xs: seq<T>, key: T -> (int, int)): (r: seq<T>)
    ensures SortedBy(r, key)
    ensures multiset(r) == multiset(xs)
    ensures |r| == |xs|
  {
    if xs == [] then []
    else
      assert xs == xs[..|xs| - 1] + [xs[|xs| - 1]];
      Insert(xs[|xs| - 1], SortBy(xs[..|xs| - 1], key), key)
  }

  lemma InMultiset<T>(xs: seq<T>, ys: seq<T>, i: int)
    requires multiset(xs) == multiset(ys) && 0 <= i < |xs|
    ensures xs[i] in ys
  {
    assert xs[i] in multiset(xs);
  }
}
