/** `ChapterNav`: the book's chapter list, narrowed by a case-insensitive
    title search, with the chapter at `activeIndex` marked active. */
module ChapterNav {
  import opened Seqs
  import opened Strings

  datatype Chapter = Chapter(id: int, index: int, title: string)

  predicate TitleMatches(c: Chapter, q: string) {
    Contains(Lower(c.title), q)
  }

  /** The `filtered` memo: every chapter for an empty search, otherwise the
      chapters whose title matches, in their order. */
  function Filtered(chapters: seq<Chapter>, search: string): (r: seq<Chapter>)
    ensures search == "" ==> r == chapters
    ensures search != "" ==> forall c :: c in r <==> c in chapters && TitleMatches(c, Lower(search))
    ensures search != "" ==> forall c :: multiset(r)[c] == if TitleMatches(c, Lower(search)) then multiset(chapters)[c] else 0
    ensures forall c :: c in r ==> c in chapters
    ensures IsSubseq(r, chapters)
  {
    if search == "" then
      assert IsSubseq(chapters, chapters) by { FilterAll(chapters, _ => true); FilterIsSubseq(chapters, _ => true); }
      chapters
    else
      var q := Lower(search);
      FilterIsSubseq(chapters, c => TitleMatches(c, q));
      FilterMultiset(chapters, c => TitleMatches(c, q));
      Filter(chapters, c => TitleMatches(c, q))
  }

  datatype NavItem = NavItem(chapter: Chapter, isActive: bool)

  /** `ch.index === activeIndex`: a `null` active index marks nothing. */
  function IsActive(c: Chapter, activeIndex: Option<int>): bool {
    activeIndex == Some(c.index)
  }

  /** What renders: one item per filtered chapter, and "No chapters found"
      exactly when there is none. */
  datatype Nav = Nav(items: seq<NavItem>, noneFound: bool)

  function View(chapters: seq<Chapter>, search: string, activeIndex: Option<int>): (v: Nav)
    ensures |v.items| == |Filtered(chapters, search)|
    ensures forall i :: 0 <= i < |v.items| ==>
              v.items[i].chapter == Filtered(chapters, search)[i] &&
              (v.items[i].isActive <==> activeIndex == Some(v.items[i].chapter.index))
    ensures v.noneFound <==> v.items == []
  {
    var f := Filtered(chapters, search);
    Nav(seq(|f|, i requires 0 <= i < |f| => NavItem(f[i], IsActive(f[i], activeIndex))), f == [])
  }

  /** No two chapters share an index. */
  predicate UniqueIndices(cs: seq<Chapter>) {
    forall i, j :: 0 <= i < j < |cs| ==> cs[i].index != cs[j].index
  }

  lemma {:induction false} FilterKeepsUnique(cs: seq<Chapter>, keep: Chapter -> bool)
    requires UniqueIndices(cs)
    ensures UniqueIndices(Filter(cs, keep))
  {
    if cs != [] {
      var init := cs[..|cs| - 1];
      assert UniqueIndices(init);
      FilterKeepsUnique(init, keep);
      var f := Filter(init, keep);
      forall i | 0 <= i < |f| ensures f[i].index != cs[|cs| - 1].index {
        var k :| 0 <= k < |init| && init[k] == f[i];
      }
    }
  }

  /** With chapter indices unique, as a book's are, at most one item is
      marked active, whatever the search. */
  lemma AtMostOneActive(chapters: seq<Chapter>, search: string, activeIndex: Option<int>)
    requires UniqueIndices(chapters)
    ensures var v := View(chapters, search, activeIndex);
            forall i, j ::
              0 <= i < |v.items| && 0 <= j < |v.items| && v.items[i].isActive && v.items[j].isActive ==>
                i == j
  {
    if search != "" {
      FilterKeepsUnique(chapters, c => TitleMatches(c, Lower(search)));
    }
  }
}
