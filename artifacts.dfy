/** The artifact record the web client receives from `/artifacts`, and the
    list operations its views share: selecting one type (`filter`), the
    newest-first `sort` by version, and the distinct types in the order they
    first occur. */
module Artifacts {
  import opened Seqs

  /** An artifact row; `kind` is the `type` field (`summary`, `quiz`, `lab`
      or `takeaways` from a well-behaved server, any string otherwise). */
  datatype Artifact = Artifact(
    id: int,
    chapterId: int,
    kind: string,
    contentMd: string,
    provider: string,
    model: string,
    version: int)

  /** A chapter id that passes `if (!chapterId)`: neither null nor 0. */
  predicate Truthy(id: Option<int>) {
    id.Some? && id.value != 0
  }

  /** Some artifact in the list has type `t`. */
  predicate Has(arts: seq<Artifact>, t: string) {
    exists i :: 0 <= i < |arts| && arts[i].kind == t
  }

  /** `arts.filter(a => a.type === t)`, which is also what pushing each
      artifact onto the array of its type builds. */
  function OfKind(arts: seq<Artifact>, t: string): (r: seq<Artifact>)
    ensures |r| <= |arts|
    ensures forall i :: 0 <= i < |r| ==> r[i].kind == t
    ensures r == [] <==> !Has(arts, t)
  {
    if arts == [] then []
    else
      var init := OfKind(arts[..|arts| - 1], t);
      assert forall i :: 0 <= i < |arts| - 1 ==> arts[..|arts| - 1][i] == arts[i];
      if arts[|arts| - 1].kind == t then init + [arts[|arts| - 1]] else init
  }

  /** The filter keeps every artifact of type `t` and nothing else, with
      its multiplicity. */
  lemma {:induction false} OfKindCounts(arts: seq<Artifact>, t: string)
    ensures multiset(OfKind(arts, t)) <= multiset(arts)
    ensures forall a: Artifact :: a.kind == t ==> multiset(OfKind(arts, t))[a] == multiset(arts)[a]
  {
    if arts != [] {
      var init := arts[..|arts| - 1];
      OfKindCounts(init, t);
      assert arts == init + [arts[|arts| - 1]];
    }
  }

  /** The artifacts of type `t` are exactly those the filter keeps. */
  lemma OfKindMembers(arts: seq<Artifact>, t: string)
    ensures forall a :: a in OfKind(arts, t) <==> a in arts && a.kind == t
  {
    OfKindCounts(arts, t);
    forall a | a in OfKind(arts, t) ensures a in arts {
      assert a in multiset(OfKind(arts, t));
    }
    forall a | a in arts && a.kind == t ensures a in OfKind(arts, t) {
      assert a in multiset(arts);
    }
  }

  /** The types present, each once, in the order they first occur: the key
      order of a JavaScript `Map` or of an object with non-numeric keys
      filled in list order. */
  function Kinds(arts: seq<Artifact>): (ks: seq<string>)
    ensures forall i, j :: 0 <= i < j < |ks| ==> ks[i] != ks[j]
    ensures forall t :: t in ks <==> Has(arts, t)
    ensures arts != [] ==> ks != [] && ks[0] == arts[0].kind
  {
    if arts == [] then []
    else
      var init := arts[..|arts| - 1];
      var ks0 := Kinds(init);
      HasSnoc(arts);
      if arts[|arts| - 1].kind in ks0 then ks0 else ks0 + [arts[|arts| - 1].kind]
  }

  /** The index of the first artifact of type `t`. */
  function FirstOf(arts: seq<Artifact>, t: string): (i: nat)
    requires Has(arts, t)
    ensures i < |arts| && arts[i].kind == t
    ensures forall j :: 0 <= j < i ==> arts[j].kind != t
  {
    if arts[0].kind == t then 0
    else
      var j :| 0 <= j < |arts| && arts[j].kind == t;
      assert arts[1..][j - 1].kind == t;
      1 + FirstOf(arts[1..], t)
  }

  /** `Kinds` lists the types in the order of their first artifacts. */
  lemma {:induction false} KindsFirstSeen(arts: seq<Artifact>)
    ensures forall i, j :: 0 <= i < j < |Kinds(arts)| ==>
              FirstOf(arts, Kinds(arts)[i]) < FirstOf(arts, Kinds(arts)[j])
  {
    if arts != [] {
      var init := arts[..|arts| - 1];
      var x := arts[|arts| - 1];
      var ks0 := Kinds(init);
      var ks := Kinds(arts);
      KindsFirstSeen(init);
      HasSnoc(arts);
      forall t | Has(init, t)
        ensures FirstOf(arts, t) == FirstOf(init, t)
      {
        FirstOfPrefix(arts, t);
      }
      if x.kind !in ks0 {
        assert ks == ks0 + [x.kind];
        forall j | 0 <= j < |init|
          ensures arts[j].kind != x.kind
        {
          assert arts[j] == init[j];
        }
      }
    }
  }

  /** An artifact added at the end does not move the first artifact of a
      type already present. */
  lemma FirstOfPrefix(arts: seq<Artifact>, t: string)
    requires arts != [] && Has(arts[..|arts| - 1], t)
    ensures Has(arts, t) && FirstOf(arts, t) == FirstOf(arts[..|arts| - 1], t)
  {
    var init := arts[..|arts| - 1];
    var i0 := FirstOf(init, t);
    assert arts[i0] == init[i0];
    forall j | 0 <= j < i0
      ensures arts[j].kind != t
    {
      assert arts[j] == init[j];
    }
  }

  /** A type is present exactly when it is present before the last
      artifact or is the last artifact's type. */
  lemma HasSnoc(arts: seq<Artifact>)
    requires arts != []
    ensures forall t :: Has(arts, t) <==> Has(arts[..|arts| - 1], t) || arts[|arts| - 1].kind == t
  {
    var init := arts[..|arts| - 1];
    assert forall i :: 0 <= i < |init| ==> init[i] == arts[i];
  }

  /** One more artifact: how presence, the filter and the key order of
      the longer prefix follow from those of the shorter. */
  lemma PrefixStep(arts: seq<Artifact>, i: nat)
    requires i < |arts|
    ensures forall t :: Has(arts[..i + 1], t) <==> Has(arts[..i], t) || arts[i].kind == t
    ensures forall t :: OfKind(arts[..i + 1], t) ==
              OfKind(arts[..i], t) + if arts[i].kind == t then [arts[i]] else []
    ensures Kinds(arts[..i + 1]) ==
              if arts[i].kind in Kinds(arts[..i]) then Kinds(arts[..i]) else Kinds(arts[..i]) + [arts[i].kind]
  {
    assert arts[..i + 1][..i] == arts[..i];
    assert forall j :: 0 <= j < i ==> arts[..i + 1][j] == arts[..i][j];
    forall t ensures Has(arts[..i + 1], t) <==> Has(arts[..i], t) || arts[i].kind == t {
      if Has(arts[..i + 1], t) {
        var j :| 0 <= j < i + 1 && arts[..i + 1][j].kind == t;
        if j < i {
          assert arts[..i][j].kind == t;
        }
      }
      if arts[i].kind == t {
        assert arts[..i + 1][i].kind == t;
      }
    }
  }

  /** Sorted newest first. */
  predicate Descending(s: seq<Artifact>) {
    forall i, j :: 0 <= i < j < |s| ==> s[i].version >= s[j].version
  }

  /** Places `x` before the first element whose version is not larger. */
  function Insert(x: Artifact, s: seq<Artifact>): (r: seq<Artifact>)
    ensures multiset(r) == multiset(s) + multiset{x}
    ensures |r| == |s| + 1
  {
    if s == [] || x.version >= s[0].version then [x] + s
    else
      assert s == [s[0]] + s[1..];
      [s[0]] + Insert(x, s[1..])
  }

  lemma {:induction false} InsertDescending(x: Artifact, s: seq<Artifact>)
    requires Descending(s)
    ensures Descending(Insert(x, s))
    ensures s != [] && x.version < s[0].version ==> Insert(x, s)[0] == s[0]
  {
    if s == [] || x.version >= s[0].version {
      ConsDescending(x, s);
    } else {
      InsertDescending(x, s[1..]);
      InsertBounded(x, s[1..], s[0].version);
      ConsDescending(s[0], Insert(x, s[1..]));
    }
  }

  /** Inserting below a bound every element keeps stays below it. */
  lemma {:induction false} InsertBounded(x: Artifact, s: seq<Artifact>, v: int)
    requires x.version <= v && forall j :: 0 <= j < |s| ==> s[j].version <= v
    ensures forall j :: 0 <= j < |Insert(x, s)| ==> Insert(x, s)[j].version <= v
  {
    if s != [] && x.version < s[0].version {
      InsertBounded(x, s[1..], v);
    }
  }

  /** A newest-first list stays newest first under a head at least as new
      as all of it. */
  lemma ConsDescending(y: Artifact, s: seq<Artifact>)
    requires Descending(s)
    requires forall j :: 0 <= j < |s| ==> s[j].version <= y.version
    ensures Descending([y] + s)
  {
    forall i, j | 0 <= i < j < |[y] + s| ensures ([y] + s)[i].version >= ([y] + s)[j].version {
      if i > 0 {
        assert ([y] + s)[i] == s[i - 1];
      }
      assert ([y] + s)[j] == s[j - 1];
    }
  }

  /** `.sort((a, b) => b.version - a.version)`: the comparator orders by
      version, newest first, and the engine's sort is stable, so among equal
      versions the earlier artifact stays first. Insertion from the front
      with `>=` keeps exactly that order. */
  function SortDesc(s: seq<Artifact>): (r: seq<Artifact>)
    ensures |r| == |s|
  {
    if s == [] then [] else Insert(s[0], SortDesc(s[1..]))
  }

  /** The sort returns a newest-first permutation of its input. */
  lemma SortDescSorts(s: seq<Artifact>)
    ensures Descending(SortDesc(s))
    ensures multiset(SortDesc(s)) == multiset(s)
  {
    SortDescOrdered(s);
    SortDescPermutes(s);
  }

  lemma {:induction false} SortDescOrdered(s: seq<Artifact>)
    ensures Descending(SortDesc(s))
  {
    if s != [] {
      SortDescOrdered(s[1..]);
      InsertDescending(s[0], SortDesc(s[1..]));
    }
  }

  lemma {:induction false} SortDescPermutes(s: seq<Artifact>)
    ensures multiset(SortDesc(s)) == multiset(s)
  {
    if s != [] {
      SortDescPermutes(s[1..]);
      assert s == [s[0]] + s[1..];
      assert multiset(s) == multiset(s[1..]) + multiset{s[0]};
    }
  }

  /** The index of the first element with the largest version. */
  function FirstMax(s: seq<Artifact>): (k: nat)
    requires s != []
    ensures k < |s|
    ensures forall j :: 0 <= j < |s| ==> s[j].version <= s[k].version
    ensures forall j :: 0 <= j < k ==> s[j].version < s[k].version
  {
    if |s| == 1 then 0
    else
      var k := FirstMax(s[1..]);
      assert forall j :: 1 <= j < |s| ==> s[j] == s[1..][j - 1];
      if s[0].version >= s[1 + k].version then 0 else 1 + k
  }

  /** An index holding a largest version with only smaller versions before
      it is the one `FirstMax` finds. */
  lemma FirstMaxUnique(s: seq<Artifact>, k: nat)
    requires k < |s|
    requires forall j :: 0 <= j < |s| ==> s[j].version <= s[k].version
    requires forall j :: 0 <= j < k ==> s[j].version < s[k].version
    ensures FirstMax(s) == k
  {
  }

  /** The head of the sorted list is the earliest of the newest artifacts:
      what `[0]` after the sort selects. */
  lemma {:induction false} SortDescHead(s: seq<Artifact>)
    requires s != []
    ensures SortDesc(s)[0] == s[FirstMax(s)]
  {
    var rest := s[1..];
    if rest == [] {
    } else {
      SortDescHead(rest);
      var k := FirstMax(rest);
      assert s[1 + k] == rest[k];
      InsertHead(s[0], SortDesc(rest));
    }
  }

  /** What heads the list after an insertion. */
  lemma InsertHead(x: Artifact, s: seq<Artifact>)
    requires s != []
    ensures Insert(x, s)[0] == if x.version >= s[0].version then x else s[0]
  {
  }

  /** The number of artifacts whose type is listed in `ks`, counted type by
      type. */
  function GroupSizes(ks: seq<string>, arts: seq<Artifact>): nat {
    if ks == [] then 0 else |OfKind(arts, ks[0])| + GroupSizes(ks[1..], arts)
  }

  function Occurrences(ks: seq<string>, t: string): nat {
    if ks == [] then 0 else (if ks[0] == t then 1 else 0) + Occurrences(ks[1..], t)
  }

  lemma {:induction false} GroupSizesStep(ks: seq<string>, arts: seq<Artifact>, a: Artifact)
    ensures GroupSizes(ks, arts + [a]) == GroupSizes(ks, arts) + Occurrences(ks, a.kind)
  {
    if ks != [] {
      GroupSizesStep(ks[1..], arts, a);
      assert (arts + [a])[..|arts + [a]| - 1] == arts;
    }
  }

  lemma {:induction false} OccursOnce(ks: seq<string>, t: string)
    requires forall i, j :: 0 <= i < j < |ks| ==> ks[i] != ks[j]
    requires t in ks
    ensures Occurrences(ks, t) == 1
  {
    if ks[0] == t {
      assert t !in ks[1..];
      OccursNot(ks[1..], t);
    } else {
      OccursOnce(ks[1..], t);
    }
  }

  lemma {:induction false} OccursNot(ks: seq<string>, t: string)
    requires t !in ks
    ensures Occurrences(ks, t) == 0
  {
    if ks != [] {
      OccursNot(ks[1..], t);
    }
  }

  /** Grouping by a duplicate-free list of types that covers every type
      present loses and repeats no artifact: the group sizes add up to the
      length of the list. */
  lemma {:induction false} GroupSizesSum(ks: seq<string>, arts: seq<Artifact>)
    requires forall i, j :: 0 <= i < j < |ks| ==> ks[i] != ks[j]
    requires forall t :: Has(arts, t) ==> t in ks
    ensures GroupSizes(ks, arts) == |arts|
  {
    if arts == [] {
      GroupSizesEmpty(ks);
    } else {
      var init := arts[..|arts| - 1];
      var a := arts[|arts| - 1];
      forall t | Has(init, t) ensures t in ks {
        var i :| 0 <= i < |init| && init[i].kind == t;
        assert arts[i].kind == t;
      }
      GroupSizesSum(ks, init);
      assert Has(arts, a.kind) by { assert arts[|arts| - 1].kind == a.kind; }
      OccursOnce(ks, a.kind);
      GroupSizesStep(ks, init, a);
      assert init + [a] == arts;
    }
  }

  lemma {:induction false} GroupSizesEmpty(ks: seq<string>)
    ensures GroupSizes(ks, []) == 0
  {
    if ks != [] {
      GroupSizesEmpty(ks[1..]);
    }
  }
}
