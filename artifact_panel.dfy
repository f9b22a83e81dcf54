/** `ArtifactPanel`: the artifacts of the selected chapter grouped by type,
    newest version first, with the newest one rendered; and the effect that
    loads them, whose `alive` flag drops responses that arrive after the
    chapter or the refresh key changed.

    `apiGet` calls are events: `Resolve` and `Reject` settle any call still
    in flight, in any order. An effect run is an epoch: run `r` still has
    `alive` set exactly when `live == Some(r)`. */
module ArtifactPanel {
  import opened Seqs
  import opened Artifacts

  /** The sum of the group sizes over `keys`. */
  function Total(keys: seq<string>, groups: map<string, seq<Artifact>>): nat
    requires forall k :: k in keys ==> k in groups
  {
    if keys == [] then 0 else |groups[keys[0]]| + Total(keys[1..], groups)
  }

  lemma {:induction false} TotalIsGroupSizes(keys: seq<string>, groups: map<string, seq<Artifact>>, arts: seq<Artifact>)
    requires forall k :: k in keys ==> k in groups && |groups[k]| == |OfKind(arts, k)|
    ensures Total(keys, groups) == GroupSizes(keys, arts)
  {
    if keys != [] {
      TotalIsGroupSizes(keys[1..], groups, arts);
    }
  }

  /** What sorting the filtered list of one type gives: a newest-first
      group holding each artifact of that type as often as the list does,
      whose head is a newest artifact of that type. */
  lemma SortedGroup(arts: seq<Artifact>, t: string)
    requires Has(arts, t)
    ensures Descending(SortDesc(OfKind(arts, t)))
    ensures forall i :: 0 <= i < |SortDesc(OfKind(arts, t))| ==> SortDesc(OfKind(arts, t))[i].kind == t
    ensures forall a: Artifact :: a.kind == t ==> multiset(SortDesc(OfKind(arts, t)))[a] == multiset(arts)[a]
    ensures SortDesc(OfKind(arts, t)) != [] && SortDesc(OfKind(arts, t))[0] in arts
    ensures forall a :: a in arts && a.kind == t ==> a.version <= SortDesc(OfKind(arts, t))[0].version
  {
    var f := OfKind(arts, t);
    var g := SortDesc(f);
    SortDescSorts(f);
    OfKindCounts(arts, t);
    OfKindMembers(arts, t);
    forall i | 0 <= i < |g| ensures g[i].kind == t {
      assert g[i] in multiset(f);
    }
    assert g[0] in multiset(f);
    forall a | a in arts && a.kind == t ensures a.version <= g[0].version {
      assert a in multiset(g);
      var i :| 0 <= i < |g| && g[i] == a;
    }
  }

  /** The first loop of `grouped`: each artifact is pushed onto the array
      of its type, a new key taking the next place in key order. */
  method PushByType(arts: seq<Artifact>) returns (keys: seq<string>, groups: map<string, seq<Artifact>>)
    ensures keys == Kinds(arts)
    ensures forall t :: t in groups <==> Has(arts, t)
    ensures forall t :: t in groups ==> groups[t] == OfKind(arts, t)
  {
    keys, groups := [], map[];
    for i := 0 to |arts|
      invariant keys == Kinds(arts[..i])
      invariant PushedSoFar(arts, i, groups)
    {
      var a := arts[i];
      PrefixStep(arts, i);
      PushStep(arts, i, groups);
      if a.kind !in groups {
        keys := keys + [a.kind];
        groups := groups[a.kind := []];
      }
      groups := groups[a.kind := groups[a.kind] + [a]];
    }
    assert arts[..|arts|] == arts;
  }

  /** What the first loop has built after `i` artifacts: one array per type
      seen, holding that type's artifacts in list order. */
  ghost predicate PushedSoFar(arts: seq<Artifact>, i: nat, groups: map<string, seq<Artifact>>)
    requires i <= |arts|
  {
    (forall t :: t in groups <==> Has(arts[..i], t)) &&
    (forall t :: t in groups ==> groups[t] == OfKind(arts[..i], t))
  }

  /** `(acc[a.type] ||= []).push(a)`. */
  function Push(groups: map<string, seq<Artifact>>, a: Artifact): map<string, seq<Artifact>> {
    if a.kind in groups then groups[a.kind := groups[a.kind] + [a]] else groups[a.kind := [a]]
  }

  lemma PushStep(arts: seq<Artifact>, i: nat, groups: map<string, seq<Artifact>>)
    requires i < |arts| && PushedSoFar(arts, i, groups)
    ensures PushedSoFar(arts, i + 1, Push(groups, arts[i]))
  {
    forall t
      ensures t in Push(groups, arts[i]) <==> Has(arts[..i + 1], t)
      ensures t in Push(groups, arts[i]) ==> Push(groups, arts[i])[t] == OfKind(arts[..i + 1], t)
    {
      PushStepAt(arts, i, groups, t);
    }
  }

  /** `PushStep` for the array of one type. */
  lemma PushStepAt(arts: seq<Artifact>, i: nat, groups: map<string, seq<Artifact>>, t: string)
    requires i < |arts|
    requires t in groups <==> Has(arts[..i], t)
    requires t in groups ==> groups[t] == OfKind(arts[..i], t)
    ensures t in Push(groups, arts[i]) <==> Has(arts[..i + 1], t)
    ensures t in Push(groups, arts[i]) ==> Push(groups, arts[i])[t] == OfKind(arts[..i + 1], t)
  {
    PrefixStep(arts, i);
    var next := Push(groups, arts[i]);
    var before, after := OfKind(arts[..i], t), OfKind(arts[..i + 1], t);
    if t != arts[i].kind {
      assert after == before + [];
      assert (t in next <==> t in groups) && (t in next ==> next[t] == groups[t]);
    } else if t in groups {
      assert next[t] == before + [arts[i]] == after;
    } else {
      assert before == [];
      assert next[t] == [] + [arts[i]] == after;
    }
  }

  /** The second loop of `grouped`: the array of every key sorted newest
      first. */
  method SortGroups(keys: seq<string>, pushed: map<string, seq<Artifact>>) returns (groups: map<string, seq<Artifact>>)
    requires forall i, j :: 0 <= i < j < |keys| ==> keys[i] != keys[j]
    requires forall t :: t in pushed <==> t in keys
    ensures forall t :: t in groups <==> t in pushed
    ensures forall t :: t in groups ==> groups[t] == SortDesc(pushed[t])
  {
    groups := pushed;
    for j := 0 to |keys|
      invariant forall t :: t in groups <==> t in keys
      invariant forall m :: 0 <= m < j ==> groups[keys[m]] == SortDesc(pushed[keys[m]])
      invariant forall m :: j <= m < |keys| ==> groups[keys[m]] == pushed[keys[m]]
    {
      groups := groups[keys[j] := SortDesc(groups[keys[j]])];
    }
    forall t | t in groups ensures groups[t] == SortDesc(pushed[t]) {
      var m :| 0 <= m < |keys| && keys[m] == t;
    }
  }

  /** The `grouped` memo: the pushes, then every array sorted newest first.
      Every artifact lands in the group of its type, as often as it occurs,
      group sizes add up to the list length, and the first element of a
      group, the one rendered, is a newest artifact of that type. */
  method Grouped(arts: seq<Artifact>) returns (keys: seq<string>, groups: map<string, seq<Artifact>>)
    ensures keys == Kinds(arts)
    ensures forall t :: t in groups <==> t in keys
    ensures forall t :: t in groups ==> Descending(groups[t])
    ensures forall t :: t in groups ==> forall i :: 0 <= i < |groups[t]| ==> groups[t][i].kind == t
    ensures forall t, a: Artifact :: t in groups && a.kind == t ==> multiset(groups[t])[a] == multiset(arts)[a]
    ensures Total(keys, groups) == |arts|
    ensures forall t :: t in groups ==>
              groups[t] != [] && groups[t][0] in arts &&
              forall a :: a in arts && a.kind == t ==> a.version <= groups[t][0].version
  {
    var pushed;
    keys, pushed := PushByType(arts);
    groups := SortGroups(keys, pushed);
    forall t | t in groups
      ensures Descending(groups[t])
      ensures forall i :: 0 <= i < |groups[t]| ==> groups[t][i].kind == t
      ensures forall a: Artifact :: a.kind == t ==> multiset(groups[t])[a] == multiset(arts)[a]
      ensures groups[t] != [] && groups[t][0] in arts
      ensures forall a :: a in arts && a.kind == t ==> a.version <= groups[t][0].version
    {
      SortedGroup(arts, t);
    }
    TotalIsGroupSizes(keys, groups, arts);
    GroupSizesSum(keys, arts);
  }

  class Panel {
    /** The props of the latest render. */
    var chapterId: Option<int>
    var refreshKey: int
    /** The `arts` and `err` state. */
    var arts: seq<Artifact>
    var err: Option<string>
    /** Number of effect runs that fetched; run ids are 0 .. runs - 1. */
    var runs: nat
    /** The chapter each run asked for. */
    var runChapter: map<nat, int>
    /** The run whose `alive` flag is still set, if any. */
    var live: Option<nat>
    /** Runs whose `apiGet` call has not settled. */
    var inFlight: set<nat>

    ghost predicate Valid()
      reads this
    {
      (forall r: nat :: r in runChapter <==> r < runs) &&
      (forall r :: r in inFlight ==> r < runs) &&
      (live.Some? ==> live.value < runs && Truthy(chapterId) && runChapter[live.value] == chapterId.value)
    }

    /** The effect body for the current props: nothing without a chapter;
        otherwise a new run clears `err` and starts its request. */
    method Effect()
      requires Valid() && live == None
      modifies this
      ensures Valid()
      ensures chapterId == old(chapterId) && refreshKey == old(refreshKey) && arts == old(arts)
      ensures !Truthy(chapterId) ==>
                live == None && err == old(err) && runs == old(runs) &&
                runChapter == old(runChapter) && inFlight == old(inFlight)
      ensures Truthy(chapterId) ==>
                live == Some(old(runs)) && err == None && runs == old(runs) + 1 &&
                runChapter == old(runChapter)[old(runs) := chapterId.value] &&
                inFlight == old(inFlight) + {old(runs)}
    {
      if !Truthy(chapterId) {
        return;
      }
      err := None;
      runChapter := runChapter[runs := chapterId.value];
      inFlight := inFlight + {runs};
      live := Some(runs);
      runs := runs + 1;
    }

    /** Mounting: the first render and its effect. */
    constructor (id: Option<int>, key: int)
      ensures Valid()
      ensures chapterId == id && refreshKey == key && arts == [] && err == None
      ensures Truthy(id) ==>
                live == Some(0) && inFlight == {0} && runs == 1 && runChapter == map[0 := id.value]
      ensures !Truthy(id) ==> live == None && inFlight == {} && runs == 0
    {
      chapterId, refreshKey, arts, err := id, key, [], None;
      runs, runChapter, live, inFlight := 0, map[], None, {};
      new;
      assert Valid();
      Effect();
    }

    /** A later render. When the chapter id or the refresh key changed, the
        cleanup clears the old run's `alive` flag and the effect runs again. */
    method Render(id: Option<int>, key: int)
      requires Valid()
      modifies this
      ensures Valid()
      ensures chapterId == id && refreshKey == key && arts == old(arts)
      ensures id == old(chapterId) && key == old(refreshKey) ==>
                live == old(live) && err == old(err) && runs == old(runs) && inFlight == old(inFlight) &&
                runChapter == old(runChapter)
      ensures (id != old(chapterId) || key != old(refreshKey)) && Truthy(id) ==>
                live == Some(old(runs)) && err == None && runs == old(runs) + 1 &&
                runChapter == old(runChapter)[old(runs) := id.value] &&
                inFlight == old(inFlight) + {old(runs)}
      ensures (id != old(chapterId) || key != old(refreshKey)) && !Truthy(id) ==>
                live == None && err == old(err) && runs == old(runs) && inFlight == old(inFlight) &&
                runChapter == old(runChapter)
    {
      if id != chapterId || key != refreshKey {
        live := None;
        chapterId, refreshKey := id, key;
        Effect();
      }
    }

    /** Unmounting: the cleanup of the last run. */
    method Unmount()
      requires Valid()
      modifies this
      ensures Valid() && live == None
      ensures arts == old(arts) && err == old(err) && inFlight == old(inFlight) && runs == old(runs)
    {
      live := None;
    }

    /** Run `r`'s request returns data. Only a run that is still alive
        stores it, and then the data was asked for the chapter now shown. */
    method Resolve(r: nat, data: seq<Artifact>)
      requires Valid() && r in inFlight
      modifies this
      ensures Valid()
      ensures old(live) == Some(r) ==>
                arts == data && Truthy(chapterId) && r in runChapter && runChapter[r] == chapterId.value
      ensures old(live) != Some(r) ==> arts == old(arts)
      ensures err == old(err) && live == old(live) && inFlight == old(inFlight) - {r}
      ensures chapterId == old(chapterId) && refreshKey == old(refreshKey) && runs == old(runs)
    {
      if live == Some(r) {
        arts := data;
      }
      inFlight := inFlight - {r};
    }

    /** Run `r`'s request fails with `message` (`e?.message || String(e)`).
        Only a run that is still alive stores it. */
    method Reject(r: nat, message: string)
      requires Valid() && r in inFlight
      modifies this
      ensures Valid()
      ensures old(live) == Some(r) ==> err == Some(message)
      ensures old(live) != Some(r) ==> err == old(err)
      ensures arts == old(arts) && live == old(live) && inFlight == old(inFlight) - {r}
      ensures chapterId == old(chapterId) && refreshKey == old(refreshKey) && runs == old(runs)
    {
      if live == Some(r) {
        err := Some(message);
      }
      inFlight := inFlight - {r};
    }
  }

  /** A response for chapter 1 that arrives after the panel moved to
      chapter 2 changes nothing. */
  method StaleResponseIsDropped(data1: seq<Artifact>)
  {
    var p := new Panel(Some(1), 0);
    p.Render(Some(2), 0);
    assert 0 in p.inFlight && p.live == Some(1);
    p.Resolve(0, data1);
    assert p.arts == [];
  }
}
