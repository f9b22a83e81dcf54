/** `ArtifactTabs`: the newest artifact of each type, one tab per known
    type, a tab disabled when its type has no artifact, and the tab shown
    first. */
module ArtifactTabs {
  import opened Artifacts

  /** The tabs in display order: type and label. */
  const TabConfig: seq<(string, string)> :=
    [("summary", "Summary"), ("quiz", "Quiz"), ("lab", "Lab"), ("takeaways", "Takeaways")]

  /** The position of the artifact `getLatestByType` keeps for type `t`,
      or -1 when the type is absent: the newest of that type, and of several
      equally new ones the earliest, because a later one replaces the kept
      one only when its version is strictly larger. */
  function LatestAt(arts: seq<Artifact>, t: string): (k: int)
    ensures -1 <= k < |arts|
    ensures k == -1 <==> !Has(arts, t)
    ensures k >= 0 ==> arts[k].kind == t
    ensures k >= 0 ==> forall j :: 0 <= j < |arts| && arts[j].kind == t ==>
                                   arts[j].version <= arts[k].version
    ensures k >= 0 ==> forall j :: 0 <= j < k && arts[j].kind == t ==>
                                   arts[j].version < arts[k].version
  {
    if arts == [] then -1
    else
      var n := |arts| - 1;
      var p := LatestAt(arts[..n], t);
      assert forall j :: 0 <= j < n ==> arts[..n][j] == arts[j];
      if arts[n].kind == t && (p == -1 || arts[n].version > arts[p].version) then n else p
  }

  /** `getLatestByType`: one pass over the list into a `Map`. The map is
      its entries plus its key order, which is the order in which keys were
      first set; replacing the value of a key keeps its place. */
  method GetLatestByType(arts: seq<Artifact>) returns (latest: map<string, Artifact>, keys: seq<string>)
    ensures forall t :: t in latest <==> Has(arts, t)
    ensures forall t :: t in latest ==> latest[t] == arts[LatestAt(arts, t)]
    ensures keys == Kinds(arts)
  {
    latest, keys := map[], [];
    for i := 0 to |arts|
      invariant LatestSoFar(arts, i, latest)
      invariant keys == Kinds(arts[..i])
    {
      var a := arts[i];
      PrefixStep(arts, i);
      KeepStep(arts, i, latest);
      if a.kind !in latest {
        keys := keys + [a.kind];
      }
      if a.kind !in latest || a.version > latest[a.kind].version {
        latest := latest[a.kind := a];
      }
    }
    assert arts[..|arts|] == arts;
  }

  /** What the pass has built after the first `i` artifacts: an entry for
      each type seen, holding the artifact `LatestAt` picks. */
  ghost predicate LatestSoFar(arts: seq<Artifact>, i: nat, latest: map<string, Artifact>)
    requires i <= |arts|
  {
    (forall t :: t in latest <==> Has(arts[..i], t)) &&
    (forall t :: t in latest ==> LatestAt(arts[..i], t) >= 0 && latest[t] == arts[LatestAt(arts[..i], t)])
  }

  /** One step of the pass: a type seen for the first time is set, and a
      strictly newer artifact replaces the kept one. */
  function Keep(latest: map<string, Artifact>, a: Artifact): map<string, Artifact> {
    if a.kind !in latest || a.version > latest[a.kind].version then latest[a.kind := a] else latest
  }

  lemma KeepStep(arts: seq<Artifact>, i: nat, latest: map<string, Artifact>)
    requires i < |arts| && LatestSoFar(arts, i, latest)
    ensures LatestSoFar(arts, i + 1, Keep(latest, arts[i]))
  {
    forall t
      ensures t in Keep(latest, arts[i]) <==> Has(arts[..i + 1], t)
      ensures t in Keep(latest, arts[i]) ==>
                LatestAt(arts[..i + 1], t) >= 0 && Keep(latest, arts[i])[t] == arts[LatestAt(arts[..i + 1], t)]
    {
      KeepStepAt(arts, i, latest, t);
    }
  }

  /** `KeepStep` for the entry of one type. */
  lemma KeepStepAt(arts: seq<Artifact>, i: nat, latest: map<string, Artifact>, t: string)
    requires i < |arts|
    requires t in latest <==> Has(arts[..i], t)
    requires t in latest ==> LatestAt(arts[..i], t) >= 0 && latest[t] == arts[LatestAt(arts[..i], t)]
    ensures t in Keep(latest, arts[i]) <==> Has(arts[..i + 1], t)
    ensures t in Keep(latest, arts[i]) ==>
              LatestAt(arts[..i + 1], t) >= 0 && Keep(latest, arts[i])[t] == arts[LatestAt(arts[..i + 1], t)]
  {
    LatestStep(arts, i, t);
    var next := Keep(latest, arts[i]);
    if t != arts[i].kind {
      assert (t in next <==> t in latest) && (t in next ==> next[t] == latest[t]);
    }
  }

  /** One more artifact: the kept position for the longer prefix follows
      from the one for the shorter. */
  lemma LatestStep(arts: seq<Artifact>, i: nat, t: string)
    requires i < |arts|
    ensures LatestAt(arts[..i + 1], t) ==
              var p := LatestAt(arts[..i], t);
              if arts[i].kind == t && (p == -1 || arts[i].version > arts[p].version) then i else p
  {
    assert arts[..i + 1][..i] == arts[..i];
  }

  /** `availableTypes[0] ?? "summary"`, the initial value of the active tab. */
  function InitialTab(keys: seq<string>): string {
    if keys == [] then "summary" else keys[0]
  }

  datatype Tab = Tab(kind: string, caption: string, disabled: bool)

  /** What the first render shows. */
  datatype View = NoArtifacts | Tabs(active: string, tabs: seq<Tab>)

  /** The first render: the "No artifacts yet" card for an empty list,
      otherwise the four tabs in their fixed order, each disabled exactly
      when no artifact of its type exists, with the first type present
      active. */
  method Render(arts: seq<Artifact>) returns (view: View)
    ensures view.NoArtifacts? <==> arts == []
    ensures view.Tabs? ==> view.active == arts[0].kind
    ensures view.Tabs? ==> |view.tabs| == |TabConfig|
    ensures view.Tabs? ==> forall i :: 0 <= i < |view.tabs| ==>
              view.tabs[i].kind == TabConfig[i].0 && view.tabs[i].caption == TabConfig[i].1 &&
              (view.tabs[i].disabled <==> !Has(arts, TabConfig[i].0))
  {
    var latest, keys := GetLatestByType(arts);
    var active := InitialTab(keys);
    if |arts| == 0 {
      return NoArtifacts;
    }
    var tabs: seq<Tab> := [];
    for i := 0 to |TabConfig|
      invariant |tabs| == i
      invariant forall j :: 0 <= j < i ==>
                  tabs[j].kind == TabConfig[j].0 && tabs[j].caption == TabConfig[j].1 &&
                  (tabs[j].disabled <==> !Has(arts, TabConfig[j].0))
    {
      var (kind, caption) := TabConfig[i];
      tabs := tabs + [Tab(kind, caption, kind !in latest)];
    }
    view := Tabs(active, tabs);
  }
}
