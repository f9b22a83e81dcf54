/** The `useArtifacts` hook: the artifacts of one chapter, a `loading`
    flag and an error message, the newest artifact of a type (`byType`) and
    the set of types present (`availableTypes`).

    `getArtifacts` calls are events: `Resolve` and `Reject` may settle any
    unresolved call in any order. The effect passes an abort signal that its
    cleanup aborts when the chapter id changes; `refetch` passes none. */
module UseArtifacts {
  import opened Seqs
  import opened Artifacts
  import ArtifactTabs

  /** `byType(t)`: filter by type, sort newest first, take the head. */
  function ByType(arts: seq<Artifact>, t: string): (r: Option<Artifact>)
    ensures r.None? <==> !Has(arts, t)
    ensures r.Some? ==> r.value.kind == t && r.value in arts
    ensures r.Some? ==> forall a :: a in arts && a.kind == t ==> a.version <= r.value.version
  {
    var f := OfKind(arts, t);
    if f == [] then None
    else
      SortDescHead(f);
      OfKindMembers(arts, t);
      assert forall a :: a in f ==> a.version <= f[FirstMax(f)].version;
      Some(SortDesc(f)[0])
  }

  /** `availableTypes`: the types of all artifacts, collected into a set. */
  function AvailableTypes(arts: seq<Artifact>): (ts: set<string>)
    ensures forall t :: t in ts <==> ByType(arts, t).Some?
  {
    if arts == [] then {}
    else
      ByTypeSnoc(arts);
      AvailableTypes(arts[..|arts| - 1]) + {arts[|arts| - 1].kind}
  }

  /** One more artifact: `byType` finds something for a type exactly when
      it did on the shorter list or the new artifact has that type. */
  lemma ByTypeSnoc(arts: seq<Artifact>)
    requires arts != []
    ensures forall t :: ByType(arts, t).Some? <==>
                          ByType(arts[..|arts| - 1], t).Some? || arts[|arts| - 1].kind == t
  {
    HasSnoc(arts);
  }

  lemma {:induction false} FirstMaxSnoc(f: seq<Artifact>, a: Artifact)
    requires f != []
    ensures FirstMax(f + [a]) ==
              if a.version > f[FirstMax(f)].version then |f| else FirstMax(f)
  {
    var k := FirstMax(f);
    var g := f + [a];
    assert forall j :: 0 <= j < |f| ==> g[j] == f[j];
    assert g[|f|] == a;
    if a.version > f[k].version {
      assert forall j :: 0 <= j < |f| ==> g[j].version <= f[k].version;
      FirstMaxUnique(g, |f|);
    } else {
      assert forall j :: 0 <= j < |g| ==> g[j].version <= g[k].version;
      FirstMaxUnique(g, k);
    }
  }

  /** `byType` and the tabs view agree: both pick the earliest of the
      newest artifacts of a type, since the sort is stable and the map keeps
      a value unless a strictly newer one follows. */
  lemma ByTypeIsLatest(arts: seq<Artifact>, t: string)
    ensures ByType(arts, t) ==
              if Has(arts, t) then Some(arts[ArtifactTabs.LatestAt(arts, t)]) else None
  {
    if Has(arts, t) {
      SortDescHead(OfKind(arts, t));
      FirstMaxIsLatest(arts, t);
    }
  }

  /** The first of the newest in the filtered list is the artifact the
      one-pass map keeps. */
  lemma {:induction false} FirstMaxIsLatest(arts: seq<Artifact>, t: string)
    requires Has(arts, t)
    ensures OfKind(arts, t)[FirstMax(OfKind(arts, t))] == arts[ArtifactTabs.LatestAt(arts, t)]
  {
    var n := |arts| - 1;
    var init := arts[..n];
    var a := arts[n];
    var f := OfKind(init, t);
    if a.kind != t {
      assert Has(init, t) by {
        var j :| 0 <= j < |arts| && arts[j].kind == t;
        assert init[j] == arts[j];
      }
      FirstMaxIsLatest(init, t);
      assert OfKind(arts, t) == f;
    } else if f == [] {
      assert OfKind(arts, t) == [a];
    } else {
      FirstMaxIsLatest(init, t);
      FirstMaxSnoc(f, a);
      assert OfKind(arts, t) == f + [a];
    }
  }

  /** One `getArtifacts` call: the chapter it asked for, whether it carries
      the effect's abort signal, and whether that signal has been aborted. */
  datatype Call = Call(chapter: int, hasSignal: bool, aborted: bool)

  const DefaultError := "Failed to load artifacts"

  class ArtifactsHook {
    /** The `chapterId` argument of the latest render. */
    var chapterId: Option<int>
    var artifacts: seq<Artifact>
    var loading: bool
    var error: Option<string>
    /** Unsettled `getArtifacts` calls by call number. */
    var calls: map<nat, Call>
    var nextCall: nat
    /** The call the current effect run started, which its cleanup aborts. */
    var effectCall: Option<nat>

    ghost predicate Valid()
      reads this
    {
      (forall c :: c in calls ==> c < nextCall) &&
      (effectCall.Some? ==> effectCall.value < nextCall) &&
      // every settled call clears `loading`, so it is only set while a call is open
      (loading ==> calls != map[])
    }

    /** `fetch(signal?)`: without a chapter it empties the list and calls
        nothing; otherwise it sets `loading`, clears `error` and starts a
        call. */
    method Fetch(withSignal: bool) returns (started: Option<nat>)
      requires Valid()
      modifies this
      ensures Valid()
      ensures chapterId == old(chapterId) && effectCall == old(effectCall)
      ensures !Truthy(chapterId) ==>
                started == None && artifacts == [] && loading == old(loading) &&
                error == old(error) && calls == old(calls) && nextCall == old(nextCall)
      ensures Truthy(chapterId) ==>
                started == Some(old(nextCall)) && artifacts == old(artifacts) && loading &&
                error == None && nextCall == old(nextCall) + 1 &&
                calls == old(calls)[old(nextCall) := Call(chapterId.value, withSignal, false)]
    {
      if !Truthy(chapterId) {
        artifacts := [];
        return None;
      }
      loading, error := true, None;
      calls := calls[nextCall := Call(chapterId.value, withSignal, false)];
      started := Some(nextCall);
      assert nextCall in calls;
      nextCall := nextCall + 1;
    }

    /** Mounting: the first render and its effect. */
    constructor (id: Option<int>)
      ensures Valid()
      ensures chapterId == id && error == None && artifacts == []
      ensures Truthy(id) ==>
                loading && calls == map[0 := Call(id.value, true, false)] && effectCall == Some(0) &&
                nextCall == 1
      ensures !Truthy(id) ==> !loading && calls == map[] && effectCall == None && nextCall == 0
    {
      chapterId, artifacts, loading, error := id, [], false, None;
      calls, nextCall, effectCall := map[], 0, None;
      new;
      effectCall := Fetch(true);
    }

    /** A render with chapter id `id`. `fetch` is rebuilt only when the id
        changes; then the effect's cleanup aborts its call and the effect
        runs again with a fresh signal. */
    method Render(id: Option<int>)
      requires Valid()
      modifies this
      ensures Valid()
      ensures chapterId == id
      ensures id == old(chapterId) ==>
                artifacts == old(artifacts) && loading == old(loading) && error == old(error) &&
                calls == old(calls) && effectCall == old(effectCall) && nextCall == old(nextCall)
      ensures id != old(chapterId) ==>
                forall c :: c in old(calls) ==>
                  c in calls && calls[c].chapter == old(calls)[c].chapter &&
                  calls[c].hasSignal == old(calls)[c].hasSignal &&
                  (calls[c].aborted <==> old(calls)[c].aborted || old(effectCall) == Some(c))
      ensures id != old(chapterId) && !Truthy(id) ==>
                artifacts == [] && effectCall == None && loading == old(loading) && error == old(error) &&
                calls.Keys == old(calls).Keys && nextCall == old(nextCall)
      ensures id != old(chapterId) && Truthy(id) ==>
                artifacts == old(artifacts) && loading && error == None &&
                effectCall == Some(old(nextCall)) && nextCall == old(nextCall) + 1 &&
                calls.Keys == old(calls).Keys + {old(nextCall)} &&
                calls[old(nextCall)] == Call(id.value, true, false)
    {
      if id != chapterId {
        if effectCall.Some? && effectCall.value in calls {
          var c := calls[effectCall.value];
          calls := calls[effectCall.value := c.(aborted := true)];
        }
        chapterId := id;
        effectCall := Fetch(true);
      }
    }

    /** `refetch()`: a fetch without a signal, which nothing aborts. */
    method Refetch()
      requires Valid()
      modifies this
      ensures Valid()
      ensures chapterId == old(chapterId) && effectCall == old(effectCall)
      ensures !Truthy(chapterId) ==> artifacts == [] && calls == old(calls) && loading == old(loading)
      ensures Truthy(chapterId) ==>
                loading && error == None && nextCall == old(nextCall) + 1 &&
                calls == old(calls)[old(nextCall) := Call(chapterId.value, false, false)]
    {
      var _ := Fetch(false);
    }

    /** Call `c` returns data. Nothing checks the signal once the
        response has arrived, so the data is stored whether or not the call
        was aborted meanwhile, and whatever chapter the call asked for. */
    method Resolve(c: nat, data: seq<Artifact>)
      requires Valid() && c in calls
      modifies this
      ensures Valid()
      ensures artifacts == data && !loading && error == old(error)
      ensures calls == map k | k in old(calls) && k != c :: old(calls)[k]
      ensures chapterId == old(chapterId) && effectCall == old(effectCall) && nextCall == old(nextCall)
    {
      artifacts, loading := data, false;
      calls := map k | k in calls && k != c :: calls[k];
    }

    /** Call `c` fails. An aborted call fails with an `AbortError`, which
        leaves `error` alone; any other failure stores the error's message,
        or the default text when what was thrown is not an `Error`. */
    method Reject(c: nat, message: Option<string>)
      requires Valid() && c in calls
      modifies this
      ensures Valid()
      ensures artifacts == old(artifacts) && !loading
      ensures old(calls)[c].aborted ==> error == old(error)
      ensures !old(calls)[c].aborted ==>
                error == Some(if message.Some? then message.value else DefaultError)
      ensures calls == map k | k in old(calls) && k != c :: old(calls)[k]
      ensures chapterId == old(chapterId) && effectCall == old(effectCall) && nextCall == old(nextCall)
    {
      if !calls[c].aborted {
        error := Some(if message.Some? then message.value else DefaultError);
      }
      loading := false;
      calls := map k | k in calls && k != c :: calls[k];
    }
  }

  /** A refetch for chapter 1 that settles after the hook moved to chapter
      2 still replaces the list: nothing aborts a call started by
      `refetch`. */
  method StaleRefetchIsApplied(data1: seq<Artifact>)
  {
    var h := new ArtifactsHook(Some(1));
    h.Refetch();
    assert 1 in h.calls && h.calls[1].chapter == 1;
    h.Render(Some(2));
    assert h.chapterId == Some(2) && 1 in h.calls && !h.calls[1].aborted;
    h.Resolve(1, data1);
    assert h.chapterId == Some(2) && h.artifacts == data1;
  }

  /** The effect's call for chapter 1, aborted by the move to chapter 2,
      still stores its data when the response was already on its way: the
      abort only matters while the request is pending. */
  method AbortedCallDataIsApplied(data1: seq<Artifact>)
  {
    var h := new ArtifactsHook(Some(1));
    h.Render(Some(2));
    assert 0 in h.calls && h.calls[0].aborted && h.calls[0].chapter == 1;
    h.Resolve(0, data1);
    assert h.chapterId == Some(2) && h.artifacts == data1 && !h.loading;
  }
}
