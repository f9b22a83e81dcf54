/** The book page's `GenerationPanel`: the set of artifact types to
    generate, the generation settings with their provider/model defaults,
    and `handleGenerate`, which guards against an empty selection, submits
    the request and reports the job id or the error.

    The selection is a JavaScript `Set`, whose iteration order is insertion
    order, so it is modelled as a duplicate-free sequence: `Array.from`
    of it is the sequence itself. The network call is split into its start
    (`StartGenerate`) and its settlement (`FinishGenerate`), which the
    environment reports with the response's job id or the thrown error. */
module GenerationPanel {
  import opened Seqs
  import opened GenerationRequest

  predicate NoDup<T(==)>(xs: seq<T>) {
    forall i, j :: 0 <= i < j < |xs| ==> xs[i] != xs[j]
  }

  /** `toggleOutput` on an insertion-ordered set: a present type is deleted,
      an absent one is added at the end. */
  function ToggleOrdered(xs: seq<string>, x: string): (r: seq<string>)
    requires NoDup(xs)
    ensures NoDup(r)
    ensures x in r <==> x !in xs
    ensures forall y :: y != x ==> (y in r <==> y in xs)
    ensures x !in xs ==> r == xs + [x]
    ensures x in xs ==> |r| == |xs| - 1
  {
    if x !in xs then xs + [x]
    else Remove(xs, x)
  }

  /** `xs` without its single occurrence of `x`, the others in order. */
  function Remove(xs: seq<string>, x: string): (r: seq<string>)
    requires NoDup(xs) && x in xs
    ensures NoDup(r) && x !in r
    ensures forall y :: y != x ==> (y in r <==> y in xs)
    ensures |r| == |xs| - 1
    decreases |xs|
  {
    if xs[0] == x then
      assert x !in xs[1..] by {
        forall k | 0 <= k < |xs[1..]| ensures xs[1..][k] != x {
          assert xs[1..][k] == xs[k + 1];
        }
      }
      xs[1..]
    else
      var rest := Remove(xs[1..], x);
      assert xs == [xs[0]] + xs[1..];
      assert xs[0] !in xs[1..] by {
        forall k | 0 <= k < |xs[1..]| ensures xs[1..][k] != xs[0] {
          assert xs[1..][k] == xs[k + 1];
        }
      }
      [xs[0]] + rest
  }

  /** Toggling a type twice restores the selection as a set, and exactly
      when the type was absent before. */
  lemma ToggleTwice(xs: seq<string>, x: string)
    requires NoDup(xs)
    ensures forall y :: y in ToggleOrdered(ToggleOrdered(xs, x), x) <==> y in xs
    ensures x !in xs ==> ToggleOrdered(ToggleOrdered(xs, x), x) == xs
  {
    if x !in xs {
      RemoveLast(xs + [x], x);
      assert (xs + [x])[..|xs|] == xs;
    }
  }

  /** Toggling the first type of the selection drops it from the front. */
  lemma ToggleHead(xs: seq<string>, x: string)
    requires NoDup(xs) && xs != [] && xs[0] == x
    ensures ToggleOrdered(xs, x) == xs[1..]
  {
  }

  lemma {:induction false} RemoveLast(ys: seq<string>, x: string)
    requires NoDup(ys) && ys != [] && ys[|ys| - 1] == x
    ensures Remove(ys, x) == ys[..|ys| - 1]
    decreases |ys|
  {
    if ys[0] == x {
      assert |ys| == 1;
    } else {
      assert NoDup(ys[1..]);
      RemoveLast(ys[1..], x);
      assert ys[1..][..|ys| - 2] == ys[1..|ys| - 1];
      assert [ys[0]] + ys[1..|ys| - 1] == ys[..|ys| - 1];
    }
  }

  /** `default_provider || providers[0]?.id`, when that is truthy. */
  function DefaultProviderId(data: Providers): (p: Option<string>)
    ensures data.defaultProvider != "" ==> p == Some(data.defaultProvider)
    ensures data.defaultProvider == "" && |data.providers| > 0 && data.providers[0].id != "" ==>
              p == Some(data.providers[0].id)
    ensures p.None? <==> data.defaultProvider == "" && (|data.providers| == 0 || data.providers[0].id == "")
  {
    if data.defaultProvider != "" then Some(data.defaultProvider)
    else if |data.providers| > 0 && data.providers[0].id != "" then Some(data.providers[0].id)
    else None
  }

  class Panel {
    const bookId: int
    const chapterIndex: int
    var providersData: Option<Providers>
    var busy: bool
    var error: Option<string>
    var provider: string
    var model: string
    var difficulty: string
    var tone: string
    var length: string
    var includeCode: bool
    var temperature: real
    var outputs: seq<string>
    /** Requests handed to `generate`, and job ids handed to `onJob`. */
    var sent: seq<Request>
    var jobs: seq<string>
    /** Submissions not yet settled. */
    var pending: nat

    ghost predicate Valid()
      reads this
    {
      NoDup(outputs) && (busy ==> pending > 0)
    }

    /** The first render: every artifact type selected, default settings,
        no provider chosen yet. */
    constructor (book: int, chapter: int)
      ensures Valid()
      ensures bookId == book && chapterIndex == chapter
      ensures outputs == ["summary", "takeaways", "quiz", "lab"]
      ensures forall t :: t in outputs <==> IsArtifactType(t)
      ensures !busy && error == None && provider == "" && model == ""
      ensures difficulty == "intermediate" && tone == "tutor" && length == "medium"
      ensures includeCode && temperature == 0.3
      ensures sent == [] && jobs == [] && pending == 0 && providersData == None
    {
      bookId, chapterIndex := book, chapter;
      providersData, busy, error := None, false, None;
      provider, model := "", "";
      difficulty, tone, length := "intermediate", "tutor", "medium";
      includeCode, temperature := true, 0.3;
      outputs := ["summary", "takeaways", "quiz", "lab"];
      sent, jobs, pending := [], [], 0;
    }

    /** The models listed for the selected provider, or none. */
    function CurrentProviderModels(): (ms: seq<string>)
      reads this
      ensures providersData.Some? && FindProvider(providersData.value.providers, provider).Some? ==>
                ms == FindProvider(providersData.value.providers, provider).value.models
      ensures providersData.None? ==> ms == []
    {
      if providersData.None? then []
      else
        match FindProvider(providersData.value.providers, provider)
        case None => []
        case Some(p) => p.models
    }

    /** The generate button is enabled unless busy or nothing is selected. */
    function CanGenerate(): (enabled: bool)
      reads this
      ensures enabled <==> !busy && |outputs| > 0
    {
      !(busy || |outputs| == 0)
    }

    /** The providers effect: choose the default provider, and its first
        model when it has a non-empty one. */
    method ProvidersLoaded(data: Providers)
      requires Valid()
      modifies this
      ensures Valid()
      ensures providersData == Some(data)
      ensures DefaultProviderId(data).Some? ==> provider == DefaultProviderId(data).value
      ensures DefaultProviderId(data).None? ==> provider == old(provider) && model == old(model)
      ensures DefaultProviderId(data).Some? ==>
                var m := TruthyFirstModel(FindProvider(data.providers, DefaultProviderId(data).value));
                model == (if m.Some? then m.value else old(model))
      ensures outputs == old(outputs) && busy == old(busy) && error == old(error)
      ensures sent == old(sent) && jobs == old(jobs) && pending == old(pending)
    {
      providersData := Some(data);
      var p := DefaultProviderId(data);
      if p.Some? {
        provider := p.value;
        var m := TruthyFirstModel(FindProvider(data.providers, p.value));
        if m.Some? {
          model := m.value;
        }
      }
    }

    /** Choosing a provider in the settings. */
    method SelectProvider(v: string)
      requires Valid()
      modifies this`provider, this`model
      ensures Valid()
      ensures provider == v
      ensures providersData.Some? && TruthyFirstModel(FindProvider(providersData.value.providers, v)).Some? ==>
                model == FindProvider(providersData.value.providers, v).value.models[0]
      ensures !(providersData.Some? && TruthyFirstModel(FindProvider(providersData.value.providers, v)).Some?) ==>
                model == old(model)
    {
      provider := v;
      if providersData.Some? {
        var m := TruthyFirstModel(FindProvider(providersData.value.providers, v));
        if m.Some? {
          model := m.value;
        }
      }
    }

    /** `toggleOutput`. */
    method ToggleOutput(t: string)
      requires Valid()
      modifies this`outputs
      ensures Valid()
      ensures outputs == ToggleOrdered(old(outputs), t)
    {
      outputs := ToggleOrdered(outputs, t);
    }

    /** The synchronous part of `handleGenerate`: with nothing selected it
        returns before any change; otherwise it marks the panel busy, clears
        the error and sends a request that copies the props, the selection
        and every setting. */
    method StartGenerate() returns (req: Option<Request>)
      requires Valid()
      modifies this
      ensures Valid()
      ensures old(outputs) == [] ==> req == None && unchanged(this)
      ensures old(outputs) != [] ==>
                req == Some(Request(bookId, chapterIndex, outputs, difficulty, tone, length,
                                    includeCode, provider, model, temperature)) &&
                busy && error == None && sent == old(sent) + [req.value] &&
                pending == old(pending) + 1
      ensures outputs == old(outputs) && provider == old(provider) && model == old(model)
      ensures jobs == old(jobs)
    {
      if |outputs| == 0 {
        return None;
      }
      busy := true;
      error := None;
      var r := Request(bookId, chapterIndex, outputs, difficulty, tone, length,
                       includeCode, provider, model, temperature);
      sent := sent + [r];
      pending := pending + 1;
      req := Some(r);
    }

    /** A submission settles: `Ok(jobId)` reports the id to `onJob`;
        `Err(m)` stores the thrown `Error`'s message, or "Generation failed"
        for a thrown value that is not an `Error`. `busy` ends false either
        way. */
    method FinishGenerate(outcome: Result<string, Option<string>>)
      requires Valid() && pending > 0
      modifies this
      ensures Valid()
      ensures !busy && pending == old(pending) - 1
      ensures outcome.Ok? ==> jobs == old(jobs) + [outcome.value] && error == old(error)
      ensures outcome.Err? ==> jobs == old(jobs)
      ensures outcome.Err? && outcome.error.Some? ==> error == outcome.error
      ensures outcome.Err? && outcome.error.None? ==> error == Some("Generation failed")
      ensures outputs == old(outputs) && sent == old(sent)
    {
      match outcome {
        case Ok(id) =>
          jobs := jobs + [id];
        case Err(m) =>
          error := if m.Some? then m else Some("Generation failed");
      }
      busy := false;
      pending := pending - 1;
    }
  }

  /** Deselecting the four initially selected types one by one, in their
      initial order, empties the selection; `StartGenerate` then sends
      nothing. */
  lemma DeselectAll()
    ensures var xs := ["summary", "takeaways", "quiz", "lab"];
            NoDup(xs) &&
            ToggleOrdered(ToggleOrdered(ToggleOrdered(ToggleOrdered(xs, "summary"), "takeaways"), "quiz"), "lab") == []
  {
    var xs := ["summary", "takeaways", "quiz", "lab"];
    assert NoDup(xs);
    ToggleHead(xs, "summary");
    ToggleHead(xs[1..], "takeaways");
    ToggleHead(xs[2..], "quiz");
    ToggleHead(xs[3..], "lab");
  }
}
