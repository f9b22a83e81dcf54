/** The older `GenerationControls` form of the web client: four output
    check boxes (summary and takeaways on at first), settings, a provider
    whose change resets the model, and `run`, which posts the request with
    the checked outputs — an empty list included — and reports the job id
    or the error.

    React effects run after a render whose dependencies changed; the
    provider effect is modelled by `Commit`, which remembers the provider it
    last ran for. */
module GenerationControls {
  import opened Seqs
  import opened GenerationRequest

  /** The `outputs` object; its keys keep their insertion order summary,
      quiz, lab, takeaways. */
  datatype OutputFlags = OutputFlags(summary: bool, quiz: bool, lab: bool, takeaways: bool)

  function Flag(f: OutputFlags, t: string): bool {
    if t == "summary" then f.summary
    else if t == "quiz" then f.quiz
    else if t == "lab" then f.lab
    else if t == "takeaways" then f.takeaways
    else false
  }

  /** A check box change: `{...prev, [k]: checked}`. */
  function SetFlag(f: OutputFlags, k: string, checked: bool): (g: OutputFlags)
    requires IsArtifactType(k)
    ensures Flag(g, k) == checked
    ensures forall t :: t != k ==> Flag(g, t) == Flag(f, t)
  {
    if k == "summary" then f.(summary := checked)
    else if k == "quiz" then f.(quiz := checked)
    else if k == "lab" then f.(lab := checked)
    else f.(takeaways := checked)
  }

  /** `Object.entries(outputs).filter(([k, v]) => v).map(([k]) => k)`. */
  function Selected(f: OutputFlags): (ks: seq<string>)
  {
    (if f.summary then ["summary"] else []) +
    (if f.quiz then ["quiz"] else []) +
    (if f.lab then ["lab"] else []) +
    (if f.takeaways then ["takeaways"] else [])
  }

  /** The submitted outputs are exactly the checked types, each once, in
      the declared order; nothing checked gives the empty list. */
  lemma SelectedIsCheckedTypes(f: OutputFlags)
    ensures forall t :: t in Selected(f) <==> IsArtifactType(t) && Flag(f, t)
    ensures IsSubseq(Selected(f), ArtifactTypes)
    ensures forall i, j :: 0 <= i < j < |Selected(f)| ==> Selected(f)[i] != Selected(f)[j]
    ensures Selected(f) == [] <==> !f.summary && !f.quiz && !f.lab && !f.takeaways
  {
    SelectedMembers(f);
    SelectedInOrder(f);
    SubseqOfDistinct(Selected(f), ArtifactTypes);
  }

  lemma SelectedMembers(f: OutputFlags)
    ensures forall t :: t in Selected(f) <==> IsArtifactType(t) && Flag(f, t)
  {
    forall t ensures t in Selected(f) <==> IsArtifactType(t) && Flag(f, t) {
      if t == "summary" {
      } else if t == "quiz" {
      } else if t == "lab" {
      } else if t == "takeaways" {
      } else {
        assert !IsArtifactType(t);
      }
    }
  }

  lemma SelectedInOrder(f: OutputFlags)
    ensures IsSubseq(Selected(f), ArtifactTypes)
  {
    var k := if f.takeaways then ["takeaways"] else [];
    PickSubseq("takeaways", f.takeaways, [], []);
    assert k + [] == k;
    PickSubseq("lab", f.lab, k, ["takeaways"]);
    var l := if f.lab then ["lab"] else [];
    PickSubseq("quiz", f.quiz, l + k, ["lab"] + ["takeaways"]);
    var q := if f.quiz then ["quiz"] else [];
    PickSubseq("summary", f.summary, q + (l + k), ["quiz"] + (["lab"] + ["takeaways"]));
    var s := if f.summary then ["summary"] else [];
    assert Selected(f) == s + (q + (l + k));
    assert ArtifactTypes == ["summary"] + (["quiz"] + (["lab"] + ["takeaways"]));
  }

  /** `p?.models?.[0] || ""` for the provider with that id. */
  function ModelForProvider(data: Providers, id: string): (m: string)
    ensures FindProvider(data.providers, id).None? ==> m == ""
    ensures FindProvider(data.providers, id).Some? ==>
              var ms := FindProvider(data.providers, id).value.models;
              m == (if |ms| > 0 then ms[0] else "")
  {
    match FindProvider(data.providers, id)
    case None => ""
    case Some(p) => if |p.models| > 0 then p.models[0] else ""
  }

  /** The first model the load effect picks: the default provider's, else
      the first provider's; `None` when there is no provider at all, where
      `first.models` throws. */
  function InitialModel(data: Providers): (m: Option<string>)
    ensures m.None? <==> FindProvider(data.providers, data.defaultProvider).None? && |data.providers| == 0
    ensures FindProvider(data.providers, data.defaultProvider).Some? ==>
              m == Some(ModelForProvider(data, data.defaultProvider))
    ensures FindProvider(data.providers, data.defaultProvider).None? && |data.providers| > 0 ==>
              m == Some(if |data.providers[0].models| > 0 then data.providers[0].models[0] else "")
  {
    match FindProvider(data.providers, data.defaultProvider)
    case Some(p) => Some(if |p.models| > 0 then p.models[0] else "")
    case None =>
      if |data.providers| == 0 then None
      else
        var p := data.providers[0];
        Some(if |p.models| > 0 then p.models[0] else "")
  }

  /** A thrown value: its `message` when it has one, and `String(e)`. */
  datatype Thrown = Thrown(message: Option<string>, text: string)

  class Controls {
    const bookId: int
    const chapterIndex: int
    var providers: Option<Providers>
    var provider: string
    var model: string
    /** The provider the provider effect last ran for. */
    var effectProvider: string
    var difficulty: string
    var tone: string
    var length: string
    var includeCode: bool
    var temperature: real
    var outputs: OutputFlags
    var busy: bool
    var err: Option<string>
    var sent: seq<Request>
    var jobs: seq<string>
    var pending: nat

    ghost predicate Valid()
      reads this
    {
      busy ==> pending > 0
    }

    /** The first render and its effects: summary and takeaways checked,
        default settings, no provider. */
    constructor (book: int, chapter: int)
      ensures Valid()
      ensures bookId == book && chapterIndex == chapter
      ensures outputs == OutputFlags(true, false, false, true)
      ensures Selected(outputs) == ["summary", "takeaways"]
      ensures providers == None && provider == "" && model == "" && effectProvider == ""
      ensures difficulty == "intermediate" && tone == "tutor" && length == "medium"
      ensures includeCode && temperature == 0.3
      ensures !busy && err == None && sent == [] && jobs == [] && pending == 0
    {
      bookId, chapterIndex := book, chapter;
      providers, provider, model, effectProvider := None, "", "", "";
      difficulty, tone, length := "intermediate", "tutor", "medium";
      includeCode, temperature := true, 0.3;
      outputs := OutputFlags(true, false, false, true);
      busy, err, sent, jobs, pending := false, None, [], [], 0;
    }

    /** Generate is disabled while busy or for a chapter index below 1. */
    function CanGenerate(): (enabled: bool)
      reads this
      ensures enabled <==> !busy && chapterIndex >= 1
    {
      !(busy || chapterIndex < 1)
    }

    /** The models offered for the selected provider. */
    function Models(): (ms: seq<string>)
      reads this
      ensures providers.None? ==> ms == []
      ensures providers.Some? && FindProvider(providers.value.providers, provider).Some? ==>
                ms == FindProvider(providers.value.providers, provider).value.models
    {
      if providers.None? then []
      else match FindProvider(providers.value.providers, provider)
        case None => []
        case Some(p) => p.models
    }

    /** The load effect once `/providers` answers: the catalogue and the
        default provider are set, then the model; with no provider at all
        reading the first model throws (`ok` false) and the model is kept. */
    method LoadProviders(data: Providers) returns (ok: bool)
      requires Valid()
      modifies this`providers, this`provider, this`model
      ensures Valid()
      ensures providers == Some(data) && provider == data.defaultProvider
      ensures ok <==> InitialModel(data).Some?
      ensures ok ==> model == InitialModel(data).value
      ensures !ok ==> model == old(model)
    {
      providers := Some(data);
      provider := data.defaultProvider;
      var m := InitialModel(data);
      if m.None? {
        return false;
      }
      model := m.value;
      return true;
    }

    /** The provider effect after a render: when the provider changed since
        it last ran and the catalogue is loaded, the model becomes the
        provider's first model or "". */
    method Commit()
      requires Valid()
      modifies this`model, this`effectProvider
      ensures Valid()
      ensures effectProvider == provider
      ensures provider != old(effectProvider) && providers.Some? ==>
                model == ModelForProvider(providers.value, provider)
      ensures !(provider != old(effectProvider) && providers.Some?) ==> model == old(model)
    {
      if provider != effectProvider {
        effectProvider := provider;
        if providers.Some? {
          model := ModelForProvider(providers.value, provider);
        }
      }
    }

    /** Choosing a provider, and the effect that follows the render. */
    method SelectProvider(v: string)
      requires Valid()
      modifies this`provider, this`model, this`effectProvider
      ensures Valid()
      ensures provider == v && effectProvider == v
      ensures v != old(effectProvider) && providers.Some? ==> model == ModelForProvider(providers.value, v)
      ensures !(v != old(effectProvider) && providers.Some?) ==> model == old(model)
    {
      provider := v;
      Commit();
    }

    /** A check box change. */
    method SetOutput(k: string, checked: bool)
      requires Valid() && IsArtifactType(k)
      modifies this`outputs
      ensures Valid()
      ensures outputs == SetFlag(old(outputs), k, checked)
    {
      outputs := SetFlag(outputs, k, checked);
    }

    /** The synchronous part of `run`: busy, error cleared, and the request
        with the checked outputs posted; no guard on an empty list. */
    method StartRun() returns (req: Request)
      requires Valid()
      modifies this`busy, this`err, this`sent, this`pending
      ensures Valid()
      ensures busy && err == None && pending == old(pending) + 1
      ensures req == Request(bookId, chapterIndex, Selected(outputs), difficulty, tone, length,
                             includeCode, provider, model, temperature)
      ensures sent == old(sent) + [req]
    {
      busy, err := true, None;
      req := Request(bookId, chapterIndex, Selected(outputs), difficulty, tone, length,
                     includeCode, provider, model, temperature);
      sent := sent + [req];
      pending := pending + 1;
    }

    /** A post settles: the job id goes to `onJob`, or `err` takes the
        thrown value's truthy message, else its string form; `busy` is
        cleared on both paths. */
    method FinishRun(outcome: Result<string, Thrown>)
      requires Valid() && pending > 0
      modifies this`busy, this`err, this`jobs, this`pending
      ensures Valid()
      ensures !busy && pending == old(pending) - 1
      ensures outcome.Ok? ==> jobs == old(jobs) + [outcome.value] && err == old(err)
      ensures outcome.Err? ==> jobs == old(jobs)
      ensures outcome.Err? && outcome.error.message.Some? && outcome.error.message.value != "" ==>
                err == outcome.error.message
      ensures outcome.Err? && !(outcome.error.message.Some? && outcome.error.message.value != "") ==>
                err == Some(outcome.error.text)
    {
      match outcome {
        case Ok(id) =>
          jobs := jobs + [id];
        case Err(e) =>
          err := if e.message.Some? && e.message.value != "" then e.message else Some(e.text);
      }
      busy := false;
      pending := pending - 1;
    }
  }

  /** A default provider missing from the catalogue: the load effect picks
      the first provider's first model, but the provider effect that follows
      (the provider changed from "") resets the model to "". */
  method UnlistedDefaultClearsModel()
  {
    var c := new Controls(1, 1);
    var data := Providers("missing", [Provider("openai", ["gpt-4o-mini"])]);
    var ok := c.LoadProviders(data);
    assert ok && c.model == "gpt-4o-mini";
    c.Commit();
    assert c.model == "";
  }

  /** Unchecking every box does not block a run: the request is posted
      with no outputs. */
  method EmptyOutputsArePosted()
  {
    var c := new Controls(1, 1);
    c.SetOutput("summary", false);
    c.SetOutput("takeaways", false);
    assert Flag(c.outputs, "quiz") == Flag(OutputFlags(true, false, false, true), "quiz");
    assert Flag(c.outputs, "lab") == Flag(OutputFlags(true, false, false, true), "lab");
    assert c.outputs == OutputFlags(false, false, false, false);
    var r := c.StartRun();
    assert r.outputs == [] && c.sent == [r];
  }
}
