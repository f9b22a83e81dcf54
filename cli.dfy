/** The command-line client: the form `ingest` uploads and the JSON body
    `generate` posts. The HTTP calls, the file upload and the printing are
    not modelled; whether the path exists is an input. */
module Cli {
  import opened Seqs
  import GenerationRequest
  import Schemas

  /** The place of each output in the order `generate` appends them. */
  function Rank(output: string): nat {
    if output == "summary" then 0
    else if output == "quiz" then 1
    else if output == "lab" then 2
    else 3
  }

  /** The four `if flag: outputs.append(name)` statements: each output
      whose flag is set, once, in the order summary, quiz, lab,
      takeaways. */
  method Outputs(summary: bool, quiz: bool, lab: bool, takeaways: bool) returns (outputs: seq<string>)
    ensures "summary" in outputs <==> summary
    ensures "quiz" in outputs <==> quiz
    ensures "lab" in outputs <==> lab
    ensures "takeaways" in outputs <==> takeaways
    ensures forall t :: t in outputs ==> GenerationRequest.IsArtifactType(t)
    ensures forall i, j :: 0 <= i < j < |outputs| ==> Rank(outputs[i]) < Rank(outputs[j])
  {
    outputs := [];
    if summary {
      outputs := outputs + ["summary"];
    }
    assert outputs == Flag(summary, "summary");
    if quiz {
      outputs := outputs + ["quiz"];
    }
    assert outputs == Flag(summary, "summary") + Flag(quiz, "quiz");
    if lab {
      outputs := outputs + ["lab"];
    }
    assert outputs == Flag(summary, "summary") + Flag(quiz, "quiz") + Flag(lab, "lab");
    if takeaways {
      outputs := outputs + ["takeaways"];
    }
    assert outputs == Flags(summary, quiz, lab, takeaways);
    FlagsPresent(summary, quiz, lab, takeaways);
    FlagsAscending(summary, quiz, lab, takeaways);
  }

  /** The output `name` when its flag is set. */
  function Flag(set_: bool, name: string): seq<string> {
    if set_ then [name] else []
  }

  /** Outputs in strictly increasing rank, so none twice. */
  ghost predicate Ascending(o: seq<string>) {
    forall i, j :: 0 <= i < j < |o| ==> Rank(o[i]) < Rank(o[j])
  }

  /** Ascending outputs followed by ascending outputs of higher rank stay
      ascending. */
  lemma ConcatAscending(x: seq<string>, y: seq<string>, k: nat)
    requires Ascending(x) && Ascending(y)
    requires forall t :: t in x ==> Rank(t) < k
    requires forall t :: t in y ==> Rank(t) >= k
    ensures Ascending(x + y)
  {
    forall i, j | 0 <= i < j < |x + y|
      ensures Rank((x + y)[i]) < Rank((x + y)[j])
    {
      if j < |x| {
      } else if i >= |x| {
        assert (x + y)[i] == y[i - |x|] && (x + y)[j] == y[j - |x|];
      } else {
        assert (x + y)[i] in x && (x + y)[j] in y;
      }
    }
  }

  /** The outputs of the four flags, in that order. */
  function Flags(summary: bool, quiz: bool, lab: bool, takeaways: bool): seq<string> {
    Flag(summary, "summary") + Flag(quiz, "quiz") + Flag(lab, "lab") + Flag(takeaways, "takeaways")
  }

  /** Each output is there exactly when its flag is set, and nothing else
      is: only artifact types. */
  lemma FlagsPresent(summary: bool, quiz: bool, lab: bool, takeaways: bool)
    ensures var o := Flags(summary, quiz, lab, takeaways);
            ("summary" in o <==> summary) && ("quiz" in o <==> quiz) && ("lab" in o <==> lab) &&
            ("takeaways" in o <==> takeaways) &&
            (forall t :: t in o ==> GenerationRequest.IsArtifactType(t))
  {
  }

  /** The outputs of the four flags are in strictly increasing rank. */
  lemma FlagsAscending(summary: bool, quiz: bool, lab: bool, takeaways: bool)
    ensures Ascending(Flags(summary, quiz, lab, takeaways))
  {
    var a, b, c, d := Flag(summary, "summary"), Flag(quiz, "quiz"), Flag(lab, "lab"), Flag(takeaways, "takeaways");
    ConcatAscending(a, b, 1);
    ConcatAscending(a + b, c, 2);
    ConcatAscending(a + b + c, d, 3);
  }

  /** `payload[k] = v` only when `v` is non-empty. */
  function NonEmpty(v: string): Option<string> {
    if v != "" then Some(v) else None
  }

  /** The body `generate` posts. Code is always included, provider and
      model are sent only when given, and the rest is copied. The server
      accepts it exactly when the chapter index is at least 1 and the three
      settings are among the offered values; an omitted provider or model
      reaches it as absent. */
  method GeneratePayload(bookId: int, chapter: int, summary: bool, quiz: bool, lab: bool, takeaways: bool,
                         difficulty: string, tone: string, length: string,
                         provider: string, model: string, temperature: real)
    returns (payload: Schemas.RawRequest)
    ensures payload.bookId == bookId && payload.chapterIndex == chapter
    ensures forall t :: t in payload.outputs <==>
              (t == "summary" && summary) || (t == "quiz" && quiz) ||
              (t == "lab" && lab) || (t == "takeaways" && takeaways)
    ensures forall i, j :: 0 <= i < j < |payload.outputs| ==> Rank(payload.outputs[i]) < Rank(payload.outputs[j])
    ensures payload.difficulty == Some(difficulty) && payload.tone == Some(tone) && payload.length == Some(length)
    ensures payload.includeCode == Some(true) && payload.temperature == Some(temperature)
    ensures payload.provider == NonEmpty(provider) && payload.model == NonEmpty(model)
    ensures Schemas.Validate(payload).Ok? <==>
              chapter >= 1 && difficulty in Schemas.Difficulties && tone in Schemas.Tones &&
              length in Schemas.Lengths
    ensures Schemas.Validate(payload).Ok? ==>
              Schemas.Validate(payload).value.includeCode &&
              (provider == "" ==> Schemas.Validate(payload).value.provider.None?) &&
              (model == "" ==> Schemas.Validate(payload).value.model.None?)
  {
    var outputs := Outputs(summary, quiz, lab, takeaways);
    payload := Schemas.RawRequest(bookId, chapter, outputs, Some(difficulty), Some(tone), Some(length),
                                  Some(true), None, None, Some(temperature));
    if provider != "" {
      payload := payload.(provider := Some(provider));
    }
    assert payload.provider == NonEmpty(provider);
    if model != "" {
      payload := payload.(model := Some(model));
    }
    assert payload.model == NonEmpty(model);
  }

  /** `ingest`: a missing path is rejected before any request; otherwise
      the form carries the title and the author only when they are
      non-empty. */
  method IngestForm(pathExists: bool, title: string, author: string) returns (r: Result<map<string, string>, string>)
    ensures r.Err? <==> !pathExists
    ensures r.Err? ==> r.error == "File not found"
    ensures r.Ok? ==> ("title" in r.value <==> title != "") && ("author" in r.value <==> author != "")
    ensures r.Ok? && "title" in r.value ==> r.value["title"] == title
    ensures r.Ok? && "author" in r.value ==> r.value["author"] == author
    ensures r.Ok? ==> forall k :: k in r.value ==> k == "title" || k == "author"
  {
    if !pathExists {
      return Err("File not found");
    }
    var data: map<string, string> := map[];
    if title != "" {
      data := data["title" := title];
    }
    if author != "" {
      data := data["author" := author];
    }
    r := Ok(data);
  }
}
