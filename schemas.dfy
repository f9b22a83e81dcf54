/** The server's `GenerateRequest` schema as a validation function: a body
    whose optional fields may be missing is either accepted, with the
    defaults filled in, or rejected with the names of the offending fields
    in declaration order. Values arrive already typed; the coercions the
    validation library performs on mistyped JSON are not modelled. */
module Schemas {
  import opened Seqs
  import GenerationRequest

  const Difficulties: seq<string> := ["beginner", "intermediate", "advanced"]
  const Tones: seq<string> := ["tutor", "socratic", "concise"]
  const Lengths: seq<string> := ["short", "medium", "long"]

  const DefaultDifficulty := "intermediate"
  const DefaultTone := "tutor"
  const DefaultLength := "medium"
  const DefaultTemperature: real := 0.3

  /** A request body as sent; `None` is an absent field. */
  datatype RawRequest = RawRequest(
    bookId: int,
    chapterIndex: int,
    outputs: seq<string>,
    difficulty: Option<string>,
    tone: Option<string>,
    length: Option<string>,
    includeCode: Option<bool>,
    provider: Option<string>,
    model: Option<string>,
    temperature: Option<real>)

  /** A validated request: every field has its value. */
  datatype ValidRequest = ValidRequest(
    bookId: int,
    chapterIndex: int,
    outputs: seq<string>,
    difficulty: string,
    tone: string,
    length: string,
    includeCode: bool,
    provider: Option<string>,
    model: Option<string>,
    temperature: real)

  /** An optional literal field is fine when absent or one of its values. */
  predicate LiteralOk(v: Option<string>, allowed: seq<string>) {
    v.None? || v.value in allowed
  }

  function Or<T>(v: Option<T>, default: T): T {
    if v.Some? then v.value else default
  }

  /** The validated fields in declaration order. */
  const Fields: seq<string> := ["chapter_index", "outputs", "difficulty", "tone", "length"]

  /** The names of the fields that fail their checks. */
  function Errors(raw: RawRequest): seq<string> {
    Named(raw.chapterIndex < 1, "chapter_index") +
    (Named(!forall t :: t in raw.outputs ==> GenerationRequest.IsArtifactType(t), "outputs") +
    (Named(!LiteralOk(raw.difficulty, Difficulties), "difficulty") +
    (Named(!LiteralOk(raw.tone, Tones), "tone") +
     Named(!LiteralOk(raw.length, Lengths), "length"))))
  }

  /** The error name `h` when its check fails, else nothing. */
  function Named(bad: bool, h: string): seq<string> {
    if bad then [h] else []
  }

  /** A field name, when present, in front of names that follow it. */
  lemma NamedThen(bad: bool, x: seq<string>, whole: seq<string>)
    requires whole != [] && IsSubseq(x, whole[1..])
    ensures IsSubseq(Named(bad, whole[0]) + x, whole)
  {
    if bad {
      assert ([whole[0]] + x)[1..] == x;
    } else {
      assert [] + x == x;
      SubseqCons(x, whole);
    }
  }

  /** From a list of five distinct names, a name is picked exactly when
      its flag is set. */
  lemma PickedNamed(f: seq<string>, b1: bool, b2: bool, b3: bool, b4: bool, b5: bool)
    requires |f| == 5 && forall i, j :: 0 <= i < j < 5 ==> f[i] != f[j]
    ensures var e := Named(b1, f[0]) + (Named(b2, f[1]) + (Named(b3, f[2]) + (Named(b4, f[3]) + Named(b5, f[4]))));
            (f[0] in e <==> b1) && (f[1] in e <==> b2) && (f[2] in e <==> b3) &&
            (f[3] in e <==> b4) && (f[4] in e <==> b5)
  {
    InPicked(f[0], f, b1, b2, b3, b4, b5);
    InPicked(f[1], f, b1, b2, b3, b4, b5);
    InPicked(f[2], f, b1, b2, b3, b4, b5);
    InPicked(f[3], f, b1, b2, b3, b4, b5);
    InPicked(f[4], f, b1, b2, b3, b4, b5);
  }

  /** A name is among the picked ones iff it is one whose flag is set. */
  lemma InPicked(x: string, f: seq<string>, b1: bool, b2: bool, b3: bool, b4: bool, b5: bool)
    requires |f| == 5
    ensures x in Named(b1, f[0]) + (Named(b2, f[1]) + (Named(b3, f[2]) + (Named(b4, f[3]) + Named(b5, f[4])))) <==>
            (b1 && x == f[0]) || (b2 && x == f[1]) || (b3 && x == f[2]) || (b4 && x == f[3]) || (b5 && x == f[4])
  { }

  /** Each field is named in the errors exactly when its check fails. */
  lemma ErrorsNamed(raw: RawRequest)
    ensures "chapter_index" in Errors(raw) <==> raw.chapterIndex < 1
    ensures "outputs" in Errors(raw) <==> exists t :: t in raw.outputs && !GenerationRequest.IsArtifactType(t)
    ensures "difficulty" in Errors(raw) <==> !LiteralOk(raw.difficulty, Difficulties)
    ensures "tone" in Errors(raw) <==> !LiteralOk(raw.tone, Tones)
    ensures "length" in Errors(raw) <==> !LiteralOk(raw.length, Lengths)
  {
    assert |Fields[0]| == 13 && |Fields[1]| == 7 && |Fields[2]| == 10 && |Fields[3]| == 4 && |Fields[4]| == 6;
    PickedNamed(Fields, raw.chapterIndex < 1,
                !forall t :: t in raw.outputs ==> GenerationRequest.IsArtifactType(t),
                !LiteralOk(raw.difficulty, Difficulties), !LiteralOk(raw.tone, Tones),
                !LiteralOk(raw.length, Lengths));
  }

  /** Names picked from a list of five come in the list's order. */
  lemma PickedInOrder(f: seq<string>, b1: bool, b2: bool, b3: bool, b4: bool, b5: bool)
    requires |f| == 5
    ensures IsSubseq(Named(b1, f[0]) + (Named(b2, f[1]) + (Named(b3, f[2]) + (Named(b4, f[3]) + Named(b5, f[4])))), f)
  {
    var x4 := Named(b4, f[3]) + Named(b5, f[4]);
    var x3 := Named(b3, f[2]) + x4;
    var x2 := Named(b2, f[1]) + x3;
    NamedThen(b5, [], f[4..]);
    assert Named(b5, f[4]) + [] == Named(b5, f[4]);
    NamedThen(b4, Named(b5, f[4]), f[3..]);
    NamedThen(b3, x4, f[2..]);
    NamedThen(b2, x3, f[1..]);
    NamedThen(b1, x2, f[0..]);
    assert f[0..] == f;
  }

  /** The error names come in declaration order. */
  lemma ErrorsInOrder(raw: RawRequest)
    ensures IsSubseq(Errors(raw), Fields)
  {
    PickedInOrder(Fields, raw.chapterIndex < 1,
                  !forall t :: t in raw.outputs ==> GenerationRequest.IsArtifactType(t),
                  !LiteralOk(raw.difficulty, Difficulties), !LiteralOk(raw.tone, Tones),
                  !LiteralOk(raw.length, Lengths));
  }

  function Validate(raw: RawRequest): (r: Result<ValidRequest, seq<string>>)
    ensures r.Ok? <==>
              raw.chapterIndex >= 1 &&
              (forall t :: t in raw.outputs ==> GenerationRequest.IsArtifactType(t)) &&
              LiteralOk(raw.difficulty, Difficulties) && LiteralOk(raw.tone, Tones) &&
              LiteralOk(raw.length, Lengths)
    ensures r.Err? ==>
              r.error != [] &&
              ("chapter_index" in r.error <==> raw.chapterIndex < 1) &&
              ("outputs" in r.error <==> exists t :: t in raw.outputs && !GenerationRequest.IsArtifactType(t)) &&
              ("difficulty" in r.error <==> !LiteralOk(raw.difficulty, Difficulties)) &&
              ("tone" in r.error <==> !LiteralOk(raw.tone, Tones)) &&
              ("length" in r.error <==> !LiteralOk(raw.length, Lengths))
    ensures r.Err? ==> IsSubseq(r.error, Fields)
    ensures r.Ok? ==>
              var v := r.value;
              v.bookId == raw.bookId && v.chapterIndex == raw.chapterIndex && v.outputs == raw.outputs &&
              v.difficulty in Difficulties && v.tone in Tones && v.length in Lengths &&
              (raw.difficulty.None? ==> v.difficulty == DefaultDifficulty) &&
              (raw.difficulty.Some? ==> v.difficulty == raw.difficulty.value) &&
              (raw.tone.None? ==> v.tone == DefaultTone) &&
              (raw.tone.Some? ==> v.tone == raw.tone.value) &&
              (raw.length.None? ==> v.length == DefaultLength) &&
              (raw.length.Some? ==> v.length == raw.length.value) &&
              (raw.includeCode.None? ==> v.includeCode) &&
              (raw.includeCode.Some? ==> v.includeCode == raw.includeCode.value) &&
              v.provider == raw.provider && v.model == raw.model &&
              (raw.temperature.None? ==> v.temperature == DefaultTemperature) &&
              (raw.temperature.Some? ==> v.temperature == raw.temperature.value)
  {
    ErrorsNamed(raw);
    ErrorsInOrder(raw);
    var errs := Errors(raw);
    if errs != [] then Err(errs)
    else
      Ok(ValidRequest(raw.bookId, raw.chapterIndex, raw.outputs,
                      Or(raw.difficulty, DefaultDifficulty), Or(raw.tone, DefaultTone),
                      Or(raw.length, DefaultLength), Or(raw.includeCode, true),
                      raw.provider, raw.model, Or(raw.temperature, DefaultTemperature)))
  }

  /** The body the web forms send, with every field present. */
  function FromClient(req: GenerationRequest.Request): RawRequest {
    RawRequest(req.bookId, req.chapterIndex, req.outputs, Some(req.difficulty), Some(req.tone),
               Some(req.length), Some(req.includeCode), Some(req.provider), Some(req.model),
               Some(req.temperature))
  }

  /** An empty output list and any temperature, however large or negative,
      pass validation: the schema checks neither. */
  lemma EmptyOutputsAndAnyTemperatureAccepted(book: int, chapter: int, t: real)
    requires chapter >= 1
    ensures var r := Validate(RawRequest(book, chapter, [], None, None, None, None, None, None, Some(t)));
            r.Ok? && r.value.outputs == [] && r.value.temperature == t
  {
  }

  /** A request from the web forms is accepted exactly when its chapter
      index is at least 1, its outputs are artifact types and its settings
      are among the offered literals; it is then kept verbatim. */
  lemma ClientRequestValidation(req: GenerationRequest.Request)
    ensures Validate(FromClient(req)).Ok? <==>
              req.chapterIndex >= 1 &&
              (forall t :: t in req.outputs ==> GenerationRequest.IsArtifactType(t)) &&
              req.difficulty in Difficulties && req.tone in Tones && req.length in Lengths
    ensures Validate(FromClient(req)).Ok? ==>
              Validate(FromClient(req)).value ==
                ValidRequest(req.bookId, req.chapterIndex, req.outputs, req.difficulty, req.tone,
                             req.length, req.includeCode, Some(req.provider), Some(req.model),
                             req.temperature)
  {
  }
}
