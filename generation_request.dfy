/** What the two generation forms of the web client send: the artifact type
    names, the providers catalogue they default from, and the request body
    of `POST /generate`. */
module GenerationRequest {
  import opened Seqs

  /** The artifact type literals, in the order the server declares them. */
  const ArtifactTypes: seq<string> := ["summary", "quiz", "lab", "takeaways"]

  predicate IsArtifactType(t: string) {
    t in ArtifactTypes
  }

  datatype Provider = Provider(id: string, models: seq<string>)

  /** The `/providers` response. */
  datatype Providers = Providers(defaultProvider: string, providers: seq<Provider>)

  /** The request body both forms build; every field is sent. */
  datatype Request = Request(
    bookId: int,
    chapterIndex: int,
    outputs: seq<string>,
    difficulty: string,
    tone: string,
    length: string,
    includeCode: bool,
    provider: string,
    model: string,
    temperature: real)

  /** `providers.find(p => p.id === id)`: the first provider with that id. */
  function FindProvider(ps: seq<Provider>, id: string): (found: Option<Provider>)
    ensures found.Some? <==> exists i :: 0 <= i < |ps| && ps[i].id == id
    ensures found.Some? ==> found.value.id == id && found.value in ps
    ensures found.Some? ==> exists i :: 0 <= i < |ps| && ps[i] == found.value &&
                                        forall j :: 0 <= j < i ==> ps[j].id != id
  {
    if ps == [] then None
    else if ps[0].id == id then Some(ps[0])
    else
      var rest := FindProvider(ps[1..], id);
      assert forall i :: 1 <= i < |ps| ==> ps[i] == ps[1..][i - 1];
      rest
  }

  /** `prov?.models[0]` read as a condition: the provider exists and its first
      model is a non-empty string. */
  function TruthyFirstModel(prov: Option<Provider>): (m: Option<string>)
    ensures m.Some? <==> prov.Some? && |prov.value.models| > 0 && prov.value.models[0] != ""
    ensures m.Some? ==> m.value == prov.value.models[0] && m.value != ""
  {
    if prov.Some? && |prov.value.models| > 0 && prov.value.models[0] != "" then
      Some(prov.value.models[0])
    else None
  }
}
