/** The OpenAI provider's retry filter and its constructor. The filter
    retries only rate limits and server errors, which the provider raises
    as `RuntimeError("OpenAI error <status>: <body>")`; the constructor
    settles the API key and the base URL. */
module OpenAiProvider {
  import opened Seqs
  import opened Strings

  /** A raised exception: its class matters, and its `str()`. */
  datatype Exception = RuntimeError(message: string) | OtherError(message: string)

  /** `f"error {c}"`. */
  function Code(c: nat): string {
    "error " + NatToString(c)
  }

  /** `any(f"error {c}" in msg for c in range(lo, hi))`. */
  function MentionsAny(msg: string, lo: nat, hi: nat): (r: bool)
    ensures r <==> exists c: nat :: lo <= c < hi && Contains(msg, Code(c))
    decreases hi - lo
  {
    if lo >= hi then false
    else Contains(msg, Code(lo)) || MentionsAny(msg, lo + 1, hi)
  }

  /** `_is_retryable`: only a `RuntimeError` whose message names neither
      401 nor 403, and names 429 or some status from 500 to 599. */
  function IsRetryable(exc: Exception): (r: bool)
    ensures !exc.RuntimeError? ==> !r
    ensures exc.RuntimeError? && (Contains(exc.message, "error 401") || Contains(exc.message, "error 403")) ==> !r
    ensures r <==>
              exc.RuntimeError? && !Contains(exc.message, "error 401") && !Contains(exc.message, "error 403") &&
              (Contains(exc.message, "error 429") ||
               exists c: nat :: 500 <= c < 600 && Contains(exc.message, Code(c)))
  {
    if exc.RuntimeError? then
      var msg := exc.message;
      if Contains(msg, "error 401") || Contains(msg, "error 403") then false
      else if Contains(msg, "error 429") || MentionsAny(msg, 500, 600) then true
      else false
    else false
  }

  /** The message `generate` raises for an HTTP status of 400 or more. */
  function StatusMessage(status: nat, body: string): string {
    "OpenAI " + Code(status) + ": " + body
  }

  lemma MentionsOwnStatus(status: nat, body: string)
    ensures OccursAt(StatusMessage(status, body), Code(status), 7)
    ensures Contains(StatusMessage(status, body), Code(status))
  {
    var msg := StatusMessage(status, body);
    assert msg == "OpenAI " + Code(status) + (": " + body);
    assert msg[7..7 + |Code(status)|] == Code(status);
    ContainsAt(msg, Code(status), 7);
  }

  lemma CodeLiterals()
    ensures Code(429) == "error 429" && Code(401) == "error 401" && Code(403) == "error 403"
  {
    assert NatToString(4) == "4";
    assert NatToString(42) == "42";
    assert NatToString(429) == "429";
    assert NatToString(40) == "40";
    assert NatToString(401) == "401";
    assert NatToString(403) == "403";
  }

  /** The provider's own errors: a 429 or 5xx response is retried and a
      401 or 403 response is not, as long as the body does not name an
      authentication status itself. */
  lemma RaisedStatusRetry(status: nat, body: string)
    requires 400 <= status
    ensures status == 401 || status == 403 ==> !IsRetryable(RuntimeError(StatusMessage(status, body)))
    ensures (status == 429 || 500 <= status < 600) &&
            !Contains(StatusMessage(status, body), "error 401") &&
            !Contains(StatusMessage(status, body), "error 403") ==>
              IsRetryable(RuntimeError(StatusMessage(status, body)))
  {
    MentionsOwnStatus(status, body);
    CodeLiterals();
  }

  /** A provider as constructed. */
  datatype Provider = Provider(apiKey: string, baseUrl: string)

  /** `s.rstrip("/")`. */
  function TrimSlashes(s: string): (r: string)
    ensures |r| <= |s| && r == s[..|r|]
    ensures r == [] || r[|r| - 1] != '/'
    ensures forall i :: |r| <= i < |s| ==> s[i] == '/'
  {
    if s != [] && s[|s| - 1] == '/' then TrimSlashes(s[..|s| - 1]) else s
  }

  /** Python's `x or y` on an optional string: the fallback when `x` is
      `None` or empty. */
  function OrElse(x: Option<string>, fallback: Option<string>): Option<string> {
    if x.Some? && x.value != "" then x else fallback
  }

  /** `OpenAIProvider(api_key, base_url)` with the `openai_api_key` and
      `openai_base_url` settings: the arguments win when non-empty; the
      URL loses its trailing slashes; without a non-empty key the
      constructor raises `ValueError`. */
  function NewProvider(apiKey: Option<string>, baseUrl: Option<string>,
                       settingsKey: Option<string>, settingsBaseUrl: string): (r: Result<Provider, string>)
    ensures r.Err? <==> OrElse(apiKey, settingsKey) == None || OrElse(apiKey, settingsKey) == Some("")
    ensures r.Err? ==> r.error == "OpenAI API key missing. Set COURSEGEN_OPENAI_API_KEY."
    ensures r.Ok? ==> r.value.apiKey != "" &&
                      (apiKey.Some? && apiKey.value != "" ==> r.value.apiKey == apiKey.value) &&
                      (!(apiKey.Some? && apiKey.value != "") ==> Some(r.value.apiKey) == settingsKey)
    ensures r.Ok? ==>
              var base := if baseUrl.Some? && baseUrl.value != "" then baseUrl.value else settingsBaseUrl;
              r.value.baseUrl == TrimSlashes(base) && StartsWith(base, r.value.baseUrl) &&
              (r.value.baseUrl == [] || r.value.baseUrl[|r.value.baseUrl| - 1] != '/')
  {
    var key := OrElse(apiKey, settingsKey);
    var base := OrElse(baseUrl, Some(settingsBaseUrl)).value;
    var url := TrimSlashes(base);
    if key.None? || key.value == "" then Err("OpenAI API key missing. Set COURSEGEN_OPENAI_API_KEY.")
    else Ok(Provider(key.value, url))
  }

  /** A configured URL followed by any number of slashes builds the same
      provider as the URL alone, so `f"{base_url}/responses"` never holds
      a doubled slash of the configuration's making. */
  lemma TrailingSlashesIgnored(apiKey: Option<string>, url: string, extra: nat,
                               settingsKey: Option<string>, settingsBaseUrl: string)
    requires url != [] && url[|url| - 1] != '/'
    ensures NewProvider(apiKey, Some(url + seq(extra, _ => '/')), settingsKey, settingsBaseUrl) ==
            NewProvider(apiKey, Some(url), settingsKey, settingsBaseUrl)
  {
    TrimAppendedSlashes(url, extra);
    TrimAppendedSlashes(url, 0);
  }

  lemma {:induction false} TrimAppendedSlashes(s: string, extra: nat)
    requires s == [] || s[|s| - 1] != '/'
    ensures TrimSlashes(s + seq(extra, _ => '/')) == s
  {
    if extra > 0 {
      var t := s + seq(extra, _ => '/');
      assert t[|t| - 1] == '/';
      assert t[..|t| - 1] == s + seq(extra - 1, _ => '/');
      TrimAppendedSlashes(s, extra - 1);
    } else {
      assert s + seq(0, _ => '/') == s;
    }
  }
}
