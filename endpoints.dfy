/**
 * Endpoint configuration: how a provider name, a base URL and an API key
 * become an OpenAI-compatible client, the connection-test URL, the model
 * field's keep-or-reset rule, the saved-configuration fallback and the
 * performance presets.
 */
module Endpoints {
  import opened Text

  datatype Option<T> = None | Some(value: T)

  /** A value or the message of the ValueError that was raised. */
  datatype Outcome<T> = Ok(value: T) | Fail(message: string)

  // ---------------------------------------------------------------------
  // CUSTOM base URL normalisation (app/patch.py:58-63)
  // ---------------------------------------------------------------------

  /**
   * The normalisation as written: strip, then append "v1" after a trailing
   * '/', or "/v1" otherwise, unless the URL already ends with "/v1".
   */
  function NormalizeCustomAsWritten(base: string): (r: string)
    ensures EndsWith(r, "/v1")
    ensures StartsWith(r, Strip(base))
  {
    var u := Strip(base);
    if EndsWith(u, "/v1") then u
    else if EndsWith(u, "/") then
      SlashThenVersion(u);
      u + "v1"
    else
      AppendedSuffix(u, "/v1");
      u + "/v1"
  }

  lemma SlashThenVersion(u: string)
    requires EndsWith(u, "/")
    ensures EndsWith(u + "v1", "/v1") && StartsWith(u + "v1", u)
  {
    assert (u + "v1")[|u| - 1..] == [u[|u| - 1]] + "v1";
  }

  lemma AppendedSuffix(u: string, a: string)
    ensures EndsWith(u + a, a) && StartsWith(u + a, u)
  {
    assert (u + a)[|u|..] == a;
  }

  /** Normalising twice changes nothing. */
  lemma AsWrittenIdempotent(base: string)
    ensures NormalizeCustomAsWritten(NormalizeCustomAsWritten(base)) == NormalizeCustomAsWritten(base)
  {
    var r := NormalizeCustomAsWritten(base);
    AsWrittenIsClean(base);
    StripOfStripped(r);
    AsWrittenFixed(r);
  }

  /** The as-written result starts with a non-space and ends with '1'. */
  lemma AsWrittenIsClean(base: string)
    ensures var r := NormalizeCustomAsWritten(base); |r| >= 1 && !IsSpace(r[0]) && r[|r| - 1] == '1'
  {
    var u := Strip(base);
    StripEnds(base);
    var r := NormalizeCustomAsWritten(base);
    if EndsWith(u, "/v1") {
      assert r == u && u[|u| - 3..] == "/v1";
    } else if EndsWith(u, "/") {
      assert r == u + "v1" && r[0] == u[0];
    } else {
      assert r == u + "/v1";
      assert u != "" ==> r[0] == u[0];
    }
  }

  /** A clean URL that ends with "/v1" is left alone. */
  lemma AsWrittenFixed(r: string)
    requires Strip(r) == r && EndsWith(r, "/v1")
    ensures NormalizeCustomAsWritten(r) == r
  {
  }

  /** A URL without surrounding whitespace that starts and ends with a non-space is its own strip. */
  lemma StripOfStripped(r: string)
    requires |r| >= 1 && !IsSpace(r[0]) && !IsSpace(r[|r| - 1])
    ensures Strip(r) == r
  {
  }

  /**
   * A base URL that already names the "/v1" path but carries a trailing
   * slash gets a second "v1": the version path is doubled, and the result
   * differs from the one for the same URL without the slash.
   */
  lemma AsWrittenDoublesVersion(p: string)
    requires |p| >= 3 && EndsWith(p, "/v1") && !IsSpace(p[0])
    ensures NormalizeCustomAsWritten(p + "/") == p + "/v1"
    ensures NormalizeCustomAsWritten(p) == p
    ensures NormalizeCustomAsWritten(p + "/") != NormalizeCustomAsWritten(p)
  {
    assert p[|p| - 1] == '1';
    StripOfStripped(p);
    var q := p + "/";
    StripOfStripped(q);
    assert !EndsWith(q, "/v1") by { assert q[|q| - 1] == '/'; }
    assert EndsWith(q, "/");
    assert q + "v1" == p + "/v1";
  }

  /** The concrete case: "https://h/v1/" becomes "https://h/v1/v1". */
  lemma AsWrittenDoublesVersionExample(p: string)
    requires p == "https://h/v1"
    ensures NormalizeCustomAsWritten(p + "/") == "https://h/v1/v1"
  {
    ExampleUrlFacts(p);
    AsWrittenDoublesVersion(p);
  }

  lemma ExampleUrlFacts(p: string)
    requires p == "https://h/v1"
    ensures |p| >= 3 && EndsWith(p, "/v1") && !IsSpace(p[0]) && p + "/v1" == "https://h/v1/v1"
  {
  }

  /** str.rstrip('/') */
  function RStripSlashes(s: string): (r: string)
    ensures |r| <= |s| && r == s[..|r|]
    ensures r == "" || r[|r| - 1] != '/'
    ensures forall i | |r| <= i < |s| :: s[i] == '/'
  {
    if s != "" && s[|s| - 1] == '/' then RStripSlashes(s[..|s| - 1]) else s
  }

  /** Appends "/v1" unless the URL already ends with it. */
  function WithVersion(u: string): (r: string)
    ensures EndsWith(r, "/v1") && StartsWith(r, u)
  {
    if EndsWith(u, "/v1") then u else u + "/v1"
  }

  /**
   * The corrected normalisation: strip, drop trailing slashes, then append
   * "/v1" unless present. This is the rule the connection test applies.
   */
  function NormalizeCustom(base: string): (r: string)
    ensures EndsWith(r, "/v1")
  {
    WithVersion(RStripSlashes(Strip(base)))
  }

  lemma RStripSlashesAppend(s: string)
    ensures RStripSlashes(s + "/") == RStripSlashes(s)
  {
    assert (s + "/")[..|s|] == s;
  }

  /** Adding a trailing slash to a clean URL does not change the corrected result. */
  lemma NormalizeCustomIgnoresTrailingSlash(p: string)
    requires Strip(p) == p
    ensures NormalizeCustom(p + "/") == NormalizeCustom(p)
  {
    StripEnds(p);
    StripAppendSlash(p);
    RStripSlashesAppend(p);
    SameNormalization(p + "/", p);
  }

  /** Two URLs whose stripped forms lose the same trailing slashes normalise alike. */
  lemma SameNormalization(s: string, t: string)
    requires Strip(s) == s && Strip(t) == t && RStripSlashes(s) == RStripSlashes(t)
    ensures NormalizeCustom(s) == NormalizeCustom(t)
  {
  }

  lemma StripAppendSlash(p: string)
    requires p == "" || !IsSpace(p[0])
    ensures Strip(p + "/") == p + "/"
  {
    var q := p + "/";
    assert q[|q| - 1] == '/';
    assert q[0] == if p == "" then '/' else p[0];
    StripOfStripped(q);
  }

  /** The corrected normalisation is idempotent. */
  lemma NormalizeCustomIdempotent(base: string)
    ensures NormalizeCustom(NormalizeCustom(base)) == NormalizeCustom(base)
  {
    var r := NormalizeCustom(base);
    NormalizedIsClean(base);
    StripOfStripped(r);
    assert RStripSlashes(r) == r;
    assert WithVersion(r) == r;
  }

  lemma NormalizedIsClean(base: string)
    ensures var r := NormalizeCustom(base); !IsSpace(r[0]) && r[|r| - 1] == '1'
  {
    var u := Strip(base);
    StripEnds(base);
    var v := RStripSlashes(u);
    FirstOfVersioned(v);
    assert v == "" || v[0] == u[0];
  }

  lemma FirstOfVersioned(v: string)
    ensures var r := WithVersion(v); r[0] == (if v == "" then '/' else v[0]) && r[|r| - 1] == '1'
  {
  }

  /** Where the stripped URL does not end with '/', both normalisations agree. */
  lemma NormalizationsAgree(base: string)
    requires !EndsWith(Strip(base), "/")
    ensures NormalizeCustom(base) == NormalizeCustomAsWritten(base)
  {
    var u := Strip(base);
    assert u == "" || u[|u| - 1] != '/';
    assert RStripSlashes(u) == u;
  }

  // ---------------------------------------------------------------------
  // The endpoint table of model_load (app/patch.py:40-72)
  // ---------------------------------------------------------------------

  /** The arguments handed to openai.OpenAI: None means "not passed". */
  datatype Client = Client(apiKey: Option<string>, baseUrl: Option<string>)

  const MissingBaseMessage := "CUSTOM端点需要提供基础URL"
  const MissingKeyMessage := "CUSTOM端点需要提供API密钥"

  /** os.getenv(name) */
  function Getenv(env: map<string, string>, name: string): Option<string> {
    if name in env then Some(env[name]) else None
  }

  /** `api_key if api_key else os.getenv(name)`; the empty string and None are both false. */
  function KeyOrEnv(apiKey: string, env: map<string, string>, name: string): (k: Option<string>)
    ensures apiKey != "" ==> k == Some(apiKey)
    ensures apiKey == "" ==> k == Getenv(env, name)
  {
    if apiKey != "" then Some(apiKey) else Getenv(env, name)
  }

  /**
   * The arguments model_load hands to openai.OpenAI for an endpoint, or the
   * ValueError it raises first for a CUSTOM endpoint without a base URL or key.
   */
  function ClientArgs(endpoint: string, baseUrl: string, apiKey: string, env: map<string, string>): Outcome<Client> {
    if endpoint == "OpenAI" then Ok(Client(Getenv(env, "OPENAI_API_KEY"), None))
    else if endpoint == "Groq" then
      Ok(Client(KeyOrEnv(apiKey, env, "GROQ_API_KEY"), Some("https://api.groq.com/openai/v1")))
    else if endpoint == "TogetherAI" then
      Ok(Client(KeyOrEnv(apiKey, env, "TOGETHER_API_KEY"), Some("https://api.together.xyz/v1")))
    else if endpoint == "CUSTOM" then
      if baseUrl == "" then Fail(MissingBaseMessage)
      else if apiKey == "" then Fail(MissingKeyMessage)
      else Ok(Client(Some(apiKey), Some(NormalizeCustomAsWritten(baseUrl))))
    else if endpoint == "Ollama" then Ok(Client(Some("ollama"), Some("http://localhost:11434/v1")))
    else Ok(Client(KeyOrEnv(apiKey, env, "OPENAI_API_KEY"), None))
  }

  /**
   * model_load's outcome. The constructor openai.OpenAI is not part of this
   * model: construct gives what it raises for the arguments it is handed, if
   * anything, and that error leaves model_load unchanged.
   */
  function ClientFor(endpoint: string, baseUrl: string, apiKey: string, env: map<string, string>,
                     construct: Client -> Option<string>): (r: Outcome<Client>)
    ensures var a := ClientArgs(endpoint, baseUrl, apiKey, env);
            r.Ok? <==> a.Ok? && construct(a.value).None?
    ensures var a := ClientArgs(endpoint, baseUrl, apiKey, env);
            r.Ok? ==> r.value == a.value
    ensures var a := ClientArgs(endpoint, baseUrl, apiKey, env);
            r.Fail? ==> r.message == (if a.Fail? then a.message else construct(a.value).value)
  {
    match ClientArgs(endpoint, baseUrl, apiKey, env)
    case Fail(m) => Fail(m)
    case Ok(c) => if construct(c).Some? then Fail(construct(c).value) else Ok(c)
  }

  /**
   * The key rule of the openai package's client: an api_key of None falls back
   * to OPENAI_API_KEY, and with neither the constructor raises.
   */
  const NoKeyError := "The api_key client option must be set either by passing api_key to the client or by setting the OPENAI_API_KEY environment variable"

  function KeyFallback(env: map<string, string>, c: Client): Option<string> {
    if c.apiKey.None? && Getenv(env, "OPENAI_API_KEY").None? then Some(NoKeyError) else None
  }

  /**
   * Under that rule, loading Groq, TogetherAI or an unknown endpoint with no
   * key supplied and neither its own variable nor OPENAI_API_KEY set fails
   * with the constructor's error, and so does OpenAI without OPENAI_API_KEY.
   */
  lemma KeylessLoadFails(endpoint: string, baseUrl: string, env: map<string, string>)
    requires endpoint !in {"CUSTOM", "Ollama"}
    requires KeyVariable(endpoint) !in env && "OPENAI_API_KEY" !in env
    ensures ClientFor(endpoint, baseUrl, "", env, c => KeyFallback(env, c)) == Fail(NoKeyError)
  {
    var a := ClientArgs(endpoint, baseUrl, "", env);
    assert a.Ok? && a.value.apiKey == None;
  }

  /**
   * Only CUSTOM is refused before the constructor is reached: it needs a
   * base URL (checked first, before any stripping) and an API key; its client
   * gets the key as given and a base URL ending in "/v1".
   */
  lemma CustomRequirements(endpoint: string, baseUrl: string, apiKey: string, env: map<string, string>)
    ensures ClientArgs(endpoint, baseUrl, apiKey, env).Fail? <==>
            endpoint == "CUSTOM" && (baseUrl == "" || apiKey == "")
    ensures endpoint == "CUSTOM" && baseUrl == "" ==>
            ClientArgs(endpoint, baseUrl, apiKey, env) == Fail(MissingBaseMessage)
    ensures endpoint == "CUSTOM" && baseUrl != "" && apiKey == "" ==>
            ClientArgs(endpoint, baseUrl, apiKey, env) == Fail(MissingKeyMessage)
    ensures endpoint == "CUSTOM" && ClientArgs(endpoint, baseUrl, apiKey, env).Ok? ==>
            var c := ClientArgs(endpoint, baseUrl, apiKey, env).value;
            c.apiKey == Some(apiKey) && c.baseUrl.Some? && EndsWith(c.baseUrl.value, "/v1")
  {
  }

  /** A base URL of blanks passes the emptiness test and becomes just "/v1". */
  lemma BlankCustomBase(baseUrl: string, apiKey: string, env: map<string, string>)
    requires baseUrl != "" && AllSpace(baseUrl) && apiKey != ""
    ensures ClientArgs("CUSTOM", baseUrl, apiKey, env) == Ok(Client(Some(apiKey), Some("/v1")))
  {
    StripEmptyIffAllSpace(baseUrl);
  }

  /** Groq, TogetherAI and Ollama have fixed base URLs; Ollama's key is always "ollama". */
  lemma FixedBaseUrls(baseUrl: string, apiKey: string, env: map<string, string>)
    ensures ClientArgs("Groq", baseUrl, apiKey, env).value.baseUrl == Some("https://api.groq.com/openai/v1")
    ensures ClientArgs("TogetherAI", baseUrl, apiKey, env).value.baseUrl == Some("https://api.together.xyz/v1")
    ensures ClientArgs("Ollama", baseUrl, apiKey, env) == Ok(Client(Some("ollama"), Some("http://localhost:11434/v1")))
  {
  }

  /**
   * For Groq, TogetherAI and any unknown endpoint a supplied key beats the
   * environment; with no key supplied the endpoint's environment variable is used.
   */
  lemma SuppliedKeyWins(endpoint: string, baseUrl: string, apiKey: string, env: map<string, string>)
    requires endpoint !in {"OpenAI", "CUSTOM", "Ollama"}
    ensures ClientArgs(endpoint, baseUrl, apiKey, env).Ok?
    ensures apiKey != "" ==> ClientArgs(endpoint, baseUrl, apiKey, env).value.apiKey == Some(apiKey)
    ensures apiKey == "" ==>
            ClientArgs(endpoint, baseUrl, apiKey, env).value.apiKey == Getenv(env, KeyVariable(endpoint))
  {
  }

  /** The environment variable an endpoint falls back to. */
  function KeyVariable(endpoint: string): string {
    if endpoint == "Groq" then "GROQ_API_KEY"
    else if endpoint == "TogetherAI" then "TOGETHER_API_KEY"
    else "OPENAI_API_KEY"
  }

  /** OpenAI ignores the supplied key and base URL: only the environment decides. */
  lemma OpenAIIgnoresArguments(b1: string, k1: string, b2: string, k2: string, env: map<string, string>)
    ensures ClientArgs("OpenAI", b1, k1, env) == ClientArgs("OpenAI", b2, k2, env)
    ensures ClientArgs("OpenAI", b1, k1, env).value.apiKey == Getenv(env, "OPENAI_API_KEY")
  {
  }

  // ---------------------------------------------------------------------
  // Connection-test URL (translation_agent_gui.py:1595-1613)
  // ---------------------------------------------------------------------

  const ChatPath := "/chat/completions"

  function TestUrl(endpoint: string, baseUrl: string): Outcome<string> {
    if endpoint == "CUSTOM" then
      if baseUrl == "" then Fail("CUSTOM端点需要设置基础URL")
      else Ok(WithVersion(RStripSlashes(baseUrl)) + ChatPath)
    else if endpoint == "OpenAI" then Ok("https://api.openai.com/v1" + ChatPath)
    else if endpoint == "Groq" then Ok("https://api.groq.com/openai/v1" + ChatPath)
    else if endpoint == "TogetherAI" then Ok("https://api.together.xyz/v1" + ChatPath)
    else Fail("不支持的端点: " + endpoint)
  }

  /**
   * For a base URL without surrounding blanks, the connection test posts to
   * the chat route under the corrected normalisation of that URL.
   */
  lemma TestUrlUsesCorrectedBase(baseUrl: string)
    requires baseUrl != "" && Strip(baseUrl) == baseUrl
    ensures TestUrl("CUSTOM", baseUrl) == Ok(NormalizeCustom(baseUrl) + ChatPath)
  {
  }

  /**
   * The connection test and the client disagree on "<p>/v1/": the test
   * succeeds against "<p>/v1/chat/completions" while translation calls go
   * to "<p>/v1/v1".
   */
  lemma TestAndClientDisagree(p: string, apiKey: string, env: map<string, string>)
    requires |p| >= 3 && EndsWith(p, "/v1") && !IsSpace(p[0]) && apiKey != ""
    ensures TestUrl("CUSTOM", p + "/") == Ok(p + ChatPath)
    ensures ClientArgs("CUSTOM", p + "/", apiKey, env) == Ok(Client(Some(apiKey), Some(p + "/v1")))
  {
    TestUrlOfVersioned(p);
    AsWrittenDoublesVersion(p);
    CustomClient(p + "/", apiKey, env);
  }

  lemma TestUrlOfVersioned(p: string)
    requires |p| >= 3 && EndsWith(p, "/v1")
    ensures TestUrl("CUSTOM", p + "/") == Ok(p + ChatPath)
  {
    assert p[|p| - 1] == '1';
    RStripSlashesAppend(p);
    assert RStripSlashes(p) == p;
    assert WithVersion(p) == p;
  }

  lemma CustomClient(baseUrl: string, apiKey: string, env: map<string, string>)
    requires baseUrl != "" && apiKey != ""
    ensures ClientArgs("CUSTOM", baseUrl, apiKey, env) == Ok(Client(Some(apiKey), Some(NormalizeCustomAsWritten(baseUrl))))
  {
  }

  lemma EndsWithAppend(u: string, a: string, b: string)
    requires EndsWith(u, a)
    ensures EndsWith(u + b, a + b)
  {
    assert (u + b)[|u + b| - |a + b|..] == u[|u| - |a|..] + b;
  }

  /** The connection test knows only four endpoints: Ollama is refused though model_load supports it. */
  lemma TestUrlEndpoints(endpoint: string, baseUrl: string)
    ensures TestUrl(endpoint, baseUrl).Ok? <==>
            endpoint in {"OpenAI", "Groq", "TogetherAI"} || (endpoint == "CUSTOM" && baseUrl != "")
    ensures TestUrl(endpoint, baseUrl).Ok? ==> EndsWith(TestUrl(endpoint, baseUrl).value, "/v1" + ChatPath)
  {
    if TestUrl(endpoint, baseUrl).Ok? {
      var u := if endpoint == "CUSTOM" then WithVersion(RStripSlashes(baseUrl))
               else if endpoint == "OpenAI" then "https://api.openai.com/v1"
               else if endpoint == "Groq" then "https://api.groq.com/openai/v1"
               else "https://api.together.xyz/v1";
      assert TestUrl(endpoint, baseUrl).value == u + ChatPath;
      assert EndsWith(u, "/v1");
      EndsWithAppend(u, "/v1", ChatPath);
    }
  }

  // ---------------------------------------------------------------------
  // Connection-test outcome (translation_agent_gui.py:1644-1714)
  // ---------------------------------------------------------------------

  /** What requests.post produced, or the exception the test raised. */
  datatype TestReply = Http(status: nat, hasChoices: bool, body: string) | Thrown(error: string) | NoReplyIn20s

  datatype TestReport = Passed | Rejected(message: string) | Crashed(message: string)

  const TestTimeoutMessage := "API响应超时（20秒）：请检查网络连接和API服务器状态"

  function Prefix(s: string, n: nat): (r: string)
    ensures |r| <= n && StartsWith(s, r)
    ensures |s| <= n ==> r == s
    ensures |s| > n ==> |r| == n
  {
    if |s| <= n then s else s[..n]
  }

  /** The status line shown for an exception, chosen by substring in this order. */
  function ClassifyTestError(e: string): (m: string) {
    if Contains(Lower(e), "timeout") then "❌ 连接超时: 请检查网络连接"
    else if Contains(e, "401") then "❌ API密钥无效 (401): 请检查API密钥"
    else if Contains(e, "404") then "❌ API端点错误 (404): 请检查基础URL和模型名称"
    else if Contains(Lower(e), "connection") then "❌ 网络连接失败: 请检查网络设置"
    else "❌ 连接失败: " + Prefix(e, 50)
  }

  function TestConnection(endpoint: string, baseUrl: string, reply: TestReply): TestReport {
    var url := TestUrl(endpoint, baseUrl);
    if url.Fail? then Crashed(ClassifyTestError(url.message))
    else match reply
      case Http(status, hasChoices, body) =>
        if status == 200 then (if hasChoices then Passed else Rejected("API响应格式异常"))
        else Rejected("HTTP " + NatToString(status) + ": " + Prefix(body, 200))
      case Thrown(e) => Crashed(ClassifyTestError(e))
      case NoReplyIn20s => Crashed(ClassifyTestError(TestTimeoutMessage))
  }

  /** Only a 200 reply with choices passes; non-200 replies report their code. */
  lemma TestConnectionPasses(endpoint: string, baseUrl: string, reply: TestReply)
    ensures TestConnection(endpoint, baseUrl, reply) == Passed <==>
            TestUrl(endpoint, baseUrl).Ok? && reply.Http? && reply.status == 200 && reply.hasChoices
    ensures TestUrl(endpoint, baseUrl).Ok? && reply.Http? && reply.status != 200 ==>
            StartsWith(TestConnection(endpoint, baseUrl, reply).message, "HTTP " + NatToString(reply.status) + ": ")
  {
  }

  /**
   * The 20-second deadline's own message is Chinese and holds none of the
   * keywords, so it is shown as a generic failure, not as a timeout.
   */
  lemma DeadlineShownAsGenericFailure(endpoint: string, baseUrl: string)
    requires TestUrl(endpoint, baseUrl).Ok?
    ensures TestConnection(endpoint, baseUrl, NoReplyIn20s) == Crashed("❌ 连接失败: " + Prefix(TestTimeoutMessage, 50))
  {
    TimeoutMessageChars();
    NoTestKeywordChars(TestTimeoutMessage);
  }

  /** Each keyword of the connection test holds one of 't', 'T' and '4'. */
  predicate NoTestKeywordChar(c: char) {
    c != 't' && c != 'T' && c != '4'
  }

  lemma TimeoutMessageChars()
    ensures forall i | 0 <= i < |TestTimeoutMessage| :: NoTestKeywordChar(TestTimeoutMessage[i])
  {
  }

  /** Text without 't', 'T' and '4' matches none of the connection test's keywords. */
  lemma NoTestKeywordChars(m: string)
    requires forall i | 0 <= i < |m| :: NoTestKeywordChar(m[i])
    ensures ClassifyTestError(m) == "❌ 连接失败: " + Prefix(m, 50)
  {
    assert 't' !in m && 'T' !in m && '4' !in m by {
      forall i | 0 <= i < |m| ensures m[i] != 't' && m[i] != 'T' && m[i] != '4' {
        assert NoTestKeywordChar(m[i]);
      }
    }
    LowerAvoids(m, 't', 'T');
    NotContainsChar(Lower(m), "timeout", 't');
    NotContainsChar(Lower(m), "connection", 't');
    NotContainsChar(m, "401", '4');
    NotContainsChar(m, "404", '4');
  }

  // ---------------------------------------------------------------------
  // update_model (app/app.py:199-229, app/app_local.py:145-171)
  // ---------------------------------------------------------------------

  /** endpoint_model_map.get(endpoint, "") */
  function DefaultModel(endpoint: string): string {
    if endpoint == "Groq" then "llama3-70b-8192"
    else if endpoint == "OpenAI" then "gpt-4o"
    else if endpoint == "TogetherAI" then "Qwen/Qwen2-72B-Instruct"
    else if endpoint == "Ollama" then "llama3"
    else ""
  }

  /** The model-field update: gr.update() keeps the field, gr.update(value=m) sets it. */
  datatype FieldUpdate = Keep | SetTo(model: string)

  /** The model decision and whether the base-URL field is visible; an absent model is "". */
  function UpdateModel(endpoint: string, current: string, loadingConfig: bool): (FieldUpdate, bool) {
    var d := DefaultModel(endpoint);
    var m := if loadingConfig then Keep
             else if current != "" && Strip(current) != "" && current != d then Keep
             else SetTo(d);
    (m, endpoint == "CUSTOM")
  }

  function Apply(current: string, u: FieldUpdate): string {
    if u.Keep? then current else u.model
  }

  /**
   * The field is kept while a configuration loads, or when it holds a
   * non-blank name other than the endpoint's default; otherwise it is reset
   * to the default. The base-URL field is visible exactly for CUSTOM.
   */
  lemma UpdateModelDecision(endpoint: string, current: string, loadingConfig: bool)
    ensures UpdateModel(endpoint, current, loadingConfig).0 == Keep <==>
            loadingConfig || (!AllSpace(current) && current != DefaultModel(endpoint))
    ensures Apply(current, UpdateModel(endpoint, current, loadingConfig).0) in {current, DefaultModel(endpoint)}
    ensures UpdateModel(endpoint, current, loadingConfig).1 <==> endpoint == "CUSTOM"
  {
    StripEmptyIffAllSpace(current);
  }

  /** Running the rule again on its own result keeps that result. */
  lemma UpdateModelStable(endpoint: string, current: string)
    ensures var m := Apply(current, UpdateModel(endpoint, current, false).0);
            Apply(m, UpdateModel(endpoint, m, false).0) == m
  {
  }

  /** A non-blank name that is no endpoint's default survives every endpoint switch. */
  lemma CustomModelSurvivesSwitch(endpoint: string, current: string)
    requires !AllSpace(current)
    requires current !in {"llama3-70b-8192", "gpt-4o", "Qwen/Qwen2-72B-Instruct", "llama3"}
    ensures UpdateModel(endpoint, current, false).0 == Keep
  {
    StripEmptyIffAllSpace(current);
  }

  // ---------------------------------------------------------------------
  // Saved configuration fallback (app/app.py:140-196)
  // ---------------------------------------------------------------------

  /** A JSON value as json.load returns it. */
  datatype Json = JNull | JBool(b: bool) | JNum(x: real) | JStr(s: string) | JList(items: seq<Json>)

  /** cfg(key, default): the stored value unless it is missing, null or "". */
  function Cfg(config: map<string, Json>, key: string, default: Json): (v: Json)
    ensures v == default || (key in config && v == config[key])
  {
    if key !in config || config[key] == JNull || config[key] == JStr("") then default else config[key]
  }

  /** The default is used exactly for a missing key, null or the empty string; false and 0 are kept. */
  lemma CfgFallback(config: map<string, Json>, key: string, default: Json)
    ensures key !in config || config[key] in {JNull, JStr("")} ==> Cfg(config, key, default) == default
    ensures key in config && config[key] !in {JNull, JStr("")} ==> Cfg(config, key, default) == config[key]
    ensures key in config && config[key] in {JBool(false), JNum(0.0)} ==> Cfg(config, key, default) == config[key]
  {
  }

  /** The first endpoint's fields as load_config returns them. */
  datatype Loaded = Loaded(endpoint: Json, model: Json, apiKey: Json, base: Json, baseVisible: bool,
                           sourceLang: Json, targetLang: Json, country: Json,
                           maxTokens: Json, temperature: Json, rpm: Json, choice: Json)

  /** load_config: None when the file is missing or unreadable. */
  function LoadConfig(file: Option<map<string, Json>>): Loaded {
    match file
    case None =>
      Loaded(JStr("OpenAI"), JStr("gpt-4o"), JStr(""), JStr(""), false,
             JStr("Chinese"), JStr("English"), JStr("United States"),
             JNum(1000.0), JNum(0.3), JNum(60.0), JBool(false))
    case Some(c) =>
      var e := Cfg(c, "endpoint", JStr("OpenAI"));
      Loaded(e, Cfg(c, "model", JStr("gpt-4o")), Cfg(c, "api_key", JStr("")),
             Cfg(c, "base", JStr("")), e == JStr("CUSTOM"),
             Cfg(c, "source_lang", JStr("Chinese")), Cfg(c, "target_lang", JStr("English")),
             Cfg(c, "country", JStr("United States")), Cfg(c, "max_tokens", JNum(1000.0)),
             Cfg(c, "temperature", JNum(0.3)), Cfg(c, "rpm", JNum(60.0)), Cfg(c, "choice", JBool(false)))
  }

  /**
   * A saved file whose keys are all missing, null or "" loads exactly the
   * defaults; the base field is visible only for a stored CUSTOM endpoint.
   */
  lemma LoadConfigDefaults(c: map<string, Json>)
    requires forall k | k in c :: c[k] == JNull || c[k] == JStr("")
    ensures LoadConfig(Some(c)) == LoadConfig(None)
  {
  }

  lemma LoadConfigVisibility(file: Option<map<string, Json>>)
    ensures LoadConfig(file).baseVisible <==> LoadConfig(file).endpoint == JStr("CUSTOM")
  {
  }

  // ---------------------------------------------------------------------
  // Performance presets (translation_agent_gui.py:836-869)
  // ---------------------------------------------------------------------

  datatype Preset = Preset(timeout: nat, concurrent: nat, rpm: nat, retries: nat)

  /** None: an unknown mode changes no setting. */
  function PerformancePreset(mode: string): (p: Option<Preset>)
    ensures p.Some? <==> mode in {"快速", "平衡", "稳定"}
  {
    if mode == "快速" then Some(Preset(180, 6, 80, 1))
    else if mode == "平衡" then Some(Preset(300, 4, 60, 2))
    else if mode == "稳定" then Some(Preset(600, 2, 30, 3))
    else None
  }

  /**
   * From 快速 through 平衡 to 稳定 the timeout and the retry count grow while
   * the concurrency and the request rate fall.
   */
  lemma PresetsOrdered(fast: string, balanced: string, stable: string)
    requires fast == "快速" && balanced == "平衡" && stable == "稳定"
    ensures var f, b, s := PerformancePreset(fast).value, PerformancePreset(balanced).value, PerformancePreset(stable).value;
            f.timeout < b.timeout < s.timeout && f.retries < b.retries < s.retries &&
            f.concurrent > b.concurrent > s.concurrent && f.rpm > b.rpm > s.rpm
  {
  }
}
