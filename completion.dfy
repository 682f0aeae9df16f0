/**
 * The call gate in front of the chat API: the module-level settings that
 * model_load writes, the rate limiter around get_completion, the timeout
 * tiers and the ordered error classifier.
 */
module Completion {
  import opened Text
  import opened Endpoints

  // ---------------------------------------------------------------------
  // Timeout tiers (app/patch.py:132-139)
  // ---------------------------------------------------------------------

  /** The request timeout in seconds for a prompt of the given length. */
  function TimeoutFor(promptLength: nat): (t: nat)
    ensures t in {300, 600, 900}
  {
    if promptLength < 2000 then 300 else if promptLength < 8000 then 600 else 900
  }

  /** A longer prompt never gets a shorter timeout. */
  lemma TimeoutMonotone(a: nat, b: nat)
    requires a <= b
    ensures TimeoutFor(a) <= TimeoutFor(b)
  {
  }

  /** The tier boundaries: 300 exactly below 2000 characters, 900 exactly from 8000 on. */
  lemma TimeoutTiers(n: nat)
    ensures TimeoutFor(n) == 300 <==> n < 2000
    ensures TimeoutFor(n) == 900 <==> n >= 8000
    ensures TimeoutFor(n) / 60 in {5, 10, 15}
  {
  }

  // ---------------------------------------------------------------------
  // Error classification (app/patch.py:158-170, 187-199)
  // ---------------------------------------------------------------------

  datatype ErrorKind = TimedOut | NotFound | Unauthorized | RateLimited | ServerError | Unexpected

  /** The first rule whose keyword occurs in the error text decides; timeouts match case-insensitively. */
  function Classify(e: string): ErrorKind {
    if Contains(Lower(e), "timeout") || Contains(Lower(e), "timed out") then TimedOut
    else if Contains(e, "404") || Contains(e, "Not Found") then NotFound
    else if Contains(e, "401") || Contains(e, "Unauthorized") then Unauthorized
    else if Contains(e, "429") then RateLimited
    else if Contains(e, "500") || Contains(e, "502") || Contains(e, "503") then ServerError
    else Unexpected
  }

  /** A classification rule: its keywords, and whether they are matched against the lower-cased text. */
  datatype Rule = Rule(kind: ErrorKind, keywords: seq<string>, lowered: bool)

  const Rules: seq<Rule> := [
    Rule(TimedOut, ["timeout", "timed out"], true),
    Rule(NotFound, ["404", "Not Found"], false),
    Rule(Unauthorized, ["401", "Unauthorized"], false),
    Rule(RateLimited, ["429"], false),
    Rule(ServerError, ["500", "502", "503"], false)
  ]

  predicate Matches(r: Rule, e: string) {
    exists k | 0 <= k < |r.keywords| :: Contains(if r.lowered then Lower(e) else e, r.keywords[k])
  }

  /** A reference reading of the classifier: scan the rule table and take the first rule that matches. */
  function FirstMatch(rules: seq<Rule>, e: string): ErrorKind {
    if rules == [] then Unexpected
    else if Matches(rules[0], e) then rules[0].kind
    else FirstMatch(rules[1..], e)
  }

  lemma MatchesOne(r: Rule, e: string)
    requires |r.keywords| == 1 && !r.lowered
    ensures Matches(r, e) <==> Contains(e, r.keywords[0])
  {
  }

  lemma MatchesTwo(r: Rule, e: string)
    requires |r.keywords| == 2
    ensures Matches(r, e) <==>
            var t := if r.lowered then Lower(e) else e;
            Contains(t, r.keywords[0]) || Contains(t, r.keywords[1])
  {
  }

  lemma MatchesThree(r: Rule, e: string)
    requires |r.keywords| == 3
    ensures Matches(r, e) <==> Contains(e, r.keywords[0]) || Contains(e, r.keywords[1]) || Contains(e, r.keywords[2])
    requires !r.lowered
  {
  }

  /** The if-chain is the first-match scan of the rule table, in the table's order. */
  lemma ClassifyIsFirstMatch(e: string)
    ensures Classify(e) == FirstMatch(Rules, e)
  {
    var r0 := Rules;
    var r1 := r0[1..];
    var r2 := r1[1..];
    var r3 := r2[1..];
    var r4 := r3[1..];
    MatchesTwo(r0[0], e);
    MatchesTwo(r1[0], e);
    MatchesTwo(r2[0], e);
    MatchesOne(r3[0], e);
    MatchesThree(r4[0], e);
    assert r4[1..] == [];
    assert FirstMatch(r4, e) == if Matches(r4[0], e) then ServerError else Unexpected;
    assert FirstMatch(r3, e) == if Matches(r3[0], e) then RateLimited else FirstMatch(r4, e);
    assert FirstMatch(r2, e) == if Matches(r2[0], e) then Unauthorized else FirstMatch(r3, e);
    assert FirstMatch(r1, e) == if Matches(r1[0], e) then NotFound else FirstMatch(r2, e);
  }

  /** An error that names both 404 and 401 is reported as 404; a timeout wins over every status code. */
  lemma ClassifyPriority(e: string)
    ensures Contains(e, "404") ==> Classify(e) in {TimedOut, NotFound}
    ensures Contains(e, "401") ==> Classify(e) in {TimedOut, NotFound, Unauthorized}
    ensures Contains(Lower(e), "timed out") ==> Classify(e) == TimedOut
  {
  }

  const EmptyReplyMessage := "API返回空响应: 模型未返回任何内容"

  lemma EmptyReplyMessageChars()
    ensures forall i | 0 <= i < |EmptyReplyMessage| :: NoKeywordChar(EmptyReplyMessage[i])
  {
  }

  /**
   * The empty-reply error is raised inside the same try block and matches no
   * rule, so it is re-reported as an unexpected error.
   */
  lemma EmptyReplyIsUnexpected()
    ensures Classify(EmptyReplyMessage) == Unexpected
  {
    EmptyReplyMessageChars();
    NoKeywordChars(EmptyReplyMessage);
  }

  /** Each keyword of the classifier holds one of these characters. */
  predicate NoKeywordChar(c: char) {
    c != 'u' && c != 'U' && c != '4' && c != '5' && c != 'N'
  }

  /** Text without 'u', 'U', 'N', '4' and '5' can match no keyword of the classifier. */
  lemma NoKeywordChars(m: string)
    requires forall i | 0 <= i < |m| :: NoKeywordChar(m[i])
    ensures Classify(m) == Unexpected
  {
    assert 'u' !in m && 'U' !in m && '4' !in m && '5' !in m && 'N' !in m by {
      forall i | 0 <= i < |m| ensures m[i] != 'u' && m[i] != 'U' && m[i] != '4' && m[i] != '5' && m[i] != 'N' {
        assert NoKeywordChar(m[i]);
      }
    }
    LowerAvoids(m, 'u', 'U');
    NotContainsChar(Lower(m), "timeout", 'u');
    NotContainsChar(Lower(m), "timed out", 'u');
    NotContainsChar(m, "404", '4');
    NotContainsChar(m, "Not Found", 'N');
    NotContainsChar(m, "401", '4');
    NotContainsChar(m, "Unauthorized", 'U');
    NotContainsChar(m, "429", '4');
    NotContainsChar(m, "500", '5');
    NotContainsChar(m, "502", '5');
    NotContainsChar(m, "503", '5');
  }

  /** The text of the gr.Error raised for an API error, given the request's timeout. */
  function ErrorMessage(e: string, timeoutSeconds: nat): string {
    match Classify(e)
    case TimedOut =>
      "API请求超时 (" + NatToString(timeoutSeconds / 60) + "分钟): 请检查网络连接或尝试减少文本长度。错误详情: " + e
    case NotFound => "API端点或模型不存在 (404): 请检查基础URL和模型名称是否正确。错误详情: " + e
    case Unauthorized => "API密钥无效 (401): 请检查API密钥是否正确。错误详情: " + e
    case RateLimited => "请求过于频繁 (429): 请稍后再试或降低请求频率。错误详情: " + e
    case ServerError => "服务器错误 (" + e + "): API服务器暂时不可用，请稍后重试。"
    case Unexpected => "发生意外错误: " + e
  }

  /** Every report except the server-error one ends with the original error text. */
  lemma ErrorMessageKeepsDetail(e: string, timeoutSeconds: nat)
    ensures Classify(e) != ServerError ==> EndsWith(ErrorMessage(e, timeoutSeconds), e)
    ensures Classify(e) == ServerError ==> Contains(ErrorMessage(e, timeoutSeconds), e)
  {
    var m := ErrorMessage(e, timeoutSeconds);
    if Classify(e) == ServerError {
      ContainsAt(m, e, |"服务器错误 ("|);
    } else {
      assert m[|m| - |e|..] == e;
    }
  }

  // ---------------------------------------------------------------------
  // The module state and get_completion (app/patch.py:14-38, 75-199)
  // ---------------------------------------------------------------------

  /** ENDPOINT, RPM, MODEL, TEMPERATURE and JS_MODE. */
  datatype Settings = Settings(endpoint: string, rpm: int, model: string, temperature: real, jsMode: bool)

  /** What the API client receives. */
  datatype Request = Request(model: string, temperature: real, jsonFormat: bool, timeout: nat,
                             systemMessage: string, prompt: string)

  /** What chat.completions.create produced, or the text of the exception it raised. */
  datatype Reply = Choices(contents: seq<string>) | ApiFailure(error: string)

  /** What get_completion returned, or the message of the error it raised. */
  datatype CallResult = Returned(content: string) | Raised(message: string)

  const ZeroRpmMessage := "float division by zero"
  const NoClientMessage := "name 'client' is not defined"

  /**
   * The seconds the limiter sleeps: what is left of the minimum interval
   * 60/rpm since the last stamped call, and nothing when that has passed.
   */
  function WaitBeforeCall(rpm: int, now: real, last: real): (w: real)
    requires rpm != 0
    ensures w >= 0.0
    ensures w == 0.0 || now + w - last == 60.0 / rpm as real
    ensures rpm > 0 ==> now + w - last >= 60.0 / rpm as real
  {
    var left := 60.0 / rpm as real - (now - last);
    if left > 0.0 then left else 0.0
  }

  /** The request uses the module settings, never the caller's model, temperature or JSON flag. */
  function BuildRequest(s: Settings, systemMessage: string, prompt: string): (r: Request)
    ensures r.model == s.model && r.temperature == s.temperature && r.jsonFormat == s.jsMode
    ensures r.timeout == TimeoutFor(|prompt|)
  {
    Request(s.model, s.temperature, s.jsMode, TimeoutFor(|prompt|), systemMessage, prompt)
  }

  lemma NoClientMessageChars()
    ensures forall i | 0 <= i < |NoClientMessage| :: NoKeywordChar(NoClientMessage[i])
  {
  }

  /** The text of the first choice, or the classified error. */
  function Answer(reply: Reply, timeoutSeconds: nat): (r: CallResult)
    ensures r.Returned? <==> reply.Choices? && reply.contents != []
    ensures reply.Choices? && reply.contents == [] ==> r == Raised("发生意外错误: " + EmptyReplyMessage)
  {
    match reply
    case Choices(cs) =>
      if cs == [] then
        EmptyReplyIsUnexpected();
        Raised(ErrorMessage(EmptyReplyMessage, timeoutSeconds))
      else Returned(cs[0])
    case ApiFailure(e) => Raised(ErrorMessage(e, timeoutSeconds))
  }

  lemma NoClientIsUnexpected()
    ensures Classify(NoClientMessage) == Unexpected
  {
    NoClientMessageChars();
    NoKeywordChars(NoClientMessage);
  }

  /** Calling before any client is loaded raises NameError, reported as an unexpected error. */
  lemma NoClientReport(timeoutSeconds: nat)
    ensures ErrorMessage(NoClientMessage, timeoutSeconds) == "发生意外错误: " + NoClientMessage
  {
    NoClientIsUnexpected();
  }

  /** The module app/patch.py: its globals and the rate limiter's last_called cell. */
  class Patch {
    var settings: Settings
    /** The global `client`; None until a model_load succeeds. */
    var client: Option<Client>
    /** last_called[0]: when the last call that returned finished. */
    var lastCalled: real

    constructor()
      ensures settings == Settings("", 60, "", 0.3, false)
      ensures client == None && lastCalled == 0.0
    {
      settings := Settings("", 60, "", 0.3, false);
      client := None;
      lastCalled := 0.0;
    }

    /**
     * model_load: the five settings are written first, so they change even
     * when a CUSTOM endpoint then raises; the client changes only on success.
     */
    method ModelLoad(endpoint: string, baseUrl: string, model: string, apiKey: string,
                     temperature: real, rpm: int, jsMode: bool, env: map<string, string>,
                     construct: Client -> Option<string>)
      returns (r: Outcome<Client>)
      modifies this
      ensures settings == Settings(endpoint, rpm, model, temperature, jsMode)
      ensures r == ClientFor(endpoint, baseUrl, apiKey, env, construct)
      ensures client == (if r.Ok? then Some(r.value) else old(client))
      ensures lastCalled == old(lastCalled)
    {
      settings := Settings(endpoint, rpm, model, temperature, jsMode);
      r := ClientFor(endpoint, baseUrl, apiKey, env, construct);
      if r.Ok? {
        client := Some(r.value);
      }
    }

    /**
     * get_completion behind the rate limiter. The environment supplies the
     * clock reading on entry (now), the API's reply and the clock reading
     * when the call returns (finish). The lock is held throughout, so calls
     * never overlap.
     */
    method GetCompletion(prompt: string, systemMessage: string, model: string, temperature: real,
                         jsonMode: bool, now: real, reply: Reply, finish: real)
      returns (request: Option<Request>, result: CallResult, waited: real)
      requires settings.rpm != 0 ==> finish >= now + WaitBeforeCall(settings.rpm, now, lastCalled)
      modifies this
      ensures settings == old(settings) && client == old(client)
      ensures settings.rpm == 0 ==>
                request == None && result == Raised(ZeroRpmMessage) && waited == 0.0
      ensures settings.rpm != 0 ==> waited == WaitBeforeCall(settings.rpm, now, old(lastCalled))
      ensures settings.rpm != 0 && client.None? ==>
                request == None && result == Raised("发生意外错误: " + NoClientMessage)
      ensures settings.rpm != 0 && client.Some? ==>
                request == Some(BuildRequest(settings, systemMessage, prompt)) &&
                result == Answer(reply, TimeoutFor(|prompt|))
      ensures settings.rpm > 0 && request.Some? ==> now + waited - old(lastCalled) >= 60.0 / settings.rpm as real
      ensures lastCalled == if result.Returned? then finish else old(lastCalled)
    {
      if settings.rpm == 0 {
        return None, Raised(ZeroRpmMessage), 0.0;
      }
      waited := WaitBeforeCall(settings.rpm, now, lastCalled);
      if client.None? {
        NoClientReport(TimeoutFor(|prompt|));
        request := None;
        result := Raised(ErrorMessage(NoClientMessage, TimeoutFor(|prompt|)));
        return;
      }
      var req := BuildRequest(settings, systemMessage, prompt);
      request := Some(req);
      result := Answer(reply, req.timeout);
      if result.Returned? {
        lastCalled := finish;
      }
    }
  }

  /**
   * Successive calls through the limiter: each admitted call starts no
   * sooner than 60/rpm after the end of the last call that returned. A
   * trace of (now, rpm, returned, finish) steps is replayed from last_called.
   */
  datatype Step = Step(now: real, rpm: int, returned: bool, finish: real)

  /** The start times of the steps, replayed from last_called = last. */
  function Starts(steps: seq<Step>, last: real): (starts: seq<real>)
    requires forall i | 0 <= i < |steps| :: steps[i].rpm > 0
    ensures |starts| == |steps|
  {
    if steps == [] then []
    else
      var s := steps[0];
      var start := s.now + WaitBeforeCall(s.rpm, s.now, last);
      [start] + Starts(steps[1..], if s.returned then s.finish else last)
  }

  /** The last_called value before each step. */
  function LastBefore(steps: seq<Step>, last: real): (ls: seq<real>)
    ensures |ls| == |steps|
  {
    if steps == [] then []
    else [last] + LastBefore(steps[1..], if steps[0].returned then steps[0].finish else last)
  }

  lemma {:induction false} SpacingHolds(steps: seq<Step>, last: real, i: nat)
    requires forall j | 0 <= j < |steps| :: steps[j].rpm > 0
    requires i < |steps|
    ensures Starts(steps, last)[i] - LastBefore(steps, last)[i] >= 60.0 / steps[i].rpm as real
    decreases i
  {
    if i > 0 {
      var next := if steps[0].returned then steps[0].finish else last;
      SpacingHolds(steps[1..], next, i - 1);
    }
  }

  /** The stamp before step i+1 is step i's finish when step i returned, else the stamp before step i. */
  lemma {:induction false} StampAdvances(steps: seq<Step>, last: real, i: nat)
    requires i + 1 < |steps|
    ensures LastBefore(steps, last)[i + 1] ==
            if steps[i].returned then steps[i].finish else LastBefore(steps, last)[i]
    decreases i
  {
    if i > 0 {
      var next := if steps[0].returned then steps[0].finish else last;
      StampAdvances(steps[1..], next, i - 1);
    }
  }
}
