/** The test routes: the copy-and-paste curl command, the agent variable resolver and the
    proxied test call, each behind the session check and each reading only the caller's rows. */
module TestRoutes {
  import opened Common
  import opened Strings
  import opened Tables
  import opened Store

  const MISSING_PARAMS: string := "缺少必要参数"
  const PLATFORM_NOT_FOUND: string := "平台不存在"
  const PLATFORM_OR_AGENT_NOT_FOUND: string := "平台或Agent不存在"
  const REQUEST_FAILED: string := "请求失败"
  /** The fixed prompt of both the command and the test call. */
  const GREETING: string := "你好，请介绍一下你自己"

  const BASE_URL_TOKEN: string := "$BASE_URL"
  const API_KEY_TOKEN: string := "$API_KEY"
  const MODEL_TOKEN: string := "$MODEL"

  const ENDPOINT: string := "/chat/completions"

  // ---------------------------------------------------------------- the test command

  /** `url.endsWith('/') ? url.slice(0, -1) : url`: at most one trailing slash is removed. */
  function StripTrailingSlash(url: string): (r: string)
    ensures url == r || url == r + "/"
  {
    if |url| > 0 && url[|url| - 1] == '/' then url[..|url| - 1] else url
  }

  /** The endpoint both the command and the test call address. */
  function Endpoint(apiBaseUrl: string): string {
    StripTrailingSlash(apiBaseUrl) + ENDPOINT
  }

  const COMMAND_HEAD: string := "curl -X POST "
  const COMMAND_HEADERS: string := " \\\n  -H \"Content-Type: application/json\" \\\n  -H "
  const COMMAND_DATA: string := " \\\n  -d '{\n    "
  const COMMAND_TAIL: string :=
    ",\n    \"messages\": [\n      {\n        \"role\": \"user\",\n        \"content\": \""
    + GREETING + "\"\n      }\n    ]\n  }'"

  function Quoted(s: string): string {
    "\"" + s + "\""
  }

  /** The `"model": "<model>"` line of the command's JSON body. */
  function ModelField(model: string): string {
    Quoted("model") + ": " + Quoted(model)
  }

  /** `generateTestCommand(apiBaseUrl, apiKey, model)`: the multi-line curl command. It carries
      the quoted endpoint, the quoted bearer header with the key, and the model field, each
      verbatim. */
  function GenerateTestCommand(apiBaseUrl: string, apiKey: string, model: string): (cmd: string)
    ensures Occurs(Quoted(Endpoint(apiBaseUrl)), cmd)
    ensures Occurs(Quoted("Authorization: Bearer " + apiKey), cmd)
    ensures Occurs(ModelField(model), cmd)
  {
    ThreePiecesOccur(COMMAND_HEAD, Quoted(Endpoint(apiBaseUrl)), COMMAND_HEADERS,
      Quoted("Authorization: Bearer " + apiKey), COMMAND_DATA, ModelField(model), COMMAND_TAIL);
    COMMAND_HEAD + Quoted(Endpoint(apiBaseUrl))
    + COMMAND_HEADERS + Quoted("Authorization: Bearer " + apiKey)
    + COMMAND_DATA + ModelField(model)
    + COMMAND_TAIL
  }

  /** Each of three pieces laid out between four others occurs in the whole. */
  lemma ThreePiecesOccur(p1: string, x: string, p2: string, y: string, p3: string, z: string, p4: string)
    ensures Occurs(x, p1 + x + p2 + y + p3 + z + p4)
    ensures Occurs(y, p1 + x + p2 + y + p3 + z + p4)
    ensures Occurs(z, p1 + x + p2 + y + p3 + z + p4)
  {
    var whole := p1 + x + p2 + y + p3 + z + p4;
    assert whole == p1 + x + (p2 + y + p3 + z + p4);
    OccursBetween(p1, x, p2 + y + p3 + z + p4);
    assert whole == (p1 + x + p2) + y + (p3 + z + p4);
    OccursBetween(p1 + x + p2, y, p3 + z + p4);
    OccursBetween(p1 + x + p2 + y + p3, z, p4);
  }

  /** A base URL with one trailing slash gives the very command the same URL without it gives:
      the endpoint appears with a single slash before `chat/completions`. */
  lemma CommandIgnoresTrailingSlash(apiBaseUrl: string, apiKey: string, model: string)
    requires apiBaseUrl == [] || apiBaseUrl[|apiBaseUrl| - 1] != '/'
    ensures GenerateTestCommand(apiBaseUrl + "/", apiKey, model) == GenerateTestCommand(apiBaseUrl, apiKey, model)
  {
    assert (apiBaseUrl + "/")[..|apiBaseUrl|] == apiBaseUrl;
  }

  // ---------------------------------------------------------------- the placeholder resolver

  /** One string value of `env_vars`: `.replace(/\$BASE_URL/g, base)`, then `/\$API_KEY/g`, then
      `/\$MODEL/g`, each pass scanning what the one before produced. A value with no `$` holds
      no placeholder and is returned as it is. */
  function Resolve(v: string, base: string, key: string, model: string): (r: string)
    ensures '$' !in v ==> r == v
  {
    ReplaceGlobal(ReplaceGlobal(ReplaceGlobal(v, BASE_URL_TOKEN, base), API_KEY_TOKEN, key), MODEL_TOKEN, model)
  }

  /** A string value is resolved; any other value passes through unchanged. */
  function ResolveValue(v: Json, base: string, key: string, model: string): (r: Json)
    ensures !v.JStr? ==> r == v
    ensures v.JStr? ==> r.JStr?
  {
    if v.JStr? then JStr(Resolve(v.s, base, key, model)) else v
  }

  /** When the substituted strings hold no `$$`, `$&`, `` $` `` or `$'`, the resolver is three
      literal global replacements composed in the order `$BASE_URL`, `$API_KEY`, `$MODEL`. */
  lemma ResolveIsLiteralComposition(v: string, base: string, key: string, model: string)
    requires NoSpecialDollar(base) && NoSpecialDollar(key) && NoSpecialDollar(model)
    ensures Resolve(v, base, key, model)
         == ReplaceAll(ReplaceAll(ReplaceAll(v, BASE_URL_TOKEN, base), API_KEY_TOKEN, key), MODEL_TOKEN, model)
  {
  }

  /** A value made of `$BASE_URL` and plain text resolves to the base URL followed by that text. */
  lemma ResolveBaseUrlThenText(rest: string, base: string, key: string, model: string)
    requires '$' !in rest && '$' !in base && NoSpecialDollar(key) && NoSpecialDollar(model)
    ensures Resolve(BASE_URL_TOKEN + rest, base, key, model) == base + rest
  {
    assert NoSpecialDollar(base);
    ResolveIsLiteralComposition(BASE_URL_TOKEN + rest, base, key, model);
    ReplaceAllMatch(rest, BASE_URL_TOKEN, base);
    AbsentChar(BASE_URL_TOKEN, 0, rest);
    ReplaceAllNoOccurrence(rest, BASE_URL_TOKEN, base);
    assert '$' !in base + rest;
    AbsentChar(API_KEY_TOKEN, 0, base + rest);
    ReplaceAllNoOccurrence(base + rest, API_KEY_TOKEN, key);
    AbsentChar(MODEL_TOKEN, 0, base + rest);
    ReplaceAllNoOccurrence(base + rest, MODEL_TOKEN, model);
  }

  /** The `$BASE_URL` pass leaves `$API_KEY<sep>$MODEL` as it is. */
  lemma KeyThenModelKeepsBase(sep: string, base: string)
    requires '$' !in sep
    ensures ReplaceAll(API_KEY_TOKEN + sep + MODEL_TOKEN, BASE_URL_TOKEN, base) == API_KEY_TOKEN + sep + MODEL_TOKEN
  {
    var word := API_KEY_TOKEN[1..];
    var v := API_KEY_TOKEN + sep + MODEL_TOKEN;
    assert v == ['$'] + ((word + sep) + MODEL_TOKEN);
    AbsentChar(BASE_URL_TOKEN, 1, MODEL_TOKEN);
    NoOccurrenceConcat(BASE_URL_TOKEN, word + sep, MODEL_TOKEN);
    // not at the front: the second characters differ
    assert v[1] != BASE_URL_TOKEN[1];
    NoOccurrenceCons(BASE_URL_TOKEN, '$', (word + sep) + MODEL_TOKEN);
    ReplaceAllNoOccurrence(v, BASE_URL_TOKEN, base);
  }

  /** The `$API_KEY` pass replaces the key placeholder at the front and nothing else. */
  lemma KeyThenModelTakesKey(sep: string, key: string)
    requires '$' !in sep
    ensures ReplaceAll(API_KEY_TOKEN + sep + MODEL_TOKEN, API_KEY_TOKEN, key) == key + sep + MODEL_TOKEN
  {
    AbsentChar(API_KEY_TOKEN, 1, MODEL_TOKEN);
    NoOccurrenceConcat(API_KEY_TOKEN, sep, MODEL_TOKEN);
    ReplaceAllLeading(sep + MODEL_TOKEN, API_KEY_TOKEN, key);
    assert API_KEY_TOKEN + sep + MODEL_TOKEN == API_KEY_TOKEN + (sep + MODEL_TOKEN);
    assert key + (sep + MODEL_TOKEN) == key + sep + MODEL_TOKEN;
  }

  /** A value `$API_KEY<sep>$MODEL` resolves to the key, the separator and the model. */
  lemma ResolveKeyThenModel(sep: string, base: string, key: string, model: string)
    requires '$' !in sep && '$' !in key && NoSpecialDollar(base) && NoSpecialDollar(model)
    ensures Resolve(API_KEY_TOKEN + sep + MODEL_TOKEN, base, key, model) == key + sep + model
  {
    assert NoSpecialDollar(key);
    ResolveIsLiteralComposition(API_KEY_TOKEN + sep + MODEL_TOKEN, base, key, model);
    KeyThenModelKeepsBase(sep, base);
    KeyThenModelTakesKey(sep, key);
    ReplaceAllSkip(key + sep, MODEL_TOKEN, MODEL_TOKEN, model);
    assert MODEL_TOKEN + "" == MODEL_TOKEN;
    ReplaceAllMatch("", MODEL_TOKEN, model);
    assert model + "" == model;
  }

  /** Plain text followed by a placeholder holds no special `$` pattern. */
  lemma PlainThenToken(w: string, token: string)
    requires '$' !in w && |token| >= 2 && token[0] == '$' && token[1] !in "$&`'" && '$' !in token[1..]
    ensures NoSpecialDollar(w + token)
  {
    var r := w + token;
    forall i | 0 <= i < |r| - 1 && r[i] == '$' ensures r[i + 1] !in "$&`'" {
      assert i == |w|;
    }
  }

  /** The `$API_KEY` and `$MODEL` passes over plain text followed by `$MODEL`: only the model
      placeholder at the end is replaced. */
  lemma TextThenModelLastPasses(w: string, key: string, model: string)
    requires '$' !in w
    ensures ReplaceAll(ReplaceAll(w + MODEL_TOKEN, API_KEY_TOKEN, key), MODEL_TOKEN, model) == w + model
  {
    ReplaceAllSkip(w, MODEL_TOKEN, API_KEY_TOKEN, key);
    AbsentChar(API_KEY_TOKEN, 1, MODEL_TOKEN);
    ReplaceAllNoOccurrence(MODEL_TOKEN, API_KEY_TOKEN, key);
    ReplaceAllSkip(w, MODEL_TOKEN, MODEL_TOKEN, model);
    assert MODEL_TOKEN + "" == MODEL_TOKEN;
    ReplaceAllMatch("", MODEL_TOKEN, model);
    assert model + "" == model;
  }

  /** Plain text followed by `$MODEL` resolves to that text followed by the model. */
  lemma ResolveTextThenModel(w: string, base: string, key: string, model: string)
    requires '$' !in w && NoSpecialDollar(base) && NoSpecialDollar(key) && NoSpecialDollar(model)
    ensures Resolve(w + MODEL_TOKEN, base, key, model) == w + model
  {
    ResolveIsLiteralComposition(w + MODEL_TOKEN, base, key, model);
    TextThenModelKeepsBase(w, base);
    TextThenModelLastPasses(w, key, model);
  }

  /** The `$BASE_URL` pass leaves plain text followed by `$MODEL` as it is. */
  lemma TextThenModelKeepsBase(w: string, base: string)
    requires '$' !in w
    ensures ReplaceAll(w + MODEL_TOKEN, BASE_URL_TOKEN, base) == w + MODEL_TOKEN
  {
    ReplaceAllSkip(w, MODEL_TOKEN, BASE_URL_TOKEN, base);
    AbsentChar(BASE_URL_TOKEN, 1, MODEL_TOKEN);
    ReplaceAllNoOccurrence(MODEL_TOKEN, BASE_URL_TOKEN, base);
  }

  /** Later passes scan what earlier ones inserted: a base URL holding `$MODEL` gets the model
      substituted into it, so the result depends on the order of the three passes. */
  lemma ResolveRescansSubstitution(w: string, key: string, model: string)
    requires '$' !in w && '$' !in model && NoSpecialDollar(key)
    ensures Resolve(BASE_URL_TOKEN, w + MODEL_TOKEN, key, model) == w + model
  {
    var base := w + MODEL_TOKEN;
    PlainThenToken(w, MODEL_TOKEN);
    assert NoSpecialDollar(model);
    ResolveIsLiteralComposition(BASE_URL_TOKEN, base, key, model);
    assert BASE_URL_TOKEN + "" == BASE_URL_TOKEN && base + "" == base;
    ReplaceAllMatch("", BASE_URL_TOKEN, base);
    TextThenModelLastPasses(w, key, model);
  }

  /** Resolving is not idempotent: with a model whose name ends in `$MODEL`, resolving the
      value `$MODEL` once gives the model name, and resolving that again grows it. */
  lemma ResolveNotIdempotent(w: string, base: string, key: string)
    requires w != [] && '$' !in w && NoSpecialDollar(base) && NoSpecialDollar(key)
    ensures var model := w + MODEL_TOKEN;
      var once := Resolve(MODEL_TOKEN, base, key, model);
      once == model && Resolve(once, base, key, model) == w + model && w + model != model
  {
    var model := w + MODEL_TOKEN;
    PlainThenToken(w, MODEL_TOKEN);
    ResolveTextThenModel("", base, key, model);
    assert "" + MODEL_TOKEN == MODEL_TOKEN && "" + model == model;
    ResolveTextThenModel(w, base, key, model);
    assert |w + model| != |model|;
  }

  /** A key holding `$$` is not inserted as stored: JavaScript reads `$$` in a replacement
      string as one dollar sign. */
  lemma ResolveCollapsesDollars(base: string, model: string)
    requires NoSpecialDollar(base) && NoSpecialDollar(model)
    ensures Resolve(API_KEY_TOKEN, base, "$$", model) == "$"
  {
    AbsentChar(BASE_URL_TOKEN, 1, API_KEY_TOKEN);
    ReplaceAllNoOccurrence(API_KEY_TOKEN, BASE_URL_TOKEN, base);
    assert API_KEY_TOKEN <= API_KEY_TOKEN;
    assert ReplaceGlobal(API_KEY_TOKEN, API_KEY_TOKEN, "$$") == "$";
    AbsentChar(MODEL_TOKEN, 1, "$");
    ReplaceAllNoOccurrence("$", MODEL_TOKEN, model);
  }

  /** The keys present in a sequence of entries. */
  function EntryKeys(es: seq<(string, Json)>): set<string> {
    set e | e in es :: e.0
  }

  /** The `reduce` over `Object.entries(envVars || {})`: each entry writes its resolved value
      under its key, a later entry overwriting an earlier one with the same key. The result has
      exactly the keys of the entries. */
  function ResolvedMap(es: seq<(string, Json)>, base: string, key: string, model: string): (m: map<string, Json>)
    ensures m.Keys == EntryKeys(es)
    decreases |es|
  {
    if es == [] then map[]
    else
      var last := es[|es| - 1];
      var init := es[..|es| - 1];
      assert es == init + [last];
      ResolvedMap(init, base, key, model)[last.0 := ResolveValue(last.1, base, key, model)]
  }

  /** One more entry writes its resolved value over what the entries before it built. */
  lemma ResolvedMapStep(es: seq<(string, Json)>, i: int, base: string, key: string, model: string)
    requires 0 <= i < |es|
    ensures ResolvedMap(es[..i + 1], base, key, model)
         == ResolvedMap(es[..i], base, key, model)[es[i].0 := ResolveValue(es[i].1, base, key, model)]
  {
    assert es[..i + 1][..i] == es[..i];
  }

  /** Entry `i` is the last one with its key. */
  ghost predicate LastWithKey(es: seq<(string, Json)>, i: int)
    requires 0 <= i < |es|
  {
    forall j :: i < j < |es| ==> es[j].0 != es[i].0
  }

  /** The resolved map holds, under each key, the resolution of the last entry with that key. */
  lemma {:induction false} ResolvedMapAt(es: seq<(string, Json)>, i: int, base: string, key: string, model: string)
    requires 0 <= i < |es| && LastWithKey(es, i)
    ensures es[i].0 in ResolvedMap(es, base, key, model)
    ensures ResolvedMap(es, base, key, model)[es[i].0] == ResolveValue(es[i].1, base, key, model)
    decreases |es|
  {
    if i < |es| - 1 {
      var init := es[..|es| - 1];
      assert init[i] == es[i];
      assert LastWithKey(init, i);
      ResolvedMapAt(init, i, base, key, model);
    }
  }

  /** A sample agent: a base-URL path, a key-and-model pair and a plain value resolve key by
      key. */
  lemma ResolveSampleAgent(base: string, key: string, model: string, plain: string)
    requires '$' !in base && '$' !in key && '$' !in model && '$' !in plain
    ensures var env := JObj([("A", JStr(BASE_URL_TOKEN + "/chat")),
                             ("B", JStr(API_KEY_TOKEN + "-" + MODEL_TOKEN)),
                             ("C", JStr(plain))]);
      ResolvedMap(Entries(env), base, key, model)
        == map["A" := JStr(base + "/chat"), "B" := JStr(key + "-" + model), "C" := JStr(plain)]
  {
    assert NoSpecialDollar(base) && NoSpecialDollar(key) && NoSpecialDollar(model);
    ResolveBaseUrlThenText("/chat", base, key, model);
    ResolveKeyThenModel("-", base, key, model);
    ResolvedMapOfThree("A", JStr(BASE_URL_TOKEN + "/chat"), "B", JStr(API_KEY_TOKEN + "-" + MODEL_TOKEN),
      "C", JStr(plain), base, key, model);
  }

  /** Three entries resolve one by one, a later key overwriting an earlier equal one. */
  lemma ResolvedMapOfThree(k1: string, v1: Json, k2: string, v2: Json, k3: string, v3: Json,
                           base: string, key: string, model: string)
    ensures ResolvedMap([(k1, v1), (k2, v2), (k3, v3)], base, key, model)
         == map[k1 := ResolveValue(v1, base, key, model), k2 := ResolveValue(v2, base, key, model),
                k3 := ResolveValue(v3, base, key, model)]
  {
    var es := [(k1, v1), (k2, v2), (k3, v3)];
    assert es[..0] == [];
    ResolvedMapStep(es, 0, base, key, model);
    ResolvedMapStep(es, 1, base, key, model);
    ResolvedMapStep(es, 2, base, key, model);
    assert es[..3] == es;
  }

  /** The sample with base `https://x.test/v1`, key `K` and model `gpt-4`. */
  lemma ResolveSampleAgentConcrete(base: string, key: string, model: string, plain: string)
    requires base == "https://x.test/v1" && key == "K" && model == "gpt-4" && plain == "plain"
    ensures var env := JObj([("A", JStr("$BASE_URL/chat")), ("B", JStr("$API_KEY-$MODEL")), ("C", JStr(plain))]);
      ResolvedMap(Entries(env), base, key, model)
        == map["A" := JStr("https://x.test/v1/chat"), "B" := JStr("K-gpt-4"), "C" := JStr(plain)]
  {
    SampleTexts(base, key, model, plain);
    ResolveSampleAgent(base, key, model, plain);
  }

  /** The sample's values written out. */
  lemma SampleTexts(base: string, key: string, model: string, plain: string)
    requires base == "https://x.test/v1" && key == "K" && model == "gpt-4" && plain == "plain"
    ensures BASE_URL_TOKEN + "/chat" == "$BASE_URL/chat" && API_KEY_TOKEN + "-" + MODEL_TOKEN == "$API_KEY-$MODEL"
    ensures base + "/chat" == "https://x.test/v1/chat" && key + "-" + model == "K-gpt-4"
    ensures '$' !in base && '$' !in key && '$' !in model && '$' !in plain
  {
  }

  /** The resolver as the route runs it: a loop over the entries that writes each resolved value
      into the accumulator. The result has exactly the keys of the entries, and under each key the
      resolution of the last entry with that key. */
  method ResolveVars(envVars: Json, base: string, key: string, model: string) returns (resolved: map<string, Json>)
    ensures resolved == ResolvedMap(Entries(envVars), base, key, model)
    ensures resolved.Keys == EntryKeys(Entries(envVars))
    ensures forall i :: 0 <= i < |Entries(envVars)| && LastWithKey(Entries(envVars), i) ==>
      resolved[Entries(envVars)[i].0] == ResolveValue(Entries(envVars)[i].1, base, key, model)
  {
    var es := Entries(envVars);
    resolved := map[];
    var i := 0;
    while i < |es|
      invariant 0 <= i <= |es|
      invariant resolved == ResolvedMap(es[..i], base, key, model)
    {
      var (k, v) := es[i];
      if v.JStr? {
        resolved := resolved[k := JStr(Resolve(v.s, base, key, model))];
      } else {
        resolved := resolved[k := v];
      }
      ResolvedMapStep(es, i, base, key, model);
      i := i + 1;
    }
    assert es[..i] == es;
    forall j | 0 <= j < |es| && LastWithKey(es, j)
      ensures resolved[es[j].0] == ResolveValue(es[j].1, base, key, model)
    {
      ResolvedMapAt(es, j, base, key, model);
    }
  }

  // ---------------------------------------------------------------- the outbound test call

  /** The request the test call sends: method, URL, headers and JSON body. */
  datatype Outbound = Outbound(verb: string, url: string, headers: seq<(string, string)>, body: Json)

  /** What came back: an exchange that completed and whose body parsed as JSON, with its status
      and that body; or a thrown error (network failure or unparsable body), with its message
      when the thrown value was an `Error`. */
  datatype Outcome = Completed(status: int, data: Json) | Failed(message: Option<string>)

  /** The chat-completion request of the test call: a POST to the endpoint the command shows,
      with the authorization and the model the command shows and the same greeting; unlike the
      command it caps the answer at 50 tokens. */
  function ChatRequest(apiBaseUrl: string, apiKey: string, model: string): (r: Outbound)
    ensures r.verb == "POST" && r.url == Endpoint(apiBaseUrl)
    ensures r.headers == [("Content-Type", "application/json"), ("Authorization", "Bearer " + apiKey)]
    ensures r.body.JObj? && ("model", JStr(model)) in r.body.fields
    ensures ("messages", JArr([JObj([("role", JStr("user")), ("content", JStr(GREETING))])])) in r.body.fields
    ensures ("max_tokens", JNum(50)) in r.body.fields
    ensures Occurs(ModelField(model), GenerateTestCommand(apiBaseUrl, apiKey, model))
    ensures Occurs(Quoted(r.url), GenerateTestCommand(apiBaseUrl, apiKey, model))
    ensures ("Authorization", "Bearer " + apiKey) in r.headers
    ensures Occurs(Quoted("Authorization: " + "Bearer " + apiKey), GenerateTestCommand(apiBaseUrl, apiKey, model))
  {
    assert "Authorization: " + "Bearer " + apiKey == "Authorization: Bearer " + apiKey;
    Outbound("POST", Endpoint(apiBaseUrl),
      [("Content-Type", "application/json"), ("Authorization", "Bearer " + apiKey)],
      JObj([("model", JStr(model)),
            ("messages", JArr([JObj([("role", JStr("user")), ("content", JStr(GREETING))])])),
            ("max_tokens", JNum(50))]))
  }

  /** The answer of /execute for an outcome: every completed exchange, whatever its status,
      is a success carrying that status and body; only a thrown error is a failure, with 500. */
  function Normalize(o: Outcome): (r: Response)
    ensures r.body.Executed? <==> o.Completed?
    ensures o.Completed? ==> r.status == 200 && r.body.status == o.status && r.body.data == o.data
    ensures o.Failed? ==> r.status == 500 && r.body.ExecuteFailed?
    ensures o.Failed? && o.message.Some? ==> r.body.error == o.message.value
    ensures o.Failed? && o.message.None? ==> r.body.error == REQUEST_FAILED
  {
    match o
    case Completed(status, data) => Response(200, Executed(status, data))
    case Failed(message) => Response(500, ExecuteFailed(message.GetOr(REQUEST_FAILED)))
  }

  // ---------------------------------------------------------------- the routes

  /** POST /command. A falsy platformId or model is a 400; a platform that is not the caller's
      is a 404; otherwise the command for that platform. The store is only read. */
  method CommandRoute(st: Store, header: Option<string>, platformId: Option<int>, model: Option<string>)
    returns (resp: Response)
    ensures st.Auth(header).Err? ==> resp == st.Auth(header).error
    ensures st.Auth(header).Ok? && (!PresentId(platformId) || !Present(model)) ==>
      resp == Response(400, Error(MISSING_PARAMS))
    ensures st.Auth(header).Ok? && PresentId(platformId) && Present(model) ==>
      match FindRow(st.platforms, platformId.value, st.Auth(header).value.id)
      case None => resp == Response(404, Error(PLATFORM_NOT_FOUND))
      case Some(p) => resp == Response(200, Command(GenerateTestCommand(p.data.apiBaseUrl, p.data.apiKey, model.value)))
  {
    var auth := st.Auth(header);
    if auth.Err? {
      return auth.error;
    }
    if !PresentId(platformId) || !Present(model) {
      return Response(400, Error(MISSING_PARAMS));
    }
    var platform := FindRow(st.platforms, platformId.value, auth.value.id);
    if platform.None? {
      return Response(404, Error(PLATFORM_NOT_FOUND));
    }
    var p := platform.value.data;
    resp := Response(200, Command(GenerateTestCommand(p.apiBaseUrl, p.apiKey, model.value)));
  }

  /** POST /execute. A falsy platformId or model is a 400; a platform that is not the caller's
      is a 404; otherwise the chat request built from that platform goes to `upstream` and its
      outcome is normalised. The store is only read. */
  method ExecuteRoute(st: Store, header: Option<string>, platformId: Option<int>, model: Option<string>,
                      upstream: Outbound -> Outcome)
    returns (resp: Response)
    ensures st.Auth(header).Err? ==> resp == st.Auth(header).error
    ensures st.Auth(header).Ok? && (!PresentId(platformId) || !Present(model)) ==>
      resp == Response(400, Error(MISSING_PARAMS))
    ensures st.Auth(header).Ok? && PresentId(platformId) && Present(model) ==>
      match FindRow(st.platforms, platformId.value, st.Auth(header).value.id)
      case None => resp == Response(404, Error(PLATFORM_NOT_FOUND))
      case Some(p) => resp == Normalize(upstream(ChatRequest(p.data.apiBaseUrl, p.data.apiKey, model.value)))
  {
    var auth := st.Auth(header);
    if auth.Err? {
      return auth.error;
    }
    if !PresentId(platformId) || !Present(model) {
      return Response(400, Error(MISSING_PARAMS));
    }
    var platform := FindRow(st.platforms, platformId.value, auth.value.id);
    if platform.None? {
      return Response(404, Error(PLATFORM_NOT_FOUND));
    }
    var p := platform.value.data;
    var outcome := upstream(ChatRequest(p.apiBaseUrl, p.apiKey, model.value));
    resp := Normalize(outcome);
  }

  /** POST /agent-vars. A falsy platformId, model or agentId is a 400; unless both the platform
      and the agent are the caller's, a 404; otherwise the agent's `env_vars` resolved against
      the platform and model, next to the value as stored. The store is only read. */
  method AgentVarsRoute(st: Store, header: Option<string>, platformId: Option<int>, model: Option<string>,
                        agentId: Option<int>)
    returns (resp: Response)
    ensures st.Auth(header).Err? ==> resp == st.Auth(header).error
    ensures st.Auth(header).Ok? && (!PresentId(platformId) || !Present(model) || !PresentId(agentId)) ==>
      resp == Response(400, Error(MISSING_PARAMS))
    ensures st.Auth(header).Ok? && PresentId(platformId) && Present(model) && PresentId(agentId) ==>
      var uid := st.Auth(header).value.id;
      var platform := FindRow(st.platforms, platformId.value, uid);
      var agent := FindRow(st.agents, agentId.value, uid);
      if platform.None? || agent.None? then resp == Response(404, Error(PLATFORM_OR_AGENT_NOT_FOUND))
      else
        resp.status == 200 && resp.body.AgentVars?
        && resp.body.originalVars == agent.value.data
        && resp.body.resolvedVars.Keys == EntryKeys(Entries(agent.value.data))
        && resp.body.resolvedVars == ResolvedMap(Entries(agent.value.data),
             platform.value.data.apiBaseUrl, platform.value.data.apiKey, model.value)
  {
    var auth := st.Auth(header);
    if auth.Err? {
      return auth.error;
    }
    if !PresentId(platformId) || !Present(model) || !PresentId(agentId) {
      return Response(400, Error(MISSING_PARAMS));
    }
    var platform := FindRow(st.platforms, platformId.value, auth.value.id);
    var agent := FindRow(st.agents, agentId.value, auth.value.id);
    if platform.None? || agent.None? {
      return Response(404, Error(PLATFORM_OR_AGENT_NOT_FOUND));
    }
    var envVars := agent.value.data;
    var p := platform.value.data;
    var resolved := ResolveVars(envVars, p.apiBaseUrl, p.apiKey, model.value);
    resp := Response(200, AgentVars(resolved, envVars));
  }
}
