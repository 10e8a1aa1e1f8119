/**
 Model scopes and request translation: which upstream model a key may reach, and
 how a chat request becomes an OpenAI-compatible, Anthropic or Ollama request.
 */
module Prepare {
  import opened Options
  import opened Json
  import Text
  import PromptWindow

  // ---- Model scopes

  /** The length of a rune's UTF-8 encoding. */
  function RuneLength(c: char): nat {
    var r := c as int;
    if r < 0x80 then 1 else if r < 0x800 then 2 else if r < 0x1_0000 then 3 else 4
  }

  function ByteLength(s: string): nat {
    if s == "" then 0 else RuneLength(s[0]) + ByteLength(s[1..])
  }

  /** It is the length of the text's UTF-8 encoding. */
  lemma {:induction false} LengthInUtf8(s: string)
    requires PromptWindow.AllScalar(Text.Runes(s))
    ensures |PromptWindow.EncodeAll(Text.Runes(s))| == ByteLength(s)
  {
    if s != "" {
      assert Text.Runes(s)[1..] == Text.Runes(s[1..]);
      LengthInUtf8(s[1..]);
    }
  }

  predicate IsControl(c: char) {
    var r := c as int;
    r <= 0x1f || 0x7f <= r <= 0x9f
  }

  predicate ValidModel(model: string) {
    && model != "" && ByteLength(model) <= 256
    && forall i :: 0 <= i < |model| ==> !IsControl(model[i]) && !Text.IsSpace(model[i] as int)
  }

  /** The code points that a model name may not hold: controls and spaces. */
  predicate IsForbidden(r: int) {
    || r <= 0x20 || 0x7f <= r <= 0xa0 || r == 0x1680 || 0x2000 <= r <= 0x200a
    || r == 0x2028 || r == 0x2029 || r == 0x202f || r == 0x205f || r == 0x3000
  }

  /** A model name has 1 to 256 bytes and no control or space in it. */
  lemma ValidModelExactly(model: string)
    ensures ValidModel(model) <==>
            |model| > 0 && ByteLength(model) <= 256 && forall i :: 0 <= i < |model| ==> !IsForbidden(model[i] as int)
  {
  }

  /** The alias is in the scope, mapped, and both names are valid. */
  predicate Grants(scope: seq<string>, mappings: map<string, string>, alias: string) {
    alias in scope && alias in mappings && ValidModel(alias) && ValidModel(mappings[alias])
  }

  /** Exactly the granted aliases, each with its own mapping; an empty scope grants nothing. */
  method AllowedModels(scope: seq<string>, mappings: map<string, string>) returns (result: map<string, string>)
    ensures forall alias :: alias in result <==> Grants(scope, mappings, alias)
    ensures forall alias :: alias in result ==> alias in mappings && result[alias] == mappings[alias]
  {
    result := map[];
    for i := 0 to |scope|
      invariant forall alias :: alias in result <==> Grants(scope[..i], mappings, alias)
      invariant forall alias :: alias in result ==> alias in mappings && result[alias] == mappings[alias]
    {
      var alias := scope[i];
      if alias in mappings && ValidModel(alias) && ValidModel(mappings[alias]) {
        result := result[alias := mappings[alias]];
      }
      assert scope[..i + 1] == scope[..i] + [alias];
    }
    assert scope[..|scope|] == scope;
  }

  // ---- Requests

  datatype Protocol = OpenAi | Anthropic | Ollama | Unknown

  datatype Prepared = Prepared(alias: string, stream: bool, operation: string, body: Fields)

  datatype Result = Ready(request: Prepared) | Unsupported | ModelDenied

  const MAX_BODY := 0x10_0000
  const MAX_MESSAGES := 1000

  /** The alias a request names; an absent or non-string model does not decode. */
  function AliasOf(obj: Fields): Option<string> {
    AsString(Get(obj, "model"))
  }

  predicate StreamOk(obj: Fields) {
    "stream" in obj ==> obj["stream"].JBool?
  }

  function StreamOf(obj: Fields): bool {
    "stream" in obj && obj["stream"] == JBool(true)
  }

  predicate MessagesOk(obj: Fields) {
    "messages" in obj && obj["messages"].JArr? && 1 <= |obj["messages"].items| <= MAX_MESSAGES
  }

  /** What every protocol demands of an authorised request. */
  predicate BaseOk(obj: Fields, allowed: map<string, string>) {
    AliasOf(obj).Some? && AliasOf(obj).value in allowed && StreamOk(obj) && MessagesOk(obj)
  }

  function NumberOf(v: Json): Option<real> {
    match v
    case JInt(n) => Some(n as real)
    case JReal(x) => Some(x)
    case _ => None
  }

  predicate NumberIn(v: Json, high: real) {
    NumberOf(v).Some? && 0.0 <= NumberOf(v).value <= high
  }

  predicate MaxTokensOk(v: Json) {
    v.JInt? && 1 <= v.n <= 32768
  }

  function StringOf(v: Json): Option<string> {
    AsString(Some(v))
  }

  predicate AllStrings(items: seq<Json>) {
    forall i :: 0 <= i < |items| ==> StringOf(items[i]).Some?
  }

  function Strings(items: seq<Json>): seq<string>
    requires AllStrings(items)
  {
    seq(|items|, i requires 0 <= i < |items| => StringOf(items[i]).value)
  }

  /** A stop parameter as a list: one string, or an array of strings; null counts as an empty string. */
  function StopList(v: Json): Option<seq<string>> {
    if StringOf(v).Some? then Some([StringOf(v).value])
    else if v.JArr? && AllStrings(v.items) then Some(Strings(v.items))
    else None
  }

  function JsonStrings(ss: seq<string>): Json {
    JArr(seq(|ss|, i requires 0 <= i < |ss| => JStr(ss[i])))
  }

  // ---- Anthropic requests

  datatype ChatMessage = ChatMessage(role: string, content: string)

  /** A message of a role and a text, and nothing else. */
  function DecodeMessage(v: Json): Option<ChatMessage> {
    match v
    case JNull => Some(ChatMessage("", ""))
    case JObj(fields) =>
      if fields.Keys <= {"role", "content"} && StringField(fields, "role").Some? && StringField(fields, "content").Some?
      then Some(ChatMessage(StringField(fields, "role").value, StringField(fields, "content").value))
      else None
    case _ => None
  }

  predicate IsSystem(v: Json) {
    DecodeMessage(v).Some? && DecodeMessage(v).value.role == "system"
  }

  predicate IsTurn(v: Json) {
    DecodeMessage(v).Some? && (DecodeMessage(v).value.role == "user" || DecodeMessage(v).value.role == "assistant")
  }

  /** The first `k` messages are system messages and the rest are turns. */
  ghost predicate SplitAt(messages: seq<Json>, k: nat) {
    && k <= |messages|
    && (forall i :: 0 <= i < k ==> IsSystem(messages[i]))
    && (forall i :: k <= i < |messages| ==> IsTurn(messages[i]))
  }

  predicate IsUser(v: Json) {
    IsTurn(v) && DecodeMessage(v).value.role == "user"
  }

  /** System messages, then turns of which the first and the last are the user's. */
  ghost predicate ConversationAt(messages: seq<Json>, k: nat) {
    SplitAt(messages, k) && k < |messages| && IsUser(messages[k]) && IsUser(messages[|messages| - 1])
  }

  ghost predicate IsConversation(messages: seq<Json>) {
    exists k: nat :: ConversationAt(messages, k)
  }

  function ContentOf(v: Json): string {
    match DecodeMessage(v) case Some(message) => message.content case None => ""
  }

  function TurnOf(v: Json): ChatMessage {
    match DecodeMessage(v) case Some(message) => message case None => ChatMessage("", "")
  }

  function Contents(messages: seq<Json>): seq<string> {
    seq(|messages|, i requires 0 <= i < |messages| => ContentOf(messages[i]))
  }

  function Turns(messages: seq<Json>): seq<ChatMessage> {
    seq(|messages|, i requires 0 <= i < |messages| => TurnOf(messages[i]))
  }

  function Join(texts: seq<string>): string {
    if texts == [] then "" else if |texts| == 1 then texts[0]
    else Join(texts[..|texts| - 1]) + "\n\n" + texts[|texts| - 1]
  }

  function TurnsJson(turns: seq<ChatMessage>): Json {
    JArr(seq(|turns|, i requires 0 <= i < |turns| =>
           JObj(map["role" := JStr(turns[i].role), "content" := JStr(turns[i].content)])))
  }

  lemma SplitNotAfter(messages: seq<Json>, j: nat, k: nat)
    requires SplitAt(messages, j) && SplitAt(messages, k)
    ensures j <= k
  {
    assert k < |messages| ==> IsTurn(messages[k]);
  }

  /** A system message after a turn, or a message that is neither, leaves no way to split. */
  lemma NoSplit(messages: seq<Json>, k: nat, i: nat)
    requires k <= i < |messages|
    requires (IsTurn(messages[k]) && IsSystem(messages[i])) || (!IsTurn(messages[i]) && !IsSystem(messages[i]))
    ensures forall j: nat :: !SplitAt(messages, j)
  {
    forall j: nat
      ensures !SplitAt(messages, j)
    {
      if IsTurn(messages[k]) {
        assert !IsSystem(messages[k]);
      }
      if IsSystem(messages[i]) {
        assert !IsTurn(messages[i]);
      }
    }
  }

  lemma SystemNext(messages: seq<Json>, i: nat)
    requires i < |messages| && SplitAt(messages[..i], i) && IsSystem(messages[i])
    ensures SplitAt(messages[..i + 1], i + 1)
    ensures Contents(messages[..i + 1]) == Contents(messages[..i]) + [ContentOf(messages[i])]
  {
    assert messages[..i + 1] == messages[..i] + [messages[i]];
  }

  lemma TurnNext(messages: seq<Json>, k: nat, i: nat)
    requires k <= i < |messages| && SplitAt(messages[..i], k) && IsTurn(messages[i])
    ensures SplitAt(messages[..i + 1], k)
    ensures Turns(messages[k..i + 1]) == Turns(messages[k..i]) + [TurnOf(messages[i])]
  {
    assert messages[..i + 1] == messages[..i] + [messages[i]];
    assert messages[k..i + 1] == messages[k..i] + [messages[i]];
  }

  method ConvertMessages(messages: seq<Json>) returns (r: Option<(seq<string>, seq<ChatMessage>)>)
    ensures r.Some? <==> IsConversation(messages)
    ensures forall k: nat :: ConversationAt(messages, k) ==>
              r.Some? && r.value == (Contents(messages[..k]), Turns(messages[k..]))
  {
    var system: seq<string>, turns: seq<ChatMessage>, started := [], [], false;
    ghost var k := 0;
    for i := 0 to |messages|
      invariant k <= i && SplitAt(messages[..i], k)
      invariant started <==> k < i
      invariant system == Contents(messages[..k]) && turns == Turns(messages[k..i])
    {
      var message := DecodeMessage(messages[i]);
      if message.None? {
        NoSplit(messages, i, i);
        return None;
      }
      if message.value.role == "system" {
        if started {
          assert IsTurn(messages[..i][k]);
          NoSplit(messages, k, i);
          return None;
        }
        system := system + [message.value.content];
        SystemNext(messages, i);
        k := i + 1;
        assert messages[k..i + 1] == [];
      } else if message.value.role == "user" || message.value.role == "assistant" {
        started := true;
        turns := turns + [message.value];
        TurnNext(messages, k, i);
      } else {
        NoSplit(messages, i, i);
        return None;
      }
    }
    assert messages[..|messages|] == messages && messages[k..|messages|] == messages[k..];
    forall j: nat | SplitAt(messages, j)
      ensures j == k
    {
      SplitNotAfter(messages, j, k);
      SplitNotAfter(messages, k, j);
    }
    if |turns| == 0 || turns[0].role != "user" || turns[|turns| - 1].role != "user" {
      return None;
    }
    assert turns[0] == TurnOf(messages[k]) && turns[|turns| - 1] == TurnOf(messages[|messages| - 1]);
    assert ConversationAt(messages, k);
    r := Some((system, turns));
  }

  const ANTHROPIC_FIELDS := {"model", "messages", "stream", "max_tokens", "temperature", "top_p", "stop"}

  /** The fields an Anthropic conversion accepts, each within its bounds. */
  ghost predicate AnthropicOk(obj: Fields) {
    && obj.Keys <= ANTHROPIC_FIELDS
    && MessagesOk(obj) && IsConversation(obj["messages"].items)
    && ("temperature" in obj ==> NumberIn(obj["temperature"], 1.0))
    && ("top_p" in obj ==> NumberIn(obj["top_p"], 1.0))
    && ("max_tokens" in obj ==> MaxTokensOk(obj["max_tokens"]))
    && ("stop" in obj ==> StopList(obj["stop"]).Some?)
  }

  const ANTHROPIC_BODY :=
    {"model", "messages", "stream", "max_tokens", "system", "temperature", "top_p", "stop_sequences"}

  /**
   What the body holds under a name, for a request whose first `k` messages are
   system messages: the turns in order, the system texts joined, and every
   optional field of the request.
   */
  function BodyField(obj: Fields, k: nat, model: string, name: string): Option<Json>
    requires MessagesOk(obj) && k <= |obj["messages"].items|
  {
    var messages := obj["messages"].items;
    match name
    case "model" => Some(JStr(model))
    case "messages" => Some(TurnsJson(Turns(messages[k..])))
    case "stream" => Some(JBool(StreamOf(obj)))
    case "max_tokens" => Some(if "max_tokens" in obj then obj["max_tokens"] else JInt(1024))
    case "system" => if k > 0 then Some(JStr(Join(Contents(messages[..k])))) else None
    case "temperature" => Get(obj, "temperature")
    case "top_p" => Get(obj, "top_p")
    case "stop_sequences" =>
      if "stop" in obj && StopList(obj["stop"]).Some? then Some(JsonStrings(StopList(obj["stop"]).value)) else None
    case _ => None
  }

  ghost predicate AnthropicBody(obj: Fields, k: nat, model: string, body: Fields) {
    && MessagesOk(obj) && ConversationAt(obj["messages"].items, k)
    && forall name :: Get(body, name) == BodyField(obj, k, model, name)
  }

  /** Everything a request asks for, as far as the conversion accepts it. */
  datatype Essence = Essence(
    model: Option<string>, turns: seq<ChatMessage>, system: Option<string>, stream: bool,
    temperature: Option<Json>, topP: Option<Json>, maxTokens: Option<Json>, stops: Option<seq<string>>)

  function StopsOf(raw: Option<Json>): Option<seq<string>> {
    match raw case Some(v) => StopList(v) case None => None
  }

  /** What a request of which the first `k` messages are system messages asks for. */
  function Asked(obj: Fields, k: nat, model: string): Essence
    requires MessagesOk(obj) && k <= |obj["messages"].items|
  {
    var messages := obj["messages"].items;
    Essence(Some(model), Turns(messages[k..]), if k == 0 then None else Some(Join(Contents(messages[..k]))),
            StreamOf(obj), Get(obj, "temperature"), Get(obj, "top_p"),
            if "max_tokens" in obj then Get(obj, "max_tokens") else Some(JInt(1024)), StopsOf(Get(obj, "stop")))
  }

  /** What can be read back from a body alone. */
  function ReadBack(body: Fields): Essence {
    Essence(
      AsString(Get(body, "model")),
      match Get(body, "messages") case Some(JArr(items)) => Turns(items) case _ => [],
      AsString(Get(body, "system")),
      Get(body, "stream") == Some(JBool(true)),
      Get(body, "temperature"), Get(body, "top_p"), Get(body, "max_tokens"), StopsOf(Get(body, "stop_sequences")))
  }

  lemma TurnsRoundTrip(turns: seq<ChatMessage>)
    ensures Turns(TurnsJson(turns).items) == turns
  {
    var items := TurnsJson(turns).items;
    forall i | 0 <= i < |items|
      ensures TurnOf(items[i]) == turns[i]
    {
      assert items[i] == JObj(map["role" := JStr(turns[i].role), "content" := JStr(turns[i].content)]);
      assert items[i].fields.Keys == {"role", "content"};
    }
  }

  lemma StopsRoundTrip(stops: seq<string>)
    ensures StopList(JsonStrings(stops)) == Some(stops)
  {
    var items := JsonStrings(stops).items;
    assert AllStrings(items) && Strings(items) == stops;
  }

  /** Nothing is lost: all that was asked for can be read back from the body, which holds nothing else. */
  lemma AnthropicBodyIsLossless(obj: Fields, k: nat, model: string, body: Fields)
    requires AnthropicBody(obj, k, model, body)
    ensures ReadBack(body) == Asked(obj, k, model)
    ensures body.Keys <= ANTHROPIC_BODY
  {
    TurnsRoundTrip(Turns(obj["messages"].items[k..]));
    assert Get(body, "model") == BodyField(obj, k, model, "model");
    assert Get(body, "messages") == BodyField(obj, k, model, "messages");
    assert Get(body, "system") == BodyField(obj, k, model, "system");
    assert Get(body, "stream") == BodyField(obj, k, model, "stream");
    assert Get(body, "max_tokens") == BodyField(obj, k, model, "max_tokens");
    StopsReadBack(obj, k, model, body);
    BodyKeys(obj, k, model, body);
  }

  lemma StopsReadBack(obj: Fields, k: nat, model: string, body: Fields)
    requires AnthropicBody(obj, k, model, body)
    ensures StopsOf(Get(body, "stop_sequences")) == StopsOf(Get(obj, "stop"))
  {
    assert Get(body, "stop_sequences") == BodyField(obj, k, model, "stop_sequences");
    if "stop" in obj && StopList(obj["stop"]).Some? {
      StopsRoundTrip(StopList(obj["stop"]).value);
    }
  }

  lemma BodyKeys(obj: Fields, k: nat, model: string, body: Fields)
    requires AnthropicBody(obj, k, model, body)
    ensures body.Keys <= ANTHROPIC_BODY
  {
    forall name | name in body
      ensures name in ANTHROPIC_BODY
    {
      assert Get(body, name) == BodyField(obj, k, model, name);
    }
  }

  /** So requests with the same body ask for the same. */
  lemma EqualBodiesAskTheSame(obj: Fields, k: nat, model: string, obj': Fields, k': nat, model': string, body: Fields)
    requires AnthropicBody(obj, k, model, body) && AnthropicBody(obj', k', model', body)
    ensures Asked(obj, k, model) == Asked(obj', k', model')
  {
    AnthropicBodyIsLossless(obj, k, model, body);
    AnthropicBodyIsLossless(obj', k', model', body);
  }

  method PrepareAnthropic(obj: Fields, model: string) returns (r: Option<Fields>, ghost k: nat)
    requires MessagesOk(obj)
    ensures r.Some? <==> AnthropicOk(obj)
    ensures r.Some? ==> AnthropicBody(obj, k, model, r.value)
  {
    k := 0;
    if !(obj.Keys <= ANTHROPIC_FIELDS) {
      return None, k;
    }
    var converted := ConvertMessages(obj["messages"].items);
    if converted.None? {
      return None, k;
    }
    k :| ConversationAt(obj["messages"].items, k);
    if ("temperature" in obj && !NumberIn(obj["temperature"], 1.0)) || ("top_p" in obj && !NumberIn(obj["top_p"], 1.0)) {
      return None, k;
    }
    if "max_tokens" in obj && !MaxTokensOk(obj["max_tokens"]) {
      return None, k;
    }
    if "stop" in obj && StopList(obj["stop"]).None? {
      return None, k;
    }
    var (system, turns) := converted.value;
    r := Some(BuildBody(obj, model, system, turns));
    BuildBodyFields(obj, k, model);
  }

  function BuildBody(obj: Fields, model: string, system: seq<string>, turns: seq<ChatMessage>): Fields {
    var body: Fields := map["model" := JStr(model), "messages" := TurnsJson(turns), "stream" := JBool(StreamOf(obj)),
                            "max_tokens" := if "max_tokens" in obj then obj["max_tokens"] else JInt(1024)];
    var body := if |system| > 0 then body["system" := JStr(Join(system))] else body;
    var body := if "temperature" in obj then body["temperature" := obj["temperature"]] else body;
    var body := if "top_p" in obj then body["top_p" := obj["top_p"]] else body;
    if "stop" in obj && StopList(obj["stop"]).Some?
    then body["stop_sequences" := JsonStrings(StopList(obj["stop"]).value)]
    else body
  }

  lemma BuildBodyFields(obj: Fields, k: nat, model: string)
    requires MessagesOk(obj) && k <= |obj["messages"].items|
    ensures
      var messages := obj["messages"].items;
      var body := BuildBody(obj, model, Contents(messages[..k]), Turns(messages[k..]));
      forall name :: Get(body, name) == BodyField(obj, k, model, name)
  {
  }

  // ---- Ollama requests

  predicate IncludeUsageOnly(v: Json) {
    v.JObj? && v.fields.Keys == {"include_usage"} && v.fields["include_usage"].JBool?
  }

  predicate Int64Ok(v: Json) {
    v.JInt? && MIN_INT64 <= v.n <= MAX_INT64
  }

  /** Field `name` of the request is one the Ollama conversion accepts. */
  predicate OllamaFieldOk(obj: Fields, name: string)
    requires name in obj
  {
    match name
    case "model" => true
    case "messages" => true
    case "stream" => true
    case "temperature" => NumberIn(obj[name], 2.0)
    case "top_p" => NumberIn(obj[name], 1.0)
    case "max_tokens" => MaxTokensOk(obj[name])
    case "seed" => Int64Ok(obj[name])
    case "stop" => StopList(obj[name]).Some?
    case "stream_options" => StreamOf(obj) && IncludeUsageOnly(obj[name])
    case _ => false
  }

  predicate OllamaMessageOk(v: Json) {
    && v.JObj? && v.fields.Keys == {"role", "content"}
    && v.fields["content"].JStr?
    && v.fields["role"] in {JStr("system"), JStr("user"), JStr("assistant")}
  }

  predicate OllamaOk(obj: Fields) {
    && (forall name :: name in obj ==> OllamaFieldOk(obj, name))
    && MessagesOk(obj)
    && forall i :: 0 <= i < |obj["messages"].items| ==> OllamaMessageOk(obj["messages"].items[i])
  }

  const OPTIONS := {"temperature", "top_p", "num_predict", "seed", "stop"}

  /** The request field an option is taken from. */
  function OptionSource(option: string): string {
    if option == "num_predict" then "max_tokens" else option
  }

  function OptionValue(option: string, v: Json): Json {
    if option == "stop" && StopList(v).Some? then JsonStrings(StopList(v).value) else v
  }

  /** The options carried for the request fields in `names`. */
  function OptionsOf(obj: Fields, names: set<string>): Fields {
    map option | option in OPTIONS && OptionSource(option) in names && OptionSource(option) in obj ::
      OptionValue(option, obj[OptionSource(option)])
  }

  /** What one accepted request field adds to the options. */
  function AddOption(obj: Fields, options: Fields, name: string): Fields
    requires name in obj && OllamaFieldOk(obj, name)
  {
    match name
    case "temperature" => options[name := obj[name]]
    case "top_p" => options[name := obj[name]]
    case "seed" => options[name := obj[name]]
    case "max_tokens" => options["num_predict" := obj[name]]
    case "stop" => options[name := JsonStrings(StopList(obj[name]).value)]
    case _ => options
  }

  lemma AddOptionGrows(obj: Fields, names: set<string>, name: string)
    requires name in obj && OllamaFieldOk(obj, name)
    ensures AddOption(obj, OptionsOf(obj, names), name) == OptionsOf(obj, names + {name})
  {
  }

  method ConvertOptions(obj: Fields) returns (r: Option<Fields>)
    ensures r.Some? <==> forall name :: name in obj ==> OllamaFieldOk(obj, name)
    ensures r.Some? ==> r.value == OptionsOf(obj, obj.Keys)
  {
    var options: Fields := map[];
    var rest := obj.Keys;
    while rest != {}
      invariant rest <= obj.Keys
      invariant forall name :: name in obj && name !in rest ==> OllamaFieldOk(obj, name)
      invariant options == OptionsOf(obj, obj.Keys - rest)
      decreases |rest|
    {
      var name :| name in rest;
      if !OllamaFieldOk(obj, name) {
        return None;
      }
      options := AddOption(obj, options, name);
      AddOptionGrows(obj, obj.Keys - rest, name);
      assert obj.Keys - rest + {name} == obj.Keys - (rest - {name});
      rest := rest - {name};
    }
    assert obj.Keys - {} == obj.Keys;
    r := Some(options);
  }

  function OllamaBody(obj: Fields): Fields
    requires "model" in obj && "messages" in obj
  {
    map["model" := obj["model"], "messages" := obj["messages"],
        "stream" := JBool(StreamOf(obj)), "options" := JObj(OptionsOf(obj, obj.Keys))]
  }

  /** All that a request asks of Ollama. */
  datatype OllamaEssence = OllamaEssence(
    model: Option<Json>, messages: Option<Json>, stream: bool, temperature: Option<Json>, topP: Option<Json>,
    maxTokens: Option<Json>, seed: Option<Json>, stops: Option<seq<string>>)

  function AskedOfOllama(obj: Fields): OllamaEssence {
    OllamaEssence(Get(obj, "model"), Get(obj, "messages"), StreamOf(obj), Get(obj, "temperature"), Get(obj, "top_p"),
                  Get(obj, "max_tokens"), Get(obj, "seed"), StopsOf(Get(obj, "stop")))
  }

  /** What can be read back from an Ollama body alone. */
  function ReadBackOllama(body: Fields): OllamaEssence {
    var options := match Get(body, "options") case Some(JObj(fields)) => fields case _ => map[];
    OllamaEssence(Get(body, "model"), Get(body, "messages"), StreamOf(body), Get(options, "temperature"),
                  Get(options, "top_p"), Get(options, "num_predict"), Get(options, "seed"), StopsOf(Get(options, "stop")))
  }

  lemma OptionsReadBack(obj: Fields)
    ensures
      var options := OptionsOf(obj, obj.Keys);
      && Get(options, "temperature") == Get(obj, "temperature") && Get(options, "top_p") == Get(obj, "top_p")
      && Get(options, "num_predict") == Get(obj, "max_tokens") && Get(options, "seed") == Get(obj, "seed")
  {
  }

  lemma OllamaStopsReadBack(obj: Fields)
    ensures StopsOf(Get(OptionsOf(obj, obj.Keys), "stop")) == StopsOf(Get(obj, "stop"))
  {
    if "stop" in obj && StopList(obj["stop"]).Some? {
      StopsRoundTrip(StopList(obj["stop"]).value);
    }
  }

  /** Nothing that is asked of Ollama is lost. */
  lemma OllamaBodyIsLossless(obj: Fields)
    requires "model" in obj && "messages" in obj
    ensures ReadBackOllama(OllamaBody(obj)) == AskedOfOllama(obj)
  {
    OptionsReadBack(obj);
    OllamaStopsReadBack(obj);
  }

  /** So requests with the same body ask for the same. */
  lemma EqualOllamaBodiesAskTheSame(obj: Fields, obj': Fields)
    requires "model" in obj && "messages" in obj && "model" in obj' && "messages" in obj'
    requires OllamaBody(obj) == OllamaBody(obj')
    ensures AskedOfOllama(obj) == AskedOfOllama(obj')
  {
    OllamaBodyIsLossless(obj);
    OllamaBodyIsLossless(obj');
  }

  /** The one field that is accepted and not carried. */
  lemma StreamOptionsAreNotCarried(obj: Fields)
    requires "model" in obj && "messages" in obj
    ensures OllamaBody(obj - {"stream_options"}) == OllamaBody(obj)
  {
    var rest := obj - {"stream_options"};
    assert OptionsOf(rest, rest.Keys) == OptionsOf(obj, obj.Keys);
  }

  method PrepareOllama(obj: Fields) returns (r: Option<Fields>)
    requires MessagesOk(obj) && "model" in obj
    ensures r.Some? <==> OllamaOk(obj)
    ensures r.Some? ==> r.value == OllamaBody(obj)
  {
    var options := ConvertOptions(obj);
    if options.None? {
      return None;
    }
    var messages := obj["messages"].items;
    for i := 0 to |messages|
      invariant forall j :: 0 <= j < i ==> OllamaMessageOk(messages[j])
    {
      if !OllamaMessageOk(messages[i]) {
        return None;
      }
    }
    r := Some(map["model" := obj["model"], "messages" := obj["messages"],
                  "stream" := JBool(StreamOf(obj)), "options" := JObj(options.value)]);
  }

  // ---- What is accepted, in plain JSON

  /** A number from 0 to `high`, written with or without a fraction. */
  lemma NumberInExactly(v: Json, high: real)
    ensures NumberIn(v, high) <==>
            (v.JInt? && 0.0 <= v.n as real <= high) || (v.JReal? && 0.0 <= v.x <= high)
  {
  }

  /** The item is the string; null reads as the empty one. */
  predicate IsText(item: Json, s: string) {
    item == JStr(s) || (item == JNull && s == "")
  }

  /** A stop parameter is one string or a list of them. */
  lemma StopListExactly(v: Json, stops: seq<string>)
    ensures StopList(v) == Some(stops) <==>
            || (|stops| == 1 && IsText(v, stops[0]))
            || (v.JArr? && |v.items| == |stops| && forall i :: 0 <= i < |stops| ==> IsText(v.items[i], stops[i]))
  {
    if v.JArr? {
      TextsRead(v.items, stops);
    } else if |stops| == 1 {
      assert stops == [stops[0]];
    }
  }

  lemma TextsRead(items: seq<Json>, stops: seq<string>)
    ensures AllStrings(items) && Strings(items) == stops <==>
            |items| == |stops| && forall i :: 0 <= i < |stops| ==> IsText(items[i], stops[i])
  {
    if |items| == |stops| && forall i :: 0 <= i < |stops| ==> IsText(items[i], stops[i]) {
      assert forall i :: 0 <= i < |items| ==> StringOf(items[i]) == Some(stops[i]);
      assert Strings(items) == stops;
    }
    if AllStrings(items) && Strings(items) == stops {
      forall i | 0 <= i < |stops|
        ensures IsText(items[i], stops[i])
      {
        assert stops[i] == Strings(items)[i] == StringOf(items[i]).value;
      }
    }
  }

  /** The object has the string under the name, or lacks it and the string is empty. */
  predicate ReadsAs(obj: Fields, name: string, s: string) {
    if name in obj then IsText(obj[name], s) else s == ""
  }

  /** A message has a role and a text and no other member. */
  lemma MessageExactly(v: Json, role: string, content: string)
    requires role != ""
    ensures DecodeMessage(v) == Some(ChatMessage(role, content)) <==>
            && v.JObj? && v.fields.Keys <= {"role", "content"}
            && ReadsAs(v.fields, "role", role) && ReadsAs(v.fields, "content", content)
  {
  }

  /** Texts are joined in order with an empty line between them. */
  lemma {:induction false} JoinedInOrder(first: string, rest: seq<string>)
    requires rest != []
    ensures Join([first] + rest) == first + "\n\n" + Join(rest)
  {
    var n := |rest| - 1;
    var all := [first] + rest;
    assert all[..|all| - 1] == [first] + rest[..n] && all[|all| - 1] == rest[n];
    if n > 0 {
      JoinedInOrder(first, rest[..n]);
      assert Join(rest) == Join(rest[..n]) + "\n\n" + rest[n];
    } else {
      assert [first] + rest[..0] == [first];
    }
  }

  /** The one kind of number a token limit may be. */
  predicate IsTokenLimit(v: Json) {
    v.JInt? && 1 <= v.n <= 32768
  }

  /** An Anthropic request is accepted exactly within these bounds. */
  lemma AnthropicAccepts(obj: Fields)
    ensures AnthropicOk(obj) <==>
            && (forall name :: name in obj ==>
                  || name == "model" || name == "messages" || name == "stream" || name == "max_tokens"
                  || name == "temperature" || name == "top_p" || name == "stop")
            && "messages" in obj && obj["messages"].JArr? && 1 <= |obj["messages"].items| <= 1000
            && IsConversation(obj["messages"].items)
            && ("temperature" in obj ==> NumberIn(obj["temperature"], 1.0))
            && ("top_p" in obj ==> NumberIn(obj["top_p"], 1.0))
            && ("max_tokens" in obj ==> IsTokenLimit(obj["max_tokens"]))
            && ("stop" in obj ==> exists stops :: StopList(obj["stop"]) == Some(stops))
  {
    if "stop" in obj && StopList(obj["stop"]).Some? {
      assert StopList(obj["stop"]) == Some(StopList(obj["stop"]).value);
    }
  }

  /** An Ollama request field is accepted exactly within these bounds. */
  lemma OllamaAccepts(obj: Fields, name: string)
    requires name in obj
    ensures OllamaFieldOk(obj, name) <==>
            || name == "model" || name == "messages" || name == "stream"
            || (name == "temperature" && NumberIn(obj[name], 2.0))
            || (name == "top_p" && NumberIn(obj[name], 1.0))
            || (name == "max_tokens" && IsTokenLimit(obj[name]))
            || (name == "seed" && obj[name].JInt? && -0x8000_0000_0000_0000 <= obj[name].n < 0x8000_0000_0000_0000)
            || (name == "stop" && StopList(obj[name]).Some?)
            || (name == "stream_options" && "stream" in obj && obj["stream"] == JBool(true)
                && obj[name].JObj? && obj[name].fields.Keys == {"include_usage"} && obj[name].fields["include_usage"].JBool?)
  {
  }

  /** What every request needs: an alias that is allowed, a stream flag if any, and 1 to 1000 messages. */
  lemma BaseExactly(obj: Fields, allowed: map<string, string>)
    ensures BaseOk(obj, allowed) <==>
            && "model" in obj
            && ((obj["model"].JStr? && obj["model"].s in allowed) || (obj["model"] == JNull && "" in allowed))
            && ("stream" in obj ==> obj["stream"] == JBool(true) || obj["stream"] == JBool(false))
            && "messages" in obj && obj["messages"].JArr? && 1 <= |obj["messages"].items| <= 1000
    ensures StreamOf(obj) <==> "stream" in obj && obj["stream"] == JBool(true)
    ensures forall alias :: AliasOf(obj) == Some(alias) <==> "model" in obj && IsText(obj["model"], alias)
  {
  }

  // ---- The whole translation

  /**
   A request goes out only for a model the caller may use, under the name it is
   mapped to. The OpenAI-compatible body is the request with only its model
   replaced; the others carry the whole request or refuse it.
   */
  method PrepareRequest(size: nat, raw: Option<Json>, allowed: map<string, string>, protocol: Protocol)
    returns (r: Result, ghost k: nat)
    ensures r == ModelDenied <==>
            && size <= MAX_BODY && raw.Some? && raw.value.JObj?
            && AliasOf(raw.value.fields).Some? && AliasOf(raw.value.fields).value !in allowed
    ensures r.Ready? <==>
            && size <= MAX_BODY && raw.Some? && raw.value.JObj? && BaseOk(raw.value.fields, allowed)
            && (protocol == OpenAi
                || (protocol == Anthropic && AnthropicOk(raw.value.fields))
                || (protocol == Ollama && OllamaOk(raw.value.fields[
                                                     "model" := JStr(allowed[AliasOf(raw.value.fields).value])])))
    ensures r.Ready? ==>
              var obj, out := raw.value.fields, r.request;
              var model := allowed[AliasOf(obj).value];
              && AliasOf(obj) == Some(out.alias) && out.stream == StreamOf(obj)
              && Get(out.body, "model") == Some(JStr(model))
              && (protocol == OpenAi ==> out.body == obj["model" := JStr(model)] && out.operation == "chat/completions")
              && (protocol == Anthropic ==>
                    out.operation == "messages" && AnthropicBody(obj, k, model, out.body))
              && (protocol == Ollama ==>
                    && out.operation == "chat" && out.body.Keys == {"model", "messages", "stream", "options"}
                    && out.body["messages"] == obj["messages"] && out.body["stream"] == JBool(StreamOf(obj))
                    && out.body["options"] == JObj(OptionsOf(obj, obj.Keys)))
  {
    k := 0;
    if size > MAX_BODY || raw.None? || !raw.value.JObj? {
      return Unsupported, k;
    }
    var obj := raw.value.fields;
    var alias := AliasOf(obj);
    if alias.None? {
      return Unsupported, k;
    }
    if alias.value !in allowed {
      return ModelDenied, k;
    }
    if !StreamOk(obj) || !MessagesOk(obj) {
      return Unsupported, k;
    }
    var model := allowed[alias.value];
    var renamed := obj["model" := JStr(model)];
    ModelOnly(obj, JStr(model));
    match protocol {
      case Ollama =>
        var body := PrepareOllama(renamed);
        if body.None? {
          return Unsupported, k;
        }
        r := Ready(Prepared(alias.value, StreamOf(obj), "chat", body.value));
      case Anthropic =>
        var body;
        body, k := PrepareAnthropic(renamed, model);
        if body.None? {
          return Unsupported, k;
        }
        r := Ready(Prepared(alias.value, StreamOf(obj), "messages", body.value));
      case OpenAi =>
        r := Ready(Prepared(alias.value, StreamOf(obj), "chat/completions", renamed));
      case Unknown =>
        r := Unsupported;
    }
  }

  /**
   The gateway's use of the two: a request under a key goes out only for an alias
   in that key's scope, to the very model the access maps it to.
   */
  method PrepareForKey(scope: seq<string>, mappings: map<string, string>, size: nat, raw: Option<Json>,
                       protocol: Protocol) returns (r: Result)
    ensures r.Ready? ==>
              && Grants(scope, mappings, r.request.alias)
              && Get(r.request.body, "model") == Some(JStr(mappings[r.request.alias]))
    ensures r == ModelDenied <==>
            && size <= MAX_BODY && raw.Some? && raw.value.JObj? && AliasOf(raw.value.fields).Some?
            && !Grants(scope, mappings, AliasOf(raw.value.fields).value)
  {
    var allowed := AllowedModels(scope, mappings);
    ghost var k;
    r, k := PrepareRequest(size, raw, allowed, protocol);
  }

  /** Replacing the model touches nothing else that the conversions read. */
  lemma ModelOnly(obj: Fields, model: Json)
    requires "model" in obj
    ensures
      var renamed := obj["model" := model];
      && renamed.Keys == obj.Keys
      && StreamOf(renamed) == StreamOf(obj)
      && (MessagesOk(renamed) <==> MessagesOk(obj))
      && (AnthropicOk(renamed) <==> AnthropicOk(obj))
      && OptionsOf(renamed, renamed.Keys) == OptionsOf(obj, obj.Keys)
      && (forall k: nat, m: string, body: Fields :: AnthropicBody(renamed, k, m, body) ==> AnthropicBody(obj, k, m, body))
  {
    var renamed := obj["model" := model];
    assert renamed.Keys == obj.Keys;
    assert forall name :: name in obj && name != "model" ==> renamed[name] == obj[name];
    if MessagesOk(obj) {
      forall k: nat, m: string, name: string | k <= |obj["messages"].items|
        ensures BodyField(renamed, k, m, name) == BodyField(obj, k, m, name)
      {
      }
    }
  }
}
