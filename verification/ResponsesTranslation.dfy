/** The Responses API input translated into chat messages, and which inputs the validator accepts. */
module ResponsesTranslation {
  import opened Text
  import opened Protocol
  import opened ToolConversation

  datatype Request = Request(instructions: string, input: Value, tools: seq<map<string, Value>>)

  /** The fixed system text that confines a custom `exec` tool to the caller's workspace. */
  const EXEC_POLICY := Str("exec policy")

  predicate IsExec(tool: map<string, Value>) {
    StrField(tool, "type") == "custom" && StrField(tool, "name") == "exec"
  }

  predicate HasCustomExec(tools: seq<map<string, Value>>) {
    exists k :: 0 <= k < |tools| && IsExec(tools[k])
  }

  predicate ProgressOk(m: map<string, Value>) {
    Trim(StrField(m, "call_id")) != "" && Trim(StrField(m, "message")) != ""
  }

  predicate IsProgress(item: Value) {
    item.Obj? && StrField(item.fields, "type") == "function_call_progress"
  }

  function CallMessage(id: string, kind: string, name: string, arguments: string): Message {
    Message("assistant", Null, "", [ToolCall(id, kind, name, arguments)])
  }

  /** String arguments that hold JSON are decoded, so that they are not encoded twice. */
  function Arguments(codec: Codec, args: Value): string {
    if args.Str? && codec.decode(args.text).Some? then codec.encode(codec.decode(args.text).value)
    else codec.encode(args)
  }

  /** The messages one input item contributes. */
  function ItemMessages(codec: Codec, item: Value): Result<seq<Message>> {
    if !item.Obj? then Ok([])
    else
      var m := item.fields;
      var typ, id := StrField(m, "type"), StrField(m, "call_id");
      if typ == "function_call_progress" then
        if ProgressOk(m) then Ok([]) else Error("invalid function_call_progress")
      else if typ == "function_call_output" || typ == "custom_tool_call_output" then
        Ok([Message("tool", Field(m, "output"), id, [])])
      else if typ == "function_call" then
        Ok([CallMessage(id, "function", StrField(m, "name"), Arguments(codec, Field(m, "arguments")))])
      else if typ == "custom_tool_call" then
        Ok([CallMessage(id, "custom", StrField(m, "name"),
                        codec.encode(Obj(map["input" := Str(StrField(m, "input"))])))])
      else
        var role := if StrField(m, "role") == "" then "user" else StrField(m, "role");
        var content := if Field(m, "content") == Null then Arr([item]) else Field(m, "content");
        Ok([Message(role, content, "", [])])
  }

  function ItemsMessages(codec: Codec, items: seq<Value>): Result<seq<Message>> {
    if items == [] then Ok([])
    else
      match ItemMessages(codec, items[0])
      case Error(e) => Error(e)
      case Ok(ms) =>
        match ItemsMessages(codec, items[1..])
        case Error(e) => Error(e)
        case Ok(rest) => Ok(ms + rest)
  }

  function Prefix(r: Request): seq<Message> {
    (if HasCustomExec(r.tools) then [Message("system", EXEC_POLICY, "", [])] else []) +
    (if Trim(r.instructions) != "" then [Message("system", Str(Trim(r.instructions)), "", [])] else [])
  }

  function InputMessages(codec: Codec, input: Value): Result<seq<Message>> {
    match input
    case Str(v) => if v == "" then Error("input required") else Ok([Message("user", Str(v), "", [])])
    case Arr(items) => ItemsMessages(codec, items)
    case _ => Error("input must be string or array")
  }

  function Translate(codec: Codec, r: Request): Result<seq<Message>> {
    Appended(Prefix(r), InputMessages(codec, r.input))
  }

  // ---------------------------------------------------------------------------------------------
  // Progress items
  // ---------------------------------------------------------------------------------------------

  function WithoutProgress(items: seq<Value>): seq<Value> {
    if items == [] then []
    else (if IsProgress(items[0]) then [] else [items[0]]) + WithoutProgress(items[1..])
  }

  /** A valid progress item can stand anywhere without changing the translation, and an invalid one
      is the only item that is refused. */
  lemma {:induction false} ProgressIsInvisible(codec: Codec, items: seq<Value>)
    ensures ItemsMessages(codec, items).Ok? <==> forall x | x in items && IsProgress(x) :: ProgressOk(x.fields)
    ensures ItemsMessages(codec, WithoutProgress(items)).Ok?
    ensures ItemsMessages(codec, items).Ok? ==>
              ItemsMessages(codec, items) == ItemsMessages(codec, WithoutProgress(items))
  {
    if items != [] {
      ProgressIsInvisible(codec, items[1..]);
      assert items == [items[0]] + items[1..];
      var kept := WithoutProgress(items);
      if !IsProgress(items[0]) {
        assert kept[0] == items[0] && kept[1..] == WithoutProgress(items[1..]);
      } else {
        assert kept == WithoutProgress(items[1..]);
        if ItemsMessages(codec, items[1..]).Ok? {
          assert [] + ItemsMessages(codec, items[1..]).value == ItemsMessages(codec, items[1..]).value;
        }
      }
    }
  }

  // ---------------------------------------------------------------------------------------------
  // What each item becomes
  // ---------------------------------------------------------------------------------------------

  /** The items that become messages: the objects that are not progress. */
  function Spoken(items: seq<Value>): (r: seq<Value>)
    ensures forall x | x in r :: x.Obj?
  {
    if items == [] then []
    else (if items[0].Obj? && !IsProgress(items[0]) then [items[0]] else []) + Spoken(items[1..])
  }

  /** What the arguments of a call item stand for: the `input` of a custom call, the value that a JSON
      string holds, or the value itself. */
  function ArgumentValue(codec: Codec, m: map<string, Value>): Value {
    if StrField(m, "type") == "custom_tool_call" then Obj(map["input" := Str(StrField(m, "input"))])
    else
      match Field(m, "arguments")
      case Str(text) => (match codec.decode(text) case Some(v) => v case None => Str(text))
      case v => v
  }

  predicate SaysOutput(m: map<string, Value>, msg: Message) {
    msg.role == "tool" && msg.toolCallId == StrField(m, "call_id") && msg.content == Field(m, "output")
    && msg.toolCalls == []
  }

  predicate SaysCall(codec: Codec, m: map<string, Value>, kind: string, msg: Message) {
    && msg.role == "assistant" && msg.content == Null && msg.toolCallId == ""
    && |msg.toolCalls| == 1
    && var c := msg.toolCalls[0];
       && c.id == StrField(m, "call_id") && c.kind == kind && c.name == StrField(m, "name")
       && c.arguments == codec.encode(ArgumentValue(codec, m))
  }

  /** The role defaults to the user, the content to the item itself. */
  predicate SaysText(m: map<string, Value>, msg: Message) {
    && msg.toolCallId == "" && msg.toolCalls == []
    && (StrField(m, "role") != "" ==> msg.role == StrField(m, "role"))
    && (StrField(m, "role") == "" ==> msg.role == "user")
    && ("content" in m && m["content"] != Null ==> msg.content == m["content"])
    && ("content" !in m || m["content"] == Null ==> msg.content == Arr([Obj(m)]))
  }

  /** The message says what the item says. */
  predicate Says(codec: Codec, m: map<string, Value>, msg: Message) {
    match StrField(m, "type")
    case "function_call_output" => SaysOutput(m, msg)
    case "custom_tool_call_output" => SaysOutput(m, msg)
    case "function_call" => SaysCall(codec, m, "function", msg)
    case "custom_tool_call" => SaysCall(codec, m, "custom", msg)
    case _ => SaysText(m, msg)
  }

  predicate SaysAll(codec: Codec, items: seq<Value>, ms: seq<Message>) {
    |ms| == |Spoken(items)| && forall k | 0 <= k < |ms| :: Says(codec, Spoken(items)[k].fields, ms[k])
  }

  lemma OneItemSays(codec: Codec, item: Value)
    requires ItemMessages(codec, item).Ok?
    ensures var ms := ItemMessages(codec, item).value;
            if item.Obj? && !IsProgress(item) then |ms| == 1 && Says(codec, item.fields, ms[0]) else ms == []
  {
  }

  /** Item by item, in order, the translation says what the input says. */
  lemma {:induction false} EveryItemIsSaid(codec: Codec, items: seq<Value>)
    requires ItemsMessages(codec, items).Ok?
    ensures SaysAll(codec, items, ItemsMessages(codec, items).value)
  {
    if items != [] {
      EveryItemIsSaid(codec, items[1..]);
      OneItemSays(codec, items[0]);
      var first, rest := ItemMessages(codec, items[0]).value, ItemsMessages(codec, items[1..]).value;
      if first == [] {
        assert [] + rest == rest && Spoken(items) == Spoken(items[1..]);
      } else {
        assert first == [first[0]] && Spoken(items) == [items[0]] + Spoken(items[1..]);
      }
    }
  }

  /** The request brings a custom tool with the name exec. */
  predicate OffersExec(r: Request) {
    exists t :: t in r.tools && Field(t, "type") == Str("custom") && Field(t, "name") == Str("exec")
  }

  lemma ExecExactly(r: Request)
    ensures HasCustomExec(r.tools) <==> OffersExec(r)
  {
    if t :| t in r.tools && Field(t, "type") == Str("custom") && Field(t, "name") == Str("exec") {
      var k :| 0 <= k < |r.tools| && r.tools[k] == t;
      assert IsExec(r.tools[k]);
    }
    if k :| 0 <= k < |r.tools| && IsExec(r.tools[k]) {
      assert r.tools[k] in r.tools;
    }
  }

  /** The system messages that a request begins with. */
  predicate BeginsAsAsked(r: Request, ms: seq<Message>) {
    && (OffersExec(r) ==> ms != [] && ms[0] == Message("system", EXEC_POLICY, "", []))
    && (Trim(r.instructions) != "" ==>
          var k := if OffersExec(r) then 1 else 0;
          |ms| > k && ms[k] == Message("system", Str(Trim(r.instructions)), "", []))
  }

  /** How many system messages come in front. */
  function Lead(r: Request): nat {
    (if OffersExec(r) then 1 else 0) + (if Trim(r.instructions) != "" then 1 else 0)
  }

  /** Progress without an id or without a message. */
  predicate IsBadProgress(item: Value) {
    && item.Obj? && Field(item.fields, "type") == Str("function_call_progress")
    && (Trim(StrField(item.fields, "call_id")) == "" || Trim(StrField(item.fields, "message")) == "")
  }

  /** A request is refused exactly for its input: empty text, no text and no list, or progress that is
      not valid. */
  predicate Refused(input: Value) {
    match input
    case Str(text) => text == ""
    case Arr(items) => exists x :: x in items && IsBadProgress(x)
    case _ => true
  }

  /** A request says what it says: the policy and the instructions, and then its text as the user or
      its items one by one. */
  lemma RequestIsSaid(codec: Codec, r: Request)
    ensures Translate(codec, r).Error? <==> Refused(r.input)
    ensures Translate(codec, r).Ok? ==>
              var ms := Translate(codec, r).value;
              && |ms| >= Lead(r) && BeginsAsAsked(r, ms)
              && (r.input.Str? ==> ms[Lead(r)..] == [Message("user", r.input, "", [])])
              && (r.input.Arr? ==> SaysAll(codec, r.input.items, ms[Lead(r)..]))
  {
    ExecExactly(r);
    if r.input.Arr? {
      ProgressIsInvisible(codec, r.input.items);
      if !Refused(r.input) {
        EveryItemIsSaid(codec, r.input.items);
      }
    }
    if Translate(codec, r).Ok? {
      var more := InputMessages(codec, r.input).value;
      assert |Prefix(r)| == Lead(r);
      assert (Prefix(r) + more)[Lead(r)..] == more;
    }
  }

  // ---------------------------------------------------------------------------------------------
  // What the validator accepts
  // ---------------------------------------------------------------------------------------------

  /** What the tool protocol can see of an input: `Say` is an assistant message without calls and
      `Stray` a plain item that claims the role of a tool. */
  datatype Token = Call(id: string) | Output(id: string) | Say | Stray

  function Tokens(items: seq<Value>): seq<Token> {
    if items == [] then [] else TokenOf(items[0]) + Tokens(items[1..])
  }

  function TokenOf(item: Value): seq<Token> {
    if !item.Obj? then []
    else
      var typ, id := StrField(item.fields, "type"), StrField(item.fields, "call_id");
      if typ == "function_call_progress" then []
      else if typ in {"function_call_output", "custom_tool_call_output"} then [Output(id)]
      else if typ in {"function_call", "custom_tool_call"} then [Call(id)]
      else
        match StrField(item.fields, "role")
        case "assistant" => [Say]
        case "tool" => [Stray]
        case _ => []
  }

  /** Pairs of a call and its own output, with assistant messages only between pairs. */
  predicate Paired(tokens: seq<Token>)
    decreases |tokens|
  {
    || tokens == []
    || (tokens[0] == Say && Paired(tokens[1..]))
    || (&& |tokens| >= 2 && tokens[0].Call? && tokens[1] == Output(tokens[0].id)
        && Paired(tokens[2..]))
  }

  function CalledIds(tokens: seq<Token>): seq<string> {
    if tokens == [] then []
    else (if tokens[0].Call? then [tokens[0].id] else []) + CalledIds(tokens[1..])
  }

  ghost predicate Acceptable(tokens: seq<Token>) {
    Paired(tokens) && Distinct(CalledIds(tokens)) && "" !in CalledIds(tokens)
  }

  function TokenShape(tokens: seq<Token>): Shape {
    if tokens == [] then Shape([], [])
    else
      var rest := TokenShape(tokens[1..]);
      match tokens[0]
      case Call(id) => Shape([], [Round([id], rest.lead)] + rest.rounds)
      case Say => Shape([], [Round([], rest.lead)] + rest.rounds)
      case Output(id) => rest.(lead := [id] + rest.lead)
      case Stray => rest.(lead := [""] + rest.lead)
  }

  lemma OneMessageMore(m: Message, rest: seq<Message>)
    ensures var shape := ShapeOf(rest);
            ShapeOf([m] + rest) ==
              if m.role == "assistant" then Shape([], [Round(Ids(m.toolCalls), shape.lead)] + shape.rounds)
              else if m.role == "tool" then shape.(lead := [m.toolCallId] + shape.lead)
              else shape
  {
    assert ([m] + rest)[1..] == rest;
  }

  lemma OneTokenMore(t: Token, rest: seq<Token>)
    ensures var shape := TokenShape(rest);
            TokenShape([t] + rest) ==
              match t
              case Call(id) => Shape([], [Round([id], shape.lead)] + shape.rounds)
              case Say => Shape([], [Round([], shape.lead)] + shape.rounds)
              case Output(id) => shape.(lead := [id] + shape.lead)
              case Stray => shape.(lead := [""] + shape.lead)
  {
    assert ([t] + rest)[1..] == rest;
  }

  /** One item has the same effect on the shape as its token. */
  lemma ItemShape(codec: Codec, item: Value, rest: seq<Message>, tokens: seq<Token>)
    requires ItemMessages(codec, item).Ok? && ShapeOf(rest) == TokenShape(tokens)
    ensures ShapeOf(ItemMessages(codec, item).value + rest) == TokenShape(TokenOf(item) + tokens)
  {
    var ms, ts := ItemMessages(codec, item).value, TokenOf(item);
    assert [] + rest == rest && [] + tokens == tokens;
    if ms != [] {
      assert ms == [ms[0]];
      OneMessageMore(ms[0], rest);
    }
    if ts != [] {
      assert ts == [ts[0]];
      OneTokenMore(ts[0], tokens);
    }
    if ts != [] && ts[0].Call? {
      assert Ids(ms[0].toolCalls) == [ts[0].id];
    }
  }

  lemma {:induction false} TranslationShape(codec: Codec, items: seq<Value>)
    requires ItemsMessages(codec, items).Ok?
    ensures ShapeOf(ItemsMessages(codec, items).value) == TokenShape(Tokens(items))
  {
    if items != [] {
      TranslationShape(codec, items[1..]);
      ItemShape(codec, items[0], ItemsMessages(codec, items[1..]).value, Tokens(items[1..]));
    }
  }

  lemma {:induction false} TokenShapeCalls(tokens: seq<Token>)
    ensures AllCalls(TokenShape(tokens).rounds) == CalledIds(tokens)
  {
    if tokens != [] {
      TokenShapeCalls(tokens[1..]);
      var rounds := TokenShape(tokens).rounds;
      if tokens[0].Call? || tokens[0].Say? {
        assert rounds[1..] == TokenShape(tokens[1..]).rounds;
      }
    }
  }

  lemma SingleResult(lead: seq<string>, id: string)
    ensures multiset(lead) == multiset([id]) <==> lead == [id]
  {
    if multiset(lead) == multiset([id]) {
      assert |lead| == |multiset(lead)| == 1;
      assert lead == [lead[0]];
      assert lead[0] in multiset([id]);
    }
  }

  lemma {:induction false} PairedExactly(tokens: seq<Token>)
    requires "" !in CalledIds(tokens)
    ensures TokenShape(tokens).lead == [] && Answered(TokenShape(tokens).rounds) <==> Paired(tokens)
    decreases |tokens|
  {
    if tokens != [] {
      var rest := TokenShape(tokens[1..]);
      if tokens[0].Say? {
        PairedExactly(tokens[1..]);
        OneRoundMore(rest, []);
        assert multiset(rest.lead) == multiset([]) <==> |multiset(rest.lead)| == 0;
      } else if tokens[0].Call? {
        var id := tokens[0].id;
        OneRoundMore(rest, [id]);
        SingleResult(rest.lead, id);
        assert id in CalledIds(tokens);
        if |tokens| >= 2 && tokens[1].Output? {
          assert tokens[1..][1..] == tokens[2..];
          assert CalledIds(tokens[1..]) == CalledIds(tokens[2..]);
          PairedExactly(tokens[2..]);
        }
      }
    }
  }

  /** A Responses input passes the validator if and only if, apart from progress and from items that
      are neither assistant nor tool messages, it is a series of calls that are each followed by
      their own output, with distinct non-empty ids and assistant messages only between pairs. */
  lemma AcceptedResponsesInput(codec: Codec, r: Request)
    requires r.input.Arr? && Translate(codec, r).Ok?
    ensures Valid(Translate(codec, r).value) <==> Acceptable(Tokens(r.input.items))
  {
    var ms := ItemsMessages(codec, r.input.items).value;
    SystemIsInvisible(Prefix(r), ms);
    ValidIffWellFormed(Prefix(r) + ms);
    TranslationShape(codec, r.input.items);
    TokenShapeCalls(Tokens(r.input.items));
    if "" !in CalledIds(Tokens(r.input.items)) {
      PairedExactly(Tokens(r.input.items));
    }
  }

  // ---------------------------------------------------------------------------------------------
  // Parallel calls
  // ---------------------------------------------------------------------------------------------

  /** In an accepted series every call is followed by its own output. */
  lemma {:induction false} CallThenOutput(tokens: seq<Token>, i: nat)
    requires Paired(tokens) && i < |tokens| && tokens[i].Call?
    ensures i + 1 < |tokens| && tokens[i + 1] == Output(tokens[i].id)
    decreases |tokens|
  {
    if i > 0 {
      if tokens[0] == Say {
        CallThenOutput(tokens[1..], i - 1);
      } else {
        CallThenOutput(tokens[2..], i - 2);
      }
    }
  }

  predicate IsCall(item: Value) {
    item.Obj? && StrField(item.fields, "type") in {"function_call", "custom_tool_call"}
  }

  /** Two calls with no output and no assistant message between them are refused, wherever they stand
      in the input and whatever answers them later. */
  lemma ParallelCallsRefused(codec: Codec, r: Request, i: nat, j: nat)
    requires r.input.Arr? && Translate(codec, r).Ok?
    requires i < j < |r.input.items| && IsCall(r.input.items[i]) && IsCall(r.input.items[j])
    requires forall k | i < k < j :: TokenOf(r.input.items[k]) == []
    ensures !Valid(Translate(codec, r).value)
  {
    assert TokenOf(r.input.items[i]) == [Call(StrField(r.input.items[i].fields, "call_id"))];
    assert TokenOf(r.input.items[j]) == [Call(StrField(r.input.items[j].fields, "call_id"))];
    var n := AdjacentTokens(r.input.items, i, j);
    if Paired(Tokens(r.input.items)) {
      CallThenOutput(Tokens(r.input.items), n);
    }
    AcceptedResponsesInput(codec, r);
  }

  /** Silent items in front do not show. */
  lemma {:induction false} FirstToken(items: seq<Value>, j: nat)
    requires j < |items| && TokenOf(items[j]) != []
    requires forall k | 0 <= k < j :: TokenOf(items[k]) == []
    ensures Tokens(items) != [] && Tokens(items)[0] == TokenOf(items[j])[0]
  {
    if j > 0 {
      FirstToken(items[1..], j - 1);
      assert Tokens(items) == Tokens(items[1..]);
    }
  }

  /** The tokens of two items with nothing but silent items between them are neighbours. */
  lemma {:induction false} AdjacentTokens(items: seq<Value>, i: nat, j: nat) returns (n: nat)
    requires i < j < |items| && |TokenOf(items[i])| == 1 && TokenOf(items[j]) != []
    requires forall k | i < k < j :: TokenOf(items[k]) == []
    ensures n + 1 < |Tokens(items)|
    ensures Tokens(items)[n] == TokenOf(items[i])[0] && Tokens(items)[n + 1] == TokenOf(items[j])[0]
    decreases i
  {
    if i == 0 {
      FirstToken(items[1..], j - 1);
      n := 0;
    } else {
      var m := AdjacentTokens(items[1..], i - 1, j - 1);
      n := |TokenOf(items[0])| + m;
    }
  }

  function CallItem(id: string): Value {
    Obj(map["type" := Str("function_call"), "call_id" := Str(id), "name" := Str("read"), "arguments" := Str("{}")])
  }

  function OutputItem(id: string, text: string): Value {
    Obj(map["type" := Str("function_call_output"), "call_id" := Str(id), "output" := Str(text)])
  }

  /** An input on which it happens: two calls in parallel, both answered. */
  lemma AnsweredParallelCalls(codec: Codec, a: string, b: string)
    ensures var r := Request("", Arr([CallItem(a), CallItem(b), OutputItem(a, "x"), OutputItem(b, "y")]), []);
            Translate(codec, r).Ok? && !Valid(Translate(codec, r).value)
  {
    var items := [CallItem(a), CallItem(b), OutputItem(a, "x"), OutputItem(b, "y")];
    var r := Request("", Arr(items), []);
    forall item | item in items ensures !IsProgress(item) {
      ItemKinds(a, "x");
      ItemKinds(b, "y");
    }
    ProgressIsInvisible(codec, items);
    ItemKinds(a, "x");
    ItemKinds(b, "y");
    ParallelCallsRefused(codec, r, 0, 1);
  }

  lemma ItemKinds(id: string, text: string)
    ensures IsCall(CallItem(id)) && !IsProgress(CallItem(id))
    ensures TokenOf(OutputItem(id, text)) == [Output(id)] && !IsProgress(OutputItem(id, text))
  {
  }

  method AppendItems(codec: Codec, items: seq<Value>, start: seq<Message>) returns (out: Result<seq<Message>>)
    ensures out == Appended(start, ItemsMessages(codec, items))
  {
    var messages := start;
    assert items[0..] == items;
    for k := 0 to |items|
      invariant Appended(start, ItemsMessages(codec, items)) == Appended(messages, ItemsMessages(codec, items[k..]))
    {
      assert items[k..][0] == items[k] && items[k..][1..] == items[k + 1..];
      var added := ItemMessages(codec, items[k]);
      if added.Error? {
        return added;
      }
      AppendedTwice(messages, added.value, ItemsMessages(codec, items[k + 1..]));
      messages := messages + added.value;
    }
    assert messages + [] == messages;
    out := Ok(messages);
  }

  method FindCustomExec(tools: seq<map<string, Value>>) returns (found: bool)
    ensures found == HasCustomExec(tools)
  {
    found := false;
    for k := 0 to |tools|
      invariant !found && forall i :: 0 <= i < k ==> !IsExec(tools[i])
    {
      if IsExec(tools[k]) {
        return true;
      }
    }
  }

  method AppendInput(codec: Codec, input: Value, start: seq<Message>) returns (out: Result<seq<Message>>)
    ensures out == Appended(start, InputMessages(codec, input))
  {
    match input {
      case Str(v) =>
        if v == "" {
          return Error("input required");
        }
        out := Ok(start + [Message("user", Str(v), "", [])]);
      case Arr(items) =>
        out := AppendItems(codec, items, start);
      case _ =>
        out := Error("input must be string or array");
    }
  }

  method ResponsesToOpenAI(codec: Codec, r: Request) returns (out: Result<seq<Message>>)
    ensures out == Translate(codec, r)
    ensures out.Error? <==> Refused(r.input)
    ensures out.Ok? ==> |out.value| >= Lead(r) && BeginsAsAsked(r, out.value)
    ensures out.Ok? && r.input.Arr? ==> SaysAll(codec, r.input.items, out.value[Lead(r)..])
    ensures out.Ok? && r.input.Arr? ==> (Valid(out.value) <==> Acceptable(Tokens(r.input.items)))
  {
    var messages: seq<Message> := [];
    if Trim(r.instructions) != "" {
      messages := [Message("system", Str(Trim(r.instructions)), "", [])];
    }
    out := AppendInput(codec, r.input, messages);
    RequestIsSaid(codec, r);
    if out.Error? {
      return out;
    }
    var hasCustomExec := FindCustomExec(r.tools);
    if hasCustomExec {
      var policy := [Message("system", EXEC_POLICY, "", [])];
      out := Ok(policy + out.value);
      AppendedTwice(policy, messages, InputMessages(codec, r.input));
    } else {
      assert [] + messages == messages;
    }
    if r.input.Arr? {
      AcceptedResponsesInput(codec, r);
    }
  }
}
