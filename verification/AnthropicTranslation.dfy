/** Anthropic messages translated into chat messages: tool_result blocks become tool messages ahead
    of their own message, tool_use blocks become its calls. */
module AnthropicTranslation {
  import opened Text
  import opened Protocol
  import opened ToolConversation

  datatype Turn = Turn(role: string, content: Value)

  function Kind(block: Value): string {
    if block.Obj? then StrField(block.fields, "type") else ""
  }

  /** Text blocks are kept; an image block is rewritten when it carries base64 data. */
  function TextBlock(block: Value): seq<Value> {
    if Kind(block) == "text" then [block]
    else if Kind(block) == "image" && Field(block.fields, "source").Obj? then
      var source := Field(block.fields, "source").fields;
      var data := StrField(source, "data");
      var media := if StrField(source, "media_type") == "" then "application/octet-stream"
                   else StrField(source, "media_type");
      if data == "" then []
      else [Obj(map["type" := Str("input_image"),
                    "image_url" := Str("data:" + media + ";base64," + data)])]
    else []
  }

  function UseBlock(codec: Codec, block: Value): seq<ToolCall> {
    if Kind(block) == "tool_use" then
      var b := block.fields;
      [ToolCall(StrField(b, "id"), "function", StrField(b, "name"), codec.encode(Field(b, "input")))]
    else []
  }

  function ResultBlock(block: Value): seq<Message> {
    if Kind(block) == "tool_result" then
      [Message("tool", Field(block.fields, "content"), StrField(block.fields, "tool_use_id"), [])]
    else []
  }

  function TextBlocks(blocks: seq<Value>): seq<Value> {
    if blocks == [] then [] else TextBlock(blocks[0]) + TextBlocks(blocks[1..])
  }

  function UseBlocks(codec: Codec, blocks: seq<Value>): seq<ToolCall> {
    if blocks == [] then [] else UseBlock(codec, blocks[0]) + UseBlocks(codec, blocks[1..])
  }

  function ResultBlocks(blocks: seq<Value>): seq<Message> {
    if blocks == [] then [] else ResultBlock(blocks[0]) + ResultBlocks(blocks[1..])
  }

  function Blocks(t: Turn): seq<Value> {
    if t.content.Arr? then t.content.items else []
  }

  function Uses(codec: Codec, t: Turn): seq<ToolCall> { UseBlocks(codec, Blocks(t)) }

  function Results(t: Turn): seq<Message> { ResultBlocks(Blocks(t)) }

  /** Whether the turn yields a message of its own besides its results. */
  predicate Speaks(codec: Codec, t: Turn) {
    t.content.Str? || TextBlocks(Blocks(t)) != [] || Uses(codec, t) != []
  }

  function Own(codec: Codec, t: Turn): seq<Message> {
    if t.content.Str? then [Message(t.role, t.content, "", [])]
    else if Speaks(codec, t) then [Message(t.role, Arr(TextBlocks(Blocks(t))), "", Uses(codec, t))]
    else []
  }

  predicate Readable(t: Turn) {
    t.content.Str? || t.content.Arr?
  }

  function Translate(codec: Codec, turns: seq<Turn>): Result<seq<Message>> {
    if turns == [] then Ok([])
    else if !Readable(turns[0]) then Error("invalid anthropic content")
    else Appended(Results(turns[0]) + Own(codec, turns[0]), Translate(codec, turns[1..]))
  }

  // ---------------------------------------------------------------------------------------------
  // Order and completeness
  // ---------------------------------------------------------------------------------------------

  function CallsIn(messages: seq<Message>): seq<ToolCall> {
    if messages == [] then [] else messages[0].toolCalls + CallsIn(messages[1..])
  }

  function ToolMessagesIn(messages: seq<Message>): seq<Message> {
    if messages == [] then []
    else (if messages[0].role == "tool" then [messages[0]] else []) + ToolMessagesIn(messages[1..])
  }

  function AllUses(codec: Codec, turns: seq<Turn>): seq<ToolCall> {
    if turns == [] then [] else Uses(codec, turns[0]) + AllUses(codec, turns[1..])
  }

  function AllResults(turns: seq<Turn>): seq<Message> {
    if turns == [] then [] else Results(turns[0]) + AllResults(turns[1..])
  }

  lemma {:induction false} CallsInAppend(a: seq<Message>, b: seq<Message>)
    ensures CallsIn(a + b) == CallsIn(a) + CallsIn(b)
  {
    if a == [] {
      assert a + b == b;
    } else {
      assert (a + b)[1..] == a[1..] + b;
      CallsInAppend(a[1..], b);
      Assoc(a[0].toolCalls, CallsIn(a[1..]), CallsIn(b));
    }
  }

  lemma {:induction false} ToolMessagesInAppend(a: seq<Message>, b: seq<Message>)
    ensures ToolMessagesIn(a + b) == ToolMessagesIn(a) + ToolMessagesIn(b)
  {
    if a == [] {
      assert a + b == b;
    } else {
      assert (a + b)[1..] == a[1..] + b;
      ToolMessagesInAppend(a[1..], b);
      Assoc(if a[0].role == "tool" then [a[0]] else [], ToolMessagesIn(a[1..]), ToolMessagesIn(b));
    }
  }

  lemma {:induction false} ResultBlocksAreTools(blocks: seq<Value>)
    ensures CallsIn(ResultBlocks(blocks)) == []
    ensures ToolMessagesIn(ResultBlocks(blocks)) == ResultBlocks(blocks)
  {
    if blocks != [] {
      ResultBlocksAreTools(blocks[1..]);
      CallsInAppend(ResultBlock(blocks[0]), ResultBlocks(blocks[1..]));
      ToolMessagesInAppend(ResultBlock(blocks[0]), ResultBlocks(blocks[1..]));
      if ResultBlock(blocks[0]) != [] {
        assert ResultBlock(blocks[0])[1..] == [];
      }
    }
  }

  lemma TurnMessages(codec: Codec, t: Turn)
    ensures CallsIn(Results(t) + Own(codec, t)) == Uses(codec, t)
    ensures t.role != "tool" ==> ToolMessagesIn(Results(t) + Own(codec, t)) == Results(t)
  {
    var results, own := Results(t), Own(codec, t);
    ResultBlocksAreTools(Blocks(t));
    CallsInAppend(results, own);
    ToolMessagesInAppend(results, own);
    assert CallsIn(own) == Uses(codec, t) by {
      if own != [] {
        assert own[1..] == [];
        assert own[0].toolCalls + [] == own[0].toolCalls;
      }
    }
  }

  /** No call and no result is lost, doubled or moved by the translation. */
  lemma {:induction false} CallsAndResultsPreserved(codec: Codec, turns: seq<Turn>)
    requires Translate(codec, turns).Ok?
    ensures CallsIn(Translate(codec, turns).value) == AllUses(codec, turns)
    ensures (forall t | t in turns :: t.role != "tool") ==>
              ToolMessagesIn(Translate(codec, turns).value) == AllResults(turns)
  {
    if turns != [] {
      assert turns[0] in turns;
      CallsAndResultsPreserved(codec, turns[1..]);
      TurnMessages(codec, turns[0]);
      var first, rest := Results(turns[0]) + Own(codec, turns[0]), Translate(codec, turns[1..]).value;
      CallsInAppend(first, rest);
      ToolMessagesInAppend(first, rest);
    }
  }

  // ---------------------------------------------------------------------------------------------
  // What each block becomes
  // ---------------------------------------------------------------------------------------------

  /** The blocks whose `type` is `kind`, in order. */
  function OfKind(blocks: seq<Value>, kind: string): (r: seq<Value>)
    ensures forall b | b in r :: b.Obj?
  {
    if blocks == [] then []
    else
      var b := blocks[0];
      (if b.Obj? && StrField(b.fields, "type") == kind then [b] else []) + OfKind(blocks[1..], kind)
  }

  /** The call of a tool_use block: its id and name, and its input encoded. */
  predicate SaysUse(codec: Codec, b: map<string, Value>, c: ToolCall) {
    && c.id == StrField(b, "id") && c.kind == "function" && c.name == StrField(b, "name")
    && c.arguments == codec.encode(Field(b, "input"))
  }

  /** One call for each block, in order. */
  predicate SaysEachUse(codec: Codec, used: seq<Value>, calls: seq<ToolCall>) {
    |calls| == |used| && forall j | 0 <= j < |used| :: used[j].Obj? && SaysUse(codec, used[j].fields, calls[j])
  }

  predicate SaysUses(codec: Codec, blocks: seq<Value>, calls: seq<ToolCall>) {
    SaysEachUse(codec, OfKind(blocks, "tool_use"), calls)
  }

  predicate SaysResult(b: map<string, Value>, m: Message) {
    m.role == "tool" && m.toolCallId == StrField(b, "tool_use_id") && m.content == Field(b, "content")
    && m.toolCalls == []
  }

  /** One message for each block, in order. */
  predicate SaysEachResult(results: seq<Value>, messages: seq<Message>) {
    |messages| == |results|
    && forall j | 0 <= j < |results| :: results[j].Obj? && SaysResult(results[j].fields, messages[j])
  }

  predicate SaysResults(blocks: seq<Value>, messages: seq<Message>) {
    SaysEachResult(OfKind(blocks, "tool_result"), messages)
  }

  /** A text block, or an image block with base64 data. */
  predicate IsShown(b: Value) {
    && b.Obj?
    && (|| StrField(b.fields, "type") == "text"
        || (&& StrField(b.fields, "type") == "image" && Field(b.fields, "source").Obj?
            && StrField(Field(b.fields, "source").fields, "data") != ""))
  }

  function Shown(blocks: seq<Value>): (r: seq<Value>)
    ensures forall b | b in r :: IsShown(b)
  {
    if blocks == [] then [] else (if IsShown(blocks[0]) then [blocks[0]] else []) + Shown(blocks[1..])
  }

  /** Text is shown as it is, an image as a data url with its media type. */
  predicate SaysShown(b: Value, v: Value)
    requires IsShown(b)
  {
    if StrField(b.fields, "type") == "text" then v == b
    else
      var source := Field(b.fields, "source").fields;
      && v.Obj? && v.fields.Keys == {"type", "image_url"} && v.fields["type"] == Str("input_image")
      && v.fields["image_url"].Str?
      && var url, media, data := v.fields["image_url"].text, StrField(source, "media_type"), StrField(source, "data");
         if media != "" then url == "data:" + media + ";base64," + data
         else url == "data:" + "application/octet-stream" + ";base64," + data
  }

  /** One part for each block, in order. */
  predicate SaysEachShown(shown: seq<Value>, texts: seq<Value>) {
    |texts| == |shown| && forall j | 0 <= j < |shown| :: IsShown(shown[j]) && SaysShown(shown[j], texts[j])
  }

  predicate SaysTexts(blocks: seq<Value>, texts: seq<Value>) {
    SaysEachShown(Shown(blocks), texts)
  }

  /** The content blocks of a turn; content that is text has none. */
  predicate HasBlocks(t: Turn, blocks: seq<Value>) {
    (t.content.Arr? ==> blocks == t.content.items) && (!t.content.Arr? ==> blocks == [])
  }

  /** The number of messages of a turn. */
  function Size(t: Turn): nat {
    |OfKind(Blocks(t), "tool_result")| +
    if t.content.Str? || Shown(Blocks(t)) != [] || OfKind(Blocks(t), "tool_use") != [] then 1 else 0
  }

  /** The results of a turn come first, one message each; its text and its calls follow in one message
      with the role of the turn. */
  predicate SaysTurn(codec: Codec, t: Turn, ms: seq<Message>) {
    var n := |OfKind(Blocks(t), "tool_result")|;
    && HasBlocks(t, Blocks(t))
    && |ms| == Size(t)
    && SaysResults(Blocks(t), ms[..n])
    && (Size(t) > n ==>
          && ms[n].role == t.role && ms[n].toolCallId == ""
          && SaysUses(codec, Blocks(t), ms[n].toolCalls)
          && (t.content.Str? ==> ms[n].content == t.content)
          && (!t.content.Str? ==> ms[n].content.Arr? && SaysTexts(Blocks(t), ms[n].content.items)))
  }

  /** Turn by turn, in order, the messages say what the turns say. */
  predicate SaysTurns(codec: Codec, turns: seq<Turn>, ms: seq<Message>) {
    if turns == [] then ms == []
    else
      |ms| >= Size(turns[0]) && SaysTurn(codec, turns[0], ms[..Size(turns[0])])
      && SaysTurns(codec, turns[1..], ms[Size(turns[0])..])
  }

  lemma OneBlockSays(codec: Codec, b: Value)
    ensures SaysUses(codec, [b], UseBlock(codec, b))
    ensures SaysResults([b], ResultBlock(b))
    ensures SaysTexts([b], TextBlock(b))
  {
    assert [b][1..] == [];
  }

  lemma OneOfKindMore(b: Value, rest: seq<Value>, kind: string)
    ensures OfKind([b] + rest, kind) == OfKind([b], kind) + OfKind(rest, kind)
  {
    var all := [b] + rest;
    assert all[0] == b && all[1..] == rest && [b][1..] == [];
    assert OfKind([], kind) == [];
  }

  lemma OneShownMore(b: Value, rest: seq<Value>)
    ensures Shown([b] + rest) == Shown([b]) + Shown(rest)
  {
    var all := [b] + rest;
    assert all[0] == b && all[1..] == rest && [b][1..] == [];
    assert Shown([]) == [];
  }

  lemma EachUseAppend(codec: Codec, a: seq<Value>, b: seq<Value>, first: seq<ToolCall>, more: seq<ToolCall>)
    requires SaysEachUse(codec, a, first) && SaysEachUse(codec, b, more)
    ensures SaysEachUse(codec, a + b, first + more)
  {
  }

  lemma OneUseMore(codec: Codec, b: Value, rest: seq<Value>, first: seq<ToolCall>, more: seq<ToolCall>)
    requires SaysUses(codec, [b], first) && SaysUses(codec, rest, more)
    ensures SaysUses(codec, [b] + rest, first + more)
  {
    OneOfKindMore(b, rest, "tool_use");
    EachUseAppend(codec, OfKind([b], "tool_use"), OfKind(rest, "tool_use"), first, more);
  }

  lemma EachResultAppend(a: seq<Value>, b: seq<Value>, first: seq<Message>, more: seq<Message>)
    requires SaysEachResult(a, first) && SaysEachResult(b, more)
    ensures SaysEachResult(a + b, first + more)
  {
  }

  lemma OneResultMore(b: Value, rest: seq<Value>, first: seq<Message>, more: seq<Message>)
    requires SaysResults([b], first) && SaysResults(rest, more)
    ensures SaysResults([b] + rest, first + more)
  {
    OneOfKindMore(b, rest, "tool_result");
    EachResultAppend(OfKind([b], "tool_result"), OfKind(rest, "tool_result"), first, more);
  }

  lemma EachShownAppend(a: seq<Value>, b: seq<Value>, first: seq<Value>, more: seq<Value>)
    requires SaysEachShown(a, first) && SaysEachShown(b, more)
    ensures SaysEachShown(a + b, first + more)
  {
  }

  lemma OneTextMore(b: Value, rest: seq<Value>, first: seq<Value>, more: seq<Value>)
    requires SaysTexts([b], first) && SaysTexts(rest, more)
    ensures SaysTexts([b] + rest, first + more)
  {
    OneShownMore(b, rest);
    EachShownAppend(Shown([b]), Shown(rest), first, more);
  }

  /** Block by block: uses, results and shown blocks are all there, in order. */
  lemma {:induction false} EveryBlockIsSaid(codec: Codec, blocks: seq<Value>)
    ensures SaysUses(codec, blocks, UseBlocks(codec, blocks))
    ensures SaysResults(blocks, ResultBlocks(blocks))
    ensures SaysTexts(blocks, TextBlocks(blocks))
  {
    if blocks != [] {
      var b, rest := blocks[0], blocks[1..];
      assert blocks == [b] + rest;
      EveryBlockIsSaid(codec, rest);
      OneBlockSays(codec, b);
      OneUseMore(codec, b, rest, UseBlock(codec, b), UseBlocks(codec, rest));
      OneResultMore(b, rest, ResultBlock(b), ResultBlocks(rest));
      OneTextMore(b, rest, TextBlock(b), TextBlocks(rest));
    }
  }

  lemma {:induction false} TurnIsSaid(codec: Codec, t: Turn)
    requires Readable(t)
    ensures SaysTurn(codec, t, Results(t) + Own(codec, t))
  {
    var ms := Results(t) + Own(codec, t);
    EveryBlockIsSaid(codec, Blocks(t));
    assert ms[..|Results(t)|] == Results(t);
  }

  /** The whole translation, turn by turn; only content that is neither text nor a list is refused. */
  lemma {:induction false} EveryTurnIsSaid(codec: Codec, turns: seq<Turn>)
    ensures Translate(codec, turns).Ok? <==> forall t | t in turns :: t.content.Str? || t.content.Arr?
    ensures Translate(codec, turns).Ok? ==> SaysTurns(codec, turns, Translate(codec, turns).value)
  {
    if turns != [] {
      assert turns == [turns[0]] + turns[1..] && turns[0] in turns;
      EveryTurnIsSaid(codec, turns[1..]);
      if Readable(turns[0]) && Translate(codec, turns[1..]).Ok? {
        TurnIsSaid(codec, turns[0]);
        var first, rest := Results(turns[0]) + Own(codec, turns[0]), Translate(codec, turns[1..]).value;
        assert (first + rest)[..|first|] == first && (first + rest)[|first|..] == rest;
      }
    }
  }

  /** All blocks of all turns, in order. */
  function AllBlocks(turns: seq<Turn>): seq<Value> {
    if turns == [] then [] else Blocks(turns[0]) + AllBlocks(turns[1..])
  }

  lemma {:induction false} UseBlocksAppend(codec: Codec, a: seq<Value>, b: seq<Value>)
    ensures UseBlocks(codec, a + b) == UseBlocks(codec, a) + UseBlocks(codec, b)
    ensures ResultBlocks(a + b) == ResultBlocks(a) + ResultBlocks(b)
  {
    if a == [] {
      assert a + b == b;
    } else {
      assert (a + b)[1..] == a[1..] + b;
      UseBlocksAppend(codec, a[1..], b);
      Assoc(UseBlock(codec, a[0]), UseBlocks(codec, a[1..]), UseBlocks(codec, b));
      Assoc(ResultBlock(a[0]), ResultBlocks(a[1..]), ResultBlocks(b));
    }
  }

  lemma {:induction false} BlocksOfAll(codec: Codec, turns: seq<Turn>)
    ensures AllUses(codec, turns) == UseBlocks(codec, AllBlocks(turns))
    ensures AllResults(turns) == ResultBlocks(AllBlocks(turns))
  {
    if turns != [] {
      BlocksOfAll(codec, turns[1..]);
      UseBlocksAppend(codec, Blocks(turns[0]), AllBlocks(turns[1..]));
    }
  }

  /** The j-th call of the translation is the j-th tool_use block of all turns, with its id, its name
      and its input, and the j-th tool message the j-th tool_result block. */
  lemma {:induction false} CallsAreTheBlocks(codec: Codec, turns: seq<Turn>)
    requires Translate(codec, turns).Ok?
    ensures SaysUses(codec, AllBlocks(turns), CallsIn(Translate(codec, turns).value))
    ensures var used, calls := OfKind(AllBlocks(turns), "tool_use"), CallsIn(Translate(codec, turns).value);
            forall j | 0 <= j < |used| && Faithful(codec, Field(used[j].fields, "input")) ::
              codec.decode(calls[j].arguments) == Some(Field(used[j].fields, "input"))
    ensures (forall t | t in turns :: t.role != "tool") ==>
              SaysResults(AllBlocks(turns), ToolMessagesIn(Translate(codec, turns).value))
  {
    CallsAndResultsPreserved(codec, turns);
    BlocksOfAll(codec, turns);
    EveryBlockIsSaid(codec, AllBlocks(turns));
  }

  // ---------------------------------------------------------------------------------------------
  // What the validator accepts
  // ---------------------------------------------------------------------------------------------

  function ResultIds(t: Turn): seq<string> {
    MessageIds(Results(t))
  }

  function MessageIds(ms: seq<Message>): (ids: seq<string>)
    ensures |ids| == |ms|
    ensures forall k :: 0 <= k < |ms| ==> ids[k] == ms[k].toolCallId
  {
    seq(|ms|, k requires 0 <= k < |ms| => ms[k].toolCallId)
  }

  /** The shape of the translated conversation, read off the Anthropic turns. */
  function TurnShape(codec: Codec, turns: seq<Turn>): Shape {
    if turns == [] then Shape([], [])
    else
      var rest := TurnShape(codec, turns[1..]);
      var t := turns[0];
      var own :=
        if !Speaks(codec, t) then rest
        else if t.role == "assistant" then Shape([], [Round(Ids(Uses(codec, t)), rest.lead)] + rest.rounds)
        else if t.role == "tool" then rest.(lead := [""] + rest.lead)
        else rest;
      own.(lead := ResultIds(t) + own.lead)
  }

  lemma {:induction false} LeadingResults(results: seq<Message>, rest: seq<Message>)
    requires forall m | m in results :: m.role == "tool"
    ensures ShapeOf(results + rest) == ShapeOf(rest).(lead := MessageIds(results) + ShapeOf(rest).lead)
  {
    var lead := ShapeOf(rest).lead;
    if results == [] {
      assert results + rest == rest;
      assert MessageIds(results) + lead == lead;
    } else {
      var id, later := results[0].toolCallId, results[1..];
      assert (results + rest)[1..] == later + rest;
      assert results[0] in results;
      LeadingResults(later, rest);
      assert MessageIds(results) == [id] + MessageIds(later);
      Assoc([id], MessageIds(later), lead);
    }
  }

  lemma {:induction false} ResultRoles(blocks: seq<Value>)
    ensures forall m | m in ResultBlocks(blocks) :: m.role == "tool"
  {
    if blocks != [] {
      ResultRoles(blocks[1..]);
    }
  }

  lemma {:induction false} TranslationShape(codec: Codec, turns: seq<Turn>)
    requires Translate(codec, turns).Ok?
    ensures ShapeOf(Translate(codec, turns).value) == TurnShape(codec, turns)
  {
    if turns != [] {
      TranslationShape(codec, turns[1..]);
      var results, own := Results(turns[0]), Own(codec, turns[0]);
      var rest := Translate(codec, turns[1..]).value;
      ResultRoles(Blocks(turns[0]));
      LeadingResults(results, own + rest);
      assert results + own + rest == results + (own + rest);
      if own == [] {
        assert own + rest == rest;
      } else {
        assert (own + rest)[0] == own[0] && (own + rest)[1..] == rest;
        if turns[0].content.Str? {
          assert Uses(codec, turns[0]) == [] && own[0].toolCalls == [];
        }
      }
    }
  }

  // ---------------------------------------------------------------------------------------------
  // The condition on the turns
  // ---------------------------------------------------------------------------------------------

  /** An assistant turn with text or uses opens a round; its own results still belong to the round
      before it. */
  predicate Opens(codec: Codec, t: Turn) {
    t.role == "assistant" && Speaks(codec, t)
  }

  /** The result ids up to and including those of the turn that opens the next round. */
  function RoundResults(codec: Codec, turns: seq<Turn>): seq<string> {
    if turns == [] then []
    else ResultIds(turns[0]) + if Opens(codec, turns[0]) then [] else RoundResults(codec, turns[1..])
  }

  function AssistantUses(codec: Codec, turns: seq<Turn>): seq<string> {
    if turns == [] then []
    else (if turns[0].role == "assistant" then Ids(Uses(codec, turns[0])) else []) + AssistantUses(codec, turns[1..])
  }

  /** The uses of each opening turn are answered exactly once before the next round. */
  ghost predicate RoundsAnswered(codec: Codec, turns: seq<Turn>) {
    forall k | 0 <= k < |turns| && Opens(codec, turns[k]) ::
      multiset(RoundResults(codec, turns[k + 1..])) == multiset(Ids(Uses(codec, turns[k])))
  }

  /** No turn claims the role of a tool and has something of its own to say. */
  predicate NoToolSpeaks(codec: Codec, turns: seq<Turn>) {
    forall t | t in turns :: t.role == "tool" ==> !Speaks(codec, t)
  }

  ghost predicate Acceptable(codec: Codec, turns: seq<Turn>) {
    && NoToolSpeaks(codec, turns)
    && RoundResults(codec, turns) == []
    && RoundsAnswered(codec, turns)
    && Distinct(AssistantUses(codec, turns))
    && "" !in AssistantUses(codec, turns)
  }

  lemma RoundsAnsweredFront(codec: Codec, turns: seq<Turn>)
    requires turns != []
    ensures RoundsAnswered(codec, turns) <==>
              && RoundsAnswered(codec, turns[1..])
              && (Opens(codec, turns[0]) ==>
                    multiset(RoundResults(codec, turns[1..])) == multiset(Ids(Uses(codec, turns[0]))))
  {
    var tail := turns[1..];
    forall k | 0 <= k < |tail| ensures tail[k] == turns[k + 1] && tail[k + 1..] == turns[k + 2..] {
    }
    if RoundsAnswered(codec, turns) {
      forall k | 0 <= k < |tail| && Opens(codec, tail[k])
        ensures multiset(RoundResults(codec, tail[k + 1..])) == multiset(Ids(Uses(codec, tail[k])))
      {
        assert Opens(codec, turns[k + 1]);
      }
    }
    if RoundsAnswered(codec, tail) {
      forall k | 1 <= k < |turns| && Opens(codec, turns[k])
        ensures multiset(RoundResults(codec, turns[k + 1..])) == multiset(Ids(Uses(codec, turns[k])))
      {
        assert Opens(codec, tail[k - 1]);
      }
    }
  }

  /** Where no tool speaks, the shape is this condition read off the turns. */
  lemma {:induction false} TurnShapeExactly(codec: Codec, turns: seq<Turn>)
    requires NoToolSpeaks(codec, turns)
    ensures var shape := TurnShape(codec, turns);
            && shape.lead == RoundResults(codec, turns)
            && (Answered(shape.rounds) <==> RoundsAnswered(codec, turns))
            && AllCalls(shape.rounds) == AssistantUses(codec, turns)
  {
    if turns != [] {
      assert turns[0] in turns && forall u | u in turns[1..] :: u in turns;
      TurnShapeExactly(codec, turns[1..]);
      RoundsAnsweredFront(codec, turns);
      OneTurnMore(codec, turns);
    }
  }

  lemma OneTurnMore(codec: Codec, turns: seq<Turn>)
    requires turns != [] && (turns[0].role == "tool" ==> !Speaks(codec, turns[0]))
    ensures var t, shape, rest := turns[0], TurnShape(codec, turns), TurnShape(codec, turns[1..]);
            var uses := Ids(Uses(codec, t));
            && shape.lead == ResultIds(t) + (if Opens(codec, t) then [] else rest.lead)
            && (Answered(shape.rounds) <==>
                  Answered(rest.rounds) && (Opens(codec, t) ==> multiset(rest.lead) == multiset(uses)))
            && AllCalls(shape.rounds) == (if t.role == "assistant" then uses else []) + AllCalls(rest.rounds)
  {
    var t, shape, rest := turns[0], TurnShape(codec, turns), TurnShape(codec, turns[1..]);
    var uses := Ids(Uses(codec, t));
    if Opens(codec, t) {
      assert shape == Shape(ResultIds(t) + [], [Round(uses, rest.lead)] + rest.rounds);
      OneRoundMore(rest, uses);
    } else {
      assert shape == rest.(lead := ResultIds(t) + rest.lead);
      assert t.role == "assistant" ==> uses == [];
      assert [] + AllCalls(rest.rounds) == AllCalls(rest.rounds);
    }
  }

  /** A speaking tool turn leaves a result without an id. */
  lemma {:induction false} ToolSpeakerShows(codec: Codec, turns: seq<Turn>)
    requires !NoToolSpeaks(codec, turns)
    ensures !WellFormed(TurnShape(codec, turns))
    ensures var shape := TurnShape(codec, turns);
            "" in shape.lead || exists r :: r in shape.rounds && "" in r.results
  {
    var t, rest, shape := turns[0], TurnShape(codec, turns[1..]), TurnShape(codec, turns);
    if NoToolSpeaks(codec, turns[1..]) {
      assert turns == [t] + turns[1..];
      assert t.role == "tool" && Speaks(codec, t);
      assert shape.lead == ResultIds(t) + ([""] + rest.lead);
      assert shape.lead[|ResultIds(t)|] == "";
    } else {
      ToolSpeakerShows(codec, turns[1..]);
      LeadKept(codec, turns);
    }
    if r :| r in shape.rounds && "" in r.results {
      EmptyResult(shape, r);
    }
  }

  /** Whatever the shape of the later turns holds stays in the shape of all turns. */
  lemma LeadKept(codec: Codec, turns: seq<Turn>)
    requires turns != []
    ensures var shape, rest := TurnShape(codec, turns), TurnShape(codec, turns[1..]);
            && ("" in rest.lead ==> "" in shape.lead || exists r :: r in shape.rounds && "" in r.results)
            && (forall r | r in rest.rounds :: r in shape.rounds)
  {
    var shape, rest := TurnShape(codec, turns), TurnShape(codec, turns[1..]);
    if Opens(codec, turns[0]) {
      var first := Round(Ids(Uses(codec, turns[0])), rest.lead);
      assert shape.rounds == [first] + rest.rounds;
      assert first in shape.rounds;
    }
  }

  lemma EmptyResult(shape: Shape, r: Round)
    requires r in shape.rounds && "" in r.results
    ensures !WellFormed(shape)
  {
    if WellFormed(shape) {
      assert "" in multiset(r.results) && multiset(r.results) == multiset(r.calls);
      assert "" in r.calls;
      CallsOfRound(shape.rounds, r);
    }
  }

  lemma {:induction false} CallsOfRound(rounds: seq<Round>, r: Round)
    requires r in rounds
    ensures forall id | id in r.calls :: id in AllCalls(rounds)
  {
    if rounds[0] != r {
      CallsOfRound(rounds[1..], r);
    }
  }

  /** The translation is accepted if and only if no tool turn speaks, no result comes before the
      first round, the uses of every round are answered exactly once before the next one opens, and
      all use ids are distinct and non-empty. */
  lemma AcceptedAnthropicTurns(codec: Codec, turns: seq<Turn>)
    requires Translate(codec, turns).Ok?
    ensures Valid(Translate(codec, turns).value) <==> Acceptable(codec, turns)
  {
    TranslationShape(codec, turns);
    ValidIffWellFormed(Translate(codec, turns).value);
    if NoToolSpeaks(codec, turns) {
      TurnShapeExactly(codec, turns);
    } else {
      ToolSpeakerShows(codec, turns);
    }
  }

  /** The results of the turns before the next assistant turn. */
  function NextResults(turns: seq<Turn>): seq<string> {
    if turns == [] || turns[0].role == "assistant" then [] else ResultIds(turns[0]) + NextResults(turns[1..])
  }

  /** Every assistant turn is answered by the user turns that follow it, and only there. */
  ghost predicate AnsweredInTurn(codec: Codec, turns: seq<Turn>) {
    && (forall t | t in turns :: t.role != "tool" && (t.role == "assistant" ==> ResultIds(t) == []))
    && (forall k | 0 <= k < |turns| && turns[k].role == "assistant" ::
          multiset(NextResults(turns[k + 1..])) == multiset(Ids(Uses(codec, turns[k]))))
  }

  lemma AnsweredTail(codec: Codec, turns: seq<Turn>)
    requires turns != [] && AnsweredInTurn(codec, turns)
    ensures AnsweredInTurn(codec, turns[1..])
  {
    var tail := turns[1..];
    forall k | 0 <= k < |tail| && tail[k].role == "assistant"
      ensures multiset(NextResults(tail[k + 1..])) == multiset(Ids(Uses(codec, tail[k])))
    {
      assert tail[k] == turns[k + 1] && tail[k + 1..] == turns[k + 1 + 1..];
    }
  }

  /** An assistant turn that says nothing has no uses, so nothing answers it. */
  lemma {:induction false} SameResults(codec: Codec, turns: seq<Turn>)
    requires AnsweredInTurn(codec, turns)
    ensures multiset(RoundResults(codec, turns)) == multiset(NextResults(turns))
    ensures RoundsAnswered(codec, turns)
  {
    if turns != [] {
      var t := turns[0];
      assert t in turns;
      AnsweredTail(codec, turns);
      SameResults(codec, turns[1..]);
      RoundsAnsweredFront(codec, turns);
      if t.role == "assistant" {
        assert multiset(NextResults(turns[0 + 1..])) == multiset(Ids(Uses(codec, t)));
        if !Opens(codec, t) {
          assert Ids(Uses(codec, t)) == [];
          assert |multiset(RoundResults(codec, turns[1..]))| == 0;
        }
      } else {
        assert multiset(RoundResults(codec, turns)) ==
               multiset(ResultIds(t)) + multiset(RoundResults(codec, turns[1..]));
        assert multiset(NextResults(turns)) == multiset(ResultIds(t)) + multiset(NextResults(turns[1..]));
      }
    }
  }

  /** When the tool_use ids of the assistant turns are non-empty and distinct and each turn's uses
      are answered exactly once before the next assistant turn, the translation is accepted. */
  lemma AnsweredTurnsAccepted(codec: Codec, turns: seq<Turn>)
    requires Translate(codec, turns).Ok?
    requires AnsweredInTurn(codec, turns) && NextResults(turns) == []
    requires Distinct(AssistantUses(codec, turns)) && "" !in AssistantUses(codec, turns)
    ensures Valid(Translate(codec, turns).value)
  {
    SameResults(codec, turns);
    assert |multiset(RoundResults(codec, turns))| == 0;
    AcceptedAnthropicTurns(codec, turns);
  }

  // ---------------------------------------------------------------------------------------------
  // The translation loops
  // ---------------------------------------------------------------------------------------------

  method SplitBlocks(codec: Codec, blocks: seq<Value>)
    returns (results: seq<Message>, text: seq<Value>, calls: seq<ToolCall>)
    ensures results == ResultBlocks(blocks)
    ensures text == TextBlocks(blocks)
    ensures calls == UseBlocks(codec, blocks)
    ensures SaysResults(blocks, results) && SaysTexts(blocks, text) && SaysUses(codec, blocks, calls)
  {
    EveryBlockIsSaid(codec, blocks);
    results, text, calls := [], [], [];
    for k := 0 to |blocks|
      invariant ResultBlocks(blocks) == results + ResultBlocks(blocks[k..])
      invariant TextBlocks(blocks) == text + TextBlocks(blocks[k..])
      invariant UseBlocks(codec, blocks) == calls + UseBlocks(codec, blocks[k..])
    {
      var block := blocks[k];
      assert blocks[k..][0] == block && blocks[k..][1..] == blocks[k + 1..];
      Assoc(results, ResultBlock(block), ResultBlocks(blocks[k + 1..]));
      Assoc(text, TextBlock(block), TextBlocks(blocks[k + 1..]));
      Assoc(calls, UseBlock(codec, block), UseBlocks(codec, blocks[k + 1..]));
      results, text, calls := AddBlock(codec, block, results, text, calls);
    }
  }

  /** The switch on the block type. */
  method AddBlock(codec: Codec, block: Value, results: seq<Message>, text: seq<Value>, calls: seq<ToolCall>)
    returns (results': seq<Message>, text': seq<Value>, calls': seq<ToolCall>)
    ensures results' == results + ResultBlock(block)
    ensures text' == text + TextBlock(block)
    ensures calls' == calls + UseBlock(codec, block)
  {
    results', text', calls' := results, text, calls;
    match Kind(block) {
      case "text" => text' := text + TextBlock(block);
      case "image" => text' := text + TextBlock(block);
      case "tool_use" => calls' := calls + UseBlock(codec, block);
      case "tool_result" => results' := results + ResultBlock(block);
      case _ =>
    }
  }

  method TranslateTurn(codec: Codec, t: Turn) returns (messages: seq<Message>)
    requires Readable(t)
    ensures messages == Results(t) + Own(codec, t)
  {
    if t.content.Str? {
      return [Message(t.role, t.content, "", [])];
    }
    var results, text, calls := SplitBlocks(codec, t.content.items);
    messages := results;
    if |text| > 0 || |calls| > 0 {
      messages := messages + [Message(t.role, Arr(text), "", calls)];
    }
  }

  method AnthropicToOpenAI(codec: Codec, system: Value, turns: seq<Turn>) returns (out: Result<seq<Message>>)
    ensures out == Appended(if system == Null then [] else [Message("system", system, "", [])], Translate(codec, turns))
    ensures out.Ok? <==> forall t | t in turns :: t.content.Str? || t.content.Arr?
    ensures out.Ok? ==>
              var k := if system == Null then 0 else 1;
              |out.value| >= k && SaysTurns(codec, turns, out.value[k..])
    ensures out.Ok? ==> (Valid(out.value) <==> Acceptable(codec, turns))
  {
    EveryTurnIsSaid(codec, turns);
    var messages: seq<Message> := [];
    if system != Null {
      messages := messages + [Message("system", system, "", [])];
    }
    ghost var start := messages;
    assert turns[0..] == turns;
    for k := 0 to |turns|
      invariant Appended(start, Translate(codec, turns)) == Appended(messages, Translate(codec, turns[k..]))
    {
      assert turns[k..][0] == turns[k] && turns[k..][1..] == turns[k + 1..];
      if !Readable(turns[k]) {
        return Error("invalid anthropic content");
      }
      var more := TranslateTurn(codec, turns[k]);
      AppendedTwice(messages, more, Translate(codec, turns[k + 1..]));
      messages := messages + more;
    }
    assert turns[|turns|..] == [] && messages + [] == messages;
    out := Ok(messages);
    assert (start + Translate(codec, turns).value)[|start|..] == Translate(codec, turns).value;
    assert start == if system == Null then [] else [Message("system", system, "", [])];
    SystemStaysInvisible(codec, start, turns);
  }

  lemma SystemStaysInvisible(codec: Codec, start: seq<Message>, turns: seq<Turn>)
    requires Translate(codec, turns).Ok? && forall m | m in start :: m.role == "system"
    ensures Valid(start + Translate(codec, turns).value) <==> Acceptable(codec, turns)
  {
    var rest := Translate(codec, turns).value;
    SystemIsInvisible(start, rest);
    ValidIffWellFormed(start + rest);
    ValidIffWellFormed(rest);
    AcceptedAnthropicTurns(codec, turns);
  }
}
