/** Tool calls as stream chunks: the writer of /v1/chat/completions and the reader that turns the
    chunks into Responses items and events. */
module ToolCallStream {
  import opened Text
  import opened Protocol

  /** One entry of `delta.tool_calls`; absent or ill-typed fields are `None`. */
  datatype Entry = Entry(index: int, id: Option<string>, kind: Option<string>, name: Option<string>,
                         arguments: Option<string>)

  datatype Chunk = Chunk(content: Option<string>, entries: seq<Entry>, finish: string)

  // ---------------------------------------------------------------------------------------------
  // The writer
  // ---------------------------------------------------------------------------------------------

  function WrittenKind(c: ToolCall): string {
    if c.kind == "" then "function" else c.kind
  }

  function CallChunk(c: ToolCall, i: nat): Chunk {
    Chunk(None, [Entry(i, Some(c.id), Some(WrittenKind(c)), Some(c.name), Some(c.arguments))], "")
  }

  function CallChunks(calls: seq<ToolCall>): (r: seq<Chunk>)
    ensures |r| == |calls|
    ensures forall k :: 0 <= k < |calls| ==> r[k] == CallChunk(calls[k], k)
  {
    seq(|calls|, k requires 0 <= k < |calls| => CallChunk(calls[k], k))
  }

  function Written(calls: seq<ToolCall>, summary: string, preambleSent: bool): seq<Chunk> {
    (if preambleSent then [] else [Chunk(Some(summary), [], "")]) + CallChunks(calls) + [Chunk(None, [], "tool_calls")]
  }

  /** The chunk of the call at position `k`: one complete fragment, with the kind "function" where the
      call has none. */
  ghost predicate CarriesCall(chunk: Chunk, c: ToolCall, k: nat) {
    && chunk.content == None && chunk.finish == "" && |chunk.entries| == 1
    && var e := chunk.entries[0];
       && e.index == k && e.id == Some(c.id) && e.name == Some(c.name) && e.arguments == Some(c.arguments)
       && (c.kind != "" ==> e.kind == Some(c.kind))
       && (c.kind == "" ==> e.kind == Some("function"))
  }

  /** What is written: the summary, unless the client has it already, one chunk for each call in order,
      and at last, once, that the answer ends in tool calls. */
  lemma WrittenExactly(calls: seq<ToolCall>, summary: string, preambleSent: bool)
    ensures var chunks := Written(calls, summary, preambleSent);
            var n := if preambleSent then 0 else 1;
            && |chunks| == n + |calls| + 1
            && (!preambleSent ==> chunks[0] == Chunk(Some(summary), [], ""))
            && (forall k | 0 <= k < |calls| :: CarriesCall(chunks[n + k], calls[k], k))
            && chunks[n + |calls|] == Chunk(None, [], "tool_calls")
  {
    var pre: seq<Chunk> := if preambleSent then [] else [Chunk(Some(summary), [], "")];
    var last := Chunk(None, [], "tool_calls");
    assert Written(calls, summary, preambleSent) == pre + CallChunks(calls) + [last];
    Placed(pre, CallChunks(calls), last);
  }

  lemma Placed<T>(pre: seq<T>, mid: seq<T>, last: T)
    ensures var s := pre + mid + [last];
            && |s| == |pre| + |mid| + 1
            && (forall k | 0 <= k < |pre| :: s[k] == pre[k])
            && (forall k | 0 <= k < |mid| :: s[|pre| + k] == mid[k])
            && s[|pre| + |mid|] == last
  {
  }

  method WriteToolResponse(calls: seq<ToolCall>, summary: string, preambleSent: bool) returns (chunks: seq<Chunk>)
    ensures chunks == Written(calls, summary, preambleSent)
    ensures var n := if preambleSent then 0 else 1;
            && |chunks| == n + |calls| + 1 && chunks[n + |calls|] == Chunk(None, [], "tool_calls")
            && (!preambleSent ==> chunks[0] == Chunk(Some(summary), [], ""))
            && forall k | 0 <= k < |calls| :: CarriesCall(chunks[n + k], calls[k], k)
  {
    chunks := [];
    if !preambleSent {
      chunks := [Chunk(Some(summary), [], "")];
    }
    ghost var start := chunks;
    for i := 0 to |calls|
      invariant chunks == start + CallChunks(calls)[..i]
    {
      var tc := calls[i];
      var typ := if tc.kind == "" then "function" else tc.kind;
      chunks := chunks + [Chunk(None, [Entry(i, Some(tc.id), Some(typ), Some(tc.name), Some(tc.arguments))], "")];
    }
    assert CallChunks(calls)[..|calls|] == CallChunks(calls);
    chunks := chunks + [Chunk(None, [], "tool_calls")];
    WrittenExactly(calls, summary, preambleSent);
  }

  // ---------------------------------------------------------------------------------------------
  // The reader
  // ---------------------------------------------------------------------------------------------

  /** A call while it accumulates. */
  datatype Call = Call(id: string, name: string, args: string, custom: bool, itemId: nat)

  /** A finished output item; `payload` is the arguments, or the input of a custom call. */
  datatype Item = Item(itemId: nat, callId: string, name: string, custom: bool, payload: string)

  datatype Event =
    | MessageAdded
    | TextDelta(text: string)
    | TextDone(text: string)
    | ItemAdded(index: int, itemId: nat)
    | ArgumentsDelta(index: int, itemId: nat, delta: string)
    | ArgumentsDone(index: int, itemId: nat, arguments: string)
    | InputDelta(index: int, itemId: nat, delta: string)
    | InputDone(index: int, itemId: nat, input: string)
    | ItemDone(index: int, item: Item)

  /** Item ids are random and never repeat: the n-th one that is drawn is written as the number n,
      and `drawn` counts them. `message` is the finished message item. */
  datatype State = State(text: string, calls: map<int, Call>, events: seq<Event>, drawn: nat, output: seq<Item>,
                         message: Option<string>)

  const START := State("", map[], [], 0, [], None)

  function OrEmpty(s: Option<string>): string {
    match s
    case Some(v) => v
    case None => ""
  }

  function ReadContent(st: State, content: Option<string>): State {
    if OrEmpty(content) == "" then st
    else
      st.(text := st.text + content.value,
          events := st.events + (if st.text == "" then [MessageAdded] else []) + [TextDelta(content.value)])
  }

  function Opened(st: State, e: Entry): State {
    if e.index in st.calls then st
    else
      var call := Call("", "", "", e.kind == Some("custom"), st.drawn);
      st.(calls := st.calls[e.index := call], drawn := st.drawn + 1,
          events := st.events + [ItemAdded(e.index, call.itemId)])
  }

  function Grown(c: Call, e: Entry): Call {
    c.(id := if e.id.Some? then e.id.value else c.id,
       name := c.name + OrEmpty(e.name),
       args := c.args + OrEmpty(e.arguments))
  }

  function ReadEntry(st: State, e: Entry): State {
    var st' := Opened(st, e);
    var c := st'.calls[e.index];
    st'.(calls := st'.calls[e.index := Grown(c, e)],
         events := st'.events +
                   if e.arguments.Some? && !c.custom
                   then [ArgumentsDelta(e.index, c.itemId, e.arguments.value)] else [])
  }

  function ReadEntries(st: State, es: seq<Entry>): State {
    if es == [] then st else ReadEntry(ReadEntries(st, es[..|es| - 1]), es[|es| - 1])
  }

  function ReadChunks(chunks: seq<Chunk>): State {
    if chunks == [] then START
    else
      var last := chunks[|chunks| - 1];
      ReadEntries(ReadContent(ReadChunks(chunks[..|chunks| - 1]), last.content), last.entries)
  }

  /** customToolInput: the `input` field of JSON arguments. */
  function InputOf(codec: Codec, args: string): string {
    match codec.decode(args)
    case Some(Obj(m)) => StrField(m, "input")
    case _ => ""
  }

  /** Arguments that are JSON for an object with text as `input` give that text, any other arguments
      nothing. */
  lemma InputExactly(codec: Codec, args: string)
    ensures var v := codec.decode(args);
            if v.Some? && v.value.Obj? && "input" in v.value.fields && v.value.fields["input"].Str?
            then Str(InputOf(codec, args)) == v.value.fields["input"] else InputOf(codec, args) == ""
  {
  }

  function Payload(codec: Codec, c: Call): string {
    if c.custom then InputOf(codec, c.args) else c.args
  }

  /** A custom call keeps the id it streamed under, a function call is finished under a new one. */
  function Finished(codec: Codec, c: Call, drawn: nat): Item {
    Item(if c.custom then c.itemId else drawn, c.id, c.name, c.custom, Payload(codec, c))
  }

  function ClosingEvents(i: int, item: Item): seq<Event> {
    var id, v := item.itemId, item.payload;
    if item.custom then [InputDelta(i, id, v), InputDone(i, id, v), ItemDone(i, item)]
    else [ItemAdded(i, id), ArgumentsDelta(i, id, v), ArgumentsDone(i, id, v), ItemDone(i, item)]
  }

  function CloseOne(codec: Codec, st: State, i: int): State {
    if i !in st.calls then st
    else
      var item := Finished(codec, st.calls[i], st.drawn);
      st.(output := st.output + [item], events := st.events + ClosingEvents(i, item),
          drawn := if item.custom then st.drawn else st.drawn + 1)
  }

  function CloseUpTo(codec: Codec, st: State, n: nat): State {
    if n == 0 then st else CloseOne(codec, CloseUpTo(codec, st, n - 1), n - 1)
  }

  /** The message item of a stream without calls. */
  function CloseMessage(st: State): State {
    st.(message := Some(st.text),
        events := st.events + (if st.text == "" then [MessageAdded, TextDelta(st.text)] else []) + [TextDone(st.text)])
  }

  /** The reader closes the positions below the number of calls, or else the message. */
  function Closed(codec: Codec, st: State): State {
    if |st.calls| > 0 then CloseUpTo(codec, st, |st.calls|) else CloseMessage(st)
  }

  // ---------------------------------------------------------------------------------------------
  // Accumulation: what the fragments of one call add up to
  // ---------------------------------------------------------------------------------------------

  function AllEntries(chunks: seq<Chunk>): seq<Entry> {
    if chunks == [] then [] else AllEntries(chunks[..|chunks| - 1]) + chunks[|chunks| - 1].entries
  }

  /** The entries of one index, in order. */
  function Of(es: seq<Entry>, index: int): seq<Entry> {
    if es == [] then []
    else Of(es[..|es| - 1], index) + if es[|es| - 1].index == index then [es[|es| - 1]] else []
  }

  function NamesOf(es: seq<Entry>): string {
    if es == [] then "" else NamesOf(es[..|es| - 1]) + OrEmpty(es[|es| - 1].name)
  }

  function ArgumentsOf(es: seq<Entry>): string {
    if es == [] then "" else ArgumentsOf(es[..|es| - 1]) + OrEmpty(es[|es| - 1].arguments)
  }

  function IdOf(es: seq<Entry>): string {
    if es == [] then ""
    else if es[|es| - 1].id.Some? then es[|es| - 1].id.value
    else IdOf(es[..|es| - 1])
  }

  /** The accumulated calls are, for each index, the fragments of that index put together: the last
      id, the joined names and arguments, and the kind of the first fragment. */
  ghost predicate Tracks(calls: map<int, Call>, es: seq<Entry>) {
    forall i :: i in calls || Of(es, i) != [] ==> i in calls && Joins(calls[i], Of(es, i))
  }

  ghost predicate Joins(c: Call, fragments: seq<Entry>) {
    && fragments != []
    && c.id == IdOf(fragments)
    && c.name == NamesOf(fragments)
    && c.args == ArgumentsOf(fragments)
    && c.custom == (fragments[0].kind == Some("custom"))
  }

  lemma OfSnoc(es: seq<Entry>, e: Entry, i: int)
    ensures Of(es + [e], i) == if e.index == i then Of(es, i) + [e] else Of(es, i)
  {
    assert (es + [e])[..|es + [e]| - 1] == es;
  }

  lemma GrownJoins(c: Call, fragments: seq<Entry>, e: Entry)
    requires if fragments == [] then c == Call("", "", "", e.kind == Some("custom"), c.itemId)
             else Joins(c, fragments)
    ensures Joins(Grown(c, e), fragments + [e])
  {
    assert (fragments + [e])[..|fragments|] == fragments;
  }

  lemma EntryTracks(st: State, es: seq<Entry>, e: Entry)
    requires Tracks(st.calls, es)
    ensures Tracks(ReadEntry(st, e).calls, es + [e])
  {
    var begun := Opened(st, e).calls;
    var calls := ReadEntry(st, e).calls;
    forall i | i in calls || Of(es + [e], i) != []
      ensures i in calls && Joins(calls[i], Of(es + [e], i))
    {
      OfSnoc(es, e, i);
      if i == e.index {
        GrownJoins(begun[i], Of(es, i), e);
      }
    }
  }

  lemma {:induction false} EntriesTrack(st: State, before: seq<Entry>, es: seq<Entry>)
    requires Tracks(st.calls, before)
    ensures Tracks(ReadEntries(st, es).calls, before + es)
  {
    if es == [] {
      assert before + es == before;
    } else {
      var front, last := es[..|es| - 1], es[|es| - 1];
      EntriesTrack(st, before, front);
      var st' := ReadEntries(st, front);
      assert ReadEntries(st, es) == ReadEntry(st', last);
      EntryTracks(st', before + front, last);
      LastOf(before, es);
    }
  }

  /** However the calls are cut into chunks, every call accumulates to the join of its fragments. */
  lemma {:induction false} FragmentsAddUp(chunks: seq<Chunk>)
    ensures Tracks(ReadChunks(chunks).calls, AllEntries(chunks))
  {
    if chunks != [] {
      var k := |chunks| - 1;
      FragmentsAddUp(chunks[..k]);
      EntriesTrack(ReadContent(ReadChunks(chunks[..k]), chunks[k].content),
                   AllEntries(chunks[..k]), chunks[k].entries);
    }
  }

  // ---------------------------------------------------------------------------------------------
  // Output
  // ---------------------------------------------------------------------------------------------

  ghost predicate ItemFor(codec: Codec, item: Item, c: Call) {
    && item.callId == c.id && item.name == c.name && item.custom == c.custom
    && item.payload == Payload(codec, c)
  }

  /** The calls below position `n`, in order. */
  function Present(calls: map<int, Call>, n: nat): seq<int> {
    if n == 0 then [] else Present(calls, n - 1) + if n - 1 in calls then [n - 1] else []
  }

  lemma {:induction false} ClosedItems(codec: Codec, st: State, n: nat)
    requires st.output == []
    ensures var r := CloseUpTo(codec, st, n);
            && r.calls == st.calls
            && |r.output| == |Present(st.calls, n)|
            && forall k | 0 <= k < |r.output| ::
                 Present(st.calls, n)[k] in st.calls && ItemFor(codec, r.output[k], st.calls[Present(st.calls, n)[k]])
  {
    if n > 0 {
      ClosedItems(codec, st, n - 1);
    }
  }

  lemma {:induction false} PresentCount(calls: map<int, Call>, n: nat)
    ensures |Present(calls, n)| == |set i | 0 <= i < n && i in calls|
    ensures (forall i | 0 <= i < n :: i in calls) ==>
              |Present(calls, n)| == n && forall k | 0 <= k < n :: Present(calls, n)[k] == k
  {
    if n == 0 {
      assert (set i | 0 <= i < n && i in calls) == {};
    } else {
      PresentCount(calls, n - 1);
      var before := set i | 0 <= i < n - 1 && i in calls;
      var after := set i | 0 <= i < n && i in calls;
      if n - 1 in calls {
        assert after == before + {n - 1};
      } else {
        assert after == before;
      }
    }
  }

  lemma SubsetOfSameSize<T>(a: set<T>, b: set<T>)
    requires a <= b && |a| == |b|
    ensures a == b
  {
    assert |b - a| == 0;
    assert b == a + (b - a);
  }

  /** 0, 1, 2 and so on below `n`. */
  function Range(n: nat): (r: set<int>)
    ensures |r| == n && forall i :: i in r <==> 0 <= i < n
  {
    if n == 0 then {} else Range(n - 1) + {n - 1}
  }

  /** The indices that occur in a stream. */
  ghost function Indices(es: seq<Entry>): set<int> {
    set e | e in es :: e.index
  }

  lemma {:induction false} IndexOccurs(es: seq<Entry>, i: int)
    ensures Of(es, i) != [] <==> i in Indices(es)
  {
    if es != [] {
      var k := |es| - 1;
      IndexOccurs(es[..k], i);
      assert es == es[..k] + [es[k]];
      assert Indices(es) == Indices(es[..k]) + {es[k].index};
    }
  }

  /** The reader holds one call for each index that occurs. */
  lemma CallsAreIndices(chunks: seq<Chunk>)
    ensures ReadChunks(chunks).calls.Keys == Indices(AllEntries(chunks))
  {
    var calls, es := ReadChunks(chunks).calls, AllEntries(chunks);
    FragmentsAddUp(chunks);
    forall i ensures i in calls <==> i in Indices(es) {
      IndexOccurs(es, i);
    }
  }

  /** Of the reader alone: the output has one item for each index that occurs in the stream if and only
      if the indices are 0, 1, 2 and so on without a gap. */
  lemma NothingLostExactly(codec: Codec, chunks: seq<Chunk>)
    ensures var indices := Indices(AllEntries(chunks));
            |Closed(codec, ReadChunks(chunks)).output| == |indices| <==> indices == Range(|indices|)
  {
    CallsAreIndices(chunks);
    ClosedCount(codec, chunks);
  }

  /** A stream the reader would not finish, which the writer never writes: one call at index 1 and none
      at index 0. */
  lemma GapLosesCall(codec: Codec, id: string, name: string, args: string)
    ensures var entry := Entry(1, Some(id), Some("function"), Some(name), Some(args));
            var chunks := [Chunk(None, [entry], "tool_calls")];
            && Indices(AllEntries(chunks)) == {1}
            && Closed(codec, ReadChunks(chunks)).output == []
  {
    var entry := Entry(1, Some(id), Some("function"), Some(name), Some(args));
    var chunks := [Chunk(None, [entry], "tool_calls")];
    assert chunks[..0] == [] && [entry][..0] == [];
    assert AllEntries(chunks) == [entry];
    CallsAreIndices(chunks);
    ReadingOpensNothing(chunks);
    OnlyIndexOne(codec, ReadChunks(chunks));
  }

  lemma OnlyIndexOne(codec: Codec, st: State)
    requires st.calls.Keys == {1} && st.output == []
    ensures Closed(codec, st).output == []
  {
    assert |st.calls| == 1;
    assert CloseUpTo(codec, st, 0) == st && 0 !in st.calls;
    assert CloseUpTo(codec, st, 1) == CloseOne(codec, st, 0);
  }

  lemma ClosedCount(codec: Codec, chunks: seq<Chunk>)
    ensures var st := ReadChunks(chunks);
            |Closed(codec, st).output| == |st.calls| <==> st.calls.Keys == Range(|st.calls|)
  {
    var st := ReadChunks(chunks);
    ReadingOpensNothing(chunks);
    ClosedItems(codec, st, |st.calls|);
    PresentCount(st.calls, |st.calls|);
    var found := set i | 0 <= i < |st.calls| && i in st.calls;
    var range := Range(|st.calls|);
    assert found <= range && found <= st.calls.Keys;
    if |found| == |st.calls| {
      SubsetOfSameSize(found, range);
      SubsetOfSameSize(found, st.calls.Keys);
    }
    if st.calls.Keys == range {
      assert found == range;
    }
  }

  lemma {:induction false} ReadingOpensNothing(chunks: seq<Chunk>)
    ensures ReadChunks(chunks).output == []
  {
    if chunks != [] {
      var k := |chunks| - 1;
      ReadingOpensNothing(chunks[..k]);
      EntriesOpenNothing(ReadContent(ReadChunks(chunks[..k]), chunks[k].content), chunks[k].entries);
    }
  }

  lemma {:induction false} EntriesOpenNothing(st: State, es: seq<Entry>)
    ensures ReadEntries(st, es).output == st.output
  {
    if es != [] {
      EntriesOpenNothing(st, es[..|es| - 1]);
    }
  }

  // ---------------------------------------------------------------------------------------------
  // Writer and reader together
  // ---------------------------------------------------------------------------------------------

  function WrittenEntry(c: ToolCall, i: nat): Entry {
    CallChunk(c, i).entries[0]
  }

  lemma {:induction false} EntriesOfCalls(calls: seq<ToolCall>, n: nat)
    requires n <= |calls|
    ensures var es := AllEntries(CallChunks(calls)[..n]);
            |es| == n && forall k | 0 <= k < n :: es[k] == WrittenEntry(calls[k], k)
  {
    if n > 0 {
      EntriesOfCalls(calls, n - 1);
      assert CallChunks(calls)[..n][..n - 1] == CallChunks(calls)[..n - 1];
    }
  }

  lemma {:induction false} AllEntriesAppend(a: seq<Chunk>, b: seq<Chunk>)
    ensures AllEntries(a + b) == AllEntries(a) + AllEntries(b)
  {
    if b == [] {
      assert a + b == a;
    } else {
      var k := |b| - 1;
      assert (a + b)[..|a + b| - 1] == a + b[..k];
      AllEntriesAppend(a, b[..k]);
    }
  }

  lemma EntriesWritten(calls: seq<ToolCall>, summary: string, preambleSent: bool)
    ensures var es := AllEntries(Written(calls, summary, preambleSent));
            |es| == |calls| && forall k | 0 <= k < |calls| :: es[k] == WrittenEntry(calls[k], k)
  {
    var pre: seq<Chunk> := if preambleSent then [] else [Chunk(Some(summary), [], "")];
    var mid, last := CallChunks(calls), [Chunk(None, [], "tool_calls")];
    NoEntries(pre);
    NoEntries(last);
    EntriesOfCalls(calls, |calls|);
    assert mid[..|calls|] == mid;
    AllEntriesAppend(pre, mid);
    assert AllEntries(pre + mid) == AllEntries(mid);
    AllEntriesAppend(pre + mid, last);
    assert AllEntries(pre + mid + last) == AllEntries(mid);
  }

  lemma NoEntries(chunks: seq<Chunk>)
    requires |chunks| <= 1 && forall c | c in chunks :: c.entries == []
    ensures AllEntries(chunks) == []
  {
    if chunks != [] {
      assert chunks[0] in chunks && chunks[..0] == [];
    }
  }

  /** Each index has exactly its own entry. */
  lemma {:induction false} OnePerIndex(es: seq<Entry>, i: int)
    requires forall k | 0 <= k < |es| :: es[k].index == k
    ensures Of(es, i) == if 0 <= i < |es| then [es[i]] else []
  {
    if es != [] {
      OnePerIndex(es[..|es| - 1], i);
    }
  }

  /** What the reader should make of one written call, under any item id. */
  ghost predicate SameCall(found: Call, c: ToolCall) {
    found == Call(c.id, c.name, c.arguments, c.kind == "custom", found.itemId)
  }

  /** The finished item of one written call. */
  ghost predicate ItemOf(codec: Codec, item: Item, c: ToolCall) {
    && item.callId == c.id && item.name == c.name && item.custom == (c.kind == "custom")
    && item.payload == if item.custom then InputOf(codec, c.arguments) else c.arguments
  }

  /** The reader accumulates one call for each written call, at its position. */
  lemma CallsAccumulated(calls: seq<ToolCall>, summary: string, preambleSent: bool)
    ensures var found := ReadChunks(Written(calls, summary, preambleSent)).calls;
            && (forall i :: i in found <==> 0 <= i < |calls|)
            && forall k | 0 <= k < |calls| :: SameCall(found[k], calls[k])
  {
    var chunks := Written(calls, summary, preambleSent);
    var found, es := ReadChunks(chunks).calls, AllEntries(chunks);
    EntriesWritten(calls, summary, preambleSent);
    FragmentsAddUp(chunks);
    forall i
      ensures i in found <==> 0 <= i < |calls|
      ensures 0 <= i < |calls| ==> SameCall(found[i], calls[i])
    {
      OnePerIndex(es, i);
      if 0 <= i < |calls| {
        assert es[i] == WrittenEntry(calls[i], i) && Joins(found[i], [es[i]]);
        OneFragment(calls[i], i, found[i]);
      }
    }
  }

  /** The writer numbers its calls without a gap, so the reader loses none of them. */
  lemma NothingWrittenIsLost(codec: Codec, calls: seq<ToolCall>, summary: string, preambleSent: bool)
    ensures var chunks := Written(calls, summary, preambleSent);
            && Indices(AllEntries(chunks)) == Range(|calls|)
            && |Closed(codec, ReadChunks(chunks)).output| == |calls|
  {
    var chunks := Written(calls, summary, preambleSent);
    CallsAccumulated(calls, summary, preambleSent);
    CallsAreIndices(chunks);
    assert ReadChunks(chunks).calls.Keys == Range(|calls|);
    NothingLostExactly(codec, chunks);
  }

  /** Reading what was written gives the same calls back: same order, ids, names and kinds, and the
      arguments, of which a custom call keeps its `input`. */
  lemma WrittenIsReadBack(codec: Codec, calls: seq<ToolCall>, summary: string, preambleSent: bool)
    ensures var output := Closed(codec, ReadChunks(Written(calls, summary, preambleSent))).output;
            && |output| == |calls|
            && forall k | 0 <= k < |calls| :: ItemOf(codec, output[k], calls[k])
  {
    var chunks := Written(calls, summary, preambleSent);
    var st := ReadChunks(chunks);
    CallsAccumulated(calls, summary, preambleSent);
    ReadingOpensNothing(chunks);
    ClosedCalls(codec, st, |calls|);
  }

  /** With the indices 0, 1, 2 and so on, the output has one item for each call, in order. */
  lemma ClosedCalls(codec: Codec, st: State, n: nat)
    requires st.output == [] && forall i :: i in st.calls <==> 0 <= i < n
    ensures |Closed(codec, st).output| == n
    ensures forall k | 0 <= k < n :: ItemFor(codec, Closed(codec, st).output[k], st.calls[k])
  {
    assert st.calls.Keys == Range(n);
    ClosedItems(codec, st, n);
    PresentCount(st.calls, n);
  }

  lemma SingleEntry(e: Entry)
    ensures IdOf([e]) == OrEmpty(e.id) && NamesOf([e]) == OrEmpty(e.name) && ArgumentsOf([e]) == OrEmpty(e.arguments)
  {
    assert [e][..0] == [];
  }

  lemma OneFragment(c: ToolCall, i: nat, found: Call)
    requires Joins(found, [WrittenEntry(c, i)])
    ensures SameCall(found, c)
  {
    SingleEntry(WrittenEntry(c, i));
  }

  // ---------------------------------------------------------------------------------------------
  // Argument deltas
  // ---------------------------------------------------------------------------------------------

  /** The argument deltas of one item id, joined. */
  function DeltasFor(events: seq<Event>, itemId: nat): string {
    if events == [] then ""
    else
      var last := events[|events| - 1];
      DeltasFor(events[..|events| - 1], itemId) +
      if last.ArgumentsDelta? && last.itemId == itemId then last.delta else ""
  }

  lemma {:induction false} DeltasAppend(a: seq<Event>, b: seq<Event>, itemId: nat)
    ensures DeltasFor(a + b, itemId) == DeltasFor(a, itemId) + DeltasFor(b, itemId)
  {
    if b == [] {
      assert a + b == a;
    } else {
      var k := |b| - 1;
      assert (a + b)[..|a + b| - 1] == a + b[..k];
      DeltasAppend(a, b[..k], itemId);
      Assoc(DeltasFor(a, itemId), DeltasFor(b[..k], itemId),
            if b[k].ArgumentsDelta? && b[k].itemId == itemId then b[k].delta else "");
    }
  }

  /** Each id that was drawn is used for one call. */
  ghost predicate IdsOk(calls: map<int, Call>, drawn: nat) {
    && (forall i | i in calls :: calls[i].itemId < drawn)
    && (forall i, j | i in calls && j in calls && i != j :: calls[i].itemId != calls[j].itemId)
  }

  ghost predicate SumsOk(calls: map<int, Call>, events: seq<Event>) {
    forall i | i in calls :: DeltasFor(events, calls[i].itemId) == if calls[i].custom then "" else calls[i].args
  }

  ghost predicate UnusedOk(events: seq<Event>, drawn: nat) {
    forall id: nat | id >= drawn :: DeltasFor(events, id) == ""
  }

  /** The deltas so far add up to the arguments so far. */
  ghost predicate DeltasOk(st: State) {
    IdsOk(st.calls, st.drawn) && SumsOk(st.calls, st.events) && UnusedOk(st.events, st.drawn)
  }

  lemma NoDeltas(a: seq<Event>, b: seq<Event>, itemId: nat)
    requires forall e | e in b :: !e.ArgumentsDelta? || e.itemId != itemId
    ensures DeltasFor(a + b, itemId) == DeltasFor(a, itemId)
  {
    NoDeltasIn(b, itemId);
    DeltasAppend(a, b, itemId);
  }

  lemma {:induction false} NoDeltasIn(b: seq<Event>, itemId: nat)
    requires forall e | e in b :: !e.ArgumentsDelta? || e.itemId != itemId
    ensures DeltasFor(b, itemId) == ""
  {
    if b != [] {
      NoDeltasIn(b[..|b| - 1], itemId);
    }
  }

  lemma ContentKeepsDeltas(st: State, content: Option<string>)
    requires DeltasOk(st)
    ensures DeltasOk(ReadContent(st, content))
  {
    if OrEmpty(content) != "" {
      var more := (if st.text == "" then [MessageAdded] else []) + [TextDelta(content.value)];
      assert ReadContent(st, content).events == st.events + more;
      forall itemId ensures DeltasFor(st.events + more, itemId) == DeltasFor(st.events, itemId) {
        NoDeltas(st.events, more, itemId);
      }
    }
  }

  lemma OpenedKeepsDeltas(st: State, e: Entry)
    requires DeltasOk(st)
    ensures DeltasOk(Opened(st, e)) && e.index in Opened(st, e).calls
  {
    var st' := Opened(st, e);
    if e.index !in st.calls {
      var id := st.drawn;
      forall itemId ensures DeltasFor(st'.events, itemId) == DeltasFor(st.events, itemId) {
        NoDeltas(st.events, [ItemAdded(e.index, id)], itemId);
      }
    }
  }

  lemma GrownDeltas(st: State, e: Entry, itemId: nat)
    requires e.index in st.calls
    ensures var c := st.calls[e.index];
            DeltasFor(ReadEntry(st, e).events, itemId) ==
              DeltasFor(st.events, itemId) + if itemId == c.itemId && !c.custom then OrEmpty(e.arguments) else ""
  {
    var c := st.calls[e.index];
    if e.arguments.Some? && !c.custom {
      var more := [ArgumentsDelta(e.index, c.itemId, e.arguments.value)];
      DeltasAppend(st.events, more, itemId);
      assert more[..0] == [];
    } else {
      assert st.events + [] == st.events;
    }
  }

  lemma GrownKeepsDeltas(st: State, e: Entry)
    requires DeltasOk(st) && e.index in st.calls
    ensures DeltasOk(ReadEntry(st, e))
  {
    var st', c := ReadEntry(st, e), st.calls[e.index];
    forall i | i in st'.calls
      ensures DeltasFor(st'.events, st'.calls[i].itemId) == if st'.calls[i].custom then "" else st'.calls[i].args
    {
      GrownDeltas(st, e, st.calls[i].itemId);
    }
    assert IdsOk(st'.calls, st'.drawn) by {
      assert st'.calls.Keys == st.calls.Keys;
      assert forall i | i in st.calls :: st'.calls[i].itemId == st.calls[i].itemId;
    }
    forall d: nat | d >= st'.drawn ensures DeltasFor(st'.events, d) == "" {
      GrownDeltas(st, e, d);
    }
  }

  lemma {:induction false} EntriesKeepDeltas(st: State, es: seq<Entry>)
    requires DeltasOk(st)
    ensures DeltasOk(ReadEntries(st, es))
  {
    if es != [] {
      var k := |es| - 1;
      EntriesKeepDeltas(st, es[..k]);
      var before := ReadEntries(st, es[..k]);
      OpenedKeepsDeltas(before, es[k]);
      GrownKeepsDeltas(Opened(before, es[k]), es[k]);
    }
  }

  lemma {:induction false} ReadingKeepsDeltas(chunks: seq<Chunk>)
    ensures DeltasOk(ReadChunks(chunks))
  {
    if chunks != [] {
      var k := |chunks| - 1;
      ReadingKeepsDeltas(chunks[..k]);
      ContentKeepsDeltas(ReadChunks(chunks[..k]), chunks[k].content);
      EntriesKeepDeltas(ReadContent(ReadChunks(chunks[..k]), chunks[k].content), chunks[k].entries);
    }
  }

  ghost predicate ItemsOk(output: seq<Item>, events: seq<Event>, drawn: nat) {
    forall k | 0 <= k < |output| && !output[k].custom ::
      output[k].itemId < drawn && DeltasFor(events, output[k].itemId) == output[k].payload
  }

  /** While closing, the deltas of the accumulated calls stay as they are and those of the items that
      are already out add up to their arguments. */
  ghost predicate ClosingOk(st: State) {
    AllOk(st.calls, st.events, st.drawn, st.output)
  }

  ghost predicate AllOk(calls: map<int, Call>, events: seq<Event>, drawn: nat, output: seq<Item>) {
    IdsOk(calls, drawn) && SumsOk(calls, events) && UnusedOk(events, drawn) && ItemsOk(output, events, drawn)
  }

  lemma ClosingDeltas(i: int, item: Item, itemId: nat)
    ensures DeltasFor(ClosingEvents(i, item), itemId) ==
              if !item.custom && itemId == item.itemId then item.payload else ""
  {
    if item.custom {
      NoDeltasIn(ClosingEvents(i, item), itemId);
    } else {
      var id, v := item.itemId, item.payload;
      var a, b, c := [ItemAdded(i, id)], [ArgumentsDelta(i, id, v)], [ArgumentsDone(i, id, v), ItemDone(i, item)];
      assert ClosingEvents(i, item) == a + b + c;
      NoDeltas(a + b, c, itemId);
      DeltasAppend(a, b, itemId);
      NoDeltasIn(a, itemId);
      assert b[..0] == [];
    }
  }

  lemma CloseDeltas(codec: Codec, st: State, i: int, itemId: nat)
    requires i in st.calls
    ensures var c := st.calls[i];
            DeltasFor(CloseOne(codec, st, i).events, itemId) ==
              DeltasFor(st.events, itemId) + if !c.custom && itemId == st.drawn then c.args else ""
  {
    var item := Finished(codec, st.calls[i], st.drawn);
    DeltasAppend(st.events, ClosingEvents(i, item), itemId);
    ClosingDeltas(i, item, itemId);
  }

  lemma CloseOneKeepsDeltas(codec: Codec, st: State, i: int)
    requires ClosingOk(st)
    ensures ClosingOk(CloseOne(codec, st, i))
  {
    if i in st.calls {
      var st' := CloseOne(codec, st, i);
      assert st'.output == st.output + [Finished(codec, st.calls[i], st.drawn)];
      forall itemId: nat
        ensures DeltasFor(st'.events, itemId) ==
                  DeltasFor(st.events, itemId) +
                  if !st.calls[i].custom && itemId == st.drawn then st.calls[i].args else ""
      {
        CloseDeltas(codec, st, i, itemId);
      }
    }
  }

  /** What closing one call keeps, closing them all keeps. */
  lemma {:induction false} ClosingKeeps(codec: Codec, st: State, n: nat, inv: State -> bool)
    requires inv(st) && forall s: State, i: int :: inv(s) ==> inv(CloseOne(codec, s, i))
    ensures inv(CloseUpTo(codec, st, n))
    decreases n
  {
    if n > 0 {
      ClosingKeeps(codec, st, n - 1, inv);
      assert CloseUpTo(codec, st, n) == CloseOne(codec, CloseUpTo(codec, st, n - 1), n - 1);
    }
  }

  lemma ClosingKeepsDeltas(codec: Codec, st: State, n: nat)
    requires ClosingOk(st)
    ensures ClosingOk(CloseUpTo(codec, st, n))
  {
    var inv := (s: State) => ClosingOk(s);
    forall s: State, i: int | inv(s) ensures inv(CloseOne(codec, s, i)) {
      CloseOneKeepsDeltas(codec, s, i);
    }
    ClosingKeeps(codec, st, n, inv);
    assert inv(CloseUpTo(codec, st, n));
  }

  /** For every item id under which a function call is announced, while it streams and when it is
      closed, the argument deltas add up to the call's arguments. */
  lemma DeltasAddUp(codec: Codec, chunks: seq<Chunk>)
    ensures var st := ReadChunks(chunks);
            var final := Closed(codec, st);
            && final.calls == st.calls
            && (forall i | i in st.calls && !st.calls[i].custom ::
                  DeltasFor(final.events, st.calls[i].itemId) == st.calls[i].args)
            && (forall k | 0 <= k < |final.output| && !final.output[k].custom ::
                  DeltasFor(final.events, final.output[k].itemId) == final.output[k].payload)
  {
    var st := ReadChunks(chunks);
    ReadingKeepsDeltas(chunks);
    ReadingOpensNothing(chunks);
    ClosingKeepsDeltas(codec, st, |st.calls|);
    ClosedItems(codec, st, |st.calls|);
  }

  // ---------------------------------------------------------------------------------------------
  // Text
  // ---------------------------------------------------------------------------------------------

  /** The text deltas, joined. */
  function TextOf(events: seq<Event>): string {
    if events == [] then ""
    else
      var last := events[|events| - 1];
      TextOf(events[..|events| - 1]) + if last.TextDelta? then last.text else ""
  }

  lemma {:induction false} TextAppend(a: seq<Event>, b: seq<Event>)
    ensures TextOf(a + b) == TextOf(a) + TextOf(b)
  {
    if b == [] {
      assert a + b == a;
    } else {
      var k := |b| - 1;
      assert (a + b)[..|a + b| - 1] == a + b[..k];
      TextAppend(a, b[..k]);
    }
  }

  lemma {:induction false} NoText(a: seq<Event>, b: seq<Event>)
    requires forall e | e in b :: !e.TextDelta?
    ensures TextOf(a + b) == TextOf(a)
  {
    if b == [] {
      assert a + b == a;
    } else {
      var k := |b| - 1;
      assert (a + b)[..|a + b| - 1] == a + b[..k];
      NoText(a, b[..k]);
    }
  }

  /** The contents of the chunks, joined. */
  function ContentOf(chunks: seq<Chunk>): string {
    if chunks == [] then "" else ContentOf(chunks[..|chunks| - 1]) + OrEmpty(chunks[|chunks| - 1].content)
  }

  lemma {:induction false} EntriesAddNoText(st: State, es: seq<Entry>)
    ensures var st' := ReadEntries(st, es);
            st'.text == st.text && TextOf(st'.events) == TextOf(st.events)
  {
    if es != [] {
      var k := |es| - 1;
      EntriesAddNoText(st, es[..k]);
      EntryAddsNoText(ReadEntries(st, es[..k]), es[k]);
    }
  }

  lemma EntryAddsNoText(st: State, e: Entry)
    ensures var st' := ReadEntry(st, e);
            st'.text == st.text && TextOf(st'.events) == TextOf(st.events)
  {
    var before, st' := Opened(st, e), ReadEntry(st, e);
    var c := before.calls[e.index];
    NoText(st.events, [ItemAdded(e.index, c.itemId)]);
    var more := if e.arguments.Some? && !c.custom then [ArgumentsDelta(e.index, c.itemId, e.arguments.value)] else [];
    assert st'.events == before.events + more;
    NoText(before.events, more);
  }

  lemma ContentAddsText(st: State, content: Option<string>)
    ensures var st' := ReadContent(st, content);
            && st'.text == st.text + OrEmpty(content)
            && TextOf(st'.events) == TextOf(st.events) + OrEmpty(content)
  {
    if OrEmpty(content) != "" {
      var opening := if st.text == "" then [MessageAdded] else [];
      NoText(st.events, opening);
      var last := [TextDelta(content.value)];
      assert last[..0] == [];
      TextAppend(st.events + opening, last);
    }
  }

  lemma {:induction false} ReadingAddsText(chunks: seq<Chunk>)
    ensures var st := ReadChunks(chunks);
            st.text == ContentOf(chunks) && TextOf(st.events) == ContentOf(chunks)
  {
    if chunks != [] {
      var k := |chunks| - 1;
      ReadingAddsText(chunks[..k]);
      var before := ReadChunks(chunks[..k]);
      ContentAddsText(before, chunks[k].content);
      EntriesAddNoText(ReadContent(before, chunks[k].content), chunks[k].entries);
    }
  }

  lemma {:induction false} ClosingAddsNoText(codec: Codec, st: State, n: nat)
    ensures TextOf(CloseUpTo(codec, st, n).events) == TextOf(st.events)
  {
    if n > 0 {
      ClosingAddsNoText(codec, st, n - 1);
      CloseOneAddsNoText(codec, CloseUpTo(codec, st, n - 1), n - 1);
    }
  }

  lemma CloseOneAddsNoText(codec: Codec, st: State, i: int)
    ensures TextOf(CloseOne(codec, st, i).events) == TextOf(st.events)
  {
    if i in st.calls {
      var events := CloseOne(codec, st, i).events;
      assert events == st.events + events[|st.events|..];
      NoText(st.events, events[|st.events|..]);
    }
  }

  lemma MessageAddsNoText(st: State)
    ensures TextOf(CloseMessage(st).events) == TextOf(st.events)
  {
    if st.text == "" {
      NoText(st.events, [MessageAdded]);
      EmptyText(st.events + [MessageAdded]);
      NoText(st.events + [MessageAdded] + [TextDelta("")], [TextDone("")]);
      assert CloseMessage(st).events == st.events + [MessageAdded] + [TextDelta("")] + [TextDone("")];
    } else {
      NoText(st.events, [TextDone(st.text)]);
      assert CloseMessage(st).events == st.events + [TextDone(st.text)];
    }
  }

  lemma EmptyText(events: seq<Event>)
    ensures TextOf(events + [TextDelta("")]) == TextOf(events)
  {
    assert (events + [TextDelta("")])[..|events|] == events;
  }

  lemma ClosingTextStays(codec: Codec, st: State)
    ensures TextOf(Closed(codec, st).events) == TextOf(st.events)
  {
    if |st.calls| > 0 { ClosingAddsNoText(codec, st, |st.calls|); } else { MessageAddsNoText(st); }
  }

  lemma NoEntriesNoCalls(chunks: seq<Chunk>)
    requires AllEntries(chunks) == []
    ensures |ReadChunks(chunks).calls| == 0
  {
    FragmentsAddUp(chunks);
    var calls := ReadChunks(chunks).calls;
    forall i ensures i !in calls {
      assert Of([], i) == [];
    }
    assert calls.Keys == {};
  }

  /** The text deltas join to the contents of the chunks, once each, and without calls the message
      item holds that text. */
  lemma TextAddsUp(codec: Codec, chunks: seq<Chunk>)
    ensures var final := Closed(codec, ReadChunks(chunks));
            && TextOf(final.events) == ContentOf(chunks)
            && (AllEntries(chunks) == [] ==> final.message == Some(ContentOf(chunks)) && final.output == [])
  {
    ReadingAddsText(chunks);
    ReadingOpensNothing(chunks);
    ClosingTextStays(codec, ReadChunks(chunks));
    if AllEntries(chunks) == [] {
      NoEntriesNoCalls(chunks);
    }
  }

  // ---------------------------------------------------------------------------------------------
  // The order of the events
  // ---------------------------------------------------------------------------------------------

  /** The event that has to come before this one. */
  function Needs(e: Event): Option<Event> {
    match e
    case TextDelta(_) => Some(MessageAdded)
    case TextDone(_) => Some(MessageAdded)
    case ArgumentsDelta(i, id, _) => Some(ItemAdded(i, id))
    case ArgumentsDone(i, id, _) => Some(ItemAdded(i, id))
    case InputDelta(i, id, _) => Some(ItemAdded(i, id))
    case InputDone(i, id, _) => Some(ItemAdded(i, id))
    case ItemDone(i, item) => Some(ItemAdded(i, item.itemId))
    case _ => None
  }

  /** Nothing is said about an item or a message before it has been added. */
  ghost predicate InOrder(events: seq<Event>) {
    forall k | 0 <= k < |events| && Needs(events[k]).Some? :: Needs(events[k]).value in events[..k]
  }

  lemma InOrderMore(events: seq<Event>, e: Event)
    requires InOrder(events) && (Needs(e).Some? ==> Needs(e).value in events)
    ensures InOrder(events + [e])
  {
    var all := events + [e];
    assert all[..|events|] == events;
    forall k | 0 <= k < |events| && Needs(all[k]).Some? ensures Needs(all[k]).value in all[..k] {
      assert all[k] == events[k] && all[..k] == events[..k];
    }
  }

  /** Every call has been added under its id, and the message as soon as there is text. */
  ghost predicate Announced(st: State) {
    && InOrder(st.events)
    && (forall i | i in st.calls :: ItemAdded(i, st.calls[i].itemId) in st.events)
    && (st.text != "" ==> MessageAdded in st.events)
  }

  lemma ContentKeepsOrder(st: State, content: Option<string>)
    requires Announced(st)
    ensures Announced(ReadContent(st, content))
  {
    if OrEmpty(content) != "" {
      var opening := if st.text == "" then st.events + [MessageAdded] else st.events + [];
      if st.text == "" {
        InOrderMore(st.events, MessageAdded);
      } else {
        assert opening == st.events;
      }
      InOrderMore(opening, TextDelta(content.value));
      var st' := ReadContent(st, content);
      assert st'.events == opening + [TextDelta(content.value)];
      assert forall e | e in st.events :: e in st'.events;
    }
  }

  lemma OpenedKeepsOrder(st: State, e: Entry)
    requires Announced(st)
    ensures Announced(Opened(st, e))
  {
    if e.index !in st.calls {
      InOrderMore(st.events, ItemAdded(e.index, st.drawn));
    }
  }

  lemma EntryKeepsOrder(st: State, e: Entry)
    requires Announced(st)
    ensures Announced(ReadEntry(st, e))
  {
    var before, after := Opened(st, e), ReadEntry(st, e);
    OpenedKeepsOrder(st, e);
    var c := before.calls[e.index];
    if e.arguments.Some? && !c.custom {
      InOrderMore(before.events, ArgumentsDelta(e.index, c.itemId, e.arguments.value));
    } else {
      assert after.events == before.events;
    }
  }

  lemma {:induction false} EntriesKeepOrder(st: State, es: seq<Entry>)
    requires Announced(st)
    ensures Announced(ReadEntries(st, es))
  {
    if es != [] {
      EntriesKeepOrder(st, es[..|es| - 1]);
      EntryKeepsOrder(ReadEntries(st, es[..|es| - 1]), es[|es| - 1]);
    }
  }

  lemma {:induction false} ReadingKeepsOrder(chunks: seq<Chunk>)
    ensures Announced(ReadChunks(chunks))
  {
    if chunks != [] {
      var k := |chunks| - 1;
      ReadingKeepsOrder(chunks[..k]);
      ContentKeepsOrder(ReadChunks(chunks[..k]), chunks[k].content);
      EntriesKeepOrder(ReadContent(ReadChunks(chunks[..k]), chunks[k].content), chunks[k].entries);
    }
  }

  lemma CloseOneKeepsOrder(codec: Codec, st: State, i: int)
    requires Announced(st)
    ensures Announced(CloseOne(codec, st, i))
  {
    if i in st.calls {
      var item := Finished(codec, st.calls[i], st.drawn);
      var id, v, a := item.itemId, item.payload, st.events;
      if item.custom {
        InOrderMore(a, InputDelta(i, id, v));
        InOrderMore(a + [InputDelta(i, id, v)], InputDone(i, id, v));
        InOrderMore(a + [InputDelta(i, id, v)] + [InputDone(i, id, v)], ItemDone(i, item));
        assert a + ClosingEvents(i, item) == a + [InputDelta(i, id, v)] + [InputDone(i, id, v)] + [ItemDone(i, item)];
      } else {
        var b := a + [ItemAdded(i, id)] + [ArgumentsDelta(i, id, v)];
        InOrderMore(a, ItemAdded(i, id));
        InOrderMore(a + [ItemAdded(i, id)], ArgumentsDelta(i, id, v));
        InOrderMore(b, ArgumentsDone(i, id, v));
        InOrderMore(b + [ArgumentsDone(i, id, v)], ItemDone(i, item));
        assert a + ClosingEvents(i, item) == b + [ArgumentsDone(i, id, v)] + [ItemDone(i, item)];
      }
    }
  }

  lemma ClosingKeepsOrder(codec: Codec, st: State, n: nat)
    requires Announced(st)
    ensures Announced(CloseUpTo(codec, st, n))
  {
    var inv := (s: State) => Announced(s);
    forall s: State, i: int | inv(s) ensures inv(CloseOne(codec, s, i)) {
      CloseOneKeepsOrder(codec, s, i);
    }
    ClosingKeeps(codec, st, n, inv);
    assert inv(CloseUpTo(codec, st, n));
  }

  lemma MessageKeepsOrder(st: State)
    requires Announced(st)
    ensures InOrder(CloseMessage(st).events)
  {
    var a := st.events;
    if st.text == "" {
      InOrderMore(a, MessageAdded);
      InOrderMore(a + [MessageAdded], TextDelta(""));
      InOrderMore(a + [MessageAdded] + [TextDelta("")], TextDone(""));
      assert CloseMessage(st).events == a + [MessageAdded] + [TextDelta("")] + [TextDone("")];
    } else {
      InOrderMore(a, TextDone(st.text));
      assert CloseMessage(st).events == a + [TextDone(st.text)];
    }
  }

  /** For any stream whatever: no event about an item or the message comes before the event that adds
      it under the same position and id. */
  lemma EventsComeInOrder(codec: Codec, chunks: seq<Chunk>)
    ensures InOrder(Closed(codec, ReadChunks(chunks)).events)
  {
    var st := ReadChunks(chunks);
    ReadingKeepsOrder(chunks);
    if |st.calls| > 0 { ClosingKeepsOrder(codec, st, |st.calls|); } else { MessageKeepsOrder(st); }
  }

  predicate Ends(e: Event) {
    e.ArgumentsDone? || e.InputDelta? || e.InputDone? || e.ItemDone? || e.TextDone?
  }

  /** The events that are only sent when something is finished. */
  function Endings(events: seq<Event>): seq<Event> {
    if events == [] then []
    else
      var last := events[|events| - 1];
      Endings(events[..|events| - 1]) + if Ends(last) then [last] else []
  }

  /** How a finished item ends: its arguments are done, or its input comes at once and is done, and
      then the item is. */
  function EndingOf(i: int, item: Item): seq<Event> {
    if item.custom
    then [InputDelta(i, item.itemId, item.payload), InputDone(i, item.itemId, item.payload), ItemDone(i, item)]
    else [ArgumentsDone(i, item.itemId, item.payload), ItemDone(i, item)]
  }

  function EndingsOf(at: seq<int>, items: seq<Item>): seq<Event>
    requires |at| == |items|
  {
    if items == [] then []
    else
      var k := |items| - 1;
      EndingsOf(at[..k], items[..k]) + EndingOf(at[k], items[k])
  }

  lemma NoEnding(events: seq<Event>, e: Event)
    requires !Ends(e)
    ensures Endings(events + [e]) == Endings(events)
  {
    assert (events + [e])[..|events|] == events;
  }

  lemma OneEnding(events: seq<Event>, e: Event)
    requires Ends(e)
    ensures Endings(events + [e]) == Endings(events) + [e]
  {
    assert (events + [e])[..|events|] == events;
  }

  lemma EntryEndsNothing(st: State, e: Entry)
    ensures Endings(ReadEntry(st, e).events) == Endings(st.events)
  {
    var started := Opened(st, e);
    var c := started.calls[e.index];
    if e.index !in st.calls {
      NoEnding(st.events, ItemAdded(e.index, st.drawn));
    }
    if e.arguments.Some? && !c.custom {
      NoEnding(started.events, ArgumentsDelta(e.index, c.itemId, e.arguments.value));
    } else {
      assert started.events + [] == started.events;
    }
  }

  lemma {:induction false} EntriesEndNothing(st: State, es: seq<Entry>)
    ensures Endings(ReadEntries(st, es).events) == Endings(st.events)
  {
    if es != [] {
      EntriesEndNothing(st, es[..|es| - 1]);
      EntryEndsNothing(ReadEntries(st, es[..|es| - 1]), es[|es| - 1]);
    }
  }

  lemma {:induction false} ReadingEndsNothing(chunks: seq<Chunk>)
    ensures Endings(ReadChunks(chunks).events) == []
  {
    if chunks != [] {
      var k := |chunks| - 1;
      ReadingEndsNothing(chunks[..k]);
      var before, content := ReadChunks(chunks[..k]), chunks[k].content;
      EntriesEndNothing(ReadContent(before, content), chunks[k].entries);
      if OrEmpty(content) != "" {
        var opening := if before.text == "" then before.events + [MessageAdded] else before.events + [];
        NoEnding(before.events, MessageAdded);
        assert before.events + [] == before.events;
        NoEnding(opening, TextDelta(content.value));
        assert ReadContent(before, content).events == opening + [TextDelta(content.value)];
      }
    }
  }

  lemma TwoEndings(events: seq<Event>, e: Event, f: Event)
    requires Ends(e) && Ends(f)
    ensures Endings(events + [e, f]) == Endings(events) + [e, f]
  {
    OneEnding(events, e);
    OneEnding(events + [e], f);
    assert events + [e, f] == events + [e] + [f];
  }

  lemma NoEndings(events: seq<Event>, e: Event, f: Event)
    requires !Ends(e) && !Ends(f)
    ensures Endings(events + [e, f]) == Endings(events)
  {
    NoEnding(events, e);
    NoEnding(events + [e], f);
    assert events + [e, f] == events + [e] + [f];
  }

  lemma ClosingEndings(events: seq<Event>, i: int, item: Item)
    ensures Endings(events + ClosingEvents(i, item)) == Endings(events) + EndingOf(i, item)
  {
    var id, v := item.itemId, item.payload;
    if item.custom {
      OneEnding(events, InputDelta(i, id, v));
      TwoEndings(events + [InputDelta(i, id, v)], InputDone(i, id, v), ItemDone(i, item));
      assert events + ClosingEvents(i, item) ==
             events + [InputDelta(i, id, v)] + [InputDone(i, id, v), ItemDone(i, item)];
    } else {
      var before := events + [ItemAdded(i, id), ArgumentsDelta(i, id, v)];
      NoEndings(events, ItemAdded(i, id), ArgumentsDelta(i, id, v));
      TwoEndings(before, ArgumentsDone(i, id, v), ItemDone(i, item));
      assert events + ClosingEvents(i, item) == before + [ArgumentsDone(i, id, v), ItemDone(i, item)];
    }
  }

  /** The items that are out so far have ended, and nothing else has. */
  ghost predicate EndedSoFar(st: State, at: seq<int>) {
    |at| == |st.output| && Endings(st.events) == EndingsOf(at, st.output)
  }

  lemma CloseOneEnds(codec: Codec, st: State, at: seq<int>, i: int)
    requires EndedSoFar(st, at)
    ensures EndedSoFar(CloseOne(codec, st, i), if i in st.calls then at + [i] else at)
  {
    if i in st.calls {
      var item := Finished(codec, st.calls[i], st.drawn);
      ClosingEndings(st.events, i, item);
      OneItemMore(at, st.output, i, item);
    }
  }

  lemma {:induction false} ClosedEndings(codec: Codec, st: State, n: nat)
    requires st.output == [] && Endings(st.events) == []
    ensures CloseUpTo(codec, st, n).calls == st.calls
    ensures EndedSoFar(CloseUpTo(codec, st, n), Present(st.calls, n))
  {
    if n > 0 {
      var at := Present(st.calls, n - 1);
      ClosedEndings(codec, st, n - 1);
      CloseOneEnds(codec, CloseUpTo(codec, st, n - 1), at, n - 1);
      assert Present(st.calls, n) == if n - 1 in st.calls then at + [n - 1] else at;
    }
  }

  lemma OneItemMore(at: seq<int>, items: seq<Item>, i: int, item: Item)
    requires |at| == |items|
    ensures EndingsOf(at + [i], items + [item]) == EndingsOf(at, items) + EndingOf(i, item)
  {
    assert (at + [i])[..|at|] == at && (items + [item])[..|items|] == items;
  }

  lemma MessageEnds(st: State)
    requires Endings(st.events) == []
    ensures Endings(CloseMessage(st).events) == [TextDone(st.text)]
  {
    var events := st.events;
    if st.text == "" {
      events := st.events + [MessageAdded, TextDelta("")];
      NoEndings(st.events, MessageAdded, TextDelta(""));
    }
    OneEnding(events, TextDone(st.text));
    assert CloseMessage(st).events == events + [TextDone(st.text)];
  }

  /** Every finished item, at its position and in order, ends exactly once and with exactly its
      payload; a stream without calls ends its message with the whole text. */
  lemma EveryItemEnds(codec: Codec, chunks: seq<Chunk>)
    ensures var st := ReadChunks(chunks);
            var final, at := Closed(codec, st), Present(st.calls, |st.calls|);
            if |st.calls| > 0 then |at| == |final.output| && Endings(final.events) == EndingsOf(at, final.output)
            else Endings(final.events) == [TextDone(ContentOf(chunks))]
  {
    var st := ReadChunks(chunks);
    ReadingEndsNothing(chunks);
    ReadingOpensNothing(chunks);
    ReadingAddsText(chunks);
    if |st.calls| > 0 {
      ClosedEndings(codec, st, |st.calls|);
    } else {
      MessageEnds(st);
    }
  }

  /** The item id that an ending event is about. */
  function EndedId(e: Event): Option<nat> {
    match e
    case ArgumentsDone(_, id, _) => Some(id)
    case InputDelta(_, id, _) => Some(id)
    case InputDone(_, id, _) => Some(id)
    case ItemDone(_, item) => Some(item.itemId)
    case _ => None
  }

  lemma {:induction false} EndingIsListed(events: seq<Event>, e: Event)
    requires e in events && Ends(e)
    ensures e in Endings(events)
  {
    var k := |events| - 1;
    assert events == events[..k] + [events[k]];
    if e in events[..k] {
      EndingIsListed(events[..k], e);
    }
  }

  lemma {:induction false} ListedEndings(at: seq<int>, items: seq<Item>, e: Event)
    requires |at| == |items| && e in EndingsOf(at, items)
    ensures exists k :: 0 <= k < |items| && EndedId(e) == Some(items[k].itemId)
  {
    var k := |items| - 1;
    if e in EndingsOf(at[..k], items[..k]) {
      ListedEndings(at[..k], items[..k], e);
      var j :| 0 <= j < k && EndedId(e) == Some(items[..k][j].itemId);
      assert items[j] == items[..k][j];
    }
  }

  /** Items are finished under a new id, or under that of a custom call. */
  ghost predicate FinishedId(calls: map<int, Call>, drawn: nat, id: nat) {
    id >= drawn || exists i :: i in calls && calls[i].custom && calls[i].itemId == id
  }

  lemma {:induction false} FinishedIds(codec: Codec, st: State, n: nat)
    requires st.output == []
    ensures var r := CloseUpTo(codec, st, n);
            && r.calls == st.calls && r.drawn >= st.drawn
            && forall k | 0 <= k < |r.output| :: FinishedId(st.calls, st.drawn, r.output[k].itemId)
  {
    if n > 0 {
      FinishedIds(codec, st, n - 1);
    }
  }

  /** The id under which a function call is announced while it streams is never finished: the item
      ends under another id. */
  lemma StreamedIdNeverEnds(codec: Codec, chunks: seq<Chunk>, i: int)
    requires i in ReadChunks(chunks).calls && !ReadChunks(chunks).calls[i].custom
    ensures var final, id := Closed(codec, ReadChunks(chunks)), ReadChunks(chunks).calls[i].itemId;
            ItemAdded(i, id) in final.events && forall e | e in final.events :: EndedId(e) != Some(id)
  {
    var st := ReadChunks(chunks);
    var final, at := Closed(codec, st), Present(st.calls, |st.calls|);
    assert |st.calls| > 0;
    ReadingKeepsOrder(chunks);
    ClosingKeepsOrder(codec, st, |st.calls|);
    ReadingKeepsDeltas(chunks);
    ReadingOpensNothing(chunks);
    FinishedIds(codec, st, |st.calls|);
    EveryItemEnds(codec, chunks);
    forall e | e in final.events ensures EndedId(e) != Some(st.calls[i].itemId) {
      if EndedId(e).Some? {
        EndingIsListed(final.events, e);
        ListedEndings(at, final.output, e);
      }
    }
  }

  // ---------------------------------------------------------------------------------------------
  // The loops
  // ---------------------------------------------------------------------------------------------

  /** `None` is the terminal failure event for a stream without text and calls. */
  method AdaptStream(codec: Codec, chunks: seq<Chunk>) returns (result: Option<State>)
    ensures result.None? <==> ReadChunks(chunks).calls == map[] && Trim(ReadChunks(chunks).text) == ""
    ensures result.Some? ==> result.value == Closed(codec, ReadChunks(chunks))
  {
    var st := START;
    for k := 0 to |chunks|
      invariant st == ReadChunks(chunks[..k])
    {
      assert chunks[..k + 1][..k] == chunks[..k];
      st := ReadChunk(st, chunks[k]);
    }
    assert chunks[..|chunks|] == chunks;
    if |st.calls| == 0 && Trim(st.text) == "" {
      return None;
    }
    st := CloseOutput(codec, st);
    result := Some(st);
  }

  method ReadChunk(start: State, chunk: Chunk) returns (st: State)
    ensures st == ReadEntries(ReadContent(start, chunk.content), chunk.entries)
  {
    st := start;
    if chunk.content.Some? && chunk.content.value != "" {
      var textStarted := st.text != "";
      st := st.(text := st.text + chunk.content.value,
                events := st.events + (if textStarted then [] else [MessageAdded]) + [TextDelta(chunk.content.value)]);
    }
    ghost var withText := st;
    for j := 0 to |chunk.entries|
      invariant st == ReadEntries(withText, chunk.entries[..j])
    {
      assert chunk.entries[..j + 1][..j] == chunk.entries[..j];
      st := AddEntry(st, chunk.entries[j]);
    }
    assert chunk.entries[..|chunk.entries|] == chunk.entries;
  }

  method CloseOutput(codec: Codec, read: State) returns (st: State)
    ensures st == Closed(codec, read)
  {
    st := read;
    var n := |st.calls|;
    if n > 0 {
      for i := 0 to n
        invariant st == CloseUpTo(codec, read, i)
      {
        st := CloseOne(codec, st, i);
      }
    } else {
      var opening := if st.text == "" then [MessageAdded, TextDelta(st.text)] else [];
      st := st.(message := Some(st.text), events := st.events + opening + [TextDone(st.text)]);
    }
  }

  method AddEntry(st: State, e: Entry) returns (st': State)
    ensures st' == ReadEntry(st, e)
  {
    st' := st;
    if e.index !in st'.calls {
      var call := Call("", "", "", e.kind == Some("custom"), st'.drawn);
      st' := st'.(calls := st'.calls[e.index := call], drawn := st'.drawn + 1,
                  events := st'.events + [ItemAdded(e.index, call.itemId)]);
    }
    var c := st'.calls[e.index];
    if e.id.Some? {
      c := c.(id := e.id.value);
    }
    if e.name.Some? {
      c := c.(name := c.name + e.name.value);
    } else {
      assert c.name + "" == c.name;
    }
    if e.arguments.Some? {
      c := c.(args := c.args + e.arguments.value);
      if !c.custom {
        st' := st'.(events := st'.events + [ArgumentsDelta(e.index, c.itemId, e.arguments.value)]);
      }
    } else {
      assert c.args + "" == c.args;
    }
    st' := st'.(calls := st'.calls[e.index := c]);
    assert ReadEntry(st, e).events == st'.events;
  }
}
