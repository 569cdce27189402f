/**
 The terminal host's transcript: rows projected from live events, and the same rows rebuilt from a
 loaded conversation. Scrolling, status, usage and pickers are not part of this model.
 */
module Transcripts {
  import opened Messages
  import opened Wrappers

  datatype ToolState = Begun | Progress | Completed | Failed

  datatype Tool = Tool(
    callId: string,
    sequence: Option<nat>,
    index: nat,
    name: string,
    arguments: string,
    progress: Option<string>,
    settled: Option<string>,
    state: ToolState)

  datatype Entry =
    | Welcome(text: string)
    | UserRow(text: string)
    | AssistantRow(text: string, streaming: bool)
    | ToolRow(tool: Tool)
    | ErrorRow(text: string)

  datatype Kind =
    | MessageStart(message: Message)
    | MessageUpdate(message: Message, delta: Option<string>)
    | MessageEnd(message: Message)
    | ToolStart(callId: string, name: string, arguments: string)
    | ToolUpdate(callId: string, name: string, content: string)
    | ToolEnd(callId: string, name: string, content: string, isError: bool)
    | Other

  datatype Event = Event(sequence: nat, kind: Kind)

  // ----- The projection as a function of its state

  datatype View = View(
    entries: seq<Entry>,
    sequences: seq<Option<nat>>,
    streaming: Option<nat>,
    active: map<string, nat>)

  const EMPTY: View := View([], [], None, map[])

  function Push(v: View, sequence: Option<nat>, entry: Entry): View {
    v.(entries := v.entries + [entry], sequences := v.sequences + [sequence])
  }

  function Replace(v: View, i: nat, sequence: Option<nat>, entry: Entry): View
    requires i < |v.entries| && i < |v.sequences|
  {
    v.(entries := v.entries[i := entry], sequences := v.sequences[i := sequence])
  }

  /** Streamed text grows its row; the first piece opens one. */
  function Update(v: View, sequence: Option<nat>, message: Message, delta: Option<string>): View {
    if !message.Assistant? || delta.None? then v
    else if v.streaming.Some? then
      var i := v.streaming.value;
      if i < |v.entries| && v.entries[i].AssistantRow?
      then v.(entries := v.entries[i := v.entries[i].(text := v.entries[i].text + delta.value)])
      else v
    else Push(v, sequence, AssistantRow(delta.value, true)).(streaming := Some(|v.entries|))
  }

  function FinalRow(message: Message): Entry
    requires message.Assistant?
  {
    if message.errorMessage.Some? then ErrorRow(message.errorMessage.value) else AssistantRow(message.content, false)
  }

  /** The final message replaces the streamed row, or becomes a row of its own. */
  function End(v: View, sequence: Option<nat>, message: Message): View {
    if !message.Assistant? then v
    else if v.streaming.Some? then
      var i := v.streaming.value;
      if i < |v.entries| && i < |v.sequences| && (message.errorMessage.Some? || v.entries[i].AssistantRow?)
      then Replace(v, i, sequence, FinalRow(message)).(streaming := None)
      else v.(streaming := None)
    else Push(v, sequence, FinalRow(message)).(streaming := None)
  }

  function NewTool(v: View, sequence: Option<nat>, tool: Tool): View {
    Push(v, sequence, ToolRow(tool)).(active := v.active[tool.callId := |v.entries|])
  }

  function UpdatedTool(tool: Tool, sequence: Option<nat>, name: string, state: ToolState,
      progress: Option<string>, result: Option<string>): Tool
  {
    tool.(
      sequence := sequence, name := name, state := state,
      progress := if progress.Some? then progress else tool.progress,
      settled := if result.Some? then result else tool.settled)
  }

  /** An update of an unknown call opens a row for it. */
  function UpdateTool(v: View, callId: string, sequence: Option<nat>, name: string, state: ToolState,
      progress: Option<string>, result: Option<string>): View
  {
    if callId in v.active && v.active[callId] < |v.entries| && v.active[callId] < |v.sequences|
       && v.entries[v.active[callId]].ToolRow?
    then
      var i := v.active[callId];
      Replace(v, i, sequence, ToolRow(UpdatedTool(v.entries[i].tool, sequence, name, state, progress, result)))
    else NewTool(v, sequence, Tool(callId, sequence, |v.entries|, name, "", progress, result, state))
  }

  function Apply(v: View, e: Event): View {
    var sequence := Some(e.sequence);
    match e.kind
    case MessageStart(m) => if m.User? then Push(v, sequence, UserRow(m.content)) else v
    case MessageUpdate(m, delta) => Update(v, sequence, m, delta)
    case MessageEnd(m) => End(v, sequence, m)
    case ToolStart(id, name, arguments) =>
      NewTool(v, sequence, Tool(id, sequence, |v.entries|, name, arguments, None, None, Begun))
    case ToolUpdate(id, name, content) => UpdateTool(v, id, sequence, name, Progress, Some(content), None)
    case ToolEnd(id, name, content, isError) =>
      var updated := UpdateTool(v, id, sequence, name, if isError then Failed else Completed, None, Some(content));
      updated.(active := updated.active - {id})
    case Other => v
  }

  function ApplyAll(v: View, events: seq<Event>): View
    decreases |events|
  {
    if events == [] then v else ApplyAll(Apply(v, events[0]), events[1..])
  }

  /** The row of a loaded message at position `i`. */
  function RestoredRow(message: Message, i: nat): Entry {
    match message
    case User(_, content) => UserRow(content)
    case Assistant(_, _, _, _, _) => FinalRow(message)
    case ToolResult(_, callId, toolName, content, _, _, _, _, isError, _) =>
      ToolRow(Tool(callId, None, i, toolName, "", None, Some(content), if isError then Failed else Completed))
  }

  /** One row per message, in order. */
  predicate Restored(v: View, messages: seq<Message>) {
    && |v.entries| == |messages| == |v.sequences| && v.streaming.None? && v.active == map[]
    && (forall i :: 0 <= i < |messages| ==> v.entries[i] == RestoredRow(messages[i], i) && v.sequences[i] == None)
  }

  // ----- What every stream keeps

  predicate Streaming(entry: Entry) { entry.AssistantRow? && entry.streaming }

  predicate RowOf(entry: Entry, callId: string) { entry.ToolRow? && entry.tool.callId == callId }

  /** Rows and sequences are aligned, and the two indices point at the rows they are for. */
  ghost predicate Inv(v: View) {
    && |v.entries| == |v.sequences|
    && (v.streaming.Some? ==> v.streaming.value < |v.entries| && Streaming(v.entries[v.streaming.value]))
    && (forall id :: id in v.active ==>
          v.active[id] < |v.entries| && RowOf(v.entries[v.active[id]], id))
    && (forall i :: 0 <= i < |v.entries| && v.entries[i].ToolRow? ==>
          v.entries[i].tool.index == i && v.entries[i].tool.sequence == v.sequences[i])
  }

  lemma PushKeepsInv(v: View, sequence: Option<nat>, entry: Entry)
    requires Inv(v) && (entry.ToolRow? ==> entry.tool.index == |v.entries| && entry.tool.sequence == sequence)
    ensures Inv(Push(v, sequence, entry))
  {
  }

  lemma UpdateKeepsInv(v: View, sequence: Option<nat>, message: Message, delta: Option<string>)
    requires Inv(v)
    ensures Inv(Update(v, sequence, message, delta))
  {
    if message.Assistant? && delta.Some? && v.streaming.None? {
      PushKeepsInv(v, sequence, AssistantRow(delta.value, true));
    }
  }

  lemma EndKeepsInv(v: View, sequence: Option<nat>, message: Message)
    requires Inv(v)
    ensures Inv(End(v, sequence, message))
  {
    if message.Assistant? && v.streaming.None? {
      PushKeepsInv(v, sequence, FinalRow(message));
    }
  }

  lemma NewToolKeepsInv(v: View, sequence: Option<nat>, tool: Tool)
    requires Inv(v) && tool.index == |v.entries| && tool.sequence == sequence
    ensures Inv(NewTool(v, sequence, tool)) && tool.callId in NewTool(v, sequence, tool).active
  {
    PushKeepsInv(v, sequence, ToolRow(tool));
  }

  lemma ReplaceToolKeepsInv(v: View, i: nat, sequence: Option<nat>, tool: Tool)
    requires Inv(v) && i < |v.entries| && v.entries[i].ToolRow?
    requires tool.callId == v.entries[i].tool.callId && tool.index == i && tool.sequence == sequence
    ensures Inv(Replace(v, i, sequence, ToolRow(tool)))
  {
  }

  lemma UpdateToolKeepsInv(v: View, callId: string, sequence: Option<nat>, name: string, state: ToolState,
      progress: Option<string>, result: Option<string>)
    requires Inv(v)
    ensures Inv(UpdateTool(v, callId, sequence, name, state, progress, result))
  {
    if callId in v.active {
      var i := v.active[callId];
      ReplaceToolKeepsInv(v, i, sequence, UpdatedTool(v.entries[i].tool, sequence, name, state, progress, result));
    } else {
      NewToolKeepsInv(v, sequence, Tool(callId, sequence, |v.entries|, name, "", progress, result, state));
    }
  }

  lemma ApplyGrows(v: View, e: Event)
    ensures |v.entries| <= |Apply(v, e).entries| <= |v.entries| + 1
  {
  }

  /** Any event, in any order, keeps the transcript consistent and never removes a row. */
  lemma ApplyKeepsInv(v: View, e: Event)
    requires Inv(v)
    ensures Inv(Apply(v, e))
  {
    var sequence := Some(e.sequence);
    match e.kind
    case MessageStart(m) =>
      if m.User? {
        PushKeepsInv(v, sequence, UserRow(m.content));
      }
    case MessageUpdate(m, delta) => UpdateKeepsInv(v, sequence, m, delta);
    case MessageEnd(m) => EndKeepsInv(v, sequence, m);
    case ToolStart(id, name, arguments) =>
      NewToolKeepsInv(v, sequence, Tool(id, sequence, |v.entries|, name, arguments, None, None, Begun));
    case ToolUpdate(id, name, content) => UpdateToolKeepsInv(v, id, sequence, name, Progress, Some(content), None);
    case ToolEnd(id, name, content, isError) =>
      UpdateToolKeepsInv(v, id, sequence, name, if isError then Failed else Completed, None, Some(content));
    case Other =>
  }

  lemma {:induction false} AnyStreamKeepsInv(v: View, events: seq<Event>)
    requires Inv(v)
    ensures Inv(ApplyAll(v, events)) && |v.entries| <= |ApplyAll(v, events).entries| <= |v.entries| + |events|
    decreases |events|
  {
    if events != [] {
      ApplyKeepsInv(v, events[0]);
      ApplyGrows(v, events[0]);
      AnyStreamKeepsInv(Apply(v, events[0]), events[1..]);
    }
  }

  // ----- Well-formed streams

  /** What a running agent emits: prompts, streamed replies, and batches of tools. */
  datatype Block =
    | Prompt(message: Message, events: seq<Event>)
    | Reply(message: Message, events: seq<Event>)
    | Batch(results: seq<Message>, events: seq<Event>)

  /** Tools start in the order of their results; each reports while it runs and ends once, as its result says. */
  predicate Section(events: seq<Event>, results: seq<Message>, next: nat, open: set<string>)
    requires next <= |results| && forall r :: r in results ==> r.ToolResult?
    decreases |events|
  {
    if events == [] then next == |results| && open == {}
    else
      match events[0].kind
      case ToolStart(id, _, _) =>
        next < |results| && results[next].callId == id && Section(events[1..], results, next + 1, open + {id})
      case ToolUpdate(id, _, _) => id in open && Section(events[1..], results, next, open)
      case ToolEnd(id, name, content, isError) =>
        && id in open
        && (forall r :: r in results && r.callId == id ==>
          r.toolName == name && r.content == content && r.isError == isError)
        && Section(events[1..], results, next, open - {id})
      case _ => false
  }

  predicate WellFormed(b: Block) {
    match b
    case Prompt(m, events) =>
      && m.User? && |events| == 2
      && events[0].kind == MessageStart(m) && events[1].kind == MessageEnd(m)
    case Reply(m, events) =>
      && m.Assistant? && |events| >= 2
      && events[0].kind.MessageStart? && events[0].kind.message.Assistant?
      && (forall i :: 0 < i < |events| - 1 ==> events[i].kind.MessageUpdate?)
      && events[|events| - 1].kind == MessageEnd(m)
    case Batch(results, events) =>
      && (forall r :: r in results ==> r.ToolResult?)
      && (forall i, j :: 0 <= i < j < |results| ==> results[i].callId != results[j].callId)
      && Section(events, results, 0, {})
  }

  predicate AllWellFormed(blocks: seq<Block>) { forall b :: b in blocks ==> WellFormed(b) }

  function Conversation(b: Block): seq<Message> {
    match b
    case Prompt(m, _) => [m]
    case Reply(m, _) => [m]
    case Batch(results, _) => results
  }

  function ConversationOf(blocks: seq<Block>): seq<Message> {
    if blocks == [] then [] else Conversation(blocks[0]) + ConversationOf(blocks[1..])
  }

  function EventsOf(blocks: seq<Block>): seq<Event> {
    if blocks == [] then [] else blocks[0].events + EventsOf(blocks[1..])
  }

  /** Events of other kinds, and the messages of tool results, add nothing to the transcript. */
  predicate Silent(e: Event) {
    e.kind.Other? || ((e.kind.MessageStart? || e.kind.MessageEnd?) && e.kind.message.ToolResult?)
  }

  function Audible(events: seq<Event>): seq<Event> {
    if events == [] then [] else (if Silent(events[0]) then [] else [events[0]]) + Audible(events[1..])
  }

  // ----- The live transcript is the restored one

  /** What the two ways of building a row agree on. */
  function Shape(entry: Entry): Entry {
    if entry.ToolRow? then ToolRow(entry.tool.(sequence := None, arguments := "", progress := None)) else entry
  }

  /** Rows for the messages have been appended, and nothing is left open. */
  ghost predicate Extended(v: View, w: View, messages: seq<Message>) {
    && |w.entries| == |v.entries| + |messages|
    && w.entries[..|v.entries|] == v.entries
    && w.streaming.None? && w.active == map[]
    && forall i :: 0 <= i < |messages| ==>
         Shape(w.entries[|v.entries| + i]) == Shape(RestoredRow(messages[i], |v.entries| + i))
  }

  lemma {:induction false} AudibleSuffices(v: View, events: seq<Event>)
    ensures ApplyAll(v, events) == ApplyAll(v, Audible(events))
    decreases |events|
  {
    if events != [] {
      AudibleSuffices(Apply(v, events[0]), events[1..]);
      if Silent(events[0]) {
        assert Apply(v, events[0]) == v;
        assert [] + Audible(events[1..]) == Audible(events[1..]);
      } else {
        assert ([events[0]] + Audible(events[1..]))[1..] == Audible(events[1..]);
      }
    }
  }

  lemma {:induction false} ApplyConcat(v: View, a: seq<Event>, b: seq<Event>)
    ensures ApplyAll(v, a + b) == ApplyAll(ApplyAll(v, a), b)
    decreases |a|
  {
    if a == [] {
      assert a + b == b;
    } else {
      assert (a + b)[0] == a[0] && (a + b)[1..] == a[1..] + b;
      ApplyConcat(Apply(v, a[0]), a[1..], b);
    }
  }

  predicate Quiet(v: View) { v.streaming.None? && v.active == map[] }

  lemma PromptExtends(v: View, b: Block)
    requires Inv(v) && Quiet(v) && b.Prompt? && WellFormed(b)
    ensures Extended(v, ApplyAll(v, b.events), Conversation(b))
  {
    var (e0, e1) := (b.events[0], b.events[1]);
    assert b.events[1..] == [e1] && b.events[1..][1..] == [];
    var v1 := Apply(v, e0);
    assert Apply(v1, e1) == v1;
    assert ApplyAll(v1, [e1]) == v1;
    assert ApplyAll(v, b.events) == v1;
  }

  /** While a reply streams, at most one row has been added. */
  predicate Growing(v: View, w: View) {
    && w.active == map[] && |w.sequences| == |w.entries|
    && if w.streaming.None? then w.entries == v.entries
       else
         && w.streaming.value == |v.entries| && |w.entries| == |v.entries| + 1
         && w.entries[..|v.entries|] == v.entries && w.entries[|v.entries|].AssistantRow?
  }

  lemma {:induction false} UpdatesGrow(v: View, w: View, events: seq<Event>)
    requires Growing(v, w) && forall i :: 0 <= i < |events| ==> events[i].kind.MessageUpdate?
    ensures Growing(v, ApplyAll(w, events))
    decreases |events|
  {
    if events != [] {
      UpdatesGrow(v, Apply(w, events[0]), events[1..]);
    }
  }

  lemma ReplyExtends(v: View, b: Block)
    requires Inv(v) && Quiet(v) && b.Reply? && WellFormed(b)
    ensures Extended(v, ApplyAll(v, b.events), Conversation(b))
  {
    var n := |b.events|;
    var (first, updates, last) := (b.events[0], b.events[1..n - 1], b.events[n - 1]);
    assert b.events[1..] == updates + [last];
    assert Apply(v, first) == v;
    ApplyConcat(v, updates, [last]);
    UpdatesGrow(v, v, updates);
    var w := ApplyAll(v, updates);
    assert ApplyAll(w, [last]) == Apply(w, last);
  }

  predicate ResultsOnly(results: seq<Message>) {
    && (forall r :: r in results ==> r.ToolResult?)
    && (forall i, j :: 0 <= i < j < |results| ==> results[i].callId != results[j].callId)
  }

  /** The row of a started call; a final row once the call is no longer open. */
  predicate BatchRow(w: View, at: nat, result: Message, open: set<string>)
    requires at < |w.entries| && result.ToolResult?
  {
    && RowOf(w.entries[at], result.callId) && w.entries[at].tool.index == at
    && (result.callId !in open ==> Shape(w.entries[at]) == Shape(RestoredRow(result, at)))
  }

  /** While a batch runs: one row per started call, in order; the open ones are active, the others final. */
  ghost predicate Running(v: View, w: View, results: seq<Message>, next: nat, open: set<string>)
    requires next <= |results| && ResultsOnly(results)
  {
    && |w.entries| == |w.sequences| == |v.entries| + next
    && w.entries[..|v.entries|] == v.entries && w.streaming.None?
    && (forall i :: 0 <= i < next ==> BatchRow(w, |v.entries| + i, results[i], open))
    && w.active.Keys == open
    && (forall id :: id in open ==> StartedAt(v, w, results, next, id))
  }

  predicate StartedAt(v: View, w: View, results: seq<Message>, next: nat, id: string)
    requires next <= |results| && ResultsOnly(results) && id in w.active
  {
    && |v.entries| <= w.active[id] < |v.entries| + next
    && results[w.active[id] - |v.entries|].callId == id
  }

  lemma StartRuns(v: View, w: View, results: seq<Message>, next: nat, open: set<string>, e: Event)
    requires ResultsOnly(results) && next < |results| && Running(v, w, results, next, open)
    requires e.kind.ToolStart? && e.kind.callId == results[next].callId
    ensures Running(v, Apply(w, e), results, next + 1, open + {e.kind.callId})
  {
    var (t, id) := (Apply(w, e), e.kind.callId);
    assert t.entries == w.entries + [t.entries[|w.entries|]];
    assert results[next] in results;
    forall i | 0 <= i < next + 1 ensures BatchRow(t, |v.entries| + i, results[i], open + {id}) {
      assert i < next ==> BatchRow(w, |v.entries| + i, results[i], open);
    }
    forall o | o in open + {id} ensures StartedAt(v, t, results, next + 1, o) {
      assert o != id ==> StartedAt(v, w, results, next, o);
    }
  }

  /** An open call's row is the one that is updated. */
  lemma UpdateHits(v: View, w: View, results: seq<Message>, next: nat, open: set<string>, id: string,
      sequence: Option<nat>, name: string, state: ToolState, progress: Option<string>, result: Option<string>)
    requires ResultsOnly(results) && next <= |results| && Running(v, w, results, next, open) && id in open
    ensures
      var i := w.active[id];
      && i < |w.entries| && w.entries[i].ToolRow? && i < |w.sequences|
      && UpdateTool(w, id, sequence, name, state, progress, result) ==
           Replace(w, i, sequence, ToolRow(UpdatedTool(w.entries[i].tool, sequence, name, state, progress, result)))
  {
    assert StartedAt(v, w, results, next, id);
    var i := w.active[id] - |v.entries|;
    assert BatchRow(w, |v.entries| + i, results[i], open);
  }

  lemma UpdateRuns(v: View, w: View, results: seq<Message>, next: nat, open: set<string>, e: Event)
    requires ResultsOnly(results) && next <= |results| && Running(v, w, results, next, open)
    requires e.kind.ToolUpdate? && e.kind.callId in open
    ensures Running(v, Apply(w, e), results, next, open)
  {
    var (t, id) := (Apply(w, e), e.kind.callId);
    UpdateHits(v, w, results, next, open, id, Some(e.sequence), e.kind.name, Progress, Some(e.kind.content), None);
    assert StartedAt(v, w, results, next, id);
    forall i | 0 <= i < next ensures BatchRow(t, |v.entries| + i, results[i], open) {
      assert BatchRow(w, |v.entries| + i, results[i], open);
    }
    forall o | o in open ensures StartedAt(v, t, results, next, o) {
      assert StartedAt(v, w, results, next, o);
    }
  }

  lemma EndedRow(tool: Tool, sequence: Option<nat>, result: Message, at: nat)
    requires result.ToolResult? && tool.callId == result.callId && tool.index == at
    ensures
      var state := if result.isError then Failed else Completed;
      var row := ToolRow(UpdatedTool(tool, sequence, result.toolName, state, None, Some(result.content)));
      RowOf(row, result.callId) && row.tool.index == at && Shape(row) == Shape(RestoredRow(result, at))
  {
  }

  /** What the end of an open call changes: its row and its entry among the active ones. */
  lemma EndHits(v: View, w: View, results: seq<Message>, next: nat, open: set<string>, e: Event) returns (at: nat)
    requires ResultsOnly(results) && next <= |results| && Running(v, w, results, next, open)
    requires e.kind.ToolEnd? && e.kind.callId in open
    requires forall r :: r in results && r.callId == e.kind.callId ==>
      r.toolName == e.kind.name && r.content == e.kind.content && r.isError == e.kind.isError
    ensures at < next && results[at].callId == e.kind.callId
    ensures var t := Apply(w, e); var j := |v.entries| + at;
      && |t.entries| == |w.entries| == |t.sequences| && t.entries == w.entries[j := t.entries[j]]
      && t.streaming == w.streaming && t.active == w.active - {e.kind.callId}
      && BatchRow(t, j, results[at], {})
  {
    var id := e.kind.callId;
    var state := if e.kind.isError then Failed else Completed;
    UpdateHits(v, w, results, next, open, id, Some(e.sequence), e.kind.name, state, None, Some(e.kind.content));
    assert StartedAt(v, w, results, next, id);
    at := w.active[id] - |v.entries|;
    assert results[at] in results;
    assert BatchRow(w, |v.entries| + at, results[at], open);
    EndedRow(w.entries[|v.entries| + at].tool, Some(e.sequence), results[at], |v.entries| + at);
  }

  lemma EndRuns(v: View, w: View, results: seq<Message>, next: nat, open: set<string>, e: Event)
    requires ResultsOnly(results) && next <= |results| && Running(v, w, results, next, open)
    requires e.kind.ToolEnd? && e.kind.callId in open
    requires forall r :: r in results && r.callId == e.kind.callId ==>
      r.toolName == e.kind.name && r.content == e.kind.content && r.isError == e.kind.isError
    ensures Running(v, Apply(w, e), results, next, open - {e.kind.callId})
  {
    var at := EndHits(v, w, results, next, open, e);
    EndKeepsRunning(v, w, Apply(w, e), results, next, open, e.kind.callId, at);
  }

  lemma EndKeepsRunning(v: View, w: View, t: View, results: seq<Message>, next: nat, open: set<string>, id: string,
      at: nat)
    requires ResultsOnly(results) && next <= |results| && Running(v, w, results, next, open)
    requires at < next && results[at].callId == id && id in open
    requires |t.entries| == |w.entries| == |t.sequences|
      && t.entries == w.entries[|v.entries| + at := t.entries[|v.entries| + at]]
    requires t.streaming == w.streaming && t.active == w.active - {id}
    requires BatchRow(t, |v.entries| + at, results[at], {})
    ensures Running(v, t, results, next, open - {id})
  {
    forall i | 0 <= i < next ensures BatchRow(t, |v.entries| + i, results[i], open - {id}) {
      assert BatchRow(w, |v.entries| + i, results[i], open);
      assert i != at ==> results[i].callId != id;
    }
    forall o | o in open - {id} ensures StartedAt(v, t, results, next, o) {
      assert StartedAt(v, w, results, next, o);
    }
  }

  lemma {:induction false} SectionRuns(v: View, w: View, results: seq<Message>, next: nat, open: set<string>,
      events: seq<Event>)
    requires ResultsOnly(results) && next <= |results| && Running(v, w, results, next, open)
    requires Section(events, results, next, open)
    ensures Running(v, ApplyAll(w, events), results, |results|, {})
    decreases |events|
  {
    if events != [] {
      var e := events[0];
      match e.kind
      case ToolStart(id, _, _) =>
        StartRuns(v, w, results, next, open, e);
        SectionRuns(v, Apply(w, e), results, next + 1, open + {id}, events[1..]);
      case ToolUpdate(_, _, _) =>
        UpdateRuns(v, w, results, next, open, e);
        SectionRuns(v, Apply(w, e), results, next, open, events[1..]);
      case ToolEnd(id, _, _, _) =>
        EndRuns(v, w, results, next, open, e);
        SectionRuns(v, Apply(w, e), results, next, open - {id}, events[1..]);
    }
  }

  lemma BatchExtends(v: View, b: Block)
    requires Inv(v) && Quiet(v) && b.Batch? && WellFormed(b)
    ensures Extended(v, ApplyAll(v, b.events), Conversation(b))
  {
    assert Running(v, v, b.results, 0, {});
    SectionRuns(v, v, b.results, 0, {}, b.events);
    var w := ApplyAll(v, b.events);
    assert w.active.Keys == {};
    forall i | 0 <= i < |b.results|
      ensures Shape(w.entries[|v.entries| + i]) == Shape(RestoredRow(b.results[i], |v.entries| + i))
    {
      assert BatchRow(w, |v.entries| + i, b.results[i], {});
    }
  }

  lemma BlockExtends(v: View, b: Block)
    requires Inv(v) && Quiet(v) && WellFormed(b)
    ensures Extended(v, ApplyAll(v, b.events), Conversation(b)) && Inv(ApplyAll(v, b.events))
  {
    AnyStreamKeepsInv(v, b.events);
    match b
    case Prompt(_, _) => PromptExtends(v, b);
    case Reply(_, _) => ReplyExtends(v, b);
    case Batch(_, _) => BatchExtends(v, b);
  }

  lemma {:induction false} BlocksExtend(v: View, blocks: seq<Block>)
    requires Inv(v) && Quiet(v) && AllWellFormed(blocks)
    ensures Extended(v, ApplyAll(v, EventsOf(blocks)), ConversationOf(blocks))
    decreases |blocks|
  {
    if blocks != [] {
      var w := ApplyAll(v, blocks[0].events);
      BlockExtends(v, blocks[0]);
      ApplyConcat(v, blocks[0].events, EventsOf(blocks[1..]));
      BlocksExtend(w, blocks[1..]);
      ExtendedConcat(v, w, ApplyAll(w, EventsOf(blocks[1..])), Conversation(blocks[0]), ConversationOf(blocks[1..]));
    }
  }

  lemma ExtendedConcat(u: View, v: View, w: View, a: seq<Message>, b: seq<Message>)
    requires Extended(u, v, a) && Extended(v, w, b)
    ensures Extended(u, w, a + b)
  {
    forall i | 0 <= i < |a + b|
      ensures Shape(w.entries[|u.entries| + i]) == Shape(RestoredRow((a + b)[i], |u.entries| + i))
    {
      if i < |a| {
        assert w.entries[..|v.entries|][|u.entries| + i] == v.entries[|u.entries| + i];
      } else {
        assert |u.entries| + i == |v.entries| + (i - |a|);
      }
    }
    assert w.entries[..|u.entries|] == w.entries[..|v.entries|][..|u.entries|];
  }

  /**
   The transcript of a well-formed stream is, row by row, the one rebuilt from the conversation it produced,
   up to event sequences, arguments and progress; and nothing is left streaming or active.
   */
  lemma LiveEqualsRestored(blocks: seq<Block>, events: seq<Event>, restored: View)
    requires AllWellFormed(blocks) && Audible(events) == EventsOf(blocks)
    requires Restored(restored, ConversationOf(blocks))
    ensures
      var live := ApplyAll(EMPTY, events);
      && |live.entries| == |restored.entries| == |live.sequences|
      && (forall i :: 0 <= i < |live.entries| ==> Shape(live.entries[i]) == Shape(restored.entries[i]))
      && live.streaming == restored.streaming && live.active == restored.active
  {
    AudibleSuffices(EMPTY, events);
    AnyStreamKeepsInv(EMPTY, events);
    BlocksExtend(EMPTY, blocks);
  }

  // ----- The application state in place

  class AppState {
    var transcript: seq<Entry>
    var transcriptSequences: seq<Option<nat>>
    var streamingLine: Option<nat>
    var activeToolLines: map<string, nat>

    function Value(): View
      reads this
    {
      View(transcript, transcriptSequences, streamingLine, activeToolLines)
    }

    constructor ()
      ensures Value() == EMPTY
    {
      transcript, transcriptSequences, streamingLine, activeToolLines := [], [], None, map[];
    }

    method ClearTranscript()
      modifies this
      ensures Value() == EMPTY
    {
      transcript, transcriptSequences, streamingLine, activeToolLines := [], [], None, map[];
    }

    method PushEntry(sequence: Option<nat>, entry: Entry)
      modifies this
      ensures Value() == Push(old(Value()), sequence, entry)
    {
      transcript := transcript + [entry];
      transcriptSequences := transcriptSequences + [sequence];
    }

    method ApplyEvent(e: Event)
      requires Inv(Value())
      modifies this
      ensures Value() == Apply(old(Value()), e) && Inv(Value())
    {
      ApplyKeepsInv(Value(), e);
      var sequence := Some(e.sequence);
      match e.kind
      case MessageStart(m) =>
        if m.User? {
          PushEntry(sequence, UserRow(m.content));
        }
      case MessageUpdate(m, delta) => ApplyUpdate(sequence, m, delta);
      case MessageEnd(m) => ApplyEnd(sequence, m);
      case ToolStart(id, name, arguments) =>
        var index := |transcript|;
        PushEntry(sequence, ToolRow(Tool(id, sequence, index, name, arguments, None, None, Begun)));
        activeToolLines := activeToolLines[id := index];
      case ToolUpdate(id, name, content) => UpdateToolLine(id, sequence, name, Progress, Some(content), None);
      case ToolEnd(id, name, content, isError) =>
        UpdateToolLine(id, sequence, name, if isError then Failed else Completed, None, Some(content));
        activeToolLines := activeToolLines - {id};
      case Other =>
    }

    method ApplyUpdate(sequence: Option<nat>, message: Message, delta: Option<string>)
      requires Inv(Value())
      modifies this
      ensures Value() == Update(old(Value()), sequence, message, delta)
    {
      if message.Assistant? && delta.Some? {
        if streamingLine.Some? {
          var i := streamingLine.value;
          transcript := transcript[i := transcript[i].(text := transcript[i].text + delta.value)];
        } else {
          PushEntry(sequence, AssistantRow(delta.value, true));
          streamingLine := Some(|transcript| - 1);
        }
      }
    }

    method ApplyEnd(sequence: Option<nat>, message: Message)
      requires Inv(Value())
      modifies this
      ensures Value() == End(old(Value()), sequence, message)
    {
      if message.Assistant? {
        if streamingLine.Some? {
          var i := streamingLine.value;
          if message.errorMessage.Some? {
            transcript := transcript[i := ErrorRow(message.errorMessage.value)];
          } else {
            transcript := transcript[i := AssistantRow(message.content, false)];
          }
          transcriptSequences := transcriptSequences[i := sequence];
        } else if message.errorMessage.Some? {
          PushEntry(sequence, ErrorRow(message.errorMessage.value));
        } else {
          PushEntry(sequence, AssistantRow(message.content, false));
        }
        streamingLine := None;
      }
    }

    method UpdateToolLine(callId: string, sequence: Option<nat>, name: string, state: ToolState,
        progress: Option<string>, result: Option<string>)
      requires Inv(Value())
      modifies this
      ensures Value() == UpdateTool(old(Value()), callId, sequence, name, state, progress, result)
    {
      if callId in activeToolLines {
        var i := activeToolLines[callId];
        var tool := transcript[i].tool;
        tool := tool.(sequence := sequence, name := name, state := state);
        if progress.Some? {
          tool := tool.(progress := progress);
        }
        if result.Some? {
          tool := tool.(settled := result);
        }
        transcript := transcript[i := ToolRow(tool)];
        transcriptSequences := transcriptSequences[i := sequence];
        return;
      }
      var index := |transcript|;
      PushEntry(sequence, ToolRow(Tool(callId, sequence, index, name, "", progress, result, state)));
      activeToolLines := activeToolLines[callId := index];
    }

    method RestoreMessages(messages: seq<Message>)
      modifies this
      ensures Restored(Value(), messages) && Inv(Value())
    {
      ClearTranscript();
      for n := 0 to |messages|
        invariant Restored(Value(), messages[..n])
      {
        match messages[n]
        case User(_, content) => PushEntry(None, UserRow(content));
        case Assistant(_, content, _, _, error) =>
          PushEntry(None, if error.Some? then ErrorRow(error.value) else AssistantRow(content, false));
        case ToolResult(_, callId, name, content, _, _, _, _, isError, _) =>
          var index := |transcript|;
          var state := if isError then Failed else Completed;
          PushEntry(None, ToolRow(Tool(callId, None, index, name, "", None, Some(content), state)));
      }
      assert messages[..|messages|] == messages;
    }
  }
}
