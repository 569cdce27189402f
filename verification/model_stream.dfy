/**
 The validator of normalized model streams, and the language it accepts.

 The source documents that a call identifier may start only once; the code only forbids starting a call
 that is still open, and the language below follows the code.
 */
module ModelStreams {
  import opened Wrappers

  datatype Item =
    | Started(responseId: string, model: string)
    | TextDelta(text: string)
    | ReasoningDelta(text: string)
    | CallStarted(callId: string, name: string)
    | ArgumentsDelta(callId: string, delta: string)
    | CallFinished(callId: string)
    | Finished(reason: string)
    | Failed(message: string)

  datatype Phase = Idle | Active | Done | Broken

  datatype Violation =
    | ExpectedStart
    | DuplicateStart
    | AfterTerminal
    | EmptyToolName
    | DuplicateToolCall(callId: string)
    | UnknownToolCall(callId: string)
    | OpenToolCallsAtFinish(count: nat)

  // ----- The grammar

  /** One call's own items: started, argument deltas, finished, any number of times. `open` tells whether it is open. */
  predicate CallLanguage(items: seq<Item>, open: bool, callId: string)
    decreases |items|
  {
    if items == [] then !open
    else
      match items[0]
      case CallStarted(id, name) => id == callId && !open && name != "" && CallLanguage(items[1..], true, callId)
      case ArgumentsDelta(id, _) => id == callId && open && CallLanguage(items[1..], true, callId)
      case CallFinished(id) => id == callId && open && CallLanguage(items[1..], false, callId)
      case _ => false
  }

  predicate IsCallItem(item: Item) { item.CallStarted? || item.ArgumentsDelta? || item.CallFinished? }

  predicate IsBodyItem(item: Item) { IsCallItem(item) || item.TextDelta? || item.ReasoningDelta? }

  /** The items of one call, in order. */
  function Projection(items: seq<Item>, callId: string): seq<Item> {
    if items == [] then []
    else (if IsCallItem(items[0]) && items[0].callId == callId then [items[0]] else []) + Projection(items[1..], callId)
  }

  /** Text, reasoning and interleaved calls, each call well formed by itself, given the calls already open. */
  ghost predicate BodyFrom(items: seq<Item>, open: set<string>) {
    && (forall i :: i in items ==> IsBodyItem(i))
    && forall id :: CallLanguage(Projection(items, id), id in open, id)
  }

  /** A complete response: started, a body, finished. */
  ghost predicate Response(items: seq<Item>) {
    && |items| >= 2
    && items[0].Started? && items[|items| - 1].Finished?
    && BodyFrom(items[1..|items| - 1], {})
  }

  // ----- The validator as a function of its state

  datatype State = State(phase: Phase, responseId: Option<string>, model: Option<string>, open: set<string>)

  const START: State := State(Idle, None, None, {})

  function Accept(s: State, item: Item): (r: Result<State, Violation>)
  {
    match s.phase
    case Idle =>
      (match item
       case Started(id, model) => Ok(State(Active, Some(id), Some(model), s.open))
       case Failed(_) => Ok(s.(phase := Broken))
       case _ => Err(ExpectedStart))
    case Active =>
      (match item
       case Started(_, _) => Err(DuplicateStart)
       case TextDelta(_) => Ok(s)
       case ReasoningDelta(_) => Ok(s)
       case CallStarted(id, name) =>
         if name == "" then Err(EmptyToolName)
         else if id in s.open then Err(DuplicateToolCall(id))
         else Ok(s.(open := s.open + {id}))
       case ArgumentsDelta(id, _) => if id in s.open then Ok(s) else Err(UnknownToolCall(id))
       case CallFinished(id) => if id in s.open then Ok(s.(open := s.open - {id})) else Err(UnknownToolCall(id))
       case Finished(_) => if s.open != {} then Err(OpenToolCallsAtFinish(|s.open|)) else Ok(s.(phase := Done))
       case Failed(_) => Ok(s.(phase := Broken, open := {})))
    case _ => Err(AfterTerminal)
  }

  /** Accepts every item, or fails at the first rejected one. */
  function Run(s: State, items: seq<Item>): Result<State, Violation>
    decreases |items|
  {
    if items == [] then Ok(s)
    else
      var next := Accept(s, items[0]);
      if next.Err? then next else Run(next.value, items[1..])
  }

  /** Keeps going after a rejection, from the unchanged state. */
  function RunThrough(s: State, items: seq<Item>): State
    decreases |items|
  {
    if items == [] then s
    else
      var next := Accept(s, items[0]);
      RunThrough(if next.Ok? then next.value else s, items[1..])
  }

  function Accepted(s: State, items: seq<Item>): seq<Item>
    decreases |items|
  {
    if items == [] then []
    else
      var next := Accept(s, items[0]);
      if next.Ok? then [items[0]] + Accepted(next.value, items[1..]) else Accepted(s, items[1..])
  }

  // ----- The accepted language

  /** In the active phase, a body followed by a finish is accepted exactly if every call is well formed. */
  lemma {:induction false} ActiveLanguage(s: State, items: seq<Item>)
    requires s.phase.Active?
    ensures
      var r := Run(s, items);
      r.Ok? && r.value.phase.Done? <==>
        items != [] && items[|items| - 1].Finished? && BodyFrom(items[..|items| - 1], s.open)
    decreases |items|
  {
    if items == [] {
    } else if |items| == 1 && items[0].Finished? {
      AloneFinished(s, items);
    } else {
      var next := Accept(s, items[0]);
      if next.Ok? && next.value.phase.Active? {
        ActiveLanguage(next.value, items[1..]);
        if |items| > 1 {
          assert items[1..][..|items| - 2] == items[..|items| - 1][1..];
          BodyStep(s, items[..|items| - 1]);
        }
      } else {
        NotBody(s, items);
      }
    }
  }

  lemma AloneFinished(s: State, items: seq<Item>)
    requires s.phase.Active? && |items| == 1 && items[0].Finished?
    ensures Run(s, items).Ok? <==> BodyFrom(items[..0], s.open)
    ensures Run(s, items).Ok? ==> Run(s, items).value.phase.Done?
  {
    assert items[1..] == [];
    if s.open != {} {
      var id :| id in s.open;
      assert !CallLanguage(Projection(items[..0], id), true, id);
    }
  }

  /** One accepted body item, seen from one call. */
  lemma CallStep(s: State, body: seq<Item>, id: string)
    requires s.phase.Active? && body != []
    requires Accept(s, body[0]).Ok? && Accept(s, body[0]).value.phase.Active?
    ensures CallLanguage(Projection(body, id), id in s.open, id) <==>
      CallLanguage(Projection(body[1..], id), id in Accept(s, body[0]).value.open, id)
  {
    var rest := Projection(body[1..], id);
    if IsCallItem(body[0]) && body[0].callId == id {
      assert Projection(body, id) == [body[0]] + rest;
      OwnItem(body[0], rest, id in s.open, id);
    } else {
      assert Projection(body, id) == [] + rest == rest;
    }
  }

  lemma OwnItem(item: Item, rest: seq<Item>, open: bool, id: string)
    requires IsCallItem(item) && item.callId == id
    ensures CallLanguage([item] + rest, open, id) <==>
      (if item.CallStarted? then !open && item.name != "" else open) && CallLanguage(rest, !item.CallFinished?, id)
  {
    assert ([item] + rest)[0] == item && ([item] + rest)[1..] == rest;
  }

  lemma BodyStep(s: State, body: seq<Item>)
    requires s.phase.Active? && body != []
    requires Accept(s, body[0]).Ok? && Accept(s, body[0]).value.phase.Active?
    ensures BodyFrom(body, s.open) <==> BodyFrom(body[1..], Accept(s, body[0]).value.open)
  {
    forall id ensures CallLanguage(Projection(body, id), id in s.open, id) <==>
        CallLanguage(Projection(body[1..], id), id in Accept(s, body[0]).value.open, id)
    {
      CallStep(s, body, id);
    }
    assert body == [body[0]] + body[1..];
  }

  /** A rejected or terminal first item leaves no complete response, unless it is the only one. */
  lemma NotBody(s: State, items: seq<Item>)
    requires s.phase.Active? && items != [] && !(|items| == 1 && items[0].Finished?)
    requires Accept(s, items[0]).Err? || !Accept(s, items[0]).value.phase.Active?
    ensures !(Run(s, items).Ok? && Run(s, items).value.phase.Done?)
    ensures !(items[|items| - 1].Finished? && BodyFrom(items[..|items| - 1], s.open))
  {
    var (item, body) := (items[0], items[..|items| - 1]);
    if |items| > 1 {
      assert body[0] == item && item in body;
      if IsCallItem(item) {
        var id := item.callId;
        assert Projection(body, id) == [item] + Projection(body[1..], id);
        assert !CallLanguage(Projection(body, id), id in s.open, id);
      }
    }
  }

  /** Streams accepted from the start to a normal finish are exactly the complete responses. */
  lemma AcceptedExactly(items: seq<Item>)
    ensures Run(START, items).Ok? && Run(START, items).value.phase.Done? <==> Response(items)
  {
    if items != [] && items[0].Started? {
      var s := Accept(START, items[0]).value;
      ActiveLanguage(s, items[1..]);
      if |items| > 1 {
        assert items[1..][..|items| - 2] == items[1..|items| - 1];
      }
    } else if items != [] && items[0].Failed? && |items| > 1 {
      assert Run(START, items) == Run(START.(phase := Broken), items[1..]);
    }
  }

  function Restarting(callId: string, first: string, second: string): seq<Item> {
    [CallStarted(callId, first), CallFinished(callId), CallStarted(callId, second), CallFinished(callId)]
  }

  /** A call that has finished may be started again, under any name: the stream is a complete response. */
  lemma RestartedCallAccepted(callId: string, first: string, second: string, start: Item, finish: Item)
    requires first != "" && second != "" && start.Started? && finish.Finished?
    ensures Response([start] + Restarting(callId, first, second) + [finish])
  {
    var s := Accept(START, start).value;
    var calling := s.(open := {callId});
    assert s.open + {callId} == {callId} && {callId} - {callId} == s.open;
    var items := [start] + Restarting(callId, first, second) + [finish];
    assert items[5..] == [finish] && items[5..][1..] == [];
    assert Run(s, items[5..]) == Ok(s.(phase := Done));
    assert items[4..][1..] == items[5..] && Run(calling, items[4..]) == Run(s, items[5..]);
    assert items[3..][1..] == items[4..] && Run(s, items[3..]) == Run(calling, items[4..]);
    assert items[2..][1..] == items[3..] && Run(calling, items[2..]) == Run(s, items[3..]);
    assert items[1..][1..] == items[2..] && Run(s, items[1..]) == Run(calling, items[2..]);
    AcceptedExactly(items);
  }

  /** Deleting the rejected items gives an accepted stream with the same final state. */
  lemma {:induction false} RejectedItemsDeletable(s: State, items: seq<Item>)
    ensures Run(s, Accepted(s, items)) == Ok(RunThrough(s, items))
    ensures |Accepted(s, items)| == |items| <==> Run(s, items).Ok?
    ensures |Accepted(s, items)| <= |items|
    decreases |items|
  {
    if items != [] {
      var next := Accept(s, items[0]);
      if next.Ok? {
        RejectedItemsDeletable(next.value, items[1..]);
        var rest := Accepted(next.value, items[1..]);
        assert ([items[0]] + rest)[1..] == rest;
      } else {
        RejectedItemsDeletable(s, items[1..]);
      }
    }
  }

  // ----- The validator in place

  class ModelStream {
    var phase: Phase
    var responseId: Option<string>
    var model: Option<string>
    var openToolCalls: set<string>

    function Value(): State
      reads this
    {
      State(phase, responseId, model, openToolCalls)
    }

    constructor ()
      ensures Value() == START
    {
      phase, responseId, model, openToolCalls := Idle, None, None, {};
    }

    /** A rejected item leaves the validator unchanged. */
    method AcceptItem(item: Item) returns (r: Result<(), Violation>)
      modifies this
      ensures r.Ok? ==> Accept(old(Value()), item) == Ok(Value())
      ensures r.Err? ==> Accept(old(Value()), item) == Err(r.error) && Value() == old(Value())
    {
      match phase
      case Idle => r := AcceptIdle(item);
      case Active => r := AcceptActive(item);
      case _ => r := Err(AfterTerminal);
    }

    method AcceptIdle(item: Item) returns (r: Result<(), Violation>)
      requires phase.Idle?
      modifies this
      ensures r.Ok? ==> Accept(old(Value()), item) == Ok(Value())
      ensures r.Err? ==> Accept(old(Value()), item) == Err(r.error) && Value() == old(Value())
    {
      match item
      case Started(id, name) =>
        responseId, model, phase := Some(id), Some(name), Active;
        return Ok(());
      case Failed(_) =>
        phase := Broken;
        return Ok(());
      case _ =>
        return Err(ExpectedStart);
    }

    method AcceptActive(item: Item) returns (r: Result<(), Violation>)
      requires phase.Active?
      modifies this
      ensures r.Ok? ==> Accept(old(Value()), item) == Ok(Value())
      ensures r.Err? ==> Accept(old(Value()), item) == Err(r.error) && Value() == old(Value())
    {
      match item {
        case Started(_, _) =>
          return Err(DuplicateStart);
        case TextDelta(_) =>
        case ReasoningDelta(_) =>
        case CallStarted(id, name) =>
          if name == "" {
            return Err(EmptyToolName);
          }
          if id in openToolCalls {
            return Err(DuplicateToolCall(id));
          }
          openToolCalls := openToolCalls + {id};
        case ArgumentsDelta(id, _) =>
          if id !in openToolCalls {
            return Err(UnknownToolCall(id));
          }
        case CallFinished(id) =>
          if id !in openToolCalls {
            return Err(UnknownToolCall(id));
          }
          openToolCalls := openToolCalls - {id};
        case Finished(_) =>
          if openToolCalls != {} {
            return Err(OpenToolCallsAtFinish(|openToolCalls|));
          }
          phase := Done;
        case Failed(_) =>
          openToolCalls, phase := {}, Broken;
      }
      return Ok(());
    }

    /** Feeds a whole stream, skipping what is rejected. */
    method AcceptAll(items: seq<Item>) returns (rejected: nat)
      requires Value() == START
      modifies this
      ensures Value() == RunThrough(START, items)
      ensures rejected == 0 && phase.Done? <==> Response(items)
    {
      rejected := 0;
      for i := 0 to |items|
        invariant RunThrough(START, items) == RunThrough(Value(), items[i..])
        invariant rejected == 0 ==> Run(START, items) == Run(Value(), items[i..])
        invariant rejected > 0 ==> Run(START, items).Err?
      {
        assert items[i..][1..] == items[i + 1..];
        var r := AcceptItem(items[i]);
        if r.Err? {
          rejected := rejected + 1;
        }
      }
      AcceptedExactly(items);
    }
  }
}
