/**
 Which conversations the kernel retains, and why every replacement the terminal host's compactor
 builds from a valid conversation is again one.
 */
module Conversation {
  import opened Messages
  import opened Utf8
  import opened Wrappers

  // ----- Valid conversations

  predicate CallAt(messages: seq<Message>, i: int, k: int) {
    0 <= i < |messages| && messages[i].Assistant? && 0 <= k < |messages[i].calls|
  }

  predicate ResultAt(messages: seq<Message>, j: int) {
    0 <= j < |messages| && messages[j].ToolResult?
  }

  /** The result at `j` comes after the call at `i`, `k` and names the same tool. */
  predicate Answers(messages: seq<Message>, i: int, k: int, j: int) {
    && CallAt(messages, i, k) && ResultAt(messages, j) && i < j
    && messages[i].calls[k].id == messages[j].callId
    && messages[i].calls[k].name == messages[j].toolName
  }

  predicate Reserved(id: nat) { id == 0 || id == U64_MAX }

  ghost predicate DistinctIds(messages: seq<Message>) {
    && (forall i :: 0 <= i < |messages| ==> !Reserved(messages[i].id))
    && (forall i, j :: 0 <= i < j < |messages| ==> messages[i].id != messages[j].id)
  }

  ghost predicate DistinctCalls(messages: seq<Message>) {
    forall i, k, j, l :: CallAt(messages, i, k) && CallAt(messages, j, l) && (i != j || k != l) ==>
      messages[i].calls[k].id != messages[j].calls[l].id
  }

  ghost predicate DistinctResults(messages: seq<Message>) {
    forall i, j :: ResultAt(messages, i) && ResultAt(messages, j) && i != j ==> messages[i].callId != messages[j].callId
  }

  ghost predicate ResultsAnswer(messages: seq<Message>) {
    forall j :: ResultAt(messages, j) ==> exists i, k :: Answers(messages, i, k, j)
  }

  ghost predicate CallsAnswered(messages: seq<Message>) {
    forall i, k :: CallAt(messages, i, k) ==> exists j :: Answers(messages, i, k, j)
  }

  /** Identifiers are unique and unreserved, and results are in bijection with earlier calls of the same name. */
  ghost predicate Valid(messages: seq<Message>) {
    && DistinctIds(messages)
    && DistinctCalls(messages)
    && DistinctResults(messages)
    && ResultsAnswer(messages)
    && CallsAnswered(messages)
  }

  // ----- The one-pass validator

  datatype Rejection =
    | ReservedId
    | DuplicateId(id: nat)
    | ReusedCall(callId: string)
    | DuplicateResult(callId: string)
    | WrongName(callId: string)
    | NoCall(callId: string)
    | MissingResults(callIds: set<string>)

  /** Call `i`, `k` comes before call `m` of message `n`. */
  predicate Before(i: int, k: int, n: int, m: int) { i < n || (i == n && k < m) }

  /** The map holds the calls before position `n`, `m`, and nothing else. */
  ghost predicate KnownCalls(messages: seq<Message>, n: int, m: int, calls: map<string, string>) {
    && (forall i, k :: CallAt(messages, i, k) && Before(i, k, n, m) ==>
          messages[i].calls[k].id in calls && calls[messages[i].calls[k].id] == messages[i].calls[k].name)
    && (forall id :: id in calls ==> HasCall(messages, n, m, id))
  }

  predicate IsCall(messages: seq<Message>, i: int, k: int, n: int, m: int, id: string) {
    CallAt(messages, i, k) && Before(i, k, n, m) && messages[i].calls[k].id == id
  }

  ghost predicate HasCall(messages: seq<Message>, n: int, m: int, id: string) {
    exists i, k :: IsCall(messages, i, k, n, m, id)
  }

  predicate IsResult(messages: seq<Message>, j: int, n: int, id: string) {
    ResultAt(messages, j) && j < n && messages[j].callId == id
  }

  ghost predicate HasResult(messages: seq<Message>, n: int, id: string) {
    exists j :: IsResult(messages, j, n, id)
  }

  ghost predicate KnownResults(messages: seq<Message>, n: int, results: set<string>) {
    && (forall j :: ResultAt(messages, j) && j < n ==> messages[j].callId in results)
    && (forall id :: id in results ==> HasResult(messages, n, id))
  }

  ghost predicate KnownIds(messages: seq<Message>, n: int, ids: set<nat>)
    requires 0 <= n <= |messages|
  {
    && (forall i :: 0 <= i < n ==> messages[i].id in ids)
    && (forall id :: id in ids ==> exists i :: 0 <= i < n && messages[i].id == id)
  }

  ghost predicate IdsPass(messages: seq<Message>, n: int)
    requires 0 <= n <= |messages|
  {
    && (forall i :: 0 <= i < n ==> !Reserved(messages[i].id))
    && (forall i, j :: 0 <= i < j < n ==> messages[i].id != messages[j].id)
  }

  ghost predicate CallsPass(messages: seq<Message>, n: int, m: int) {
    forall i, k, j, l ::
      (CallAt(messages, i, k) && Before(i, k, n, m) && CallAt(messages, j, l) && Before(j, l, n, m)
        && (i != j || k != l)) ==>
      messages[i].calls[k].id != messages[j].calls[l].id
  }

  ghost predicate ResultsPass(messages: seq<Message>, n: int) {
    && (forall i, j :: ResultAt(messages, i) && ResultAt(messages, j) && i < n && j < n && i != j ==>
          messages[i].callId != messages[j].callId)
    && (forall j :: ResultAt(messages, j) && j < n ==> exists i, k :: Answers(messages, i, k, j))
  }

  /** The first `n` messages are collected and pass. */
  ghost predicate Collected(messages: seq<Message>, n: int, ids: set<nat>, calls: map<string, string>,
      results: set<string>)
    requires 0 <= n <= |messages|
  {
    && KnownIds(messages, n, ids) && IdsPass(messages, n)
    && KnownCalls(messages, n, 0, calls) && CallsPass(messages, n, 0)
    && KnownResults(messages, n, results) && ResultsPass(messages, n)
  }

  ghost predicate Passes(messages: seq<Message>, n: int) {
    0 <= n <= |messages| && IdsPass(messages, n) && CallsPass(messages, n, 0) && ResultsPass(messages, n)
  }

  /** Message `n` has the defect; missing results are reported after the last message. */
  ghost predicate Defect(messages: seq<Message>, n: int, e: Rejection) {
    match e
    case ReservedId => 0 <= n < |messages| && Reserved(messages[n].id)
    case DuplicateId(id) =>
      0 <= n < |messages| && messages[n].id == id && exists i :: 0 <= i < n && messages[i].id == id
    case ReusedCall(callId) =>
      exists m, i, k :: CallAt(messages, n, m) && messages[n].calls[m].id == callId
        && IsCall(messages, i, k, n, m, callId)
    case DuplicateResult(callId) =>
      ResultAt(messages, n) && messages[n].callId == callId && HasResult(messages, n, callId)
    case WrongName(callId) =>
      ResultAt(messages, n) && messages[n].callId == callId
      && exists i, k :: IsCall(messages, i, k, n, 0, callId) && messages[i].calls[k].name != messages[n].toolName
    case NoCall(callId) => ResultAt(messages, n) && messages[n].callId == callId && !HasCall(messages, n, 0, callId)
    case MissingResults(callIds) =>
      n == |messages| && callIds != {}
      && forall id :: id in callIds <==> HasCall(messages, n, 0, id) && !HasResult(messages, n, id)
  }

  /** Accepts exactly the valid conversations, and blames the first defect of the others. */
  method ValidateMessages(messages: seq<Message>) returns (r: Result<(), Rejection>)
    ensures r.Ok? <==> Valid(messages)
    ensures r.Err? ==> exists n :: Passes(messages, n) && Defect(messages, n, r.error)
  {
    var ids: set<nat> := {};
    var calls: map<string, string> := map[];
    var results: set<string> := {};
    for n := 0 to |messages|
      invariant Collected(messages, n, ids, calls, results)
    {
      r, ids, calls, results := CollectMessage(messages, n, ids, calls, results);
      if r.Err? {
        assert Passes(messages, n) && Defect(messages, n, r.error);
        return;
      }
    }
    r := CheckAnswered(messages, calls, results);
    assert Passes(messages, |messages|);
  }

  method CollectMessage(messages: seq<Message>, n: nat, ids: set<nat>, calls: map<string, string>, results: set<string>)
    returns (r: Result<(), Rejection>, ids': set<nat>, calls': map<string, string>, results': set<string>)
    requires n < |messages| && Collected(messages, n, ids, calls, results)
    ensures r.Ok? ==> Collected(messages, n + 1, ids', calls', results')
    ensures r.Err? ==> !Valid(messages) && Defect(messages, n, r.error)
  {
    calls', results' := calls, results;
    r, ids' := CollectId(messages, n, ids);
    if r.Err? { return; }
    match messages[n]
    case User(_, _) =>
      NoCalls(messages, n, calls);
      NoResult(messages, n, results);
    case Assistant(_, _, _, _, _) =>
      r, calls' := CollectCalls(messages, n, calls);
      NoResult(messages, n, results);
    case ToolResult(_, _, _, _, _, _, _, _, _, _) =>
      r, results' := CollectResult(messages, n, calls, results);
      NoCalls(messages, n, calls);
  }

  method CollectId(messages: seq<Message>, n: nat, ids: set<nat>) returns (r: Result<(), Rejection>, now: set<nat>)
    requires n < |messages| && KnownIds(messages, n, ids) && IdsPass(messages, n)
    ensures r.Ok? ==> KnownIds(messages, n + 1, now) && IdsPass(messages, n + 1)
    ensures r.Err? ==> !DistinctIds(messages) && Defect(messages, n, r.error)
  {
    var id := messages[n].id;
    if Reserved(id) {
      return Err(ReservedId), ids;
    }
    if id in ids {
      return Err(DuplicateId(id)), ids;
    }
    return Ok(()), ids + {id};
  }

  method CollectCalls(messages: seq<Message>, n: nat, calls: map<string, string>)
    returns (r: Result<(), Rejection>, now: map<string, string>)
    requires n < |messages| && messages[n].Assistant?
    requires KnownCalls(messages, n, 0, calls) && CallsPass(messages, n, 0)
    ensures r.Ok? ==> KnownCalls(messages, n + 1, 0, now) && CallsPass(messages, n + 1, 0)
    ensures r.Err? ==> !DistinctCalls(messages) && Defect(messages, n, r.error)
  {
    now := calls;
    var m := 0;
    while m < |messages[n].calls|
      invariant 0 <= m <= |messages[n].calls|
      invariant KnownCalls(messages, n, m, now) && CallsPass(messages, n, m)
    {
      var call := messages[n].calls[m];
      if call.id in now {
        var i, k :| IsCall(messages, i, k, n, m, call.id);
        assert CallAt(messages, n, m);
        return Err(ReusedCall(call.id)), now;
      }
      OneMoreCall(messages, n, m, now);
      now := now[call.id := call.name];
      m := m + 1;
    }
    EndOfCalls(messages, n, m, now);
    return Ok(()), now;
  }

  lemma OneMoreCall(messages: seq<Message>, n: nat, m: nat, calls: map<string, string>)
    requires CallAt(messages, n, m)
    requires KnownCalls(messages, n, m, calls) && CallsPass(messages, n, m)
    requires messages[n].calls[m].id !in calls
    ensures KnownCalls(messages, n, m + 1, calls[messages[n].calls[m].id := messages[n].calls[m].name])
    ensures CallsPass(messages, n, m + 1)
  {
    var call := messages[n].calls[m];
    var now := calls[call.id := call.name];
    assert forall i, k :: CallAt(messages, i, k) && Before(i, k, n, m + 1) ==> Before(i, k, n, m) || (i == n && k == m);
    forall id | id in now ensures HasCall(messages, n, m + 1, id) {
      if id == call.id {
        assert IsCall(messages, n, m, n, m + 1, id);
      } else {
        var i, k :| IsCall(messages, i, k, n, m, id);
        assert IsCall(messages, i, k, n, m + 1, id);
      }
    }
  }

  lemma EndOfCalls(messages: seq<Message>, n: nat, m: nat, calls: map<string, string>)
    requires n < |messages| && (messages[n].Assistant? ==> m == |messages[n].calls|)
    requires KnownCalls(messages, n, m, calls) && CallsPass(messages, n, m)
    ensures KnownCalls(messages, n + 1, 0, calls) && CallsPass(messages, n + 1, 0)
  {
    assert forall i, k :: CallAt(messages, i, k) && Before(i, k, n + 1, 0) ==> Before(i, k, n, m);
    forall id | id in calls ensures HasCall(messages, n + 1, 0, id) {
      var i, k :| IsCall(messages, i, k, n, m, id);
      assert IsCall(messages, i, k, n + 1, 0, id);
    }
  }

  lemma NoCalls(messages: seq<Message>, n: nat, calls: map<string, string>)
    requires n < |messages| && !messages[n].Assistant?
    requires KnownCalls(messages, n, 0, calls) && CallsPass(messages, n, 0)
    ensures KnownCalls(messages, n + 1, 0, calls) && CallsPass(messages, n + 1, 0)
  {
    EndOfCalls(messages, n, 0, calls);
  }

  lemma NoResult(messages: seq<Message>, n: nat, results: set<string>)
    requires n < |messages| && !messages[n].ToolResult?
    requires KnownResults(messages, n, results) && ResultsPass(messages, n)
    ensures KnownResults(messages, n + 1, results) && ResultsPass(messages, n + 1)
  {
    NoMoreResults(messages, n);
    forall id | id in results ensures HasResult(messages, n + 1, id) {
      var j :| IsResult(messages, j, n, id);
      assert IsResult(messages, j, n + 1, id);
    }
  }

  lemma NoMoreResults(messages: seq<Message>, n: nat)
    requires n < |messages| && !messages[n].ToolResult? && ResultsPass(messages, n)
    ensures ResultsPass(messages, n + 1)
  {
    assert forall j :: ResultAt(messages, j) && j < n + 1 ==> j < n;
  }

  method CollectResult(messages: seq<Message>, n: nat, calls: map<string, string>, results: set<string>)
    returns (r: Result<(), Rejection>, now: set<string>)
    requires ResultAt(messages, n)
    requires KnownCalls(messages, n, 0, calls)
    requires KnownResults(messages, n, results) && ResultsPass(messages, n)
    ensures r.Ok? ==> KnownResults(messages, n + 1, now) && ResultsPass(messages, n + 1)
    ensures r.Err? ==> !(ResultsAnswer(messages) && DistinctResults(messages)) && Defect(messages, n, r.error)
  {
    var callId := messages[n].callId;
    if callId !in calls || calls[callId] != messages[n].toolName {
      Unanswerable(messages, n, calls);
      if callId in calls {
        var i, k :| IsCall(messages, i, k, n, 0, callId);
        return Err(WrongName(callId)), results;
      }
      return Err(NoCall(callId)), results;
    }
    if callId in results {
      var j :| IsResult(messages, j, n, callId);
      return Err(DuplicateResult(callId)), results;
    }
    now := results + {callId};
    var i, k :| IsCall(messages, i, k, n, 0, callId);
    assert Answers(messages, i, k, n);
    OneMoreResult(messages, n, results);
    return Ok(()), now;
  }

  lemma Unanswerable(messages: seq<Message>, n: nat, calls: map<string, string>)
    requires ResultAt(messages, n) && KnownCalls(messages, n, 0, calls)
    requires messages[n].callId !in calls || calls[messages[n].callId] != messages[n].toolName
    ensures !ResultsAnswer(messages)
  {
    forall i, k ensures !Answers(messages, i, k, n) {
      assert CallAt(messages, i, k) ==> Before(i, k, n, 0) || i >= n;
    }
  }

  lemma OneMoreResult(messages: seq<Message>, n: nat, results: set<string>)
    requires ResultAt(messages, n) && KnownResults(messages, n, results)
    ensures KnownResults(messages, n + 1, results + {messages[n].callId})
  {
    forall id | id in results + {messages[n].callId} ensures HasResult(messages, n + 1, id) {
      if id == messages[n].callId {
        assert IsResult(messages, n, n + 1, id);
      } else {
        var j :| IsResult(messages, j, n, id);
        assert IsResult(messages, j, n + 1, id);
      }
    }
  }

  method CheckAnswered(messages: seq<Message>, calls: map<string, string>, results: set<string>)
    returns (r: Result<(), Rejection>)
    requires IdsPass(messages, |messages|)
    requires KnownCalls(messages, |messages|, 0, calls) && CallsPass(messages, |messages|, 0)
    requires KnownResults(messages, |messages|, results) && ResultsPass(messages, |messages|)
    ensures r.Ok? <==> Valid(messages)
    ensures r.Err? ==> Defect(messages, |messages|, r.error)
  {
    AllPass(messages);
    var missing := calls.Keys - results;
    if missing != {} {
      ghost var id :| id in missing;
      Unanswered(messages, calls, results, id);
      MissingExactly(messages, calls, results);
      return Err(MissingResults(missing));
    }
    forall id | id in calls.Keys ensures id in results {
      assert id !in missing;
    }
    AllAnswered(messages, calls, results);
    return Ok(());
  }

  lemma MissingExactly(messages: seq<Message>, calls: map<string, string>, results: set<string>)
    requires KnownCalls(messages, |messages|, 0, calls) && KnownResults(messages, |messages|, results)
    ensures forall id :: id in calls.Keys - results <==>
      HasCall(messages, |messages|, 0, id) && !HasResult(messages, |messages|, id)
  {
  }

  lemma Unanswered(messages: seq<Message>, calls: map<string, string>, results: set<string>, id: string)
    requires KnownCalls(messages, |messages|, 0, calls) && KnownResults(messages, |messages|, results)
    requires id in calls && id !in results
    ensures !CallsAnswered(messages)
  {
    var i, k :| IsCall(messages, i, k, |messages|, 0, id);
    assert CallAt(messages, i, k);
    forall j ensures !Answers(messages, i, k, j) {
      assert ResultAt(messages, j) ==> messages[j].callId in results;
    }
  }

  lemma AllAnswered(messages: seq<Message>, calls: map<string, string>, results: set<string>)
    requires KnownCalls(messages, |messages|, 0, calls) && CallsPass(messages, |messages|, 0)
    requires KnownResults(messages, |messages|, results) && ResultsPass(messages, |messages|)
    requires calls.Keys <= results
    ensures CallsAnswered(messages)
  {
    forall i, k | CallAt(messages, i, k) ensures exists j :: Answers(messages, i, k, j) {
      assert Before(i, k, |messages|, 0);
      var id := messages[i].calls[k].id;
      assert id in calls.Keys;
      var j :| IsResult(messages, j, |messages|, id);
      var a, b :| Answers(messages, a, b, j);
      assert CallAt(messages, a, b) && Before(a, b, |messages|, 0);
      assert a == i && b == k;
    }
  }

  lemma AllPass(messages: seq<Message>)
    requires IdsPass(messages, |messages|) && CallsPass(messages, |messages|, 0) && ResultsPass(messages, |messages|)
    ensures DistinctIds(messages) && DistinctCalls(messages) && DistinctResults(messages) && ResultsAnswer(messages)
  {
    assert forall i, k :: CallAt(messages, i, k) ==> Before(i, k, |messages|, 0);
  }

  // ----- The automatic split

  function Bytes(text: string): nat { |Encode(text)| }

  function CallBytes(calls: seq<ToolCall>): nat {
    if calls == [] then 0
    else Bytes(calls[0].id) + Bytes(calls[0].name) + Bytes(calls[0].arguments) + CallBytes(calls[1..])
  }

  function OptionalBytes(text: Option<string>): nat {
    if text.Some? then Bytes(text.value) else 0
  }

  function MessageBytes(message: Message): nat {
    match message
    case User(_, content) => Bytes(content) + 16
    case Assistant(_, content, calls, _, error) => Bytes(content) + OptionalBytes(error) + CallBytes(calls) + 32
    case ToolResult(_, callId, toolName, content, details, _, _, _, _, failure) =>
      Bytes(callId) + Bytes(toolName) + Bytes(content) + OptionalBytes(details)
      + (if failure.Some? then OptionalBytes(failure.value.guidance) else 0) + 32
  }

  function MessageTokens(message: Message): nat { (MessageBytes(message) + 3) / 4 }

  function Tokens(messages: seq<Message>): nat {
    if messages == [] then 0 else MessageTokens(messages[0]) + Tokens(messages[1..])
  }

  function Saturated(n: nat): nat { if n > U64_MAX then U64_MAX else n }

  /** The suffix from `cut` counts enough tokens, the one after it does not, and results move the start back. */
  predicate CutAt(messages: seq<Message>, recentTokens: nat, start: nat, cut: nat) {
    && start <= cut < |messages|
    && (Tokens(messages[cut..]) >= recentTokens || cut == 0)
    && Tokens(messages[cut + 1..]) < recentTokens
    && (forall j :: start < j <= cut ==> messages[j].ToolResult?)
    && (start == 0 || !messages[start].ToolResult?)
  }

  ghost predicate SuffixStart(messages: seq<Message>, recentTokens: nat, start: nat) {
    exists cut: nat :: CutAt(messages, recentTokens, start, cut)
  }

  /**
   The prefix to summarise, the retained suffix, and the part of a turn between them.
   Nothing is lost or reordered, and a turn is cut only between its user message and an assistant message.
   */
  method AutomaticSplit(messages: seq<Message>, recentTokens: nat)
    returns (prefix: seq<Message>, retained: seq<Message>, turn: seq<Message>)
    requires recentTokens <= U64_MAX
    ensures prefix + turn + retained == messages
    ensures messages == [] || recentTokens == 0 ==> retained == []
    ensures messages != [] && recentTokens > 0 ==> SuffixStart(messages, recentTokens, |prefix| + |turn|)
    ensures turn != [] ==> turn[0].User? && retained != [] && retained[0].Assistant?
    ensures forall j :: 0 < j < |turn| ==> !turn[j].User?
    ensures retained != [] && retained[0].Assistant? && turn == [] ==> NoUser(prefix)
  {
    if messages == [] || recentTokens == 0 {
      return messages, [], [];
    }
    var turnStart, start := SplitPoints(messages, recentTokens);
    CutInThree(messages, turnStart, start);
    assert messages[start..] != [] && messages[start..][0] == messages[start];
    return messages[..turnStart], messages[start..], messages[turnStart..start];
  }

  lemma CutInThree(messages: seq<Message>, i: nat, j: nat)
    requires i <= j <= |messages|
    ensures messages[..i] + messages[i..j] + messages[j..] == messages
    ensures i == j ==> messages[..i] == messages[..j]
  {
    assert messages[..i] + messages[i..j] == messages[..j];
  }

  predicate NoUser(messages: seq<Message>) { forall i :: 0 <= i < |messages| ==> !messages[i].User? }

  method SplitPoints(messages: seq<Message>, recentTokens: nat) returns (turnStart: nat, start: nat)
    requires messages != [] && 0 < recentTokens <= U64_MAX
    ensures turnStart <= start < |messages| && SuffixStart(messages, recentTokens, start)
    ensures turnStart < start ==> messages[turnStart].User? && messages[start].Assistant?
    ensures forall j :: turnStart < j < start ==> !messages[j].User?
    ensures messages[start].Assistant? && turnStart == start ==> NoUser(messages[..start])
  {
    var cut := CountBack(messages, recentTokens);
    start := LeaveResults(messages, cut);
    assert CutAt(messages, recentTokens, start, cut);
    if messages[start].Assistant? {
      var user := FindUser(messages, start);
      if user.Some? {
        return user.value, start;
      }
    }
    return start, start;
  }

  method CountBack(messages: seq<Message>, recentTokens: nat) returns (start: nat)
    requires messages != [] && 0 < recentTokens <= U64_MAX
    ensures start < |messages|
    ensures Tokens(messages[start..]) >= recentTokens || start == 0
    ensures Tokens(messages[start + 1..]) < recentTokens
  {
    start := |messages|;
    var counted := 0;
    while start > 0 && counted < recentTokens
      invariant 0 <= start <= |messages|
      invariant counted == Saturated(Tokens(messages[start..]))
      invariant start < |messages| ==> Tokens(messages[start + 1..]) < recentTokens
      decreases start
    {
      assert messages[start - 1..] == [messages[start - 1]] + messages[start..];
      start := start - 1;
      counted := Saturated(counted + MessageTokens(messages[start]));
    }
  }

  method LeaveResults(messages: seq<Message>, cut: nat) returns (start: nat)
    requires cut < |messages|
    ensures start <= cut && (start == 0 || !messages[start].ToolResult?)
    ensures forall j :: start < j <= cut ==> messages[j].ToolResult?
  {
    start := cut;
    while start > 0 && messages[start].ToolResult?
      invariant 0 <= start <= cut
      invariant forall j :: start < j <= cut ==> messages[j].ToolResult?
    {
      start := start - 1;
    }
  }

  /** The last user message before `start`. */
  method FindUser(messages: seq<Message>, start: nat) returns (r: Option<nat>)
    requires start <= |messages|
    ensures r.None? ==> forall j :: 0 <= j < start ==> !messages[j].User?
    ensures r.Some? ==> r.value < start && messages[r.value].User?
    ensures r.Some? ==> forall j :: r.value < j < start ==> !messages[j].User?
  {
    var i := start;
    while i > 0
      invariant 0 <= i <= start
      invariant forall j :: i <= j < start ==> !messages[j].User?
    {
      i := i - 1;
      if messages[i].User? {
        return Some(i);
      }
    }
    return None;
  }

  // ----- Suffixes of a valid conversation

  /** A result from `start` on answers a call before it. */
  ghost predicate Severed(messages: seq<Message>, start: nat) {
    exists i, k, j :: i < start <= j && Answers(messages, i, k, j)
  }

  lemma SuffixAnswers(messages: seq<Message>, start: nat, i: int, k: int, j: int)
    requires start <= |messages|
    ensures Answers(messages[start..], i, k, j) <==> i >= 0 && Answers(messages, i + start, k, j + start)
  {
  }

  /** A suffix of a valid conversation is valid exactly if it severs no result from its call. */
  lemma SuffixValidExactly(messages: seq<Message>, start: nat)
    requires Valid(messages) && start <= |messages|
    ensures Valid(messages[start..]) <==> !Severed(messages, start)
  {
    if Severed(messages, start) {
      var i, k, j :| i < start <= j && Answers(messages, i, k, j);
      SeveredResult(messages, start, i, k, j);
    } else {
      SuffixResults(messages, start);
      SuffixCalls(messages, start);
      SuffixDistinct(messages, start);
    }
  }

  lemma SuffixDistinct(messages: seq<Message>, start: nat)
    requires start <= |messages|
    requires DistinctIds(messages) && DistinctCalls(messages) && DistinctResults(messages)
    ensures DistinctIds(messages[start..]) && DistinctCalls(messages[start..]) && DistinctResults(messages[start..])
  {
    var rest := messages[start..];
    forall i, k, j, l | CallAt(rest, i, k) && CallAt(rest, j, l) && (i != j || k != l)
      ensures rest[i].calls[k].id != rest[j].calls[l].id
    {
      assert CallAt(messages, i + start, k) && CallAt(messages, j + start, l);
    }
    forall i, j | ResultAt(rest, i) && ResultAt(rest, j) && i != j
      ensures rest[i].callId != rest[j].callId
    {
      assert ResultAt(messages, i + start) && ResultAt(messages, j + start);
    }
  }

  lemma SeveredResult(messages: seq<Message>, start: nat, i: int, k: int, j: int)
    requires DistinctCalls(messages) && start <= |messages|
    requires i < start <= j && Answers(messages, i, k, j)
    ensures !ResultsAnswer(messages[start..])
  {
    var rest := messages[start..];
    assert ResultAt(rest, j - start) && rest[j - start] == messages[j];
    var at := j - start;
    forall a, b ensures !Answers(rest, a, b, at) {
      SuffixAnswers(messages, start, a, b, at);
      assert CallAt(messages, i, k);
      assert CallAt(rest, a, b) ==> CallAt(messages, a + start, b);
    }
  }

  lemma SuffixResults(messages: seq<Message>, start: nat)
    requires ResultsAnswer(messages) && start <= |messages| && !Severed(messages, start)
    ensures ResultsAnswer(messages[start..])
  {
    var rest := messages[start..];
    forall j | ResultAt(rest, j) ensures exists i, k :: Answers(rest, i, k, j) {
      assert ResultAt(messages, j + start);
      var i, k :| Answers(messages, i, k, j + start);
      SuffixAnswers(messages, start, i - start, k, j);
      assert Answers(rest, i - start, k, j);
    }
  }

  lemma SuffixCalls(messages: seq<Message>, start: nat)
    requires CallsAnswered(messages) && start <= |messages|
    ensures CallsAnswered(messages[start..])
  {
    var rest := messages[start..];
    forall i, k | CallAt(rest, i, k) ensures exists j :: Answers(rest, i, k, j) {
      assert CallAt(messages, i + start, k);
      var j :| Answers(messages, i + start, k, j);
      SuffixAnswers(messages, start, i, k, j - start);
      assert Answers(rest, i, k, j - start);
    }
  }

  /** Only results stand between a call and its result, as the run loop appends them. */
  ghost predicate Contiguous(messages: seq<Message>) {
    forall i, k, j, m :: Answers(messages, i, k, j) && i < m < j ==> messages[m].ToolResult?
  }

  /** With contiguous results, a suffix that does not start at a result is valid. */
  lemma ContiguousSuffixValid(messages: seq<Message>, start: nat)
    requires Valid(messages) && Contiguous(messages)
    requires start < |messages| && !messages[start].ToolResult?
    ensures Valid(messages[start..])
  {
    SuffixValidExactly(messages, start);
  }

  const SEVERED: seq<Message> := [
    Assistant(1, "", [ToolCall("a", "r", "")], None, None),
    User(2, ""),
    ToolResult(3, "a", "r", "", None, None, [], false, false, None)
  ]

  /** Without contiguity the split can retain a result whose call it summarises. */
  lemma SplitCanSever()
    ensures Valid(SEVERED) && SuffixStart(SEVERED, 10, 1) && !Valid(SEVERED[1..])
  {
    var messages := SEVERED;
    assert Answers(messages, 0, 0, 2);
    assert forall i, k :: CallAt(messages, i, k) ==> i == 0 && k == 0;
    assert forall j :: ResultAt(messages, j) ==> j == 2;
    assert Valid(messages);
    SuffixValidExactly(messages, 1);
    assert Severed(messages, 1);
    assert messages[1..] == [messages[1], messages[2]] && messages[2..] == [messages[2]];
    assert MessageTokens(messages[1]) == 4;
    assert Encode("a") == [97] && Encode("r") == [114];
    assert MessageTokens(messages[2]) == 9;
    assert CutAt(messages, 10, 1, 1);
  }

  /** Whatever number of recent tokens is asked for, the split retains a valid suffix. */
  ghost predicate SplitsValidly(messages: seq<Message>) {
    forall n: nat, start: nat :: n > 0 && start < |messages| && SuffixStart(messages, n, start) ==>
      Valid(messages[start..])
  }

  /** The split of a valid conversation is safe for every number of tokens exactly if results are contiguous. */
  lemma SplitsValidlyExactly(messages: seq<Message>)
    requires Valid(messages)
    ensures SplitsValidly(messages) <==> Contiguous(messages)
  {
    if Contiguous(messages) {
      forall n: nat, start: nat | n > 0 && start < |messages| && SuffixStart(messages, n, start)
        ensures Valid(messages[start..]) {
        if start == 0 {
          assert messages[0..] == messages;
        } else {
          ContiguousSuffixValid(messages, start);
        }
      }
    }
    if SplitsValidly(messages) {
      forall i, k, j, m | Answers(messages, i, k, j) && i < m < j ensures messages[m].ToolResult? {
        SplitBetween(messages, i, k, j, m);
      }
    }
  }

  /** Asking for exactly the tokens from a message on cuts there, unless it is a result. */
  lemma SplitBetween(messages: seq<Message>, i: int, k: int, j: int, m: int)
    requires Valid(messages) && SplitsValidly(messages) && Answers(messages, i, k, j) && i < m < j
    ensures messages[m].ToolResult?
  {
    SuffixValidExactly(messages, m);
    assert Severed(messages, m);
    if !messages[m].ToolResult? {
      CutsHere(messages, m);
    }
  }

  lemma CutsHere(messages: seq<Message>, m: nat)
    requires m < |messages| && !messages[m].ToolResult?
    ensures Tokens(messages[m..]) > 0 && SuffixStart(messages, Tokens(messages[m..]), m)
  {
    assert messages[m..][1..] == messages[m + 1..];
    MessagesCount(messages[m]);
    assert CutAt(messages, Tokens(messages[m..]), m, m);
  }

  lemma MessagesCount(message: Message)
    ensures MessageTokens(message) > 0
  {
  }

  // ----- Replacements

  /** Prepending a user message keeps validity exactly if its identifier is unreserved and new. */
  lemma PrependValidExactly(user: Message, rest: seq<Message>)
    requires user.User?
    ensures Valid([user] + rest) <==> Valid(rest) && !Reserved(user.id) && forall m :: m in rest ==> m.id != user.id
  {
    var messages := [user] + rest;
    assert messages[1..] == rest;
    if Valid(messages) {
      SuffixValidExactly(messages, 1);
      assert messages[0].id == user.id;
      forall m | m in rest ensures m.id != user.id {
        var i :| 0 <= i < |rest| && m == rest[i];
        assert messages[i + 1] == m;
      }
    } else if Valid(rest) && !Reserved(user.id) && forall m :: m in rest ==> m.id != user.id {
      PrependDistinct(user, rest);
      PrependResults(user, rest);
      PrependCalls(user, rest);
    }
  }

  lemma PrependDistinct(user: Message, rest: seq<Message>)
    requires user.User? && DistinctIds(rest) && DistinctCalls(rest) && DistinctResults(rest)
    requires !Reserved(user.id) && forall m :: m in rest ==> m.id != user.id
    ensures DistinctIds([user] + rest) && DistinctCalls([user] + rest) && DistinctResults([user] + rest)
  {
    var messages := [user] + rest;
    forall i, k, j, l | CallAt(messages, i, k) && CallAt(messages, j, l) && (i != j || k != l)
      ensures messages[i].calls[k].id != messages[j].calls[l].id
    {
      assert CallAt(rest, i - 1, k) && CallAt(rest, j - 1, l);
    }
    forall i, j | ResultAt(messages, i) && ResultAt(messages, j) && i != j
      ensures messages[i].callId != messages[j].callId
    {
      assert ResultAt(rest, i - 1) && ResultAt(rest, j - 1);
    }
  }

  lemma PrependResults(user: Message, rest: seq<Message>)
    requires user.User? && ResultsAnswer(rest)
    ensures ResultsAnswer([user] + rest)
  {
    var messages := [user] + rest;
    assert messages[1..] == rest;
    forall j | ResultAt(messages, j) ensures exists i, k :: Answers(messages, i, k, j) {
      assert ResultAt(rest, j - 1);
      var i, k :| Answers(rest, i, k, j - 1);
      SuffixAnswers(messages, 1, i, k, j - 1);
      assert Answers(messages, i + 1, k, j);
    }
  }

  lemma PrependCalls(user: Message, rest: seq<Message>)
    requires user.User? && CallsAnswered(rest)
    ensures CallsAnswered([user] + rest)
  {
    var messages := [user] + rest;
    assert messages[1..] == rest;
    forall i, k | CallAt(messages, i, k) ensures exists j :: Answers(messages, i, k, j) {
      assert CallAt(rest, i - 1, k);
      var j :| Answers(rest, i - 1, k, j);
      SuffixAnswers(messages, 1, i - 1, k, j);
      assert Answers(messages, i, k, j + 1);
    }
  }

  // ----- The host compactor

  function Ids(messages: seq<Message>): (ids: set<nat>)
    ensures |ids| <= |messages|
    ensures forall m :: m in messages ==> m.id in ids
    ensures forall id :: id in ids ==> exists m :: m in messages && m.id == id
  {
    if messages == [] then {} else {messages[0].id} + Ids(messages[1..])
  }

  ghost predicate HasId(messages: seq<Message>, id: nat) {
    exists m :: m in messages && m.id == id
  }

  /** The least positive identifier that no message has. */
  ghost predicate IsNextId(messages: seq<Message>, id: nat) {
    id >= 1 && !HasId(messages, id) && forall i :: 1 <= i < id ==> HasId(messages, i)
  }

  function UpTo(n: nat): (s: set<nat>)
    ensures |s| == n && forall i :: i in s <==> 1 <= i <= n
  {
    if n == 0 then {} else UpTo(n - 1) + {n}
  }

  lemma SubsetSize(a: set<nat>, b: set<nat>)
    requires a <= b
    ensures |a| <= |b|
  {
    if a != {} {
      var x :| x in a;
      SubsetSize(a - {x}, b - {x});
    }
  }

  /**
   The least positive identifier in no message; a list of n messages leaves one free up to n + 1.
   A list in memory is far shorter than the number of identifiers.
   */
  method NextMessageId(messages: seq<Message>) returns (id: nat)
    requires |messages| < U64_MAX - 1
    ensures IsNextId(messages, id) && id <= |messages| + 1
  {
    var used := Ids(messages);
    id := 1;
    while id in used
      invariant 1 <= id <= |messages| + 1
      invariant forall i :: 1 <= i < id ==> i in used
      decreases |messages| + 1 - id
    {
      SubsetSize(UpTo(id), used);
      id := Saturated(id + 1);
    }
    forall i | 1 <= i < id ensures HasId(messages, i) {
      assert i in used;
    }
  }

  const SUMMARY_PREFIX: string :=
    "The conversation history before this point was compacted into the following summary:\n\n<summary>\n"
  const SUMMARY_SUFFIX: string := "\n</summary>"

  /** A user message around the summary, with the least unused identifier. */
  ghost predicate IsSummary(messages: seq<Message>, summary: string, message: Message) {
    message.User? && message.content == SUMMARY_PREFIX + summary + SUMMARY_SUFFIX && IsNextId(messages, message.id)
  }

  method SummaryMessage(messages: seq<Message>, summary: string) returns (message: Message)
    requires |messages| < U64_MAX - 1
    ensures IsSummary(messages, summary, message)
    ensures message.id <= |messages| + 1
  {
    var id := NextMessageId(messages);
    return User(id, SUMMARY_PREFIX + summary + SUMMARY_SUFFIX);
  }

  /** Manual compaction: one summary of everything, or nothing for an empty conversation. Always valid. */
  method Compact(messages: seq<Message>, summary: Option<string>) returns (r: Option<seq<Message>>)
    requires |messages| < U64_MAX - 1
    ensures r.Some? <==> messages == [] || summary.Some?
    ensures r.Some? ==> Valid(r.value) && |r.value| == if messages == [] then 0 else 1
    ensures r.Some? && messages != [] ==> IsSummary(messages, summary.value, r.value[0])
  {
    if messages == [] {
      return Some([]);
    }
    if summary.None? {
      return None;
    }
    var message := SummaryMessage(messages, summary.value);
    assert Valid([]);
    PrependValidExactly(message, []);
    assert [message] + [] == [message];
    return Some([message]);
  }

  /** Automatic compaction keeps the retained suffix exactly, and is accepted exactly if that suffix is valid. */
  method CompactAutomatic(prefix: seq<Message>, turn: seq<Message>, retained: seq<Message>, summary: Option<string>)
    returns (r: Option<seq<Message>>)
    requires |prefix| + |turn| + |retained| < U64_MAX - 1
    ensures r.Some? <==> prefix + turn == [] || summary.Some?
    ensures r.Some? && prefix + turn == [] ==> r.value == retained
    ensures r.Some? && prefix + turn != [] ==>
      r.value != [] && IsSummary(prefix + turn + retained, summary.value, r.value[0]) && r.value[1..] == retained
    ensures r.Some? ==> (Valid(r.value) <==> Valid(retained))
  {
    var summarised := prefix + turn;
    if summarised == [] {
      return Some(retained);
    }
    if summary.None? {
      return None;
    }
    var message := SummaryMessage(summarised + retained, summary.value);
    PrependValidExactly(message, retained);
    return Some([message] + retained);
  }

  /** The replacement is a possibly empty beginning followed by the retained suffix, unchanged. */
  ghost predicate KeepsSuffix(messages: seq<Message>, recentTokens: nat, replacement: seq<Message>, start: nat) {
    && start <= |messages|
    && SuffixStart(messages, recentTokens, start)
    && (if start == 0 then replacement == messages else replacement != [] && replacement[1..] == messages[start..])
  }

  /** Splitting, summarising and checking a valid conversation with contiguous results never fails. */
  method SplitAndCompact(messages: seq<Message>, recentTokens: nat, summary: string) returns (r: seq<Message>)
    requires Valid(messages) && Contiguous(messages)
    requires recentTokens <= U64_MAX && |messages| < U64_MAX - 1
    ensures Valid(r)
    ensures recentTokens > 0 && messages != [] ==> exists start: nat :: KeepsSuffix(messages, recentTokens, r, start)
  {
    var prefix, retained, turn := AutomaticSplit(messages, recentTokens);
    var compacted := CompactAutomatic(prefix, turn, retained, Some(summary));
    r := compacted.value;
    if retained == [] {
      assert Valid([]);
    } else {
      var start := |prefix| + |turn|;
      assert messages[start..] == retained;
      assert messages[start].ToolResult? ==> start == 0;
      SuffixValidExactly(messages, start);
      assert KeepsSuffix(messages, recentTokens, r, start);
    }
  }

  // ----- Identifiers of new messages

  /** The retained messages and the identifier the next one receives. */
  class Retained {
    var messages: seq<Message>
    var nextId: nat

    /** No retained message has the next identifier or a later one. */
    predicate Fresh()
      reads this
    {
      nextId <= U64_MAX && forall m :: m in messages ==> m.id < nextId
    }

    constructor ()
      ensures Fresh() && messages == [] && nextId == 1
    {
      messages, nextId := [], 1;
    }

    /** A new identifier differs from every retained one; only the last one of all can be handed out twice. */
    method AllocateId() returns (id: nat)
      requires Fresh()
      modifies this`nextId
      ensures id == old(nextId) && forall m :: m in messages ==> m.id != id
      ensures nextId > id || id == U64_MAX
      ensures Fresh()
    {
      id := nextId;
      nextId := Saturated(nextId + 1);
    }

    /** A validated replacement never makes the next identifier collide, and never moves it back. */
    method ReplaceMessages(replacement: seq<Message>)
      requires Fresh() && DistinctIds(replacement) && forall m :: m in replacement ==> m.id <= U64_MAX
      modifies this
      ensures messages == replacement && Fresh() && nextId >= old(nextId)
      ensures nextId == old(nextId) || exists m :: m in replacement && nextId == m.id + 1
    {
      var highest := nextId;
      for i := 0 to |replacement|
        invariant old(nextId) <= highest <= U64_MAX
        invariant forall j :: 0 <= j < i ==> replacement[j].id < highest
        invariant highest == old(nextId) || exists j :: 0 <= j < i && highest == replacement[j].id + 1
        invariant messages == old(messages) && nextId == old(nextId)
      {
        var next := Saturated(replacement[i].id + 1);
        if next > highest {
          highest := next;
        }
      }
      messages, nextId := replacement, highest;
    }
  }
}
