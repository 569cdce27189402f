/**
 The compaction transaction: reserving an agent, driving a compactor, committing its replacement,
 aborting, and settling, as a state machine over any number of concurrent calls.

 One step is one critical section, atomic access, event emission or compactor answer. The commit
 takes two steps while it holds the agent lock, so that a cancellation can fall between its token
 load and its write. A call that has been started keeps its place in the list of calls.
 */
module CompactionProtocol {
  import opened Conversation
  import opened Messages
  import opened Wrappers

  datatype Phase = Idle | Running(run: nat) | Cancelling(run: nat)

  datatype Outcome = Succeeded | Failed | Interrupted

  datatype Run = Run(ended: Option<Outcome>, cancelled: bool, dropped: bool)

  datatype Event = Started | Replaced(count: nat) | Ended(outcome: Outcome, count: nat)

  /** `start_compaction`: two looks at the phase around the compactor read, then publication. */
  datatype ReserveStage = Looking | ReadingCompactor | LookingAgain | Publishing | Granted | Refused

  datatype DriveStage =
    | EmitStart
    | FirstCheck
    | Snapshot
    | Compacting
    | SecondCheck(proposal: seq<Message>)
    | Validating(proposal: seq<Message>)
    | CommitLock(proposal: seq<Message>)
    | CommitToken(proposal: seq<Message>)
    | CommitWrite(proposal: seq<Message>)
    | EmitResult
    | EmitEnd(outcome: Outcome)
    | Finishing(outcome: Outcome)
    | Releasing
    | Driven
    | Abandoned

  datatype AbortStage = CheckLive | CancelToken | ReadRun | MarkAgent | AbortDone

  datatype Call =
    | Reserve(run: nat, reserve: ReserveStage)
    | Drive(run: nat, drive: DriveStage, source: seq<Message>, wrote: Option<nat>)
    | AbortHandle(run: nat, abort: AbortStage)
    | AbortAgent(target: Option<nat>, agentAbort: AbortStage)

  datatype Entry = Entry(call: nat, run: nat, event: Event)

  datatype Commit = Commit(call: nat, run: nat, messages: seq<Message>)

  /**
   The agent, its runs and the calls on them. `owner`, `events` and `commits` are histories: the
   run that has reserved the agent and not released it, the events emitted, the replacements made.
   */
  datatype State = State(
    phase: Phase,
    messages: seq<Message>,
    lock: Option<nat>,
    active: Option<nat>,
    nextRun: nat,
    compactor: bool,
    runs: map<nat, Run>,
    calls: seq<Call>,
    owner: Option<nat>,
    events: seq<Entry>,
    commits: seq<Commit>)

  /** What the environment decides at a step: whether observers accept an event, or what the compactor answers. */
  datatype Choice = Accept | Fail | Propose(messages: seq<Message>)

  datatype Step =
    | SetCompactor(present: bool)
    | StartReserve
    | StartDrive(run: nat)
    | StartAbort(run: nat)
    | StartAgentAbort
    | DropHandle(run: nat)
    | Abandon(call: nat)
    | Advance(call: nat, choice: Choice)

  function Init(messages: seq<Message>): State {
    State(Idle, messages, None, None, 0, true, map[], [], None, [], [])
  }

  // ----- Which steps are possible

  predicate Live(s: State, run: nat) { run in s.runs && !s.runs[run].dropped }

  predicate Driving(call: Call, run: nat) {
    call.Drive? && call.run == run && !call.drive.Driven? && !call.drive.Abandoned?
  }

  /** Where a drive can be waiting for an observer or the compactor, and so be dropped by its executor. */
  predicate AtAwait(stage: DriveStage) {
    stage.EmitStart? || stage.FirstCheck? || stage.Compacting? || stage == EmitEnd(Succeeded) || stage.Finishing?
  }

  predicate NeedsLock(call: Call) {
    match call
    case Reserve(_, stage) => stage.Looking? || stage.LookingAgain?
    case Drive(_, stage, _, _) => stage.Snapshot? || stage.CommitLock? || stage.Releasing?
    case AbortHandle(_, stage) => stage.MarkAgent?
    case AbortAgent(_, stage) => stage.MarkAgent?
  }

  predicate Over(call: Call) {
    match call
    case Reserve(_, stage) => stage.Granted? || stage.Refused?
    case Drive(_, stage, _, _) => stage.Driven? || stage.Abandoned?
    case AbortHandle(_, stage) => stage.AbortDone?
    case AbortAgent(_, stage) => stage.AbortDone?
  }

  predicate Enabled(s: State, step: Step) {
    match step
    case SetCompactor(_) => true
    case StartReserve => true
    case StartDrive(run) => Live(s, run)
    case StartAbort(run) => Live(s, run)
    case StartAgentAbort => true
    case DropHandle(run) => Live(s, run) && forall c :: c in s.calls ==> !Driving(c, run)
    case Abandon(c) => c < |s.calls| && s.calls[c].Drive? && AtAwait(s.calls[c].drive)
    case Advance(c, choice) =>
      && c < |s.calls| && !Over(s.calls[c])
      && (NeedsLock(s.calls[c]) ==> s.lock.None?)
      && (choice.Propose? ==> s.calls[c].Drive? && s.calls[c].drive.Compacting?)
  }

  // ----- What a step does

  function RunOf(s: State, run: nat): Run {
    if run in s.runs then s.runs[run] else Run(None, false, false)
  }

  function Move(s: State, c: nat, call: Call): State
    requires c < |s.calls|
  {
    s.(calls := s.calls[c := call])
  }

  function Emit(s: State, c: nat, event: Event): State
    requires c < |s.calls| && s.calls[c].Drive?
  {
    s.(events := s.events + [Entry(c, s.calls[c].run, event)])
  }

  function AdvanceReserve(s: State, c: nat): State
    requires c < |s.calls| && s.calls[c].Reserve?
  {
    var call := s.calls[c];
    match call.reserve
    case Looking => Move(s, c, call.(reserve := if s.phase.Idle? then ReadingCompactor else Refused))
    case ReadingCompactor => Move(s, c, call.(reserve := if s.compactor then LookingAgain else Refused))
    case LookingAgain =>
      if !s.phase.Idle? then Move(s, c, call.(reserve := Refused))
      else Move(s, c, call.(reserve := Publishing)).(phase := Running(call.run), owner := Some(call.run))
    case Publishing =>
      Move(s, c, call.(reserve := Granted)).(
        runs := s.runs[call.run := Run(None, false, false)], active := Some(call.run))
    case _ => s
  }

  /** The transaction up to the commit. */
  ghost function AdvanceTransaction(s: State, c: nat, choice: Choice): State
    requires c < |s.calls| && s.calls[c].Drive?
  {
    var call := s.calls[c];
    var cancelled := RunOf(s, call.run).cancelled;
    match call.drive
    case EmitStart =>
      Move(Emit(s, c, Started), c, call.(drive := if choice.Fail? then Finishing(Failed) else FirstCheck))
    case FirstCheck => Move(s, c, call.(drive := if cancelled then EmitEnd(Interrupted) else Snapshot))
    case Snapshot => Move(s, c, call.(drive := Compacting, source := s.messages))
    case Compacting =>
      Move(s, c, call.(drive := if choice.Propose? then SecondCheck(choice.messages) else EmitEnd(Failed)))
    case SecondCheck(m) => Move(s, c, call.(drive := if cancelled then EmitEnd(Interrupted) else Validating(m)))
    case Validating(m) => Move(s, c, call.(drive := if Valid(m) then CommitLock(m) else EmitEnd(Failed)))
    case _ => s
  }

  /** The commit, under the agent lock: refused if the token is cancelled or the phase is not this run's. */
  function AdvanceCommit(s: State, c: nat): State
    requires c < |s.calls| && s.calls[c].Drive?
  {
    var call := s.calls[c];
    match call.drive
    case CommitLock(m) => Move(s, c, call.(drive := CommitToken(m))).(lock := Some(c))
    case CommitToken(m) =>
      if RunOf(s, call.run).cancelled then Move(s, c, call.(drive := EmitEnd(Interrupted))).(lock := None)
      else Move(s, c, call.(drive := CommitWrite(m)))
    case CommitWrite(m) =>
      if s.phase == Running(call.run) then
        Move(s, c, call.(drive := EmitResult, wrote := Some(|m|))).(
          lock := None, messages := m, commits := s.commits + [Commit(c, call.run, m)])
      else Move(s, c, call.(drive := EmitEnd(Interrupted))).(lock := None)
    case _ => s
  }

  /** Reporting and settling. Only the call that ends the run releases the agent. */
  function AdvanceSettlement(s: State, c: nat, choice: Choice): State
    requires c < |s.calls| && s.calls[c].Drive?
  {
    var call := s.calls[c];
    match call.drive
    case EmitResult =>
      Move(Emit(s, c, Replaced(if call.wrote.Some? then call.wrote.value else 0)), c,
        call.(drive := if choice.Fail? then Finishing(Failed) else EmitEnd(Succeeded)))
    case EmitEnd(outcome) =>
      var count := if outcome.Succeeded? && call.wrote.Some? then call.wrote.value else 0;
      Move(Emit(s, c, Ended(outcome, count)), c,
        call.(drive := Finishing(if choice.Fail? then Failed else outcome)))
    case Finishing(outcome) =>
      var run := RunOf(s, call.run);
      if run.ended.Some? then Move(s, c, call.(drive := Driven))
      else Move(s, c, call.(drive := Releasing)).(runs := s.runs[call.run := run.(ended := Some(outcome))])
    case Releasing => Move(s, c, call.(drive := Driven)).(phase := Idle, active := None, owner := None)
    case _ => s
  }

  function AdvanceAbortHandle(s: State, c: nat): State
    requires c < |s.calls| && s.calls[c].AbortHandle?
  {
    var call := s.calls[c];
    var run := RunOf(s, call.run);
    match call.abort
    case CheckLive => Move(s, c, call.(abort := if run.ended.Some? then AbortDone else CancelToken))
    case CancelToken =>
      Move(s, c, call.(abort := ReadRun)).(runs := s.runs[call.run := run.(cancelled := true)])
    case ReadRun => Move(s, c, call.(abort := if run.ended.Some? then AbortDone else MarkAgent))
    case MarkAgent => Move(s, c, call.(abort := AbortDone)).(phase := Cancelling(call.run))
    case AbortDone => s
  }

  /** `Agent::abort` finds its run in the active slot and leaves an idle phase alone. */
  function AdvanceAbortAgent(s: State, c: nat): State
    requires c < |s.calls| && s.calls[c].AbortAgent?
  {
    var AbortAgent(target, stage) := s.calls[c];
    if stage.CheckLive? then Move(s, c, AbortAgent(s.active, if s.active.Some? then CancelToken else AbortDone))
    else if target.None? then s
    else
      var r := target.value;
      match stage
      case CancelToken =>
        Move(s, c, AbortAgent(target, ReadRun)).(runs := s.runs[r := RunOf(s, r).(cancelled := true)])
      case ReadRun => Move(s, c, AbortAgent(target, MarkAgent))
      case MarkAgent =>
        Move(s, c, AbortAgent(target, AbortDone)).(phase := if s.phase.Idle? then Idle else Cancelling(r))
      case _ => s
  }

  ghost function AdvanceDrive(s: State, c: nat, choice: Choice): State
    requires c < |s.calls| && s.calls[c].Drive?
  {
    match s.calls[c].drive
    case CommitLock(_) => AdvanceCommit(s, c)
    case CommitToken(_) => AdvanceCommit(s, c)
    case CommitWrite(_) => AdvanceCommit(s, c)
    case EmitResult => AdvanceSettlement(s, c, choice)
    case EmitEnd(_) => AdvanceSettlement(s, c, choice)
    case Finishing(_) => AdvanceSettlement(s, c, choice)
    case Releasing => AdvanceSettlement(s, c, choice)
    case _ => AdvanceTransaction(s, c, choice)
  }

  function Start(s: State, call: Call): State { s.(calls := s.calls + [call]) }

  ghost function Apply(s: State, step: Step): State
    requires Enabled(s, step)
  {
    match step
    case SetCompactor(present) => s.(compactor := present)
    case StartReserve => Start(s, Reserve(s.nextRun, Looking)).(nextRun := s.nextRun + 1)
    case StartDrive(run) => Start(s, Drive(run, EmitStart, [], None))
    case StartAbort(run) => Start(s, AbortHandle(run, CancelToken))
    case StartAgentAbort => Start(s, AbortAgent(None, CheckLive))
    case DropHandle(run) =>
      Start(s, AbortHandle(run, CheckLive)).(runs := s.runs[run := s.runs[run].(dropped := true)])
    case Abandon(c) => Move(s, c, s.calls[c].(drive := Abandoned))
    case Advance(c, choice) =>
      match s.calls[c]
      case Reserve(_, _) => AdvanceReserve(s, c)
      case Drive(_, _, _, _) => AdvanceDrive(s, c, choice)
      case AbortHandle(_, _) => AdvanceAbortHandle(s, c)
      case AbortAgent(_, _) => AdvanceAbortAgent(s, c)
  }

  // ----- Ownership

  /** The run has been reserved and its agent not yet released. */
  ghost predicate Owns(s: State, run: nat) {
    || (exists c :: c in s.calls && c == Reserve(run, Publishing))
    || (run in s.runs && s.runs[run].ended.None?)
    || (exists c :: c in s.calls && c.Drive? && c.run == run && c.drive.Releasing?)
  }

  /** Every call refers to a run it may refer to. */
  ghost predicate CallOk(s: State, call: Call) {
    match call
    case Reserve(run, stage) =>
      && run < s.nextRun
      && (stage.Granted? <==> run in s.runs)
      && (stage.Publishing? ==> s.owner == Some(run))
      && (!stage.Publishing? && !stage.Granted? ==> s.owner != Some(run))
    case Drive(run, stage, _, _) =>
      && run in s.runs
      && (stage.Releasing? ==> s.owner == Some(run) && s.runs[run].ended.Some?)
    case AbortHandle(run, _) => run in s.runs
    case AbortAgent(target, stage) => target.Some? ==> target.value in s.runs
  }

  ghost predicate CallsOk(s: State) { forall c :: 0 <= c < |s.calls| ==> CallOk(s, s.calls[c]) }

  ghost predicate ReservesDistinct(s: State) {
    forall c, d :: 0 <= c < d < |s.calls| && s.calls[c].Reserve? && s.calls[d].Reserve? ==>
      s.calls[c].run != s.calls[d].run
  }

  ghost predicate ReleasersDistinct(s: State) {
    forall c, d :: 0 <= c < d < |s.calls| && s.calls[c].Drive? && s.calls[d].Drive? ==>
      !(s.calls[c].drive.Releasing? && s.calls[d].drive.Releasing?)
  }

  ghost predicate RunsOk(s: State) {
    && (forall r :: r in s.runs ==> r < s.nextRun)
    && (forall r :: r in s.runs && s.runs[r].ended.None? ==> s.owner == Some(r))
    && (s.active.Some? ==> s.active.value in s.runs)
    && (s.owner.Some? ==> s.owner.value < s.nextRun)
  }

  /** An idle agent has no owner, and a running phase names the owner. */
  ghost predicate PhaseOk(s: State) {
    && (s.phase.Idle? ==> s.owner.None?)
    && (s.phase.Running? ==> s.owner == Some(s.phase.run))
  }

  ghost predicate OwnerInv(s: State) {
    CallsOk(s) && ReservesDistinct(s) && ReleasersDistinct(s) && RunsOk(s) && PhaseOk(s)
  }

  predicate SameRuns(s: State, t: State) {
    && t.runs.Keys == s.runs.Keys
    && forall r :: r in s.runs ==> t.runs[r].ended == s.runs[r].ended
  }

  /** A step that moves one call and leaves reservation and endings alone. */
  lemma Moved(s: State, t: State, c: nat, call: Call)
    requires OwnerInv(s) && PhaseOk(t) && SameRuns(s, t)
    requires t.owner == s.owner && t.nextRun == s.nextRun && (t.active == s.active)
    requires c < |s.calls| && t.calls == s.calls[c := call] && CallOk(t, call)
    requires call.Drive? && call.drive.Releasing? ==> s.calls[c].Drive? && s.calls[c].drive.Releasing?
    requires call.Reserve? ==> s.calls[c].Reserve? && s.calls[c].run == call.run
    ensures OwnerInv(t)
  {
    forall d | 0 <= d < |t.calls| ensures CallOk(t, t.calls[d]) {
      if d != c {
        assert CallOk(s, s.calls[d]);
      }
    }
  }

  lemma Appended(s: State, t: State, call: Call)
    requires OwnerInv(s) && PhaseOk(t) && SameRuns(s, t)
    requires t.owner == s.owner && s.nextRun <= t.nextRun && t.active == s.active
    requires t.calls == s.calls + [call] && CallOk(t, call)
    requires call.Drive? ==> !call.drive.Releasing?
    requires call.Reserve? ==> call.run == s.nextRun
    ensures OwnerInv(t)
  {
    forall d | 0 <= d < |t.calls| ensures CallOk(t, t.calls[d]) {
      if d < |s.calls| {
        assert CallOk(s, s.calls[d]);
      }
    }
    forall d | 0 <= d < |s.calls| && s.calls[d].Reserve? ensures s.calls[d].run < s.nextRun {
      assert CallOk(s, s.calls[d]);
    }
  }

  lemma OwnerReserve(s: State, c: nat)
    requires OwnerInv(s) && c < |s.calls| && s.calls[c].Reserve?
    ensures OwnerInv(AdvanceReserve(s, c))
  {
    var t := AdvanceReserve(s, c);
    var call := s.calls[c];
    assert CallOk(s, call);
    match call.reserve
    case LookingAgain =>
      if s.phase.Idle? {
        Reserved(s, c);
      } else {
        Moved(s, t, c, t.calls[c]);
      }
    case Publishing => Published(s, c);
    case Looking => Moved(s, t, c, t.calls[c]);
    case ReadingCompactor => Moved(s, t, c, t.calls[c]);
    case _ =>
  }

  /** Setting the phase: nobody owns an idle agent, so no published run is open and nobody is releasing. */
  lemma Reserved(s: State, c: nat)
    requires OwnerInv(s) && c < |s.calls| && s.calls[c].Reserve? && s.calls[c].reserve.LookingAgain? && s.phase.Idle?
    ensures OwnerInv(AdvanceReserve(s, c))
  {
    var t := AdvanceReserve(s, c);
    var run := s.calls[c].run;
    assert CallOk(s, s.calls[c]);
    forall d | 0 <= d < |t.calls| ensures CallOk(t, t.calls[d]) {
      assert CallOk(s, s.calls[d]);
      if d != c && s.calls[d].Reserve? {
        assert s.calls[d].run != run;
      }
    }
    assert t.runs == s.runs && t.nextRun == s.nextRun;
  }

  lemma Published(s: State, c: nat)
    requires OwnerInv(s) && c < |s.calls| && s.calls[c].Reserve? && s.calls[c].reserve.Publishing?
    ensures OwnerInv(AdvanceReserve(s, c))
  {
    var t := AdvanceReserve(s, c);
    var run := s.calls[c].run;
    assert CallOk(s, s.calls[c]);
    forall d | 0 <= d < |t.calls| ensures CallOk(t, t.calls[d]) {
      assert CallOk(s, s.calls[d]);
      if d != c && s.calls[d].Reserve? {
        assert s.calls[d].run != run;
      }
    }
  }

  lemma Finished(s: State, c: nat, choice: Choice)
    requires OwnerInv(s) && c < |s.calls| && s.calls[c].Drive? && s.calls[c].drive.Finishing?
    ensures OwnerInv(AdvanceSettlement(s, c, choice))
  {
    var t := AdvanceSettlement(s, c, choice);
    var run := s.calls[c].run;
    assert CallOk(s, s.calls[c]);
    if s.runs[run].ended.Some? {
      Moved(s, t, c, t.calls[c]);
    } else {
      forall d | 0 <= d < |t.calls| ensures CallOk(t, t.calls[d]) {
        assert CallOk(s, s.calls[d]);
      }
      forall d | 0 <= d < |s.calls| && s.calls[d].Drive? ensures !s.calls[d].drive.Releasing? {
        assert CallOk(s, s.calls[d]);
      }
    }
  }

  lemma Released(s: State, c: nat, choice: Choice)
    requires OwnerInv(s) && c < |s.calls| && s.calls[c].Drive? && s.calls[c].drive.Releasing?
    ensures OwnerInv(AdvanceSettlement(s, c, choice))
  {
    var t := AdvanceSettlement(s, c, choice);
    assert CallOk(s, s.calls[c]);
    forall d | 0 <= d < |t.calls| ensures CallOk(t, t.calls[d]) {
      assert CallOk(s, s.calls[d]);
    }
  }

  /** What a drive leaves alone, except when it ends the run or releases the agent. */
  predicate DriveFrame(s: State, t: State, c: nat) {
    && t.runs == s.runs && t.phase == s.phase && t.owner == s.owner && t.active == s.active && t.nextRun == s.nextRun
    && c < |s.calls| && c < |t.calls| && t.calls == s.calls[c := t.calls[c]] && s.calls[c].Drive?
    && t.calls[c].Drive? && t.calls[c].run == s.calls[c].run && !t.calls[c].drive.Releasing?
  }

  lemma TransactionFrame(s: State, c: nat, choice: Choice)
    requires c < |s.calls| && s.calls[c].Drive? && !s.calls[c].drive.Releasing?
    ensures DriveFrame(s, AdvanceTransaction(s, c, choice), c)
  {
  }

  lemma CommitFrame(s: State, c: nat)
    requires c < |s.calls| && s.calls[c].Drive? && !s.calls[c].drive.Releasing?
    ensures DriveFrame(s, AdvanceCommit(s, c), c)
  {
  }

  lemma ReportFrame(s: State, c: nat, choice: Choice)
    requires c < |s.calls| && s.calls[c].Drive?
    requires !s.calls[c].drive.Finishing? && !s.calls[c].drive.Releasing?
    ensures DriveFrame(s, AdvanceSettlement(s, c, choice), c)
  {
  }

  lemma DriveFrames(s: State, c: nat, choice: Choice)
    requires c < |s.calls| && s.calls[c].Drive?
    requires !s.calls[c].drive.Finishing? && !s.calls[c].drive.Releasing?
    ensures DriveFrame(s, AdvanceDrive(s, c, choice), c)
  {
    TransactionFrame(s, c, choice);
    CommitFrame(s, c);
    ReportFrame(s, c, choice);
  }

  lemma OwnerDrive(s: State, c: nat, choice: Choice)
    requires OwnerInv(s) && c < |s.calls| && s.calls[c].Drive?
    ensures OwnerInv(AdvanceDrive(s, c, choice))
  {
    var stage := s.calls[c].drive;
    if stage.Finishing? {
      Finished(s, c, choice);
    } else if stage.Releasing? {
      Released(s, c, choice);
    } else {
      DriveFrames(s, c, choice);
      MovedDrive(s, AdvanceDrive(s, c, choice), c);
    }
  }

  lemma MovedDrive(s: State, t: State, c: nat)
    requires OwnerInv(s) && DriveFrame(s, t, c)
    ensures OwnerInv(t)
  {
    assert CallOk(s, s.calls[c]);
    Moved(s, t, c, t.calls[c]);
  }

  /** An abort changes the phase, never to idle, and cancels tokens. */
  predicate AbortFrame(s: State, t: State, c: nat) {
    && c < |s.calls| && c < |t.calls| && t.calls == s.calls[c := t.calls[c]]
    && SameRuns(s, t) && t.owner == s.owner && t.active == s.active && t.nextRun == s.nextRun
    && (t.phase == s.phase || t.phase.Cancelling?)
    && (s.calls[c].AbortHandle? ==> t.calls[c].AbortHandle? && t.calls[c].run == s.calls[c].run)
    && (s.calls[c].AbortAgent? ==> t.calls[c].AbortAgent? && t.calls[c].target in {s.calls[c].target, s.active})
  }

  lemma AbortHandleFrame(s: State, c: nat)
    requires c < |s.calls| && s.calls[c].AbortHandle? && s.calls[c].run in s.runs
    ensures AbortFrame(s, AdvanceAbortHandle(s, c), c)
  {
  }

  lemma AbortAgentFrame(s: State, c: nat)
    requires c < |s.calls| && s.calls[c].AbortAgent?
    requires s.calls[c].target.Some? ==> s.calls[c].target.value in s.runs
    ensures AbortFrame(s, AdvanceAbortAgent(s, c), c)
  {
  }

  lemma MovedAbort(s: State, t: State, c: nat)
    requires OwnerInv(s) && AbortFrame(s, t, c) && (s.calls[c].AbortHandle? || s.calls[c].AbortAgent?)
    ensures OwnerInv(t)
  {
    assert CallOk(s, s.calls[c]);
    Moved(s, t, c, t.calls[c]);
  }

  lemma OwnerAbort(s: State, c: nat)
    requires OwnerInv(s) && c < |s.calls|
    ensures s.calls[c].AbortHandle? ==> OwnerInv(AdvanceAbortHandle(s, c))
    ensures s.calls[c].AbortAgent? ==> OwnerInv(AdvanceAbortAgent(s, c))
  {
    assert CallOk(s, s.calls[c]);
    if s.calls[c].AbortHandle? {
      AbortHandleFrame(s, c);
      MovedAbort(s, AdvanceAbortHandle(s, c), c);
    } else if s.calls[c].AbortAgent? {
      AbortAgentFrame(s, c);
      MovedAbort(s, AdvanceAbortAgent(s, c), c);
    }
  }

  lemma OwnerStep(s: State, step: Step)
    requires OwnerInv(s) && Enabled(s, step)
    ensures OwnerInv(Apply(s, step))
  {
    var t := Apply(s, step);
    match step
    case SetCompactor(_) => assert forall c :: 0 <= c < |s.calls| ==> CallOk(s, s.calls[c]) && CallOk(t, s.calls[c]);
    case StartReserve => Appended(s, t, Reserve(s.nextRun, Looking));
    case StartDrive(run) => Appended(s, t, Drive(run, EmitStart, [], None));
    case StartAbort(run) => Appended(s, t, AbortHandle(run, CancelToken));
    case StartAgentAbort => Appended(s, t, AbortAgent(None, CheckLive));
    case DropHandle(run) => Appended(s, t, AbortHandle(run, CheckLive));
    case Abandon(c) =>
      assert CallOk(s, s.calls[c]);
      Moved(s, t, c, t.calls[c]);
    case Advance(c, choice) =>
      match s.calls[c]
      case Reserve(_, _) => OwnerReserve(s, c);
      case Drive(_, _, _, _) => OwnerDrive(s, c, choice);
      case _ => OwnerAbort(s, c);
  }

  // ----- The logs

  predicate BeforeCommit(stage: DriveStage) {
    match stage
    case EmitStart => true
    case FirstCheck => true
    case Snapshot => true
    case Compacting => true
    case SecondCheck(_) => true
    case Validating(_) => true
    case CommitLock(_) => true
    case CommitToken(_) => true
    case CommitWrite(_) => true
    case EmitEnd(outcome) => !outcome.Succeeded?
    case Finishing(outcome) => outcome.Interrupted?
    case _ => false
  }

  predicate AfterCommit(stage: DriveStage) {
    stage.EmitResult? || stage == EmitEnd(Succeeded) || stage == Finishing(Succeeded)
  }

  predicate PastEnd(stage: DriveStage) {
    stage.Finishing? || stage.Releasing? || stage.Driven? || stage.Abandoned?
  }

  predicate HoldsLock(call: Call) {
    call.Drive? && (call.drive.CommitToken? || call.drive.CommitWrite?)
  }

  /** What has been written agrees with how far the drive has come, and what may be written is valid. */
  ghost predicate DriveOk(call: Call)
    requires call.Drive?
  {
    && (BeforeCommit(call.drive) ==> call.wrote.None?)
    && (AfterCommit(call.drive) ==> call.wrote.Some?)
    && match call.drive
       case CommitLock(m) => Valid(m)
       case CommitToken(m) => Valid(m)
       case CommitWrite(m) => Valid(m)
       case _ => true
  }

  ghost predicate DrivesOk(s: State) {
    forall c :: 0 <= c < |s.calls| && s.calls[c].Drive? ==> DriveOk(s.calls[c])
  }

  /** The conversation is the initial one or the last replacement, and every replacement is valid. */
  ghost predicate HistoryOk(s: State, initial: seq<Message>) {
    && s.messages == (if s.commits == [] then initial else s.commits[|s.commits| - 1].messages)
    && forall e :: e in s.commits ==> Valid(e.messages)
  }

  predicate CommitOk(s: State, e: Commit) {
    && e.call < |s.calls| && s.calls[e.call].Drive?
    && s.calls[e.call].run == e.run && s.calls[e.call].wrote == Some(|e.messages|)
  }

  predicate HasCommit(s: State, c: int) {
    exists i :: 0 <= i < |s.commits| && s.commits[i].call == c
  }

  ghost predicate CommitsOk(s: State) {
    && (forall e :: e in s.commits ==> CommitOk(s, e))
    && (forall i, j :: 0 <= i < j < |s.commits| ==> s.commits[i].call != s.commits[j].call)
    && (forall c :: 0 <= c < |s.calls| && s.calls[c].Drive? && s.calls[c].wrote.Some? ==> HasCommit(s, c))
  }

  /** An end event agrees with what its drive wrote. */
  predicate EntryOk(s: State, e: Entry) {
    && e.call < |s.calls| && s.calls[e.call].Drive? && s.calls[e.call].run == e.run
    && (e.event.Ended? ==>
          && PastEnd(s.calls[e.call].drive)
          && (if e.event.outcome.Succeeded? then s.calls[e.call].wrote == Some(e.event.count)
              else s.calls[e.call].wrote.None?))
  }

  ghost predicate EventsOk(s: State) {
    && (forall e :: e in s.events ==> EntryOk(s, e))
    && (forall i, j :: 0 <= i < j < |s.events| && s.events[i].event.Ended? && s.events[j].event.Ended? ==>
          s.events[i].call != s.events[j].call)
  }

  ghost predicate LockOk(s: State) {
    forall c: nat :: s.lock == Some(c) <==> c < |s.calls| && HoldsLock(s.calls[c])
  }

  ghost predicate LogInv(s: State, initial: seq<Message>) {
    LogsOk(s, initial) && LockOk(s)
  }

  /** No drive moves and no log grows; a new call is at its beginning. */
  ghost predicate KeepsDrives(s: State, t: State) {
    && t.messages == s.messages && t.lock == s.lock && t.events == s.events && t.commits == s.commits
    && |s.calls| <= |t.calls|
    && (forall c :: 0 <= c < |s.calls| ==> if s.calls[c].Drive? then t.calls[c] == s.calls[c] else !t.calls[c].Drive?)
    && (forall c :: |s.calls| <= c < |t.calls| && t.calls[c].Drive? ==>
          t.calls[c].drive == EmitStart && t.calls[c].wrote == None)
  }

  lemma LogKept(s: State, t: State, initial: seq<Message>)
    requires LogInv(s, initial) && KeepsDrives(s, t)
    ensures LogInv(t, initial)
  {
    assert forall e :: e in s.commits ==> CommitOk(s, e) && CommitOk(t, e);
    assert forall e :: e in s.events ==> EntryOk(s, e) && EntryOk(t, e);
    forall c | 0 <= c < |t.calls| && t.calls[c].Drive? && t.calls[c].wrote.Some? ensures HasCommit(t, c) {
      assert HasCommit(s, c);
    }
    forall c: nat ensures t.lock == Some(c) <==> c < |t.calls| && HoldsLock(t.calls[c]) {
      assert s.lock == Some(c) <==> c < |s.calls| && HoldsLock(s.calls[c]);
    }
  }

  /** Only drive `c` moves. */
  predicate MovesDrive(s: State, t: State, c: nat) {
    && c < |s.calls| && c < |t.calls| && t.calls == s.calls[c := t.calls[c]]
    && s.calls[c].Drive? && t.calls[c].Drive? && t.calls[c].run == s.calls[c].run
  }

  /** Drive `c` moves, writing nothing, and emits at most events that end nothing. */
  ghost predicate Quiet(s: State, t: State, c: nat) {
    && MovesDrive(s, t, c)
    && t.messages == s.messages && t.commits == s.commits
    && t.calls[c].wrote == s.calls[c].wrote && DriveOk(t.calls[c])
    && (PastEnd(s.calls[c].drive) ==> PastEnd(t.calls[c].drive))
    && s.events <= t.events
    && forall k :: |s.events| <= k < |t.events| ==>
         t.events[k].call == c && t.events[k].run == s.calls[c].run && !t.events[k].event.Ended?
  }

  /** Drive `c` writes a valid replacement. */
  ghost predicate Written(s: State, t: State, c: nat, m: seq<Message>) {
    && MovesDrive(s, t, c)
    && Valid(m) && t.messages == m && t.commits == s.commits + [Commit(c, s.calls[c].run, m)]
    && s.calls[c].wrote.None? && t.calls[c].wrote == Some(|m|) && DriveOk(t.calls[c])
    && !PastEnd(s.calls[c].drive) && t.events == s.events
  }

  /** Drive `c` reports its end truthfully. */
  ghost predicate Reported(s: State, t: State, c: nat, event: Event) {
    && MovesDrive(s, t, c)
    && t.messages == s.messages && t.commits == s.commits
    && t.calls[c].wrote == s.calls[c].wrote && DriveOk(t.calls[c])
    && !PastEnd(s.calls[c].drive) && PastEnd(t.calls[c].drive)
    && t.events == s.events + [Entry(c, s.calls[c].run, event)] && event.Ended?
    && if event.outcome.Succeeded? then t.calls[c].wrote == Some(event.count) else t.calls[c].wrote.None?
  }

  ghost predicate LogsOk(s: State, initial: seq<Message>) {
    DrivesOk(s) && HistoryOk(s, initial) && CommitsOk(s) && EventsOk(s)
  }

  lemma QuietKeepsCommits(s: State, t: State, c: nat)
    requires CommitsOk(s) && MovesDrive(s, t, c)
    requires t.commits == s.commits && t.calls[c].wrote == s.calls[c].wrote
    ensures CommitsOk(t)
  {
    assert forall e :: e in s.commits ==> CommitOk(s, e) && CommitOk(t, e);
    forall d | 0 <= d < |t.calls| && t.calls[d].Drive? && t.calls[d].wrote.Some? ensures HasCommit(t, d) {
      assert HasCommit(s, d);
    }
  }

  lemma QuietKeepsEvents(s: State, t: State, c: nat)
    requires EventsOk(s) && Quiet(s, t, c)
    ensures EventsOk(t)
  {
    forall e | e in t.events ensures EntryOk(t, e) {
      if e in s.events {
        assert EntryOk(s, e);
      }
    }
    forall i, j | 0 <= i < j < |t.events| && t.events[i].event.Ended? && t.events[j].event.Ended?
      ensures t.events[i].call != t.events[j].call
    {
      assert t.events[i] == s.events[i] && t.events[j] == s.events[j];
    }
  }

  lemma QuietLogs(s: State, t: State, c: nat, initial: seq<Message>)
    requires LogsOk(s, initial) && Quiet(s, t, c)
    ensures LogsOk(t, initial)
  {
    QuietKeepsCommits(s, t, c);
    QuietKeepsEvents(s, t, c);
  }

  lemma WrittenCommits(s: State, t: State, c: nat, m: seq<Message>)
    requires CommitsOk(s) && Written(s, t, c, m)
    ensures CommitsOk(t)
  {
    forall e | e in t.commits ensures CommitOk(t, e) {
      assert e in s.commits ==> CommitOk(s, e);
    }
    assert forall e :: e in s.commits ==> CommitOk(s, e) && e.call != c;
    forall d | 0 <= d < |t.calls| && t.calls[d].Drive? && t.calls[d].wrote.Some? ensures HasCommit(t, d) {
      if d == c {
        assert t.commits[|s.commits|].call == d;
      } else {
        assert HasCommit(s, d);
        var i :| 0 <= i < |s.commits| && s.commits[i].call == d;
        assert t.commits[i].call == d;
      }
    }
  }

  lemma WrittenLogs(s: State, t: State, c: nat, m: seq<Message>, initial: seq<Message>)
    requires LogsOk(s, initial) && Written(s, t, c, m)
    ensures LogsOk(t, initial)
  {
    WrittenCommits(s, t, c, m);
    assert forall d :: d in s.events ==> EntryOk(s, d) && EntryOk(t, d);
  }

  lemma ReportedLogs(s: State, t: State, c: nat, event: Event, initial: seq<Message>)
    requires LogsOk(s, initial) && Reported(s, t, c, event)
    ensures LogsOk(t, initial)
  {
    QuietKeepsCommits(s, t, c);
    assert forall e :: e in s.events ==> EntryOk(s, e) && (e.call == c ==> !e.event.Ended?) && EntryOk(t, e);
    assert EntryOk(t, Entry(c, s.calls[c].run, event));
  }

  lemma TransactionQuiet(s: State, c: nat, choice: Choice)
    requires c < |s.calls| && s.calls[c].Drive? && DriveOk(s.calls[c]) && !PastEnd(s.calls[c].drive)
    ensures Quiet(s, AdvanceTransaction(s, c, choice), c)
  {
  }

  lemma CommitQuietOrWritten(s: State, c: nat)
    requires c < |s.calls| && s.calls[c].Drive? && DriveOk(s.calls[c])
    requires s.calls[c].drive.CommitLock? || s.calls[c].drive.CommitToken? || s.calls[c].drive.CommitWrite?
    ensures
      var t := AdvanceCommit(s, c);
      if s.calls[c].drive.CommitWrite? && s.phase == Running(s.calls[c].run)
      then Written(s, t, c, s.calls[c].drive.proposal) else Quiet(s, t, c)
  {
  }

  lemma SettlementReported(s: State, c: nat, choice: Choice)
    requires c < |s.calls| && s.calls[c].Drive? && DriveOk(s.calls[c]) && s.calls[c].drive.EmitEnd?
    ensures
      var t := AdvanceSettlement(s, c, choice);
      |t.events| > 0 && Reported(s, t, c, t.events[|t.events| - 1].event)
  {
  }

  lemma SettlementQuiet(s: State, c: nat, choice: Choice)
    requires c < |s.calls| && s.calls[c].Drive? && DriveOk(s.calls[c])
    requires PastEnd(s.calls[c].drive) || s.calls[c].drive.EmitResult?
    ensures Quiet(s, AdvanceSettlement(s, c, choice), c)
  {
    if s.calls[c].drive.EmitResult? {
      ResultQuiet(s, c, choice);
    } else {
      ReleaseQuiet(s, c, choice);
    }
  }

  lemma ResultQuiet(s: State, c: nat, choice: Choice)
    requires c < |s.calls| && s.calls[c].Drive? && DriveOk(s.calls[c]) && s.calls[c].drive.EmitResult?
    ensures Quiet(s, AdvanceSettlement(s, c, choice), c)
  {
  }

  lemma ReleaseQuiet(s: State, c: nat, choice: Choice)
    requires c < |s.calls| && s.calls[c].Drive? && DriveOk(s.calls[c]) && PastEnd(s.calls[c].drive)
    ensures Quiet(s, AdvanceSettlement(s, c, choice), c)
  {
    assert AdvanceSettlement(s, c, choice).events == s.events;
  }

  lemma DriveLogs(s: State, c: nat, choice: Choice, initial: seq<Message>)
    requires LogsOk(s, initial) && c < |s.calls| && s.calls[c].Drive?
    ensures LogsOk(AdvanceDrive(s, c, choice), initial)
  {
    var t := AdvanceDrive(s, c, choice);
    var stage := s.calls[c].drive;
    assert DriveOk(s.calls[c]);
    if stage.CommitLock? || stage.CommitToken? || stage.CommitWrite? {
      CommitQuietOrWritten(s, c);
      if stage.CommitWrite? && s.phase == Running(s.calls[c].run) {
        WrittenLogs(s, t, c, stage.proposal, initial);
      } else {
        QuietLogs(s, t, c, initial);
      }
    } else if stage.EmitEnd? {
      SettlementReported(s, c, choice);
      ReportedLogs(s, t, c, t.events[|t.events| - 1].event, initial);
    } else {
      if PastEnd(stage) || stage.EmitResult? {
        SettlementQuiet(s, c, choice);
      } else {
        TransactionQuiet(s, c, choice);
      }
      QuietLogs(s, t, c, initial);
    }
  }

  /** Drive `c` takes the lock, keeps it, or returns it. */
  predicate LockMoves(s: State, t: State, c: nat) {
    && MovesDrive(s, t, c)
    && (t.lock == s.lock || s.lock == Some(c) || s.lock.None?)
    && (t.lock == s.lock || t.lock == Some(c) || t.lock.None?)
    && (t.lock == Some(c) <==> HoldsLock(t.calls[c]))
  }

  lemma TransactionLock(s: State, c: nat, choice: Choice)
    requires c < |s.calls| && s.calls[c].Drive? && (s.lock == Some(c) <==> HoldsLock(s.calls[c]))
    requires !s.calls[c].drive.CommitLock? && !HoldsLock(s.calls[c])
    ensures LockMoves(s, AdvanceTransaction(s, c, choice), c)
  {
  }

  lemma CommitLockMoves(s: State, c: nat)
    requires c < |s.calls| && s.calls[c].Drive? && (s.lock == Some(c) <==> HoldsLock(s.calls[c]))
    requires NeedsLock(s.calls[c]) ==> s.lock.None?
    ensures LockMoves(s, AdvanceCommit(s, c), c)
  {
  }

  lemma SettlementLock(s: State, c: nat, choice: Choice)
    requires c < |s.calls| && s.calls[c].Drive? && (s.lock == Some(c) <==> HoldsLock(s.calls[c]))
    ensures LockMoves(s, AdvanceSettlement(s, c, choice), c)
  {
  }

  /** The lock changes hands only at the commit. */
  lemma DriveLock(s: State, c: nat, choice: Choice)
    requires LockOk(s) && c < |s.calls| && s.calls[c].Drive? && (NeedsLock(s.calls[c]) ==> s.lock.None?)
    ensures LockOk(AdvanceDrive(s, c, choice))
  {
    var t := AdvanceDrive(s, c, choice);
    assert s.lock == Some(c) <==> HoldsLock(s.calls[c]);
    if s.calls[c].drive.CommitLock? || HoldsLock(s.calls[c]) {
      CommitLockMoves(s, c);
    } else {
      TransactionLock(s, c, choice);
      SettlementLock(s, c, choice);
    }
    assert LockMoves(s, t, c);
    LockKept(s, t, c);
  }

  lemma LockKept(s: State, t: State, c: nat)
    requires LockOk(s) && LockMoves(s, t, c)
    ensures LockOk(t)
  {
    forall d: nat ensures t.lock == Some(d) <==> d < |t.calls| && HoldsLock(t.calls[d]) {
      assert s.lock == Some(d) <==> d < |s.calls| && HoldsLock(s.calls[d]);
      assert s.lock == Some(c) <==> c < |s.calls| && HoldsLock(s.calls[c]);
    }
  }

  lemma LogStep(s: State, step: Step, initial: seq<Message>)
    requires LogInv(s, initial) && Enabled(s, step)
    ensures LogInv(Apply(s, step), initial)
  {
    if step.Advance? && s.calls[step.call].Drive? {
      DriveLogs(s, step.call, step.choice, initial);
      DriveLock(s, step.call, step.choice);
    } else if step.Abandon? {
      AbandonLogs(s, step.call, initial);
    } else {
      OtherStep(s, step);
      LogKept(s, Apply(s, step), initial);
    }
  }

  lemma OtherStep(s: State, step: Step)
    requires Enabled(s, step) && !step.Abandon? && !(step.Advance? && s.calls[step.call].Drive?)
    ensures KeepsDrives(s, Apply(s, step))
  {
    if step.Advance? {
      OtherAdvance(s, step);
    }
  }

  lemma OtherAdvance(s: State, step: Step)
    requires Enabled(s, step) && step.Advance? && !s.calls[step.call].Drive?
    ensures KeepsDrives(s, Apply(s, step))
  {
  }

  lemma AbandonLogs(s: State, c: nat, initial: seq<Message>)
    requires LogInv(s, initial) && Enabled(s, Abandon(c))
    ensures LogInv(Apply(s, Abandon(c)), initial)
  {
    var t := Apply(s, Abandon(c));
    QuietLogs(s, t, c, initial);
    assert s.lock == Some(c) <==> HoldsLock(s.calls[c]);
    LockKept(s, t, c);
  }

  // ----- Handles

  /** A dropped handle is not being driven; a handle is dropped only then. */
  ghost predicate DroppedIdle(s: State) {
    forall c :: 0 <= c < |s.calls| && s.calls[c].Drive? ==>
      !(RunOf(s, s.calls[c].run).dropped && Driving(s.calls[c], s.calls[c].run))
  }

  predicate Publishes(call: Call) { call.Reserve? && call.reserve.Publishing? }

  predicate Releases(call: Call) { call.Drive? && call.drive.Releasing? }

  /** An owner that has no handle yet is being published; one that has ended is being released. */
  ghost predicate OwnerMoves(s: State) {
    s.owner.Some? ==>
      var r := s.owner.value;
      && (r !in s.runs ==> exists c :: 0 <= c < |s.calls| && Publishes(s.calls[c]))
      && (RunOf(s, r).ended.Some? ==> exists c :: 0 <= c < |s.calls| && Releases(s.calls[c]))
  }

  ghost predicate HandleInv(s: State) { DroppedIdle(s) && OwnerMoves(s) }

  /** Step `c` is not the one that publishes, ends or releases the owner. */
  ghost predicate OwnerStays(s: State, t: State) {
    && t.owner == s.owner && |s.calls| <= |t.calls|
    && (t.owner.Some? ==>
          && (s.owner.value in s.runs ==> s.owner.value in t.runs)
          && RunOf(t, s.owner.value).ended == RunOf(s, s.owner.value).ended)
    && (forall d :: 0 <= d < |s.calls| && Publishes(s.calls[d]) ==> Publishes(t.calls[d]))
    && (forall d :: 0 <= d < |s.calls| && Releases(s.calls[d]) ==> Releases(t.calls[d]))
  }

  lemma OwnerStaysMoves(s: State, t: State)
    requires OwnerMoves(s) && OwnerStays(s, t)
    ensures OwnerMoves(t)
  {
    if t.owner.Some? {
      if t.owner.value !in t.runs {
        var c :| 0 <= c < |s.calls| && Publishes(s.calls[c]);
        assert Publishes(t.calls[c]);
      }
      if RunOf(t, t.owner.value).ended.Some? {
        var c :| 0 <= c < |s.calls| && Releases(s.calls[c]);
        assert Releases(t.calls[c]);
      }
    }
  }

  lemma ReserveMoves(s: State, c: nat)
    requires OwnerInv(s) && OwnerMoves(s) && c < |s.calls| && s.calls[c].Reserve?
    ensures OwnerMoves(AdvanceReserve(s, c))
  {
    var t := AdvanceReserve(s, c);
    assert CallOk(s, s.calls[c]);
    if s.calls[c].reserve.LookingAgain? && s.phase.Idle? {
      assert Publishes(t.calls[c]);
    } else if s.calls[c].reserve.Publishing? {
      assert RunOf(t, s.calls[c].run).ended.None?;
    } else {
      OwnerStaysMoves(s, t);
    }
  }

  lemma DriveMoves(s: State, c: nat, choice: Choice)
    requires OwnerInv(s) && OwnerMoves(s) && c < |s.calls| && s.calls[c].Drive?
    ensures OwnerMoves(AdvanceDrive(s, c, choice))
  {
    var stage := s.calls[c].drive;
    if stage.Finishing? {
      FinishMoves(s, c, choice);
    } else if !stage.Releasing? {
      DriveFrames(s, c, choice);
      OwnerStaysMoves(s, AdvanceDrive(s, c, choice));
    }
  }

  lemma FinishMoves(s: State, c: nat, choice: Choice)
    requires OwnerInv(s) && OwnerMoves(s) && c < |s.calls| && s.calls[c].Drive? && s.calls[c].drive.Finishing?
    ensures OwnerMoves(AdvanceSettlement(s, c, choice))
  {
    var t := AdvanceSettlement(s, c, choice);
    assert CallOk(s, s.calls[c]);
    if s.runs[s.calls[c].run].ended.None? {
      assert Releases(t.calls[c]);
    } else {
      OwnerStaysMoves(s, t);
    }
  }

  lemma OwnerMovesStep(s: State, step: Step)
    requires OwnerInv(s) && OwnerMoves(s) && Enabled(s, step)
    ensures OwnerMoves(Apply(s, step))
  {
    var t := Apply(s, step);
    if step.Advance? {
      var c := step.call;
      assert CallOk(s, s.calls[c]);
      match s.calls[c]
      case Reserve(_, _) => ReserveMoves(s, c);
      case Drive(_, _, _, _) => DriveMoves(s, c, step.choice);
      case AbortHandle(_, _) =>
        AbortHandleFrame(s, c);
        OwnerStaysMoves(s, t);
      case AbortAgent(_, _) =>
        AbortAgentFrame(s, c);
        OwnerStaysMoves(s, t);
    } else {
      OwnerStaysMoves(s, t);
    }
  }

  /** No run is dropped, and no call comes to drive a run it did not drive. */
  ghost predicate DropsNothing(s: State, t: State) {
    && (forall r :: RunOf(t, r).dropped ==> RunOf(s, r).dropped)
    && |s.calls| <= |t.calls|
    && (forall d :: 0 <= d < |s.calls| && t.calls[d].Drive? && Driving(t.calls[d], t.calls[d].run) ==>
          s.calls[d].Drive? && s.calls[d].run == t.calls[d].run && Driving(s.calls[d], s.calls[d].run))
    && (forall d :: |s.calls| <= d < |t.calls| && t.calls[d].Drive? ==> Live(s, t.calls[d].run))
  }

  lemma DropsNothingIdle(s: State, t: State)
    requires DroppedIdle(s) && DropsNothing(s, t)
    ensures DroppedIdle(t)
  {
  }

  lemma AdvanceDrops(s: State, c: nat, choice: Choice)
    requires Enabled(s, Advance(c, choice)) && CallOk(s, s.calls[c])
    ensures DropsNothing(s, Apply(s, Advance(c, choice)))
  {
    var t := Apply(s, Advance(c, choice));
    match s.calls[c]
    case Reserve(_, _) =>
    case Drive(_, stage, _, _) =>
      if stage.Finishing? {
        FinishDrops(s, c, choice);
      } else if !stage.Releasing? {
        DriveFrames(s, c, choice);
      }
    case AbortHandle(run, _) => AbortHandleDrops(s, c);
    case AbortAgent(target, _) => AbortAgentDrops(s, c);
  }

  lemma FinishDrops(s: State, c: nat, choice: Choice)
    requires c < |s.calls| && s.calls[c].Drive? && s.calls[c].drive.Finishing?
    ensures DropsNothing(s, AdvanceSettlement(s, c, choice))
  {
  }

  lemma AbortHandleDrops(s: State, c: nat)
    requires c < |s.calls| && s.calls[c].AbortHandle?
    ensures DropsNothing(s, AdvanceAbortHandle(s, c))
  {
  }

  lemma AbortAgentDrops(s: State, c: nat)
    requires c < |s.calls| && s.calls[c].AbortAgent?
    ensures DropsNothing(s, AdvanceAbortAgent(s, c))
  {
  }

  lemma DropStep(s: State, run: nat)
    requires OwnerInv(s) && DroppedIdle(s) && Enabled(s, DropHandle(run))
    ensures DroppedIdle(Apply(s, DropHandle(run)))
  {
    var t := Apply(s, DropHandle(run));
    forall c | 0 <= c < |t.calls| && t.calls[c].Drive?
      ensures !(RunOf(t, t.calls[c].run).dropped && Driving(t.calls[c], t.calls[c].run))
    {
      assert t.calls[c] == s.calls[c] && s.calls[c] in s.calls;
    }
  }

  lemma HandleStep(s: State, step: Step)
    requires OwnerInv(s) && HandleInv(s) && Enabled(s, step)
    ensures HandleInv(Apply(s, step))
  {
    OwnerMovesStep(s, step);
    if step.Advance? {
      assert CallOk(s, s.calls[step.call]);
      AdvanceDrops(s, step.call, step.choice);
      DropsNothingIdle(s, Apply(s, step));
    } else if step.DropHandle? {
      DropStep(s, step.run);
    } else {
      DropsNothingIdle(s, Apply(s, step));
    }
  }

  // ----- Executions

  ghost predicate IsRun(states: seq<State>, steps: seq<Step>) {
    && |states| == |steps| + 1
    && forall i :: 0 <= i < |steps| ==> Enabled(states[i], steps[i]) && states[i + 1] == Apply(states[i], steps[i])
  }

  /** A run of the system from an idle agent without handles. */
  ghost predicate Execution(states: seq<State>, steps: seq<Step>, initial: seq<Message>) {
    IsRun(states, steps) && states[0] == Init(initial)
  }

  ghost predicate Inv(s: State, initial: seq<Message>) {
    OwnerInv(s) && LogInv(s, initial) && HandleInv(s)
  }

  lemma {:induction false} Reached(states: seq<State>, steps: seq<Step>, initial: seq<Message>, n: nat)
    requires Execution(states, steps, initial) && n < |states|
    ensures Inv(states[n], initial)
    decreases n
  {
    if n > 0 {
      Reached(states, steps, initial, n - 1);
      OwnerStep(states[n - 1], steps[n - 1]);
      LogStep(states[n - 1], steps[n - 1], initial);
      HandleStep(states[n - 1], steps[n - 1]);
    }
  }

  // ----- What every execution keeps

  /** The conversation is the initial one or the latest replacement, and every replacement is valid. */
  lemma HistoryIsReplacement(states: seq<State>, steps: seq<Step>, initial: seq<Message>, n: nat)
    requires Execution(states, steps, initial) && n < |states|
    ensures states[n].commits == [] ==> states[n].messages == initial
    ensures states[n].commits != [] ==> states[n].messages == states[n].commits[|states[n].commits| - 1].messages
    ensures forall e :: e in states[n].commits ==> Valid(e.messages)
  {
    Reached(states, steps, initial, n);
  }

  /** The number of replacements one drive has made. */
  function CommitsBy(commits: seq<Commit>, c: nat): nat {
    if commits == [] then 0
    else CommitsBy(commits[..|commits| - 1], c) + if commits[|commits| - 1].call == c then 1 else 0
  }

  lemma {:induction false} CommitsByAtMostOnce(commits: seq<Commit>, c: nat)
    requires forall i, j :: 0 <= i < j < |commits| ==> commits[i].call != commits[j].call
    ensures CommitsBy(commits, c) == if exists e :: e in commits && e.call == c then 1 else 0
  {
    if commits != [] {
      var k := |commits| - 1;
      CommitsByAtMostOnce(commits[..k], c);
      assert commits == commits[..k] + [commits[k]];
      assert commits[k].call == c ==> forall e :: e in commits[..k] ==> e.call != c;
    }
  }

  /** An end event reports success exactly if its drive has replaced the history, once, with that many messages. */
  lemma EndsAreTruthful(states: seq<State>, steps: seq<Step>, initial: seq<Message>, n: nat, e: Entry)
    requires Execution(states, steps, initial) && n < |states|
    requires e in states[n].events && e.event.Ended?
    ensures e.event.outcome.Succeeded? <==> CommitsBy(states[n].commits, e.call) == 1
    ensures !e.event.outcome.Succeeded? <==> CommitsBy(states[n].commits, e.call) == 0
    ensures e.event.outcome.Succeeded? ==>
      exists r :: r in states[n].commits && r.call == e.call && r.run == e.run && |r.messages| == e.event.count
  {
    Reached(states, steps, initial, n);
    var s := states[n];
    assert EntryOk(s, e);
    CommitsByAtMostOnce(s.commits, e.call);
    if e.event.outcome.Succeeded? {
      assert HasCommit(s, e.call);
      var i :| 0 <= i < |s.commits| && s.commits[i].call == e.call;
      assert s.commits[i] in s.commits && CommitOk(s, s.commits[i]);
    } else {
      assert forall r :: r in s.commits ==> CommitOk(s, r);
    }
  }

  /** Two concurrent `start_compaction` calls never both own the agent, and an owned agent is not idle. */
  lemma OwnersExclude(states: seq<State>, steps: seq<Step>, initial: seq<Message>, n: nat, r1: nat, r2: nat)
    requires Execution(states, steps, initial) && n < |states|
    requires Owns(states[n], r1) && Owns(states[n], r2)
    ensures r1 == r2 && !states[n].phase.Idle?
  {
    Reached(states, steps, initial, n);
    OwnsIsOwner(states[n], r1);
    OwnsIsOwner(states[n], r2);
  }

  lemma OwnsIsOwner(s: State, run: nat)
    requires OwnerInv(s) && Owns(s, run)
    ensures s.owner == Some(run)
  {
    if c :| c in s.calls && c == Reserve(run, Publishing) {
      assert CallOk(s, c);
    } else if c :| c in s.calls && c.Drive? && c.run == run && c.drive.Releasing? {
      assert CallOk(s, c);
    }
  }

  // ----- Cancellation is final

  /** The token is set, and no drive of the run has loaded it as clear without having written since. */
  ghost predicate CancelledFor(s: State, run: nat) {
    && run in s.runs && s.runs[run].cancelled
    && forall c :: c in s.calls && c.Drive? && c.run == run ==> !c.drive.CommitWrite?
  }

  lemma CancelledStep(s: State, step: Step, run: nat)
    requires OwnerInv(s) && Enabled(s, step) && CancelledFor(s, run)
    ensures CancelledFor(Apply(s, step), run)
    ensures forall e :: e in Apply(s, step).commits && e.run == run ==> e in s.commits
  {
    var t := Apply(s, step);
    if step.Advance? {
      var c := step.call;
      assert CallOk(s, s.calls[c]);
      if s.calls[c].Drive? {
        CancelledDrive(s, c, step.choice, run);
      } else {
        OtherRespectsToken(s, c, step.choice, run);
      }
    }
  }

  lemma OtherRespectsToken(s: State, c: nat, choice: Choice, run: nat)
    requires Enabled(s, Advance(c, choice)) && !s.calls[c].Drive? && CallOk(s, s.calls[c]) && CancelledFor(s, run)
    ensures
      var t := Apply(s, Advance(c, choice));
      && run in t.runs && t.runs[run].cancelled && t.commits == s.commits
      && |t.calls| == |s.calls| && forall d :: d in t.calls && d.Drive? ==> d in s.calls
  {
  }

  /** Drive `c` does not load the cancelled token as clear, and writes nothing unless it already had. */
  predicate RespectsToken(s: State, t: State, c: nat, run: nat) {
    && MovesDrive(s, t, c)
    && RunOf(t, run).cancelled && (run in s.runs ==> run in t.runs)
    && (t.commits == s.commits || s.calls[c].drive.CommitWrite?)
    && !(t.calls[c].run == run && t.calls[c].drive.CommitWrite?)
  }

  lemma TransactionToken(s: State, c: nat, choice: Choice, run: nat)
    requires c < |s.calls| && s.calls[c].Drive? && RunOf(s, run).cancelled
    requires s.calls[c].run == run ==> !s.calls[c].drive.CommitWrite?
    ensures RespectsToken(s, AdvanceTransaction(s, c, choice), c, run)
  {
  }

  lemma CommitRespectsToken(s: State, c: nat, run: nat)
    requires c < |s.calls| && s.calls[c].Drive? && RunOf(s, run).cancelled
    requires s.calls[c].run == run ==> !s.calls[c].drive.CommitWrite?
    ensures RespectsToken(s, AdvanceCommit(s, c), c, run)
  {
  }

  lemma SettlementToken(s: State, c: nat, choice: Choice, run: nat)
    requires c < |s.calls| && s.calls[c].Drive? && RunOf(s, run).cancelled
    requires s.calls[c].run == run ==> !s.calls[c].drive.CommitWrite?
    ensures RespectsToken(s, AdvanceSettlement(s, c, choice), c, run)
  {
  }

  lemma CancelledDrive(s: State, c: nat, choice: Choice, run: nat)
    requires c < |s.calls| && s.calls[c].Drive? && CancelledFor(s, run)
    ensures CancelledFor(AdvanceDrive(s, c, choice), run)
    ensures forall e :: e in AdvanceDrive(s, c, choice).commits && e.run == run ==> e in s.commits
  {
    var t := AdvanceDrive(s, c, choice);
    assert s.calls[c] in s.calls;
    TransactionToken(s, c, choice, run);
    CommitRespectsToken(s, c, run);
    SettlementToken(s, c, choice, run);
    assert RespectsToken(s, t, c, run);
    forall d | d in t.calls && d.Drive? && d.run == run ensures !d.drive.CommitWrite? {
      assert d == t.calls[c] || d in s.calls;
    }
    if s.calls[c].drive.CommitWrite? {
      assert t.commits == s.commits || t.commits == s.commits + [Commit(c, s.calls[c].run, t.messages)];
    }
  }

  lemma CancelledNext(states: seq<State>, steps: seq<Step>, initial: seq<Message>, run: nat, n: nat)
    requires Execution(states, steps, initial) && n < |steps| && CancelledFor(states[n], run)
    ensures CancelledFor(states[n + 1], run)
    ensures forall e :: e in states[n + 1].commits && e.run == run ==> e in states[n].commits
  {
    Reached(states, steps, initial, n);
    CancelledStep(states[n], steps[n], run);
  }

  /** After the token has been cancelled, no drive of the run replaces the history unless it had passed its check. */
  lemma {:induction false} NoCommitAfterCancel(states: seq<State>, steps: seq<Step>, initial: seq<Message>,
      run: nat, from: nat, n: nat)
    requires Execution(states, steps, initial) && from <= n < |states|
    requires CancelledFor(states[from], run)
    ensures CancelledFor(states[n], run)
    ensures forall e :: e in states[n].commits && e.run == run ==> e in states[from].commits
    decreases n - from
  {
    if from < n {
      NoCommitAfterCancel(states, steps, initial, run, from, n - 1);
      CancelledNext(states, steps, initial, run, n - 1);
    }
  }

  // ----- Agents that can never be used again

  /** The agent is busy, and nobody is left who could release it. */
  ghost predicate Stuck(s: State) {
    !s.phase.Idle? && (s.owner.None? || RunOf(s, s.owner.value).dropped)
  }

  lemma StuckStep(s: State, step: Step)
    requires OwnerInv(s) && HandleInv(s) && Enabled(s, step) && Stuck(s)
    ensures Stuck(Apply(s, step)) && Apply(s, step).owner == s.owner && Apply(s, step).messages == s.messages
  {
    if step.Advance? {
      var c := step.call;
      assert CallOk(s, s.calls[c]);
      match s.calls[c]
      case Reserve(_, _) =>
      case Drive(_, _, _, _) => StuckDrive(s, c, step.choice);
      case AbortHandle(_, _) => StuckAbort(s, c);
      case AbortAgent(_, _) => StuckAbort(s, c);
    }
  }

  lemma StuckDrive(s: State, c: nat, choice: Choice)
    requires OwnerInv(s) && HandleInv(s) && c < |s.calls| && s.calls[c].Drive? && Stuck(s)
    requires Driving(s.calls[c], s.calls[c].run)
    ensures
      var t := AdvanceDrive(s, c, choice);
      Stuck(t) && t.owner == s.owner && t.messages == s.messages
  {
    var stage := s.calls[c].drive;
    assert CallOk(s, s.calls[c]);
    assert s.owner != Some(s.calls[c].run);
    if !stage.Finishing? {
      DriveFrames(s, c, choice);
      if !stage.CommitWrite? {
        DriveKeepsMessages(s, c, choice);
      }
    }
  }

  lemma DriveKeepsMessages(s: State, c: nat, choice: Choice)
    requires c < |s.calls| && s.calls[c].Drive? && !s.calls[c].drive.CommitWrite?
    ensures AdvanceDrive(s, c, choice).messages == s.messages
  {
  }

  lemma StuckAbort(s: State, c: nat)
    requires OwnerInv(s) && c < |s.calls| && Stuck(s)
    ensures s.calls[c].AbortHandle? ==>
      var t := AdvanceAbortHandle(s, c);
      Stuck(t) && t.owner == s.owner && t.messages == s.messages
    ensures s.calls[c].AbortAgent? ==>
      var t := AdvanceAbortAgent(s, c);
      Stuck(t) && t.owner == s.owner && t.messages == s.messages
  {
  }

  /** A stuck agent stays stuck whatever is called: it is never idle, reserved or changed again. */
  lemma {:induction false} StuckForever(states: seq<State>, steps: seq<Step>, initial: seq<Message>, from: nat, n: nat)
    requires Execution(states, steps, initial) && from <= n < |states| && Stuck(states[from])
    ensures Stuck(states[n]) && states[n].owner == states[from].owner && states[n].messages == states[from].messages
    decreases n - from
  {
    if from < n {
      StuckForever(states, steps, initial, from, n - 1);
      Reached(states, steps, initial, n - 1);
      StuckStep(states[n - 1], steps[n - 1]);
    }
  }

  /**
   An agent becomes stuck exactly when the handle of its unreleased run is dropped, or when the abort of a
   handle marks an agent that nobody owns.
   */
  lemma StuckArisesExactly(states: seq<State>, steps: seq<Step>, initial: seq<Message>, n: nat)
    requires Execution(states, steps, initial) && n < |steps| && !Stuck(states[n])
    ensures Stuck(states[n + 1]) <==>
      || (steps[n].DropHandle? && states[n].owner == Some(steps[n].run))
      || (steps[n].Advance? && MarksAgent(states[n].calls[steps[n].call]) && states[n].owner.None?)
  {
    Reached(states, steps, initial, n);
    if steps[n].Advance? {
      StuckByAdvance(states[n], steps[n].call, steps[n].choice);
    } else {
      StuckByStart(states[n], steps[n]);
    }
  }

  lemma StuckByStart(s: State, step: Step)
    requires OwnerInv(s) && Enabled(s, step) && !Stuck(s) && !step.Advance?
    ensures Stuck(Apply(s, step)) <==> step.DropHandle? && s.owner == Some(step.run)
  {
  }

  lemma StuckByAdvance(s: State, c: nat, choice: Choice)
    requires OwnerInv(s) && HandleInv(s) && Enabled(s, Advance(c, choice)) && !Stuck(s)
    ensures Stuck(Apply(s, Advance(c, choice))) <==> MarksAgent(s.calls[c]) && s.owner.None?
  {
    match s.calls[c]
    case Reserve(_, _) => NotStuckReserve(s, c);
    case Drive(_, _, _, _) => NotStuckDrive(s, c, choice);
    case AbortHandle(_, _) => NotStuckAbort(s, c);
    case AbortAgent(_, _) => NotStuckAbort(s, c);
  }

  lemma NotStuckReserve(s: State, c: nat)
    requires OwnerInv(s) && c < |s.calls| && s.calls[c].Reserve? && !Stuck(s)
    ensures !Stuck(AdvanceReserve(s, c))
  {
    assert CallOk(s, s.calls[c]);
  }

  predicate MarksAgent(call: Call) { call.AbortHandle? && call.abort.MarkAgent? }

  lemma NotStuckDrive(s: State, c: nat, choice: Choice)
    requires OwnerInv(s) && HandleInv(s) && c < |s.calls| && s.calls[c].Drive? && !Stuck(s)
    ensures !Stuck(AdvanceDrive(s, c, choice))
  {
    var stage := s.calls[c].drive;
    assert CallOk(s, s.calls[c]);
    if !stage.Finishing? && !stage.Releasing? {
      DriveFrames(s, c, choice);
    }
  }

  lemma NotStuckAbort(s: State, c: nat)
    requires OwnerInv(s) && c < |s.calls| && !Stuck(s)
    ensures s.calls[c].AbortHandle? ==>
      (Stuck(AdvanceAbortHandle(s, c)) <==> MarksAgent(s.calls[c]) && s.owner.None?)
    ensures s.calls[c].AbortAgent? ==> !Stuck(AdvanceAbortAgent(s, c))
  {
  }

  // ----- Agents that can be used again

  ghost predicate Reaches(s: State, t: State) {
    exists states, steps :: IsRun(states, steps) && states[0] == s && states[|states| - 1] == t
  }

  lemma ReachesSelf(s: State)
    ensures Reaches(s, s)
  {
    assert IsRun([s], []);
  }

  lemma ReachesStep(s: State, t: State, step: Step)
    requires Reaches(s, t) && Enabled(t, step)
    ensures Reaches(s, Apply(t, step))
  {
    var states, steps :| IsRun(states, steps) && states[0] == s && states[|states| - 1] == t;
    var more := states + [Apply(t, step)];
    assert IsRun(more, steps + [step]);
    assert more[0] == s && more[|more| - 1] == Apply(t, step);
  }

  ghost predicate CanFree(s: State) {
    exists t :: Reaches(s, t) && t.phase.Idle?
  }

  /** If nobody holds the agent lock, the owner can be released: by publishing, driving to a failed event, finishing. */
  lemma FreesUnlocked(s: State, t: State)
    requires Reaches(s, t) && OwnerInv(t) && HandleInv(t) && !Stuck(t) && t.lock.None?
    ensures CanFree(s)
  {
    if !t.phase.Idle? {
      var r := t.owner.value;
      if r !in t.runs {
        var c :| 0 <= c < |t.calls| && Publishes(t.calls[c]);
        assert CallOk(t, t.calls[c]);
        ReachesStep(s, t, Advance(c, Accept));
        FreesLive(s, AdvanceReserve(t, c), r);
      } else if t.runs[r].ended.Some? {
        var c :| 0 <= c < |t.calls| && Releases(t.calls[c]);
        ReachesStep(s, t, Advance(c, Accept));
      } else {
        FreesLive(s, t, r);
      }
    }
  }

  lemma FreesLive(s: State, t: State, r: nat)
    requires Reaches(s, t) && Live(t, r) && t.runs[r].ended.None? && t.lock.None?
    ensures CanFree(s)
  {
    var c := |t.calls|;
    var t1 := Apply(t, StartDrive(r));
    ReachesStep(s, t, StartDrive(r));
    assert t1.calls[c] == Drive(r, EmitStart, [], None);
    var t2 := Apply(t1, Advance(c, Fail));
    ReachesStep(s, t1, Advance(c, Fail));
    FreesFinishing(s, t2, c);
  }

  lemma FreesFinishing(s: State, t: State, c: nat)
    requires Reaches(s, t) && c < |t.calls| && t.calls[c].Drive? && t.calls[c].drive == Finishing(Failed)
    requires t.calls[c].run in t.runs && t.runs[t.calls[c].run].ended.None? && t.lock.None?
    ensures CanFree(s)
  {
    var t1 := Apply(t, Advance(c, Accept));
    ReachesStep(s, t, Advance(c, Accept));
    assert t1.calls[c].drive == Releasing && t1.lock.None?;
    ReachesStep(s, t1, Advance(c, Accept));
  }

  /** The holder of the lock returns it in at most two steps of its own. */
  lemma FreesLocked(s: State, t: State)
    requires Reaches(s, t) && OwnerInv(t) && HandleInv(t) && LockOk(t) && !Stuck(t)
    ensures CanFree(s)
    decreases if t.lock.None? then 0 else if t.calls[t.lock.value].drive.CommitWrite? then 1 else 2
  {
    if t.lock.None? {
      FreesUnlocked(s, t);
    } else {
      var c := t.lock.value;
      var u := Apply(t, Advance(c, Accept));
      assert HoldsLock(t.calls[c]);
      ReachesStep(s, t, Advance(c, Accept));
      OwnerStep(t, Advance(c, Accept));
      HandleStep(t, Advance(c, Accept));
      DriveLock(t, c, Accept);
      NotStuckDrive(t, c, Accept);
      CommitReturnsLock(t, c);
      FreesLocked(s, u);
    }
  }

  lemma CommitReturnsLock(s: State, c: nat)
    requires c < |s.calls| && HoldsLock(s.calls[c]) && s.lock == Some(c)
    ensures
      var t := AdvanceDrive(s, c, Accept);
      t.lock.None? || (s.calls[c].drive.CommitToken? && t.lock == Some(c) && t.calls[c].Drive?
        && t.calls[c].drive.CommitWrite?)
  {
  }

  /** In every reachable state the agent can become idle again exactly if it is not stuck. */
  lemma FreedExactly(states: seq<State>, steps: seq<Step>, initial: seq<Message>, n: nat)
    requires Execution(states, steps, initial) && n < |states|
    ensures CanFree(states[n]) <==> !Stuck(states[n])
  {
    Reached(states, steps, initial, n);
    var s := states[n];
    if Stuck(s) {
      forall t | Reaches(s, t) ensures !t.phase.Idle? {
        StuckReaches(s, t, initial);
      }
    } else {
      ReachesSelf(s);
      FreesLocked(s, s);
    }
  }

  lemma StuckReaches(s: State, t: State, initial: seq<Message>)
    requires Reaches(s, t) && OwnerInv(s) && HandleInv(s) && Stuck(s)
    ensures Stuck(t)
  {
    var states, steps :| IsRun(states, steps) && states[0] == s && states[|states| - 1] == t;
    StuckAlong(states, steps, |states| - 1);
  }

  lemma {:induction false} StuckAlong(states: seq<State>, steps: seq<Step>, n: nat)
    requires IsRun(states, steps) && n < |states|
    requires OwnerInv(states[0]) && HandleInv(states[0]) && Stuck(states[0])
    ensures OwnerInv(states[n]) && HandleInv(states[n]) && Stuck(states[n])
  {
    if n > 0 {
      StuckAlong(states, steps, n - 1);
      OwnerStep(states[n - 1], steps[n - 1]);
      HandleStep(states[n - 1], steps[n - 1]);
      StuckStep(states[n - 1], steps[n - 1]);
    }
  }

  /** A reservation on an idle agent, run to its end. */
  lemma Granting(initial: seq<Message>) returns (t: State)
    ensures Reaches(Init(initial), t) && Live(t, 0) && t.owner == Some(0) && t.phase == Running(0)
      && t.calls == [Reserve(0, Granted)]
    ensures t.runs[0] == Run(None, false, false) && t.messages == initial && t.lock.None? && t.commits == []
  {
    var s0 := Init(initial);
    ReachesSelf(s0);
    t := Apply(s0, StartReserve);
    ReachesStep(s0, s0, StartReserve);
    var i := 0;
    while i < 4
      invariant 0 <= i <= 4 && Reaches(s0, t)
      invariant t.messages == initial && t.lock.None? && t.commits == [] && t.compactor && |t.calls| == 1
      invariant t.calls[0] == Reserve(0, if i == 0 then Looking else if i == 1 then ReadingCompactor
                                         else if i == 2 then LookingAgain else if i == 3 then Publishing else Granted)
      invariant if i < 3 then t.phase == Idle else t.phase == Running(0) && t.owner == Some(0)
      invariant i == 4 ==> 0 in t.runs && t.runs[0] == Run(None, false, false)
    {
      ReachesStep(s0, t, Advance(0, Accept));
      t := Apply(t, Advance(0, Accept));
      i := i + 1;
    }
  }

  // ----- Drives of one handle

  /** Call `c` is the only drive of its run. */
  predicate Sole(s: State, c: nat) {
    && c < |s.calls| && s.calls[c].Drive?
    && forall d :: 0 <= d < |s.calls| && s.calls[d].Drive? && s.calls[d].run == s.calls[c].run ==> d == c
  }

  predicate HasSnapshot(stage: DriveStage) {
    BeforeCommit(stage) && !stage.EmitStart? && !stage.FirstCheck? && !stage.Snapshot? && !stage.EmitEnd?
      && !stage.Finishing?
  }

  /** While its run owns the agent, the only drive of a run holds a current snapshot. */
  ghost predicate SnapshotsCurrent(s: State) {
    forall c: nat :: Sole(s, c) && HasSnapshot(s.calls[c].drive) && s.owner == Some(s.calls[c].run) ==>
      s.calls[c].source == s.messages
  }

  /** Only the owner's drives change the conversation. */
  lemma OnlyOwnerWrites(s: State, step: Step)
    requires OwnerInv(s) && Enabled(s, step) && Apply(s, step).messages != s.messages
    ensures step.Advance? && s.calls[step.call].Drive? && s.calls[step.call].drive.CommitWrite?
    ensures s.owner == Some(s.calls[step.call].run)
  {
    if step.Advance? && s.calls[step.call].Drive? && !s.calls[step.call].drive.CommitWrite? {
      DriveKeepsMessages(s, step.call, step.choice);
    } else if !(step.Advance? && s.calls[step.call].Drive?) && !step.Abandon? {
      OtherStep(s, step);
    }
  }

  /** A drive's run never changes, and its snapshot only when it is taken. */
  predicate DrivesPersist(s: State, t: State) {
    && |s.calls| <= |t.calls|
    && (forall c :: 0 <= c < |s.calls| ==> (t.calls[c].Drive? <==> s.calls[c].Drive?))
    && (forall c :: 0 <= c < |s.calls| && s.calls[c].Drive? ==>
          && t.calls[c].run == s.calls[c].run
          && (HasSnapshot(t.calls[c].drive) ==>
                if HasSnapshot(s.calls[c].drive) then t.calls[c].source == s.calls[c].source
                else t.calls[c].source == s.messages == t.messages))
    && (forall c :: |s.calls| <= c < |t.calls| && t.calls[c].Drive? ==> !HasSnapshot(t.calls[c].drive))
  }

  lemma DrivePersists(s: State, c: nat, choice: Choice)
    requires c < |s.calls| && s.calls[c].Drive?
    ensures DrivesPersist(s, AdvanceDrive(s, c, choice))
    ensures s.calls[c].drive.CommitWrite? ==> !HasSnapshot(AdvanceDrive(s, c, choice).calls[c].drive)
  {
    if PastEnd(s.calls[c].drive) || s.calls[c].drive.EmitEnd? || s.calls[c].drive.EmitResult? {
      SettlementPersists(s, c, choice);
    } else if s.calls[c].drive.CommitLock? || HoldsLock(s.calls[c]) {
      CommitPersists(s, c);
    } else {
      TransactionPersists(s, c, choice);
    }
  }

  lemma SettlementPersists(s: State, c: nat, choice: Choice)
    requires c < |s.calls| && s.calls[c].Drive?
    requires PastEnd(s.calls[c].drive) || s.calls[c].drive.EmitEnd? || s.calls[c].drive.EmitResult?
    ensures DrivesPersist(s, AdvanceSettlement(s, c, choice))
  {
  }

  lemma CommitPersists(s: State, c: nat)
    requires c < |s.calls| && s.calls[c].Drive? && (s.calls[c].drive.CommitLock? || HoldsLock(s.calls[c]))
    ensures DrivesPersist(s, AdvanceCommit(s, c))
    ensures s.calls[c].drive.CommitWrite? ==> !HasSnapshot(AdvanceCommit(s, c).calls[c].drive)
  {
  }

  lemma TransactionPersists(s: State, c: nat, choice: Choice)
    requires c < |s.calls| && s.calls[c].Drive?
    requires BeforeCommit(s.calls[c].drive)
    ensures DrivesPersist(s, AdvanceTransaction(s, c, choice))
  {
  }

  lemma StepPersists(s: State, step: Step)
    requires Enabled(s, step)
    ensures DrivesPersist(s, Apply(s, step))
  {
    if step.Advance? && s.calls[step.call].Drive? {
      DrivePersists(s, step.call, step.choice);
    } else if !step.Abandon? {
      OtherStep(s, step);
    }
  }

  /** A run comes to own the agent before anyone drives it. */
  lemma NewOwnerUndriven(s: State, step: Step, c: nat)
    requires OwnerInv(s) && Enabled(s, step) && c < |s.calls| && s.calls[c].Drive?
    requires Apply(s, step).owner == Some(s.calls[c].run)
    ensures s.owner == Some(s.calls[c].run)
  {
    assert CallOk(s, s.calls[c]);
    if step.Advance? {
      var d := step.call;
      assert CallOk(s, s.calls[d]);
      if s.calls[d].Drive? && !s.calls[d].drive.Finishing? && !s.calls[d].drive.Releasing? {
        DriveFrames(s, d, step.choice);
      }
    }
  }

  lemma SnapshotStep(s: State, step: Step)
    requires OwnerInv(s) && Enabled(s, step) && SnapshotsCurrent(s)
    ensures SnapshotsCurrent(Apply(s, step))
  {
    var t := Apply(s, step);
    StepPersists(s, step);
    forall c: nat | Sole(t, c) && HasSnapshot(t.calls[c].drive) && t.owner == Some(t.calls[c].run)
      ensures t.calls[c].source == t.messages
    {
      assert c < |s.calls| && Sole(s, c);
      NewOwnerUndriven(s, step, c);
      if t.messages != s.messages {
        OnlyOwnerWrites(s, step);
        assert step.call == c;
        DrivePersists(s, c, step.choice);
      }
    }
  }

  lemma {:induction false} SnapshotsAlong(states: seq<State>, steps: seq<Step>, initial: seq<Message>, n: nat)
    requires Execution(states, steps, initial) && n < |states|
    ensures SnapshotsCurrent(states[n])
    decreases n
  {
    if n > 0 {
      SnapshotsAlong(states, steps, initial, n - 1);
      Reached(states, steps, initial, n - 1);
      SnapshotStep(states[n - 1], steps[n - 1]);
    }
  }

  /** A drive that is the only one of its handle replaces exactly the conversation it showed the compactor. */
  lemma SoleDriveReplacesItsSnapshot(states: seq<State>, steps: seq<Step>, initial: seq<Message>, n: nat, c: nat)
    requires Execution(states, steps, initial) && n < |steps|
    requires Sole(states[n], c) && steps[n].Advance? && steps[n].call == c && states[n].calls[c].drive.CommitWrite?
    requires states[n + 1].commits != states[n].commits
    ensures states[n].messages == states[n].calls[c].source
    ensures states[n + 1].messages == states[n].calls[c].drive.proposal
    ensures forall e :: e in states[n].commits ==> e.run != states[n].calls[c].run
  {
    var s := states[n];
    Reached(states, steps, initial, n);
    SnapshotsAlong(states, steps, initial, n);
    assert CallOk(s, s.calls[c]) && DriveOk(s.calls[c]);
    assert s.phase == Running(s.calls[c].run);
    assert forall e :: e in s.commits ==> CommitOk(s, e);
  }

  predicate ReplacedTwice(t: State, initial: seq<Message>, first: seq<Message>, second: seq<Message>) {
    && t.commits == [Commit(1, 0, first), Commit(2, 0, second)] && t.messages == second
    && |t.calls| == 3 && t.calls[2].Drive? && t.calls[2].source == initial
  }

  /** A handle driven twice at once can replace the conversation twice, the second time from a stale snapshot. */
  lemma TwoDrivesReplaceTwice(initial: seq<Message>, first: seq<Message>, second: seq<Message>)
    requires Valid(first) && Valid(second) && initial != first
    ensures exists t :: Reaches(Init(initial), t) && ReplacedTwice(t, initial, first, second)
  {
    var s0 := Init(initial);
    var s1 := Granting(initial);
    var s2 := Apply(s1, StartDrive(0));
    ReachesStep(s0, s1, StartDrive(0));
    var s3 := Apply(s2, StartDrive(0));
    ReachesStep(s0, s2, StartDrive(0));
    assert s3.calls[1] == s3.calls[2] == Drive(0, EmitStart, [], None);
    var s4 := Proposing(s0, s3, 1, 0, first);
    var s5 := Proposing(s0, s4, 2, 0, second);
    var s6 := Committing(s0, s5, 1, 0, first);
    var s7 := Committing(s0, s6, 2, 0, second);
    assert ReplacedTwice(s7, initial, first, second);
  }

  /** A drive runs alone up to its commit. */
  lemma Proposing(s: State, t: State, c: nat, r: nat, m: seq<Message>) returns (u: State)
    requires Reaches(s, t) && c < |t.calls| && t.calls[c] == Drive(r, EmitStart, [], None)
    requires t.lock.None? && r in t.runs && !t.runs[r].cancelled && Valid(m)
    ensures Reaches(s, u) && SameBut(t, u, c, r, CommitLock(m))
  {
    u := Asking(s, t, c, r);
    var u1 := Apply(u, Advance(c, Propose(m)));
    ReachesStep(s, u, Advance(c, Propose(m)));
    assert SameBut(t, u1, c, r, SecondCheck(m));
    var u2 := Apply(u1, Advance(c, Accept));
    ReachesStep(s, u1, Advance(c, Accept));
    assert SameBut(t, u2, c, r, Validating(m));
    u := Apply(u2, Advance(c, Accept));
    ReachesStep(s, u2, Advance(c, Accept));
  }

  /** Only drive `c` has moved: to `stage`, with the conversation as its snapshot. */
  predicate SameBut(t: State, u: State, c: nat, r: nat, stage: DriveStage) {
    && c < |t.calls| && u.calls == t.calls[c := Drive(r, stage, t.messages, None)]
    && u.runs == t.runs && u.phase == t.phase && u.lock == t.lock
    && u.messages == t.messages && u.commits == t.commits
  }

  lemma Asking(s: State, t: State, c: nat, r: nat) returns (u: State)
    requires Reaches(s, t) && c < |t.calls| && t.calls[c] == Drive(r, EmitStart, [], None)
    requires t.lock.None? && r in t.runs && !t.runs[r].cancelled
    ensures Reaches(s, u) && SameBut(t, u, c, r, Compacting)
  {
    var u1 := Apply(t, Advance(c, Accept));
    ReachesStep(s, t, Advance(c, Accept));
    assert u1.calls == t.calls[c := Drive(r, FirstCheck, [], None)];
    var u2 := Apply(u1, Advance(c, Accept));
    ReachesStep(s, u1, Advance(c, Accept));
    assert u2.calls == t.calls[c := Drive(r, Snapshot, [], None)];
    u := Apply(u2, Advance(c, Accept));
    ReachesStep(s, u2, Advance(c, Accept));
  }

  lemma Committing(s: State, t: State, c: nat, r: nat, m: seq<Message>) returns (u: State)
    requires Reaches(s, t) && c < |t.calls| && t.calls[c].Drive? && t.calls[c].run == r
      && t.calls[c].drive == CommitLock(m)
    requires t.lock.None? && r in t.runs && !t.runs[r].cancelled && t.phase == Running(r)
    ensures Reaches(s, u) && |u.calls| == |t.calls| && u.calls[c].Drive? && u.calls[c].source == t.calls[c].source
    ensures forall d :: 0 <= d < |t.calls| && d != c ==> u.calls[d] == t.calls[d]
    ensures u.runs == t.runs && u.phase == t.phase && u.lock.None?
    ensures u.messages == m && u.commits == t.commits + [Commit(c, r, m)]
  {
    var u1 := Apply(t, Advance(c, Accept));
    ReachesStep(s, t, Advance(c, Accept));
    assert u1.calls[c].drive == CommitToken(m);
    var u2 := Apply(u1, Advance(c, Accept));
    ReachesStep(s, u1, Advance(c, Accept));
    assert u2.calls[c].drive == CommitWrite(m);
    u := Apply(u2, Advance(c, Accept));
    ReachesStep(s, u2, Advance(c, Accept));
  }

  // ----- When a handle can replace the conversation once more

  /** How many replacements the drives of one run have made. */
  function RunCommits(commits: seq<Commit>, run: nat): nat {
    if commits == [] then 0
    else RunCommits(commits[..|commits| - 1], run) + if commits[|commits| - 1].run == run then 1 else 0
  }

  lemma RunCommitsPush(commits: seq<Commit>, e: Commit, run: nat)
    ensures RunCommits(commits + [e], run) == RunCommits(commits, run) + if e.run == run then 1 else 0
  {
    assert (commits + [e])[..|commits|] == commits;
  }

  predicate Writing(call: Call, run: nat) { call.Drive? && call.run == run && call.drive.CommitWrite? }

  /** The handle can still be driven and its token is clear, or one of its drives has already found it clear. */
  predicate MayCommit(s: State, run: nat) {
    && s.phase == Running(run)
    && ((Live(s, run) && !s.runs[run].cancelled) || exists c :: 0 <= c < |s.calls| && Writing(s.calls[c], run))
  }

  ghost predicate CommitsOnceMore(s: State, run: nat) {
    exists t :: Reaches(s, t) && RunCommits(t.commits, run) == RunCommits(s.commits, run) + 1
  }

  /** What a step leaves of runs and phase: no token or drop is taken back, and no old run begins to run. */
  predicate Ages(s: State, t: State) {
    && (forall r :: r in s.runs ==>
          r in t.runs && (s.runs[r].cancelled ==> t.runs[r].cancelled) && (s.runs[r].dropped ==> t.runs[r].dropped))
    && (forall r :: r in s.runs && t.phase == Running(r) ==> s.phase == Running(r))
  }

  /** Drive `c` writes at most once, and only for a running run; it comes to write only with a clear token. */
  ghost predicate Commits(s: State, t: State, c: nat) {
    && MovesDrive(s, t, c)
    && (t.commits == s.commits ||
        (Writing(s.calls[c], s.calls[c].run) && s.phase == Running(s.calls[c].run)
         && exists m :: t.commits == s.commits + [Commit(c, s.calls[c].run, m)]))
    && (t.calls[c].drive.CommitWrite? ==> s.calls[c].drive.CommitToken? && !RunOf(s, s.calls[c].run).cancelled)
  }

  lemma TransactionAges(s: State, c: nat, choice: Choice)
    requires c < |s.calls| && s.calls[c].Drive? && BeforeCommit(s.calls[c].drive)
    requires !s.calls[c].drive.CommitLock? && !HoldsLock(s.calls[c])
    ensures Ages(s, AdvanceTransaction(s, c, choice)) && Commits(s, AdvanceTransaction(s, c, choice), c)
  {
  }

  lemma CommitAges(s: State, c: nat)
    requires c < |s.calls| && s.calls[c].Drive? && (s.calls[c].drive.CommitLock? || HoldsLock(s.calls[c]))
    ensures Ages(s, AdvanceCommit(s, c)) && Commits(s, AdvanceCommit(s, c), c)
  {
  }

  lemma SettlementAges(s: State, c: nat, choice: Choice)
    requires c < |s.calls| && s.calls[c].Drive? && s.calls[c].run in s.runs
    requires s.calls[c].drive.EmitResult? || s.calls[c].drive.EmitEnd? || s.calls[c].drive.Finishing?
      || s.calls[c].drive.Releasing?
    ensures Ages(s, AdvanceSettlement(s, c, choice)) && Commits(s, AdvanceSettlement(s, c, choice), c)
  {
  }

  lemma DriveAges(s: State, c: nat, choice: Choice)
    requires c < |s.calls| && s.calls[c].Drive? && s.calls[c].run in s.runs && !Over(s.calls[c])
    ensures Ages(s, AdvanceDrive(s, c, choice)) && Commits(s, AdvanceDrive(s, c, choice), c)
  {
    match s.calls[c].drive
    case CommitLock(_) => CommitAges(s, c);
    case CommitToken(_) => CommitAges(s, c);
    case CommitWrite(_) => CommitAges(s, c);
    case EmitResult => SettlementAges(s, c, choice);
    case EmitEnd(_) => SettlementAges(s, c, choice);
    case Finishing(_) => SettlementAges(s, c, choice);
    case Releasing => SettlementAges(s, c, choice);
    case _ => TransactionAges(s, c, choice);
  }

  lemma ReserveAges(s: State, c: nat)
    requires c < |s.calls| && s.calls[c].Reserve? && CallOk(s, s.calls[c])
    ensures Ages(s, AdvanceReserve(s, c))
  {
  }

  lemma AbortAges(s: State, c: nat)
    requires c < |s.calls| && CallOk(s, s.calls[c])
    ensures s.calls[c].AbortHandle? ==> Ages(s, AdvanceAbortHandle(s, c))
    ensures s.calls[c].AbortAgent? ==> Ages(s, AdvanceAbortAgent(s, c))
  {
  }

  lemma StepAges(s: State, step: Step)
    requires OwnerInv(s) && Enabled(s, step)
    ensures Ages(s, Apply(s, step))
  {
    if step.Advance? {
      var c := step.call;
      assert CallOk(s, s.calls[c]);
      match s.calls[c]
      case Reserve(_, _) => ReserveAges(s, c);
      case Drive(_, _, _, _) => DriveAges(s, c, step.choice);
      case AbortHandle(_, _) => AbortAges(s, c);
      case AbortAgent(_, _) => AbortAges(s, c);
    }
  }

  /** Once a run may commit no more it never may again, and it makes no replacement on the way. */
  lemma SpentStep(s: State, step: Step, run: nat)
    requires OwnerInv(s) && HandleInv(s) && Enabled(s, step) && run in s.runs && !MayCommit(s, run)
    ensures run in Apply(s, step).runs && !MayCommit(Apply(s, step), run)
    ensures RunCommits(Apply(s, step).commits, run) == RunCommits(s.commits, run)
  {
    StepAges(s, step);
    if step.Advance? && s.calls[step.call].Drive? {
      assert CallOk(s, s.calls[step.call]);
      DriveAges(s, step.call, step.choice);
      SpentDrive(s, Apply(s, step), step.call, run);
    } else if step.Abandon? {
      SpentDrive(s, Apply(s, step), step.call, run);
    } else {
      OtherStep(s, step);
      SpentOther(s, Apply(s, step), run);
    }
  }

  lemma SpentDrive(s: State, t: State, c: nat, run: nat)
    requires HandleInv(s) && run in s.runs && !MayCommit(s, run) && Ages(s, t) && Commits(s, t, c)
    ensures !MayCommit(t, run) && RunCommits(t.commits, run) == RunCommits(s.commits, run)
  {
    if t.commits != s.commits {
      var m :| t.commits == s.commits + [Commit(c, s.calls[c].run, m)];
      RunCommitsPush(s.commits, Commit(c, s.calls[c].run, m), run);
    }
    if t.phase == Running(run) {
      NobodyComesToWrite(s, t, c, run);
    }
  }

  /** Only a drive of a live handle with a clear token comes to its write. */
  lemma NobodyComesToWrite(s: State, t: State, c: nat, run: nat)
    requires HandleInv(s) && run in s.runs && s.phase == Running(run) && !MayCommit(s, run) && Commits(s, t, c)
    ensures forall d :: 0 <= d < |t.calls| ==> !Writing(t.calls[d], run)
  {
    forall d | 0 <= d < |t.calls| ensures !Writing(t.calls[d], run) {
      if d != c {
        assert !Writing(s.calls[d], run) && t.calls[d] == s.calls[d];
      }
    }
  }

  lemma SpentOther(s: State, t: State, run: nat)
    requires run in s.runs && !MayCommit(s, run) && Ages(s, t) && KeepsDrives(s, t)
    ensures !MayCommit(t, run) && RunCommits(t.commits, run) == RunCommits(s.commits, run)
  {
    if c :| 0 <= c < |t.calls| && Writing(t.calls[c], run) {
      assert c < |s.calls| && t.calls[c] == s.calls[c];
    }
  }

  lemma {:induction false} SpentAlong(states: seq<State>, steps: seq<Step>, run: nat, n: nat)
    requires IsRun(states, steps) && n < |states|
    requires OwnerInv(states[0]) && HandleInv(states[0]) && run in states[0].runs && !MayCommit(states[0], run)
    ensures OwnerInv(states[n]) && HandleInv(states[n]) && run in states[n].runs && !MayCommit(states[n], run)
    ensures RunCommits(states[n].commits, run) == RunCommits(states[0].commits, run)
  {
    if n > 0 {
      SpentAlong(states, steps, run, n - 1);
      OwnerStep(states[n - 1], steps[n - 1]);
      HandleStep(states[n - 1], steps[n - 1]);
      SpentStep(states[n - 1], steps[n - 1], run);
    }
  }

  /** A live handle with a clear token is driven to a commit of the empty conversation. */
  lemma MoreUnlocked(s: State, t: State, run: nat)
    requires Reaches(s, t) && t.lock.None? && t.phase == Running(run) && Live(t, run) && !t.runs[run].cancelled
    requires RunCommits(t.commits, run) == RunCommits(s.commits, run)
    ensures CommitsOnceMore(s, run)
  {
    var c := |t.calls|;
    var t1 := Apply(t, StartDrive(run));
    ReachesStep(s, t, StartDrive(run));
    assert t1.calls[c] == Drive(run, EmitStart, [], None);
    assert Valid([]);
    var t2 := Proposing(s, t1, c, run, []);
    var t3 := Committing(s, t2, c, run, []);
    RunCommitsPush(t2.commits, Commit(c, run, []), run);
  }

  /** The holder of the lock writes for the run, or returns the lock and leaves the run as it is. */
  lemma MoreLocked(s: State, t: State, run: nat)
    requires Reaches(s, t) && OwnerInv(t) && HandleInv(t) && LockOk(t) && MayCommit(t, run) && run in t.runs
    requires RunCommits(t.commits, run) == RunCommits(s.commits, run)
    ensures CommitsOnceMore(s, run)
    decreases if t.lock.None? then 0 else if t.calls[t.lock.value].drive.CommitWrite? then 1 else 2
  {
    if t.lock.None? {
      NobodyWrites(t, run);
      MoreUnlocked(s, t, run);
    } else {
      var c := t.lock.value;
      assert HoldsLock(t.calls[c]);
      var u := Apply(t, Advance(c, Accept));
      ReachesStep(s, t, Advance(c, Accept));
      if Writing(t.calls[c], run) {
        RunCommitsPush(t.commits, Commit(c, run, t.calls[c].drive.proposal), run);
      } else {
        LockPasses(t, c, run);
        OwnerStep(t, Advance(c, Accept));
        HandleStep(t, Advance(c, Accept));
        DriveLock(t, c, Accept);
        CommitReturnsLock(t, c);
        MoreLocked(s, u, run);
      }
    }
  }

  lemma NobodyWrites(t: State, run: nat)
    requires LockOk(t) && t.lock.None?
    ensures forall c :: 0 <= c < |t.calls| ==> !Writing(t.calls[c], run)
  {
    forall c: nat | c < |t.calls| ensures !Writing(t.calls[c], run) {
      assert t.lock != Some(c);
    }
  }

  lemma LockPasses(t: State, c: nat, run: nat)
    requires LockOk(t) && t.lock == Some(c) && c < |t.calls| && HoldsLock(t.calls[c]) && MayCommit(t, run)
      && run in t.runs
    requires !Writing(t.calls[c], run)
    ensures MayCommit(AdvanceDrive(t, c, Accept), run) && AdvanceDrive(t, c, Accept).commits == t.commits
    ensures run in AdvanceDrive(t, c, Accept).runs
  {
    forall d: nat | d < |t.calls| ensures !Writing(t.calls[d], run) {
      assert t.lock == Some(d) ==> d == c;
    }
  }

  /**
   In every reachable state, the conversation can be replaced once more by a drive of a handle if and only if the
   handle's run is running and either its token is clear and it has not been dropped, or one of its drives is at its
   write.
   */
  lemma CommitsOnceMoreExactly(states: seq<State>, steps: seq<Step>, initial: seq<Message>, n: nat, run: nat)
    requires Execution(states, steps, initial) && n < |states| && run in states[n].runs
    ensures CommitsOnceMore(states[n], run) <==> MayCommit(states[n], run)
  {
    Reached(states, steps, initial, n);
    var s := states[n];
    if MayCommit(s, run) {
      ReachesSelf(s);
      MoreLocked(s, s, run);
    } else {
      forall t | Reaches(s, t) ensures RunCommits(t.commits, run) == RunCommits(s.commits, run) {
        var path, moves :| IsRun(path, moves) && path[0] == s && path[|path| - 1] == t;
        SpentAlong(path, moves, run, |path| - 1);
      }
    }
  }

  // ----- Handles driven one drive after the other

  predicate IsDriveOf(call: Call, run: nat) { call.Drive? && call.run == run }

  /** Of any two drives of the run, one has returned. */
  ghost predicate OneOpen(s: State, run: nat) {
    forall c, d :: 0 <= c < d < |s.calls| && IsDriveOf(s.calls[c], run) && IsDriveOf(s.calls[d], run) ==>
      s.calls[c].drive.Driven? || s.calls[d].drive.Driven?
  }

  /** A drive that has returned leaves no run running. */
  ghost predicate ReturnedEnds(s: State, run: nat) {
    forall c :: 0 <= c < |s.calls| && IsDriveOf(s.calls[c], run) && s.calls[c].drive.Driven? ==> s.phase != Running(run)
  }

  ghost predicate OneByOne(s: State, run: nat) {
    OneOpen(s, run) && ReturnedEnds(s, run) && RunCommits(s.commits, run) <= 1
  }

  /** A drive is begun only when every earlier one of its handle has returned. */
  ghost predicate Sequential(states: seq<State>, steps: seq<Step>, run: nat)
    requires |states| == |steps| + 1
  {
    forall i :: 0 <= i < |steps| && steps[i] == StartDrive(run) ==> AllReturned(states[i], run)
  }

  lemma NoRunCommits(commits: seq<Commit>, run: nat)
    requires forall e :: e in commits ==> e.run != run
    ensures RunCommits(commits, run) == 0
  {
    if commits != [] {
      NoRunCommits(commits[..|commits| - 1], run);
      assert commits[|commits| - 1] in commits;
    }
  }

  lemma OnlyDrive(s: State, c: nat, run: nat)
    requires OneOpen(s, run) && ReturnedEnds(s, run) && c < |s.calls| && IsDriveOf(s.calls[c], run)
      && s.phase == Running(run)
    ensures forall d :: 0 <= d < |s.calls| && IsDriveOf(s.calls[d], run) ==> d == c
  {
  }

  /** When a drive of the run writes, it is the only one and has written nothing before. */
  lemma FirstWrite(s: State, c: nat, run: nat, initial: seq<Message>)
    requires Inv(s, initial) && OneOpen(s, run) && ReturnedEnds(s, run) && c < |s.calls|
    requires Writing(s.calls[c], run) && s.phase == Running(run)
    ensures RunCommits(s.commits, run) == 0
  {
    OnlyDrive(s, c, run);
    assert DriveOk(s.calls[c]);
    forall e | e in s.commits ensures e.run != run {
      assert CommitOk(s, e);
    }
    NoRunCommits(s.commits, run);
  }

  /** A drive that finds its run ended returns only after the agent has been released. */
  lemma EndedIsReleased(s: State, c: nat, run: nat)
    requires OwnerInv(s) && HandleInv(s) && OneOpen(s, run) && run in s.runs && s.runs[run].ended.Some?
    requires c < |s.calls| && IsDriveOf(s.calls[c], run) && s.calls[c].drive.Finishing?
    ensures s.phase != Running(run)
  {
    forall d | 0 <= d < |s.calls| && Releases(s.calls[d]) ensures s.owner != Some(run) {
      assert CallOk(s, s.calls[d]);
    }
  }

  predicate Returned(s: State, c: nat) { c < |s.calls| && s.calls[c].Drive? && s.calls[c].drive.Driven? }

  lemma ReturnReleases(s: State, c: nat, choice: Choice, run: nat)
    requires OwnerInv(s) && HandleInv(s) && OneOpen(s, run) && c < |s.calls| && IsDriveOf(s.calls[c], run)
      && !Over(s.calls[c])
    ensures Returned(AdvanceDrive(s, c, choice), c) ==> AdvanceDrive(s, c, choice).phase != Running(run)
  {
    assert CallOk(s, s.calls[c]);
    if s.calls[c].drive.Finishing? && s.runs[run].ended.Some? {
      EndedIsReleased(s, c, run);
    }
  }

  lemma OneByOneDrive(s: State, c: nat, choice: Choice, run: nat, initial: seq<Message>)
    requires Inv(s, initial) && OneByOne(s, run) && run in s.runs && Enabled(s, Advance(c, choice)) && s.calls[c].Drive?
    ensures OneByOne(AdvanceDrive(s, c, choice), run)
  {
    var t := AdvanceDrive(s, c, choice);
    assert CallOk(s, s.calls[c]);
    DriveAges(s, c, choice);
    forall d | 0 <= d < |t.calls| && IsDriveOf(t.calls[d], run) && t.calls[d].drive.Driven?
      ensures t.phase != Running(run) {
      if d == c {
        ReturnReleases(s, c, choice, run);
      } else {
        assert t.calls[d] == s.calls[d];
      }
    }
    if t.commits != s.commits {
      var m :| t.commits == s.commits + [Commit(c, s.calls[c].run, m)];
      RunCommitsPush(s.commits, Commit(c, s.calls[c].run, m), run);
      if s.calls[c].run == run {
        FirstWrite(s, c, run, initial);
      }
    }
  }

  lemma NewCalls(s: State, step: Step, run: nat)
    requires Enabled(s, step) && !(step.Advance? && s.calls[step.call].Drive?)
    ensures |Apply(s, step).calls| <= |s.calls| + 1
    ensures |Apply(s, step).calls| == |s.calls| + 1 && IsDriveOf(Apply(s, step).calls[|s.calls|], run) ==>
      step == StartDrive(run)
  {
  }

  ghost predicate AllReturned(s: State, run: nat) {
    forall c :: 0 <= c < |s.calls| && IsDriveOf(s.calls[c], run) ==> s.calls[c].drive.Driven?
  }

  lemma OneByOneKept(s: State, t: State, run: nat)
    requires OneByOne(s, run) && run in s.runs && Ages(s, t) && KeepsDrives(s, t) && |t.calls| <= |s.calls| + 1
    requires |t.calls| == |s.calls| + 1 && IsDriveOf(t.calls[|s.calls|], run) ==> AllReturned(s, run)
    ensures OneByOne(t, run)
  {
    forall c | 0 <= c < |s.calls| && IsDriveOf(t.calls[c], run) ensures t.calls[c] == s.calls[c] {
      assert s.calls[c].Drive?;
    }
  }

  lemma OneByOneAbandon(s: State, c: nat, run: nat)
    requires OneByOne(s, run) && Enabled(s, Abandon(c))
    ensures OneByOne(Apply(s, Abandon(c)), run)
  {
    var t := Apply(s, Abandon(c));
    assert forall d :: 0 <= d < |t.calls| && d != c ==> t.calls[d] == s.calls[d];
  }

  lemma OneByOneOther(s: State, step: Step, run: nat)
    requires OwnerInv(s) && OneByOne(s, run) && run in s.runs && Enabled(s, step)
    requires !(step.Advance? && s.calls[step.call].Drive?)
    requires step == StartDrive(run) ==> AllReturned(s, run)
    ensures OneByOne(Apply(s, step), run)
  {
    if step.Abandon? {
      OneByOneAbandon(s, step.call, run);
    } else {
      StepAges(s, step);
      OtherStep(s, step);
      NewCalls(s, step, run);
      OneByOneKept(s, Apply(s, step), run);
    }
  }

  lemma NoRunYet(s: State, run: nat, initial: seq<Message>)
    requires Inv(s, initial) && run !in s.runs
    ensures OneByOne(s, run)
  {
    forall c | 0 <= c < |s.calls| ensures !IsDriveOf(s.calls[c], run) {
      assert CallOk(s, s.calls[c]);
    }
    forall e | e in s.commits ensures e.run != run {
      assert CommitOk(s, e);
    }
    NoRunCommits(s.commits, run);
  }

  lemma {:induction false} OneByOneAlong(states: seq<State>, steps: seq<Step>, initial: seq<Message>, run: nat, n: nat)
    requires Execution(states, steps, initial) && n < |states| && Sequential(states, steps, run)
    ensures OneByOne(states[n], run)
    decreases n
  {
    if n == 0 {
      assert states[0].calls == [] && states[0].commits == [];
    } else {
      OneByOneAlong(states, steps, initial, run, n - 1);
      OneByOneNext(states, steps, initial, run, n - 1);
    }
  }

  lemma OneByOneNext(states: seq<State>, steps: seq<Step>, initial: seq<Message>, run: nat, n: nat)
    requires Execution(states, steps, initial) && n < |steps| && Sequential(states, steps, run)
      && OneByOne(states[n], run)
    ensures OneByOne(states[n + 1], run)
  {
    Reached(states, steps, initial, n);
    var (s, step) := (states[n], steps[n]);
    assert step == StartDrive(run) ==> AllReturned(s, run);
    OneByOneStep(s, step, run, initial);
  }

  lemma OneByOneStep(s: State, step: Step, run: nat, initial: seq<Message>)
    requires Inv(s, initial) && OneByOne(s, run) && Enabled(s, step)
    requires step == StartDrive(run) ==> AllReturned(s, run)
    ensures OneByOne(Apply(s, step), run)
  {
    if run !in s.runs {
      NewRunUndriven(s, step, run, initial);
    } else if step.Advance? && s.calls[step.call].Drive? {
      OneByOneDrive(s, step.call, step.choice, run, initial);
    } else {
      OneByOneOther(s, step, run);
    }
  }

  lemma NewRunUndriven(s: State, step: Step, run: nat, initial: seq<Message>)
    requires Inv(s, initial) && Enabled(s, step) && run !in s.runs
    ensures OneByOne(Apply(s, step), run)
  {
    var t := Apply(s, step);
    NoDriveYet(s, step, run);
    NoRunYet(s, run, initial);
    NoCommitYet(s, step, run);
  }

  lemma NoDriveYet(s: State, step: Step, run: nat)
    requires OwnerInv(s) && Enabled(s, step) && run !in s.runs
    ensures forall c :: 0 <= c < |Apply(s, step).calls| ==> !IsDriveOf(Apply(s, step).calls[c], run)
  {
    forall c | 0 <= c < |s.calls| ensures !IsDriveOf(s.calls[c], run) {
      assert CallOk(s, s.calls[c]);
    }
    if step.Advance? && s.calls[step.call].Drive? {
      assert CallOk(s, s.calls[step.call]);
      DriveAges(s, step.call, step.choice);
    } else if !step.Abandon? {
      OtherStep(s, step);
      NewCalls(s, step, run);
    }
  }

  lemma NoCommitYet(s: State, step: Step, run: nat)
    requires OwnerInv(s) && Enabled(s, step) && run !in s.runs
    ensures RunCommits(Apply(s, step).commits, run) == RunCommits(s.commits, run)
  {
    var t := Apply(s, step);
    if step.Advance? && s.calls[step.call].Drive? {
      assert CallOk(s, s.calls[step.call]);
      DriveAges(s, step.call, step.choice);
      if t.commits != s.commits {
        var m :| t.commits == s.commits + [Commit(step.call, s.calls[step.call].run, m)];
        RunCommitsPush(s.commits, Commit(step.call, s.calls[step.call].run, m), run);
      }
    } else if !step.Abandon? {
      OtherStep(s, step);
    }
  }

  /** A handle whose drives are begun one after the other's return replaces the conversation at most once. */
  lemma SequentialDrivesReplaceOnce(states: seq<State>, steps: seq<Step>, initial: seq<Message>, run: nat, n: nat)
    requires Execution(states, steps, initial) && n < |states| && Sequential(states, steps, run)
    ensures RunCommits(states[n].commits, run) <= 1
  {
    OneByOneAlong(states, steps, initial, run, n);
  }

  // ----- How agents become stuck

  /** Only drives end runs. */
  ghost predicate EndedDriven(s: State) {
    forall r :: r in s.runs && s.runs[r].ended.Some? ==> HasDrive(s, r)
  }

  ghost predicate HasDrive(s: State, run: nat) { exists c :: 0 <= c < |s.calls| && IsDriveOf(s.calls[c], run) }

  lemma DrivesStay(s: State, step: Step, run: nat)
    requires Enabled(s, step) && HasDrive(s, run)
    ensures HasDrive(Apply(s, step), run)
  {
    StepPersists(s, step);
    var c :| 0 <= c < |s.calls| && IsDriveOf(s.calls[c], run);
    assert IsDriveOf(Apply(s, step).calls[c], run);
  }

  /** Nobody has ended a run, but for the given one. */
  predicate EndsOnly(s: State, t: State, run: Option<nat>) {
    forall r :: r in t.runs && t.runs[r].ended.Some? ==> (r in s.runs && s.runs[r].ended.Some?) || run == Some(r)
  }

  lemma DriveEnds(s: State, c: nat, choice: Choice)
    requires c < |s.calls| && s.calls[c].Drive?
    ensures EndsOnly(s, AdvanceDrive(s, c, choice), Some(s.calls[c].run))
  {
    if !s.calls[c].drive.Finishing? && !s.calls[c].drive.Releasing? {
      DriveFrames(s, c, choice);
    }
  }

  lemma ReserveEnds(s: State, c: nat)
    requires c < |s.calls| && s.calls[c].Reserve?
    ensures EndsOnly(s, AdvanceReserve(s, c), None)
  {
  }

  lemma AbortEnds(s: State, c: nat)
    requires c < |s.calls|
    ensures s.calls[c].AbortHandle? ==> EndsOnly(s, AdvanceAbortHandle(s, c), None)
    ensures s.calls[c].AbortAgent? ==> EndsOnly(s, AdvanceAbortAgent(s, c), None)
  {
  }

  /** A step ends no run, but for the one whose drive it finishes. */
  lemma EndsOwnRun(s: State, step: Step)
    requires Enabled(s, step)
    ensures EndsOnly(s, Apply(s, step),
      if step.Advance? && s.calls[step.call].Drive? then Some(s.calls[step.call].run) else None)
  {
    if step.Advance? {
      match s.calls[step.call]
      case Reserve(_, _) => ReserveEnds(s, step.call);
      case Drive(_, _, _, _) => DriveEnds(s, step.call, step.choice);
      case AbortHandle(_, _) => AbortEnds(s, step.call);
      case AbortAgent(_, _) => AbortEnds(s, step.call);
    }
  }

  lemma EndedDrivenStep(s: State, step: Step)
    requires OwnerInv(s) && Enabled(s, step) && EndedDriven(s)
    ensures EndedDriven(Apply(s, step))
  {
    var t := Apply(s, step);
    EndsOwnRun(s, step);
    forall r | r in t.runs && t.runs[r].ended.Some? ensures HasDrive(t, r) {
      assert step.Advance? && s.calls[step.call].Drive? ==> IsDriveOf(s.calls[step.call], s.calls[step.call].run);
      DrivesStay(s, step, r);
    }
  }

  lemma {:induction false} EndedDrivenAlong(states: seq<State>, steps: seq<Step>, initial: seq<Message>, n: nat)
    requires Execution(states, steps, initial) && n < |states|
    ensures EndedDriven(states[n])
    decreases n
  {
    if n > 0 {
      EndedDrivenAlong(states, steps, initial, n - 1);
      Reached(states, steps, initial, n - 1);
      EndedDrivenStep(states[n - 1], steps[n - 1]);
    }
  }

  /** In every reachable state, a handle that nobody has driven can be dropped, and that makes its agent unusable. */
  lemma UndrivenDropSticks(states: seq<State>, steps: seq<Step>, initial: seq<Message>, n: nat, run: nat)
    requires Execution(states, steps, initial) && n < |states| && Live(states[n], run) && !HasDrive(states[n], run)
    ensures Enabled(states[n], DropHandle(run)) && Stuck(Apply(states[n], DropHandle(run)))
  {
    var s := states[n];
    Reached(states, steps, initial, n);
    EndedDrivenAlong(states, steps, initial, n);
    forall c | c in s.calls ensures !Driving(c, run) {
      var k :| 0 <= k < |s.calls| && s.calls[k] == c;
      assert !IsDriveOf(s.calls[k], run);
    }
  }

  /** Such a handle exists: a reservation that has just been granted. */
  lemma UndrivenHandleExists(initial: seq<Message>)
    ensures exists t :: Reaches(Init(initial), t) && Live(t, 0) && !HasDrive(t, 0)
  {
    var t := Granting(initial);
    assert !HasDrive(t, 0);
  }

  /** An abort that has passed its checks while the run is finished and released still marks the agent. */
  predicate LateAbort(t: State) {
    && t.phase.Idle? && t.owner.None? && |t.calls| > 1 && MarksAgent(t.calls[1]) && Enabled(t, Advance(1, Accept))
  }

  lemma LateAbortSticks(initial: seq<Message>)
    ensures exists t :: Reaches(Init(initial), t) && LateAbort(t) && !Stuck(t) && Stuck(Apply(t, Advance(1, Accept)))
  {
    var s0 := Init(initial);
    var granted := Granting(initial);
    var s1 := LateMark(s0, granted);
    var s2 := Apply(s1, StartDrive(0));
    ReachesStep(s0, s1, StartDrive(0));
    assert s2.calls[2] == Drive(0, EmitStart, [], None);
    var s3 := FailedDrive(s0, s2);
    assert LateAbort(s3);
  }

  /** An abort of the first run's handle comes as far as its last step. */
  lemma LateMark(s: State, t: State) returns (u: State)
    requires Reaches(s, t) && |t.calls| == 1 && 0 in t.runs && t.runs[0] == Run(None, false, false)
    requires Enabled(t, StartAbort(0))
    ensures Reaches(s, u) && u.calls == t.calls + [AbortHandle(0, MarkAgent)]
    ensures u == t.(calls := u.calls, runs := t.runs[0 := Run(None, true, false)])
  {
    var t1 := Apply(t, StartAbort(0));
    ReachesStep(s, t, StartAbort(0));
    var t2 := Apply(t1, Advance(1, Accept));
    ReachesStep(s, t1, Advance(1, Accept));
    u := Apply(t2, Advance(1, Accept));
    ReachesStep(s, t2, Advance(1, Accept));
    assert u.calls == t.calls + [AbortHandle(0, MarkAgent)];
  }

  /** A drive whose first event fails ends its run and releases the agent. */
  lemma FailedDrive(s: State, t: State) returns (u: State)
    requires Reaches(s, t) && |t.calls| == 3 && t.calls[2] == Drive(0, EmitStart, [], None)
    requires 0 in t.runs && t.runs[0].ended.None? && t.lock.None?
    ensures Reaches(s, u) && u.phase == Idle && u.owner.None? && u.lock.None? && |u.calls| == 3
      && u.calls[1] == t.calls[1]
  {
    var t1 := Apply(t, Advance(2, Fail));
    ReachesStep(s, t, Advance(2, Fail));
    assert t1.calls == t.calls[2 := Drive(0, Finishing(Failed), [], None)] && t1.runs == t.runs && t1.lock == t.lock;
    u := FinishedDrive(s, t1);
  }

  lemma FinishedDrive(s: State, t: State) returns (u: State)
    requires Reaches(s, t) && |t.calls| == 3 && t.calls[2] == Drive(0, Finishing(Failed), [], None)
    requires 0 in t.runs && t.runs[0].ended.None? && t.lock.None?
    ensures Reaches(s, u) && u.phase == Idle && u.owner.None? && u.lock.None? && |u.calls| == 3
      && u.calls[1] == t.calls[1]
  {
    var t1 := Apply(t, Advance(2, Accept));
    ReachesStep(s, t, Advance(2, Accept));
    assert t1.calls == t.calls[2 := Drive(0, Releasing, [], None)] && t1.lock == t.lock;
    u := Apply(t1, Advance(2, Accept));
    ReachesStep(s, t1, Advance(2, Accept));
  }
}
