/**
 The kernel's cancellation token: an atomic flag beside a mutex-guarded list of wakers.

 The protocol is a state machine over any number of threads. One step is one atomic load, swap,
 lock, list update, unlock or wake, so a run is any interleaving of `cancel`,
 `CancellationWait::poll`, `CancellationWait::drop`, `register_waker` and `cancelled` calls.
 */
module CoreCancellation {
  import opened Wrappers

  /** A waker handle. Handles of one task are interchangeable: that is what `will_wake` decides. */
  datatype Waker = Waker(task: nat, handle: nat)

  predicate WillWake(existing: Waker, waker: Waker) {
    existing.task == waker.task
  }

  datatype Waiter = Waiter(id: nat, waker: Waker)

  datatype Outcome = Ready | Pending

  // ----- The three list updates, each performed under the mutex

  /** A poll refreshes its own entry, keeping an equivalent waker, or appends a new entry. */
  function Stored(waiters: seq<Waiter>, id: nat, waker: Waker): seq<Waiter> {
    if waiters == [] then [Waiter(id, waker)]
    else if waiters[0].id != id then [waiters[0]] + Stored(waiters[1..], id, waker)
    else if WillWake(waiters[0].waker, waker) then waiters
    else [Waiter(id, waker)] + waiters[1..]
  }

  /** A drop removes every entry of its own wait. */
  function Retained(waiters: seq<Waiter>, id: nat): seq<Waiter> {
    if waiters == [] then []
    else (if waiters[0].id == id then [] else [waiters[0]]) + Retained(waiters[1..], id)
  }

  /** Whether some entry already wakes what `waker` wakes. */
  predicate Shares(waiters: seq<Waiter>, waker: Waker) {
    exists e :: e in waiters && WillWake(e.waker, waker)
  }

  // ----- Threads

  datatype Call =
    | Cancel(taken: seq<Waiter>)
    | Poll(id: nat, waker: Waker)
    | Drop(id: nat)
    | Register(waker: Waker)

  /**
   What a thread inside a call does next: load the flag, take the mutex, load the flag again,
   update the list, release the mutex, or (the winning `cancel` only) wake what it took.
   At `Unlock`, `stored` tells whether the list now serves the caller.
   */
  datatype Stage = Check | Lock | Recheck | Update | Unlock(stored: bool) | Wake

  datatype Pc = Idle | At(call: Call, stage: Stage)

  predicate Holds(pc: Pc) {
    pc.At? && (pc.stage.Recheck? || pc.stage.Update? || pc.stage.Unlock?)
  }

  predicate Cancels(pc: Pc) { pc.At? && pc.call.Cancel? }

  /** One `CancellationWait`, which at most one thread uses at a time. */
  datatype Wait =
    | Unpolled
    | Parked(waker: Waker)
    | Completed
    | Polling(thread: nat)
    | Dropping(thread: nat)
    | Dropped

  /** How far the one winning `cancel` call has come. */
  datatype Phase = Live | Swapped(winner: nat) | Taken(winner: nat) | Returned

  /**
   The shared token, the threads and waits using it, and five histories the code does not keep: the winner's phase,
   what it drained, what it has woken, which registrations added an entry, and which wakers registrations that came
   too late have woken themselves.
   */
  datatype State = State(
    cancelled: bool,
    nextId: nat,
    waiters: seq<Waiter>,
    holder: Option<nat>,
    pcs: seq<Pc>,
    waits: map<nat, Wait>,
    phase: Phase,
    drained: seq<Waiter>,
    woken: seq<Waiter>,
    registered: set<Waiter>,
    selfWoken: set<Waker>)

  datatype Step =
    | NewWait(thread: nat)
    | CallCancel(thread: nat)
    | CallPoll(thread: nat, id: nat, waker: Waker)
    | CallDrop(thread: nat, id: nat)
    | CallRegister(thread: nat, waker: Waker)
    | Advance(thread: nat)

  function Init(threads: nat): State {
    State(false, 0, [], None, seq(threads, _ => Idle), map[], Live, [], [], {}, {})
  }

  /** A wait is polled or dropped by one thread at a time, and never after its drop. */
  predicate Available(s: State, id: nat) {
    id in s.waits && (s.waits[id].Unpolled? || s.waits[id].Parked? || s.waits[id].Completed?)
  }

  predicate Enabled(s: State, step: Step) {
    && step.thread < |s.pcs|
    && match step
       case Advance(t) => s.pcs[t].At? && (s.pcs[t].stage.Lock? ==> s.holder.None?)
       case CallPoll(t, id, _) => s.pcs[t].Idle? && Available(s, id)
       case CallDrop(t, id) => s.pcs[t].Idle? && Available(s, id)
       case _ => s.pcs[step.thread].Idle?
  }

  function Apply(s: State, step: Step): State
    requires Enabled(s, step)
  {
    match step
    case NewWait(t) => s.(nextId := s.nextId + 1, waits := s.waits[s.nextId := Unpolled])
    case CallCancel(t) =>
      if s.cancelled then s
      else s.(cancelled := true, phase := Swapped(t), pcs := s.pcs[t := At(Cancel([]), Lock)])
    case CallPoll(t, id, waker) =>
      s.(waits := s.waits[id := Polling(t)], pcs := s.pcs[t := At(Poll(id, waker), Check)])
    case CallDrop(t, id) => s.(waits := s.waits[id := Dropping(t)], pcs := s.pcs[t := At(Drop(id), Check)])
    case CallRegister(t, waker) => s.(pcs := s.pcs[t := At(Register(waker), Check)])
    case Advance(t) =>
      var pc := s.pcs[t];
      match pc.stage
      case Check =>
        if s.cancelled then Finish(WokeSelf(s, pc.call), t, false) else s.(pcs := s.pcs[t := pc.(stage := Lock)])
      case Lock =>
        var next := if pc.call.Poll? || pc.call.Register? then Recheck else Update;
        s.(holder := Some(t), pcs := s.pcs[t := pc.(stage := next)])
      case Recheck =>
        if s.cancelled then WokeSelf(s, pc.call).(pcs := s.pcs[t := pc.(stage := Unlock(false))])
        else s.(pcs := s.pcs[t := pc.(stage := Update)])
      case Update => Updated(s, t)
      case Unlock(stored) =>
        if pc.call.Cancel? then s.(holder := None, pcs := s.pcs[t := pc.(stage := Wake)])
        else Finish(s.(holder := None), t, stored)
      case Wake => Woke(s, t)
  }

  /** A registration that finds the flag set wakes its own waker. */
  function WokeSelf(s: State, call: Call): State {
    if call.Register? then s.(selfWoken := s.selfWoken + {call.waker}) else s
  }

  /** The list update a thread performs under the mutex. */
  function Updated(s: State, t: nat): State
    requires t < |s.pcs| && s.pcs[t].At?
  {
    var pc := s.pcs[t];
    match pc.call
    case Cancel(_) =>
      s.(waiters := [], drained := s.waiters, phase := Taken(t),
         pcs := s.pcs[t := At(Cancel(s.waiters), Unlock(true))])
    case Poll(id, waker) =>
      s.(waiters := Stored(s.waiters, id, waker), pcs := s.pcs[t := pc.(stage := Unlock(true))])
    case Drop(id) =>
      s.(waiters := Retained(s.waiters, id), pcs := s.pcs[t := pc.(stage := Unlock(true))])
    case Register(waker) =>
      if Shares(s.waiters, waker) then s.(pcs := s.pcs[t := pc.(stage := Unlock(true))])
      else
        var entry := Waiter(s.nextId, waker);
        s.(nextId := s.nextId + 1, waiters := s.waiters + [entry], registered := s.registered + {entry},
           pcs := s.pcs[t := pc.(stage := Unlock(true))])
  }

  /** The winner wakes the next entry it took, and returns when none is left. */
  function Woke(s: State, t: nat): State
    requires t < |s.pcs| && s.pcs[t].At?
  {
    if Cancels(s.pcs[t]) && s.pcs[t].call.taken != [] then
      var taken := s.pcs[t].call.taken;
      s.(woken := s.woken + [taken[0]], pcs := s.pcs[t := At(Cancel(taken[1..]), Wake)])
    else s.(phase := Returned, pcs := s.pcs[t := Idle])
  }

  /** A poll returns Pending exactly if it stored its waker; a drop or registration just returns. */
  function Finish(s: State, t: nat, stored: bool): State
    requires t < |s.pcs| && s.pcs[t].At?
  {
    var waits := match s.pcs[t].call
      case Poll(id, waker) => s.waits[id := if stored then Parked(waker) else Completed]
      case Drop(id) => s.waits[id := Dropped]
      case _ => s.waits;
    s.(waits := waits, pcs := s.pcs[t := Idle])
  }

  // ----- Runs

  ghost predicate IsRun(s: State, steps: seq<Step>)
    decreases |steps|
  {
    steps == [] || (Enabled(s, steps[0]) && IsRun(Apply(s, steps[0]), steps[1..]))
  }

  ghost function Run(s: State, steps: seq<Step>): State
    requires IsRun(s, steps)
    decreases |steps|
  {
    if steps == [] then s else Run(Apply(s, steps[0]), steps[1..])
  }

  // ----- The inductive invariant

  ghost predicate HasEntry(waiters: seq<Waiter>, id: nat, waker: Waker) {
    exists e :: e in waiters && e.id == id && WillWake(e.waker, waker)
  }

  ghost predicate Distinct(waiters: seq<Waiter>) {
    forall i, j :: 0 <= i < j < |waiters| ==> waiters[i].id != waiters[j].id
  }

  /** The mutex is held exactly by the thread whose next step needs it. */
  ghost predicate LockInv(s: State) {
    && (forall t :: 0 <= t < |s.pcs| && Holds(s.pcs[t]) ==> s.holder == Some(t))
    && (s.holder.Some? ==> s.holder.value < |s.pcs| && Holds(s.pcs[s.holder.value]))
  }

  /** Each call passes only through its own stages. */
  ghost predicate StageOk(pc: Pc) {
    pc.At? ==>
      match pc.call
      case Cancel(_) => !pc.stage.Check? && !pc.stage.Recheck?
      case Drop(_) => !pc.stage.Recheck? && !pc.stage.Wake?
      case _ => !pc.stage.Wake?
  }

  /** The winner's position agrees with the phase. */
  ghost predicate PhaseOk(pc: Pc, t: nat, phase: Phase) {
    Cancels(pc) ==> phase == if pc.stage.Lock? || pc.stage.Update? then Swapped(t) else Taken(t)
  }

  /** Exactly one thread executes the body of `cancel`, in step with the phase. */
  ghost predicate WinnerInv(s: State) {
    && (s.cancelled <==> !s.phase.Live?)
    && (forall t :: 0 <= t < |s.pcs| ==> StageOk(s.pcs[t]) && PhaseOk(s.pcs[t], t, s.phase))
    && (s.phase.Swapped? || s.phase.Taken? ==> s.phase.winner < |s.pcs| && Cancels(s.pcs[s.phase.winner]))
  }

  /** A thread that saw an unset flag under the mutex and may still change, or has changed, the list. */
  predicate PassedRecheck(pc: Pc) {
    pc.At? && (pc.call.Poll? || pc.call.Register?) && (pc.stage.Update? || pc.stage == Unlock(true))
  }

  /** Such a thread keeps the winner from draining. */
  ghost predicate GuardInv(s: State) {
    forall t :: 0 <= t < |s.pcs| && PassedRecheck(s.pcs[t]) ==> s.phase.Live? || s.phase.Swapped?
  }

  ghost predicate OwnerOk(pc: Pc, t: nat, waits: map<nat, Wait>) {
    pc.At? ==>
      match pc.call
      case Poll(id, _) => id in waits && waits[id] == Polling(t)
      case Drop(id) => id in waits && waits[id] == Dropping(t)
      case _ => true
  }

  ghost predicate InUseOk(wait: Wait, id: nat, pcs: seq<Pc>) {
    match wait
    case Polling(t) => t < |pcs| && pcs[t].At? && pcs[t].call.Poll? && pcs[t].call.id == id
    case Dropping(t) => t < |pcs| && pcs[t].At? && pcs[t].call.Drop? && pcs[t].call.id == id
    case _ => true
  }

  /** A wait in use names the one thread using it ... */
  ghost predicate OwnerInv(s: State) {
    forall t :: 0 <= t < |s.pcs| ==> OwnerOk(s.pcs[t], t, s.waits)
  }

  /** ... and that thread is inside the matching call. */
  ghost predicate UserInv(s: State) {
    forall id :: id in s.waits ==> InUseOk(s.waits[id], id, s.pcs)
  }

  /** Identifiers are never reused, ... */
  ghost predicate IdInv(s: State) {
    && Distinct(s.waiters)
    && Distinct(s.drained)
    && (forall e :: e in s.waiters ==> e.id < s.nextId)
    && (forall id :: id in s.waits ==> id < s.nextId)
    && (forall r :: r in s.registered ==> r.id < s.nextId && r.id !in s.waits)
  }

  /** ... so an entry belongs to one wait or to one registration. */
  ghost predicate EntryInv(s: State) {
    forall e :: e in s.waiters ==> e.id in s.waits || e in s.registered
  }

  /** Where an entry stored before the drain is to be found. */
  ghost function Entries(s: State): seq<Waiter> {
    if s.phase.Live? || s.phase.Swapped? then s.waiters else s.drained
  }

  /** What the winner has taken but not woken yet. */
  ghost function Unwoken(s: State): seq<Waiter>
    requires WinnerInv(s)
  {
    if s.phase.Taken? then s.pcs[s.phase.winner].call.taken else []
  }

  ghost predicate ListedOk(pc: Pc, waiters: seq<Waiter>) {
    && (pc.At? && pc.call.Poll? && pc.stage == Unlock(true) ==> HasEntry(waiters, pc.call.id, pc.call.waker))
    && (pc.At? && pc.call.Register? && pc.stage == Unlock(true) ==> Shares(waiters, pc.call.waker))
  }

  ghost predicate LateOk(pc: Pc, selfWoken: set<Waker>) {
    pc.At? && pc.call.Register? && pc.stage == Unlock(false) ==> pc.call.waker in selfWoken
  }

  /** Only registrations that found the flag set have woken themselves. */
  ghost predicate LateInv(s: State) {
    && (s.selfWoken != {} ==> s.cancelled)
    && (forall t :: 0 <= t < |s.pcs| ==> LateOk(s.pcs[t], s.selfWoken))
  }

  /** Every parked wait is listed with its latest waker, and so is a call about to return with its waker listed. */
  ghost predicate CoverInv(s: State) {
    && (forall id :: id in s.waits && s.waits[id].Parked? ==> HasEntry(Entries(s), id, s.waits[id].waker))
    && (forall t :: 0 <= t < |s.pcs| ==> ListedOk(s.pcs[t], s.waiters))
  }

  /** An entry added by a registration stays listed until it is drained. */
  ghost predicate RegisteredInv(s: State) {
    forall r :: r in s.registered ==> r in Entries(s)
  }

  /** The list is drained once: before the drain nothing is woken, after it the list stays empty. */
  ghost predicate DrainInv(s: State)
    requires WinnerInv(s)
  {
    if s.phase.Live? || s.phase.Swapped? then s.drained == [] && s.woken == []
    else s.waiters == [] && s.woken + Unwoken(s) == s.drained
  }

  ghost predicate RemovedOk(pc: Pc, waiters: seq<Waiter>) {
    pc.At? && pc.call.Drop? && pc.stage.Unlock? ==> forall e :: e in waiters ==> e.id != pc.call.id
  }

  /** Until cancellation, a dropped wait leaves no entry behind. */
  ghost predicate NoLeak(s: State) {
    s.phase.Live? ==>
      && (forall e :: e in s.waiters && e.id in s.waits ==> !s.waits[e.id].Dropped?)
      && (forall t :: 0 <= t < |s.pcs| ==> RemovedOk(s.pcs[t], s.waiters))
  }

  ghost predicate Inv(s: State) {
    && LockInv(s) && WinnerInv(s) && GuardInv(s) && OwnerInv(s) && UserInv(s)
    && IdInv(s) && EntryInv(s) && CoverInv(s) && RegisteredInv(s) && DrainInv(s) && NoLeak(s) && LateInv(s)
  }

  // ----- The list updates touch one wait's entries only

  lemma {:induction false} StoredEntries(waiters: seq<Waiter>, id: nat, waker: Waker)
    requires Distinct(waiters)
    ensures HasEntry(Stored(waiters, id, waker), id, waker)
    ensures Distinct(Stored(waiters, id, waker))
    ensures forall e: Waiter :: e.id != id ==> (e in Stored(waiters, id, waker) <==> e in waiters)
  {
    var stored := Stored(waiters, id, waker);
    if waiters == [] {
      assert stored[0] in stored;
    } else if waiters[0].id != id {
      var rest := Stored(waiters[1..], id, waker);
      StoredEntries(waiters[1..], id, waker);
      assert stored == [waiters[0]] + rest && waiters == [waiters[0]] + waiters[1..];
      forall j | 0 < j < |stored| ensures stored[j].id != waiters[0].id {
        assert stored[j] == rest[j - 1] && rest[j - 1] in rest;
      }
    } else {
      assert stored[0] in stored;
      assert stored == [stored[0]] + waiters[1..] && waiters == [waiters[0]] + waiters[1..];
    }
  }

  lemma {:induction false} RetainedEntries(waiters: seq<Waiter>, id: nat)
    requires Distinct(waiters)
    ensures Distinct(Retained(waiters, id))
    ensures forall e: Waiter :: e in Retained(waiters, id) <==> e in waiters && e.id != id
  {
    if waiters != [] {
      RetainedEntries(waiters[1..], id);
      var rest := Retained(waiters[1..], id);
      assert waiters == [waiters[0]] + waiters[1..];
      forall j | 0 <= j < |rest| ensures rest[j].id != waiters[0].id {
        assert rest[j] in rest;
      }
    }
  }

  // ----- Every step keeps the invariant

  /** The list update of a poll or a drop, in terms of membership. */
  lemma UpdateEntries(s: State, step: Step)
    requires Enabled(s, step) && Distinct(s.waiters)
    ensures step.Advance? && s.pcs[step.thread].stage.Update? ==>
      match s.pcs[step.thread].call
      case Poll(id, waker) =>
        && HasEntry(Stored(s.waiters, id, waker), id, waker)
        && Distinct(Stored(s.waiters, id, waker))
        && (forall e: Waiter :: e.id != id ==> (e in Stored(s.waiters, id, waker) <==> e in s.waiters))
      case Drop(id) =>
        && Distinct(Retained(s.waiters, id))
        && (forall e: Waiter :: e in Retained(s.waiters, id) <==> e in s.waiters && e.id != id)
      case _ => true
  {
    if step.Advance? && s.pcs[step.thread].call.Poll? {
      StoredEntries(s.waiters, s.pcs[step.thread].call.id, s.pcs[step.thread].call.waker);
    } else if step.Advance? && s.pcs[step.thread].call.Drop? {
      RetainedEntries(s.waiters, s.pcs[step.thread].call.id);
    }
  }

  /** A step moves one thread only, and changes only waits which that thread uses. */
  ghost predicate Frame(s: State, s': State, t: nat) {
    && |s'.pcs| == |s.pcs|
    && (forall u :: 0 <= u < |s.pcs| && u != t ==> s'.pcs[u] == s.pcs[u])
    && (forall id :: id in s.waits && id in s'.waits && s'.waits[id] != s.waits[id] ==>
          InUseOk(s'.waits[id], id, s'.pcs))
    && (forall id :: id in s'.waits && id !in s.waits ==> s'.waits[id].Unpolled?)
    && (t < |s.pcs| && s.pcs[t].At? && (s.pcs[t].call.Poll? || s.pcs[t].call.Drop?) ==>
          && s.pcs[t].call.id in s'.waits
          && (s'.pcs[t].Idle? ==> var w := s'.waits[s.pcs[t].call.id]; !w.Polling? && !w.Dropping?)
          && (s'.pcs[t].At? ==> s'.pcs[t].call == s.pcs[t].call))
  }

  lemma StepFrame(s: State, step: Step)
    requires Enabled(s, step) && WinnerInv(s) && OwnerInv(s) && s.nextId !in s.waits
    ensures Frame(s, Apply(s, step), step.thread)
  {
    assert StageOk(s.pcs[step.thread]);
    assert OwnerOk(s.pcs[step.thread], step.thread, s.waits);
    if step.Advance? {
      AdvanceFrame(s, step.thread);
    }
  }

  lemma AdvanceFrame(s: State, t: nat)
    requires Enabled(s, Advance(t)) && StageOk(s.pcs[t]) && OwnerOk(s.pcs[t], t, s.waits)
    ensures Frame(s, Apply(s, Advance(t)), t)
  {
    var stage := s.pcs[t].stage;
    if stage.Update? {
      UpdateFrame(s, t);
    } else if stage.Unlock? {
      UnlockFrame(s, t);
    }
  }

  lemma UpdateFrame(s: State, t: nat)
    requires Enabled(s, Advance(t)) && s.pcs[t].stage.Update? && OwnerOk(s.pcs[t], t, s.waits)
    ensures Frame(s, Apply(s, Advance(t)), t)
  {
  }

  lemma UnlockFrame(s: State, t: nat)
    requires Enabled(s, Advance(t)) && s.pcs[t].stage.Unlock? && OwnerOk(s.pcs[t], t, s.waits)
    ensures Frame(s, Apply(s, Advance(t)), t)
  {
  }

  lemma FrameKeepsUsers(s: State, s': State, t: nat)
    requires UserInv(s) && Frame(s, s', t)
    ensures UserInv(s')
  {
    forall id | id in s'.waits ensures InUseOk(s'.waits[id], id, s'.pcs) {
      assert id in s.waits ==> InUseOk(s.waits[id], id, s.pcs);
    }
  }

  lemma LockStep(s: State, step: Step)
    requires LockInv(s) && WinnerInv(s) && Enabled(s, step)
    ensures LockInv(Apply(s, step))
  {
  }

  lemma StagesStep(s: State, step: Step)
    requires WinnerInv(s) && Enabled(s, step)
    ensures forall t :: 0 <= t < |Apply(s, step).pcs| ==> StageOk(Apply(s, step).pcs[t])
  {
    assert StageOk(s.pcs[step.thread]);
  }

  lemma PhasesStep(s: State, step: Step)
    requires WinnerInv(s) && Enabled(s, step)
    ensures forall t :: 0 <= t < |Apply(s, step).pcs| ==> PhaseOk(Apply(s, step).pcs[t], t, Apply(s, step).phase)
  {
    assert StageOk(s.pcs[step.thread]) && PhaseOk(s.pcs[step.thread], step.thread, s.phase);
  }

  lemma WinnerStep(s: State, step: Step)
    requires WinnerInv(s) && Enabled(s, step)
    ensures WinnerInv(Apply(s, step))
  {
    StagesStep(s, step);
    PhasesStep(s, step);
    assert StageOk(s.pcs[step.thread]) && PhaseOk(s.pcs[step.thread], step.thread, s.phase);
  }

  lemma GuardStep(s: State, step: Step)
    requires LockInv(s) && WinnerInv(s) && GuardInv(s) && Enabled(s, step)
    ensures GuardInv(Apply(s, step))
  {
  }

  lemma OwnerStep(s: State, step: Step)
    requires OwnerInv(s) && s.nextId !in s.waits && Enabled(s, step)
    ensures OwnerInv(Apply(s, step))
  {
    var s' := Apply(s, step);
    assert OwnerOk(s.pcs[step.thread], step.thread, s.waits);
    forall u | 0 <= u < |s'.pcs| && u != step.thread ensures OwnerOk(s'.pcs[u], u, s'.waits) {
      assert s'.pcs[u] == s.pcs[u] && OwnerOk(s.pcs[u], u, s.waits);
    }
  }

  lemma UserStep(s: State, step: Step)
    requires WinnerInv(s) && OwnerInv(s) && UserInv(s) && s.nextId !in s.waits && Enabled(s, step)
    ensures UserInv(Apply(s, step))
  {
    StepFrame(s, step);
    FrameKeepsUsers(s, Apply(s, step), step.thread);
  }

  lemma EntryStep(s: State, step: Step)
    requires OwnerInv(s) && IdInv(s) && EntryInv(s) && Enabled(s, step)
    ensures EntryInv(Apply(s, step))
  {
    UpdateEntries(s, step);
  }

  lemma IdStep(s: State, step: Step)
    requires OwnerInv(s) && IdInv(s) && Enabled(s, step)
    ensures IdInv(Apply(s, step))
  {
    DistinctStep(s, step);
    EntryIdsStep(s, step);
    WaitIdsStep(s, step);
  }

  lemma EntryIdsStep(s: State, step: Step)
    requires OwnerInv(s) && IdInv(s) && Enabled(s, step)
    ensures forall e :: e in Apply(s, step).waiters ==> e.id < Apply(s, step).nextId
  {
    UpdateEntries(s, step);
    assert OwnerOk(s.pcs[step.thread], step.thread, s.waits);
  }

  lemma WaitIdsStep(s: State, step: Step)
    requires OwnerInv(s) && IdInv(s) && Enabled(s, step)
    ensures
      var t := Apply(s, step);
      && (forall id :: id in t.waits ==> id < t.nextId)
      && (forall r :: r in t.registered ==> r.id < t.nextId && r.id !in t.waits)
  {
    assert OwnerOk(s.pcs[step.thread], step.thread, s.waits);
  }

  lemma DistinctStep(s: State, step: Step)
    requires IdInv(s) && Enabled(s, step)
    ensures Distinct(Apply(s, step).waiters) && Distinct(Apply(s, step).drained)
  {
    UpdateEntries(s, step);
  }

  lemma CoverStep(s: State, step: Step)
    requires LockInv(s) && WinnerInv(s) && GuardInv(s) && OwnerInv(s) && IdInv(s) && CoverInv(s) && Enabled(s, step)
    ensures CoverInv(Apply(s, step))
  {
    ListedStep(s, step);
    ParkedStep(s, step);
  }

  lemma ListedStep(s: State, step: Step)
    requires LockInv(s) && WinnerInv(s) && IdInv(s) && CoverInv(s) && Enabled(s, step)
    ensures forall t :: 0 <= t < |Apply(s, step).pcs| ==> ListedOk(Apply(s, step).pcs[t], Apply(s, step).waiters)
  {
    UpdateEntries(s, step);
  }

  lemma ParkedStep(s: State, step: Step)
    requires LockInv(s) && WinnerInv(s) && GuardInv(s) && OwnerInv(s) && IdInv(s) && CoverInv(s) && Enabled(s, step)
    ensures
      var s' := Apply(s, step);
      forall id :: id in s'.waits && s'.waits[id].Parked? ==> HasEntry(Entries(s'), id, s'.waits[id].waker)
  {
    UpdateEntries(s, step);
    assert ListedOk(s.pcs[step.thread], s.waiters);
  }

  lemma RegisteredStep(s: State, step: Step)
    requires WinnerInv(s) && GuardInv(s) && OwnerInv(s) && IdInv(s) && RegisteredInv(s) && Enabled(s, step)
    ensures RegisteredInv(Apply(s, step))
  {
    UpdateEntries(s, step);
  }

  lemma DrainStep(s: State, step: Step)
    requires LockInv(s) && WinnerInv(s) && GuardInv(s) && DrainInv(s) && Enabled(s, step)
    requires WinnerInv(Apply(s, step))
    ensures DrainInv(Apply(s, step))
  {
    var pc := s.pcs[step.thread];
    assert StageOk(pc) && PhaseOk(pc, step.thread, s.phase);
    if step.Advance? && pc.stage.Wake? && pc.call.taken != [] {
      assert s.woken + pc.call.taken == s.woken + [pc.call.taken[0]] + pc.call.taken[1..];
    }
  }

  lemma LeakStep(s: State, step: Step)
    requires LockInv(s) && WinnerInv(s) && OwnerInv(s) && IdInv(s) && NoLeak(s) && Enabled(s, step)
    ensures NoLeak(Apply(s, step))
  {
    UpdateEntries(s, step);
  }

  lemma LateStep(s: State, step: Step)
    requires LateInv(s) && Enabled(s, step)
    ensures LateInv(Apply(s, step))
    ensures s.selfWoken <= Apply(s, step).selfWoken
  {
  }

  lemma StepKeepsInv(s: State, step: Step)
    requires Inv(s) && Enabled(s, step)
    ensures Inv(Apply(s, step))
  {
    LockStep(s, step);
    WinnerStep(s, step);
    GuardStep(s, step);
    OwnerStep(s, step);
    UserStep(s, step);
    IdStep(s, step);
    EntryStep(s, step);
    CoverStep(s, step);
    RegisteredStep(s, step);
    DrainStep(s, step);
    LeakStep(s, step);
    LateStep(s, step);
  }

  lemma {:induction false} RunKeepsInv(s: State, steps: seq<Step>)
    requires Inv(s) && IsRun(s, steps)
    ensures Inv(Run(s, steps))
    decreases |steps|
  {
    if steps != [] {
      StepKeepsInv(s, steps[0]);
      RunKeepsInv(Apply(s, steps[0]), steps[1..]);
    }
  }

  // ----- Safety over every interleaving

  ghost predicate Reachable(s: State) {
    exists threads: nat, steps: seq<Step> :: IsRun(Init(threads), steps) && Run(Init(threads), steps) == s
  }

  lemma ReachableInv(s: State)
    requires Reachable(s)
    ensures Inv(s)
  {
    var threads: nat, steps :| IsRun(Init(threads), steps) && Run(Init(threads), steps) == s;
    RunKeepsInv(Init(threads), steps);
  }

  /**
   No lost wakeup: once the winning `cancel` has returned, the latest waker of every wait whose
   last poll returned Pending, and that has not been dropped, has been woken; each drained entry
   was woken exactly once, no wait twice, and a registration that added an entry was woken too.
   */
  lemma NoLostWakeup(s: State)
    requires Reachable(s) && s.phase.Returned?
    ensures forall id :: id in s.waits && s.waits[id].Parked? ==> HasEntry(s.woken, id, s.waits[id].waker)
    ensures s.woken == s.drained && Distinct(s.woken)
    ensures forall r :: r in s.registered ==> r in s.woken
  {
    ReachableInv(s);
  }

  /** Nothing is woken by a drain before cancellation was requested. */
  lemma NoEarlyWakeup(s: State)
    requires Reachable(s) && !s.cancelled
    ensures s.woken == [] && s.drained == [] && s.selfWoken == {}
  {
    ReachableInv(s);
  }

  /** The list is drained once: after the drain it stays empty, and what was drained stays fixed. */
  lemma {:induction false} DrainedOnce(s: State, steps: seq<Step>)
    requires Reachable(s) && (s.phase.Taken? || s.phase.Returned?) && IsRun(s, steps)
    ensures Run(s, steps).waiters == [] && Run(s, steps).drained == s.drained
    ensures Run(s, steps).phase == s.phase || Run(s, steps).phase.Returned?
  {
    ReachableInv(s);
    DrainedOnceFrom(s, steps);
  }

  lemma DrainedStep(s: State, step: Step)
    requires WinnerInv(s) && Enabled(s, step) && (s.phase.Taken? || s.phase.Returned?)
    ensures Apply(s, step).drained == s.drained
    ensures Apply(s, step).phase == s.phase || Apply(s, step).phase.Returned?
  {
    assert PhaseOk(s.pcs[step.thread], step.thread, s.phase);
  }

  lemma {:induction false} DrainedOnceFrom(s: State, steps: seq<Step>)
    requires Inv(s) && (s.phase.Taken? || s.phase.Returned?) && IsRun(s, steps)
    ensures Run(s, steps).waiters == [] && Run(s, steps).drained == s.drained
    ensures Run(s, steps).phase == s.phase || Run(s, steps).phase.Returned?
    decreases |steps|
  {
    if steps != [] {
      StepKeepsInv(s, steps[0]);
      DrainedStep(s, steps[0]);
      DrainedOnceFrom(Apply(s, steps[0]), steps[1..]);
    }
  }

  /** Until cancellation, no entry of a dropped wait is kept alive by the token. */
  lemma DroppedWaitLeavesNoEntry(s: State, id: nat)
    requires Reachable(s) && !s.cancelled && id in s.waits && s.waits[id].Dropped?
    ensures forall e :: e in s.waiters ==> e.id != id
  {
    ReachableInv(s);
  }

  // ----- Progress

  function Work(pc: Pc): nat {
    if pc.Idle? then 0
    else
      (match pc.stage
       case Check => 7 case Lock => 6 case Recheck => 5 case Update => 4 case Unlock(_) => 2 case Wake => 1)
      + if pc.call.Cancel? then |pc.call.taken| else 0
  }

  function TotalWork(pcs: seq<Pc>): nat {
    if pcs == [] then 0 else Work(pcs[0]) + TotalWork(pcs[1..])
  }

  lemma {:induction false} TotalWorkUpdate(pcs: seq<Pc>, t: nat, pc: Pc)
    requires t < |pcs|
    ensures TotalWork(pcs[t := pc]) == TotalWork(pcs) - Work(pcs[t]) + Work(pc)
  {
    if t > 0 {
      TotalWorkUpdate(pcs[1..], t - 1, pc);
      assert pcs[t := pc][1..] == pcs[1..][t - 1 := pc];
    } else {
      assert pcs[t := pc][1..] == pcs[1..];
    }
  }

  lemma UpdatedLengths(waiters: seq<Waiter>, id: nat, waker: Waker)
    ensures |Stored(waiters, id, waker)| <= |waiters| + 1 && |Retained(waiters, id)| <= |waiters|
  {
  }

  /** Every step of a call brings all pending calls closer to their end. */
  lemma AdvanceDecreasesWork(s: State, t: nat)
    requires WinnerInv(s) && Enabled(s, Advance(t))
    ensures var s' := Apply(s, Advance(t));
            TotalWork(s'.pcs) + |s'.waiters| < TotalWork(s.pcs) + |s.waiters|
  {
    var s' := Apply(s, Advance(t));
    var call := s.pcs[t].call;
    assert StageOk(s.pcs[t]) && PhaseOk(s.pcs[t], t, s.phase);
    assert s'.pcs == s.pcs[t := s'.pcs[t]];
    TotalWorkUpdate(s.pcs, t, s'.pcs[t]);
    if call.Poll? {
      UpdatedLengths(s.waiters, call.id, call.waker);
    } else if call.Drop? {
      UpdatedLengths(s.waiters, call.id, Waker(0, 0));
    }
  }

  ghost predicate Quiet(s: State) {
    forall t :: 0 <= t < |s.pcs| ==> s.pcs[t].Idle?
  }

  /** The mutex cannot deadlock: while some call is pending, some thread can take a step. */
  lemma NoDeadlock(s: State) returns (t: nat)
    requires Inv(s) && !Quiet(s)
    ensures Enabled(s, Advance(t))
  {
    if s.holder.Some? {
      t := s.holder.value;
    } else {
      t :| t < |s.pcs| && s.pcs[t].At?;
    }
  }

  /** Letting the threads run on, in any order that advances, completes every pending call. */
  lemma {:induction false} PendingCallsComplete(s: State) returns (steps: seq<Step>)
    requires Inv(s)
    ensures IsRun(s, steps) && Quiet(Run(s, steps))
    ensures forall step :: step in steps ==> step.Advance?
    ensures |steps| <= TotalWork(s.pcs) + |s.waiters|
    decreases TotalWork(s.pcs) + |s.waiters|
  {
    if Quiet(s) {
      steps := [];
    } else {
      var t := NoDeadlock(s);
      AdvanceDecreasesWork(s, t);
      StepKeepsInv(s, Advance(t));
      var rest := PendingCallsComplete(Apply(s, Advance(t)));
      steps := [Advance(t)] + rest;
    }
  }

  // ----- Calls that run without interference

  lemma Prepend(s: State, step: Step, rest: seq<Step>)
    requires Enabled(s, step) && IsRun(Apply(s, step), rest)
    ensures IsRun(s, [step] + rest) && Run(s, [step] + rest) == Run(Apply(s, step), rest)
  {
    assert ([step] + rest)[1..] == rest;
  }

  lemma {:induction false} Append(s: State, first: seq<Step>, second: seq<Step>)
    requires IsRun(s, first) && IsRun(Run(s, first), second)
    ensures IsRun(s, first + second) && Run(s, first + second) == Run(Run(s, first), second)
    decreases |first|
  {
    if first == [] {
      assert first + second == second;
    } else {
      var next := Apply(s, first[0]);
      assert (first + second)[0] == first[0] && (first + second)[1..] == first[1..] + second;
      Append(next, first[1..], second);
    }
  }

  /** Thread `t` takes `n` steps of its call in a row. */
  ghost predicate CanAdvance(s: State, t: nat, n: nat)
    decreases n
  {
    n == 0 || (Enabled(s, Advance(t)) && CanAdvance(Apply(s, Advance(t)), t, n - 1))
  }

  ghost function AdvanceBy(s: State, t: nat, n: nat): State
    requires CanAdvance(s, t, n)
    decreases n
  {
    if n == 0 then s else AdvanceBy(Apply(s, Advance(t)), t, n - 1)
  }

  lemma {:induction false} AdvanceByIsRun(s: State, t: nat, n: nat) returns (steps: seq<Step>)
    requires CanAdvance(s, t, n)
    ensures IsRun(s, steps) && Run(s, steps) == AdvanceBy(s, t, n)
    decreases n
  {
    if n == 0 {
      steps := [];
    } else {
      var rest := AdvanceByIsRun(Apply(s, Advance(t)), t, n - 1);
      Prepend(s, Advance(t), rest);
      steps := [Advance(t)] + rest;
    }
  }

  lemma CallThenAdvance(s: State, step: Step, n: nat) returns (steps: seq<Step>)
    requires Enabled(s, step) && CanAdvance(Apply(s, step), step.thread, n)
    ensures IsRun(s, steps) && Run(s, steps) == AdvanceBy(Apply(s, step), step.thread, n)
  {
    var rest := AdvanceByIsRun(Apply(s, step), step.thread, n);
    Prepend(s, step, rest);
    steps := [step] + rest;
  }

  /** An undisturbed poll of a live token stores its waker and parks the wait. */
  lemma PollAlone(s: State, t: nat, id: nat, waker: Waker) returns (steps: seq<Step>)
    requires Enabled(s, CallPoll(t, id, waker)) && !s.cancelled && s.holder.None?
    ensures IsRun(s, steps)
    ensures Run(s, steps) == s.(waiters := Stored(s.waiters, id, waker), waits := s.waits[id := Parked(waker)])
  {
    var s0 := Apply(s, CallPoll(t, id, waker));
    var s1 := Apply(s0, Advance(t));
    var s2 := Apply(s1, Advance(t));
    var s3 := Apply(s2, Advance(t));
    var s4 := Apply(s3, Advance(t));
    var s5 := Apply(s4, Advance(t));
    assert s5.pcs == s.pcs && s5.waits == s.waits[id := Parked(waker)];
    assert CanAdvance(s4, t, 1) && CanAdvance(s3, t, 2) && CanAdvance(s2, t, 3);
    assert AdvanceBy(s4, t, 1) == s5 && AdvanceBy(s3, t, 2) == s5 && AdvanceBy(s2, t, 3) == s5;
    assert CanAdvance(s1, t, 4) && CanAdvance(s0, t, 5) && AdvanceBy(s0, t, 5) == s5;
    steps := CallThenAdvance(s, CallPoll(t, id, waker), 5);
  }

  /** An undisturbed drop on a live token removes the wait's entries. */
  lemma DropAlone(s: State, t: nat, id: nat) returns (steps: seq<Step>)
    requires Enabled(s, CallDrop(t, id)) && !s.cancelled && s.holder.None?
    ensures IsRun(s, steps)
    ensures Run(s, steps) == s.(waiters := Retained(s.waiters, id), waits := s.waits[id := Dropped])
  {
    var s0 := Apply(s, CallDrop(t, id));
    var s1 := Apply(s0, Advance(t));
    var s2 := Apply(s1, Advance(t));
    var s3 := Apply(s2, Advance(t));
    var s4 := Apply(s3, Advance(t));
    assert s4.pcs == s.pcs && s4.waits == s.waits[id := Dropped];
    assert CanAdvance(s3, t, 1) && CanAdvance(s2, t, 2) && AdvanceBy(s3, t, 1) == s4 && AdvanceBy(s2, t, 2) == s4;
    assert CanAdvance(s1, t, 3) && CanAdvance(s0, t, 4) && AdvanceBy(s0, t, 4) == s4;
    steps := CallThenAdvance(s, CallDrop(t, id), 4);
  }

  /** What an undisturbed registration does to a live token. */
  function Registered(s: State, waker: Waker): State {
    if Shares(s.waiters, waker) then s
    else
      var entry := Waiter(s.nextId, waker);
      s.(nextId := s.nextId + 1, waiters := s.waiters + [entry], registered := s.registered + {entry})
  }

  lemma RegisterAlone(s: State, t: nat, waker: Waker) returns (steps: seq<Step>)
    requires Enabled(s, CallRegister(t, waker)) && !s.cancelled && s.holder.None?
    ensures IsRun(s, steps) && Run(s, steps) == Registered(s, waker)
  {
    var s0 := Apply(s, CallRegister(t, waker));
    var s1 := Apply(s0, Advance(t));
    var s2 := Apply(s1, Advance(t));
    var s3 := Apply(s2, Advance(t));
    var s4 := Apply(s3, Advance(t));
    var s5 := Apply(s4, Advance(t));
    assert s5.pcs == s.pcs;
    assert CanAdvance(s4, t, 1) && CanAdvance(s3, t, 2) && CanAdvance(s2, t, 3);
    assert AdvanceBy(s4, t, 1) == s5 && AdvanceBy(s3, t, 2) == s5 && AdvanceBy(s2, t, 3) == s5;
    assert CanAdvance(s1, t, 4) && CanAdvance(s0, t, 5) && AdvanceBy(s0, t, 5) == s5;
    steps := CallThenAdvance(s, CallRegister(t, waker), 5);
  }

  lemma {:induction false} WakeAlone(s: State, t: nat) returns (steps: seq<Step>)
    requires t < |s.pcs| && Cancels(s.pcs[t]) && s.pcs[t].stage.Wake?
    ensures IsRun(s, steps)
    ensures Run(s, steps) == s.(woken := s.woken + s.pcs[t].call.taken, phase := Returned, pcs := s.pcs[t := Idle])
    decreases |s.pcs[t].call.taken|
  {
    var taken := s.pcs[t].call.taken;
    var s' := Apply(s, Advance(t));
    if taken == [] {
      steps := [Advance(t)];
      assert s'.woken == s.woken + taken;
    } else {
      var rest := WakeAlone(s', t);
      Prepend(s, Advance(t), rest);
      steps := [Advance(t)] + rest;
      assert s.woken + taken == s.woken + [taken[0]] + taken[1..];
      assert s'.pcs[t := Idle] == s.pcs[t := Idle];
    }
  }

  /** An undisturbed first `cancel` drains the list and wakes everything on it, in list order. */
  lemma CancelAlone(s: State, t: nat) returns (steps: seq<Step>)
    requires Enabled(s, CallCancel(t)) && !s.cancelled && s.holder.None?
    ensures IsRun(s, steps)
    ensures Run(s, steps)
         == s.(cancelled := true, waiters := [], drained := s.waiters, woken := s.woken + s.waiters, phase := Returned)
  {
    var s0 := Apply(s, CallCancel(t));
    var s1 := Apply(s0, Advance(t));
    var s2 := Apply(s1, Advance(t));
    var s3 := Apply(s2, Advance(t));
    assert CanAdvance(s2, t, 1) && CanAdvance(s1, t, 2) && AdvanceBy(s2, t, 1) == s3 && AdvanceBy(s1, t, 2) == s3;
    assert CanAdvance(s0, t, 3) && AdvanceBy(s0, t, 3) == s3;
    var first := CallThenAdvance(s, CallCancel(t), 3);
    var rest := WakeAlone(s3, t);
    assert s3.pcs[t := Idle] == s.pcs;
    Append(s, first, rest);
    steps := first + rest;
  }

  // ----- Exactly which registrations are sure to be woken

  lemma {:induction false} RegisteredGrows(s: State, steps: seq<Step>)
    requires IsRun(s, steps)
    ensures s.registered <= Run(s, steps).registered
    decreases |steps|
  {
    if steps != [] {
      RegisteredGrows(Apply(s, steps[0]), steps[1..]);
    }
  }

  lemma RetainedShorter(waiters: seq<Waiter>, e: Waiter)
    requires e in waiters
    ensures |Retained(waiters, e.id)| < |waiters|
  {
    UpdatedLengths(waiters[1..], e.id, e.waker);
    if waiters[0].id != e.id {
      RetainedShorter(waiters[1..], e);
    }
  }

  /** Dropping every wait whose entry serves `waker` leaves it unlisted. */
  lemma {:induction false} DropSharingWaits(s: State, t: nat, waker: Waker) returns (steps: seq<Step>)
    requires Inv(s) && Quiet(s) && !s.cancelled && t < |s.pcs|
    requires forall r :: r in s.registered ==> !WillWake(r.waker, waker)
    ensures IsRun(s, steps)
    ensures var s' := Run(s, steps);
      Inv(s') && Quiet(s') && !s'.cancelled && |s'.pcs| == |s.pcs| && !Shares(s'.waiters, waker)
    decreases |s.waiters|
  {
    if !Shares(s.waiters, waker) {
      steps := [];
    } else {
      var e :| e in s.waiters && WillWake(e.waker, waker);
      assert InUseOk(s.waits[e.id], e.id, s.pcs);
      var first := DropAlone(s, t, e.id);
      RunKeepsInv(s, first);
      RetainedShorter(s.waiters, e);
      var rest := DropSharingWaits(Run(s, first), t, waker);
      Append(s, first, rest);
      steps := first + rest;
    }
  }

  /** Whether every way to go on after a registration that ends in a cancelled token wakes its task. */
  ghost predicate SureToWake(s: State, waker: Waker) {
    forall steps :: IsRun(s, steps) && Run(s, steps).phase.Returned? ==> Shares(Run(s, steps).woken, waker)
  }

  /** The waker is served by an entry that no drop can remove, or the call adds such an entry. */
  ghost predicate ServedForGood(s: State, waker: Waker) {
    !Shares(s.waiters, waker) || exists r :: r in s.registered && WillWake(r.waker, waker)
  }

  /**
   `register_waker` relies on an existing entry for the same task. That entry may belong to a
   `CancellationWait`, whose drop removes it. On a live token with no call in progress the
   registered task is sure to be woken exactly if some entry of an earlier registration serves it
   or no entry serves it at all.
   */
  lemma RegistrationSureExactly(s: State, t: nat, waker: Waker)
    requires Reachable(s) && Quiet(s) && !s.cancelled && t < |s.pcs|
    ensures SureToWake(Registered(s, waker), waker) <==> ServedForGood(s, waker)
  {
    ReachableInv(s);
    var register := RegisterAlone(s, t, waker);
    var s' := Registered(s, waker);
    RunKeepsInv(s, register);
    if ServedForGood(s, waker) {
      var r :| r in s'.registered && WillWake(r.waker, waker);
      forall steps | IsRun(s', steps) && Run(s', steps).phase.Returned? ensures Shares(Run(s', steps).woken, waker) {
        RunKeepsInv(s', steps);
        RegisteredGrows(s', steps);
        assert r in Run(s', steps).woken;
      }
    } else {
      var drops := DropSharingWaits(s', t, waker);
      var cancel := CancelAlone(Run(s', drops), t);
      Append(s', drops, cancel);
      assert Run(s', drops + cancel).woken == Run(s', drops).waiters;
    }
  }

  /** A single pending wait is enough: a registration that shares its entry can go without being woken. */
  lemma SharedRegistrationLost(waker: Waker)
    ensures exists s ::
      Reachable(s) && Quiet(s) && !s.cancelled && !ServedForGood(s, waker) && !SureToWake(Registered(s, waker), waker)
  {
    var s0 := Init(1);
    var s1 := Apply(s0, NewWait(0));
    var poll := PollAlone(s1, 0, 0, waker);
    var steps := [NewWait(0)] + poll;
    assert steps[1..] == poll;
    var s := Run(s1, poll);
    assert IsRun(s0, steps) && Run(s0, steps) == s;
    assert s.waiters == [Waiter(0, waker)] && Waiter(0, waker) in s.waiters;
    RegistrationSureExactly(s, 0, waker);
  }

  /** A registration has added an entry that serves the waker. */
  ghost predicate ServedByRegistration(s: State, waker: Waker) {
    exists r :: r in s.registered && WillWake(r.waker, waker)
  }

  lemma {:induction false} SelfWokenGrows(s: State, steps: seq<Step>)
    requires Inv(s) && IsRun(s, steps)
    ensures s.selfWoken <= Run(s, steps).selfWoken
    decreases |steps|
  {
    if steps != [] {
      StepKeepsInv(s, steps[0]);
      LateStep(s, steps[0]);
      SelfWokenGrows(Apply(s, steps[0]), steps[1..]);
    }
  }

  /** A registration returns with its waker woken, or with an entry that serves it in the list or already drained. */
  lemma RegistrationReturns(s: State, t: nat, waker: Waker)
    requires Inv(s) && Enabled(s, Advance(t)) && s.pcs[t].call == Register(waker) && Apply(s, Advance(t)).pcs[t].Idle?
    ensures waker in Apply(s, Advance(t)).selfWoken || Shares(Entries(Apply(s, Advance(t))), waker)
  {
    assert StageOk(s.pcs[t]) && ListedOk(s.pcs[t], s.waiters) && LateOk(s.pcs[t], s.selfWoken);
  }

  /**
   In every interleaving: a registration returns with its waker woken or served by an entry. If it has woken it, or
   if that entry or another that serves it was added by a registration, then its task has been woken once the winning
   cancel has returned, whatever happens in between.
   */
  lemma RegistrationServed(s: State, t: nat, waker: Waker, steps: seq<Step>)
    requires Reachable(s) && Enabled(s, Advance(t)) && s.pcs[t].call == Register(waker)
    requires Apply(s, Advance(t)).pcs[t].Idle? && IsRun(Apply(s, Advance(t)), steps)
    ensures
      var (now, later) := (Apply(s, Advance(t)), Run(Apply(s, Advance(t)), steps));
      && (waker in now.selfWoken || Shares(Entries(now), waker))
      && (waker in now.selfWoken ==> waker in later.selfWoken)
      && (ServedByRegistration(now, waker) && later.phase.Returned? ==> Shares(later.woken, waker))
  {
    ReachableInv(s);
    var now := Apply(s, Advance(t));
    RegistrationReturns(s, t, waker);
    StepKeepsInv(s, Advance(t));
    SelfWokenGrows(now, steps);
    RunKeepsInv(now, steps);
    RegisteredGrows(now, steps);
  }

  // ----- The token as one object, used by one thread at a time

  /** The shared token. Each method is one call that runs without interference. */
  class CancellationState {
    var cancelled: bool
    var nextWaiterId: nat
    var waiters: seq<Waiter>

    constructor ()
      ensures !cancelled && nextWaiterId == 0 && waiters == []
    {
      cancelled, nextWaiterId, waiters := false, 0, [];
    }

    /** Request cancellation; only the first call drains the list and wakes what was on it. */
    method Cancel() returns (woken: seq<Waiter>)
      modifies this
      ensures cancelled && nextWaiterId == old(nextWaiterId)
      ensures waiters == if old(cancelled) then old(waiters) else []
      ensures woken == if old(cancelled) then [] else old(waiters)
    {
      if cancelled {
        return [];
      }
      cancelled := true;
      var taken := waiters;
      waiters := [];
      woken := [];
      for k := 0 to |taken|
        invariant woken == taken[..k]
      {
        woken := woken + [taken[k]];
      }
    }

    method RegisterWaker(waker: Waker) returns (wokenNow: bool)
      modifies this
      ensures cancelled == old(cancelled) && wokenNow == old(cancelled)
      ensures waiters == (if old(cancelled) || Shares(old(waiters), waker) then old(waiters)
                          else old(waiters) + [Waiter(old(nextWaiterId), waker)])
      ensures nextWaiterId == old(nextWaiterId) + |waiters| - |old(waiters)|
    {
      if cancelled {
        return true;
      }
      wokenNow := false;
      var k := 0;
      while k < |waiters| && !WillWake(waiters[k].waker, waker)
        invariant k <= |waiters|
        invariant forall j :: 0 <= j < k ==> !WillWake(waiters[j].waker, waker)
      {
        k := k + 1;
      }
      if k < |waiters| {
        assert waiters[k] in waiters;
      } else {
        var id := nextWaiterId;
        nextWaiterId := nextWaiterId + 1;
        waiters := waiters + [Waiter(id, waker)];
      }
    }

    /** Create a wait: only an identifier is allocated. */
    method Cancelled() returns (id: nat)
      modifies this`nextWaiterId
      ensures id == old(nextWaiterId) && nextWaiterId == old(nextWaiterId) + 1
    {
      id := nextWaiterId;
      nextWaiterId := nextWaiterId + 1;
    }

    method Poll(id: nat, waker: Waker) returns (outcome: Outcome)
      modifies this`waiters
      ensures outcome == if cancelled then Ready else Pending
      ensures waiters == if cancelled then old(waiters) else Stored(old(waiters), id, waker)
    {
      if cancelled {
        return Ready;
      }
      var k := 0;
      while k < |waiters| && waiters[k].id != id
        invariant k <= |waiters|
        invariant Stored(waiters, id, waker) == waiters[..k] + Stored(waiters[k..], id, waker)
      {
        assert waiters[k..][1..] == waiters[k + 1..];
        k := k + 1;
      }
      assert waiters == waiters[..k] + waiters[k..];
      if k == |waiters| {
        waiters := waiters + [Waiter(id, waker)];
      } else if !WillWake(waiters[k].waker, waker) {
        assert waiters[k := Waiter(id, waker)] == waiters[..k] + ([Waiter(id, waker)] + waiters[k..][1..]);
        waiters := waiters[k := Waiter(id, waker)];
      }
      return Pending;
    }

    method DropWait(id: nat)
      modifies this`waiters
      ensures waiters == if cancelled then old(waiters) else Retained(old(waiters), id)
    {
      if cancelled {
        return;
      }
      var kept := [];
      for k := 0 to |waiters|
        invariant kept + Retained(waiters[k..], id) == Retained(waiters, id)
        invariant waiters == old(waiters)
      {
        assert waiters[k..][1..] == waiters[k + 1..];
        if waiters[k].id != id {
          kept := kept + [waiters[k]];
        }
      }
      waiters := kept;
    }
  }
}
