/**
 The protocol's cancellation scope: an atomic flag, a reason under a mutex, and a condition variable.

 A run is any interleaving, by any number of threads, of the single steps of `cancel_with_reason`,
 `wait_blocking`, `check` and `reason_owned`: one atomic access, lock, read, write, unlock, wait or
 notification each. Waiting threads may wake up without a notification.
 */
module ScopeCancellation {
  import opened Wrappers

  /**
   What a thread does next. `Waits` holds the mutex and has loaded the flag as clear; waiting releases the
   mutex and parks in one step. `Reads` holds the mutex and reads the reason.
   */
  datatype Pc =
    | Idle
    | Stores(reason: string)
    | Writes(reason: string)
    | Releases(reason: string)
    | Notifies(reason: string)
    | Locks
    | Loads
    | Waits
    | Parked
    | LocksToRead
    | Reads
    | Unlocks

  /** The winning `cancel_with_reason`: its thread, its reason, and whether it has returned. */
  datatype Winner = Winner(thread: nat, reason: string, returned: bool)

  /** The scope and its threads; `winner`, `writes` and `observed` are histories. */
  datatype State = State(
    cancelled: bool,
    reason: Option<string>,
    holder: Option<nat>,
    pcs: seq<Pc>,
    winner: Option<Winner>,
    writes: nat,
    observed: seq<Option<string>>)

  datatype Step =
    | CallCancel(thread: nat, reason: string)
    | CallWait(thread: nat)
    | CallCheck(thread: nat)
    | CallReason(thread: nat)
    | Spurious(thread: nat)
    | Advance(thread: nat)

  function Init(threads: nat): State {
    State(false, None, None, seq(threads, _ => Idle), None, 0, [])
  }

  predicate Holds(pc: Pc) { pc.Writes? || pc.Releases? || pc.Loads? || pc.Waits? || pc.Reads? || pc.Unlocks? }

  predicate TakesLock(pc: Pc) { pc.Stores? || pc.Locks? || pc.LocksToRead? }

  predicate Enabled(s: State, step: Step) {
    && step.thread < |s.pcs|
    && var pc := s.pcs[step.thread];
    match step
    case Advance(_) => !pc.Idle? && !pc.Parked? && (TakesLock(pc) ==> s.holder.None?)
    case Spurious(_) => pc.Parked?
    case _ => pc.Idle?
  }

  function At(s: State, t: nat, pc: Pc): State
    requires t < |s.pcs|
  {
    s.(pcs := s.pcs[t := pc])
  }

  /** A notification sends every parked thread back to the mutex. */
  function Woken(pcs: seq<Pc>): seq<Pc> {
    seq(|pcs|, i requires 0 <= i < |pcs| => if pcs[i].Parked? then Locks else pcs[i])
  }

  function Apply(s: State, step: Step): State
    requires Enabled(s, step)
  {
    var t := step.thread;
    match step
    case CallCancel(_, reason) =>
      if s.cancelled then s
      else
        At(s, t, if reason == "" then Notifies("") else Stores(reason)).(
          cancelled := true, winner := Some(Winner(t, reason, false)))
    case CallWait(_) => At(s, t, Locks)
    case CallCheck(_) => if s.cancelled then At(s, t, LocksToRead) else s
    case CallReason(_) => At(s, t, LocksToRead)
    case Spurious(_) => At(s, t, Locks)
    case Advance(_) =>
      match s.pcs[t]
      case Stores(r) => At(s, t, Writes(r)).(holder := Some(t))
      case Writes(r) => At(s, t, Releases(r)).(reason := Some(r), writes := s.writes + 1)
      case Releases(r) => At(s, t, Notifies(r)).(holder := None)
      case Notifies(r) =>
        s.(pcs := Woken(s.pcs)[t := Idle],
           winner := if s.winner.Some? then Some(s.winner.value.(returned := true)) else None)
      case Locks => At(s, t, Loads).(holder := Some(t))
      case Loads => At(s, t, if s.cancelled then Reads else Waits)
      case Waits => At(s, t, Parked).(holder := None)
      case LocksToRead => At(s, t, Reads).(holder := Some(t))
      case Reads => At(s, t, Unlocks).(observed := s.observed + [s.reason])
      case Unlocks => At(s, t, Idle).(holder := None)
      case _ => s
  }

  // ----- The invariant

  predicate Cancelling(pc: Pc) { pc.Stores? || pc.Writes? || pc.Releases? || pc.Notifies? }

  ghost predicate LockOk(s: State) {
    forall t: nat :: s.holder == Some(t) <==> t < |s.pcs| && Holds(s.pcs[t])
  }

  /** Only the winner is inside a cancelling call, with its own reason, and only before it returns. */
  ghost predicate WinnerOk(s: State) {
    && (s.cancelled <==> s.winner.Some?)
    && (forall t :: 0 <= t < |s.pcs| && Cancelling(s.pcs[t]) ==>
          s.winner == Some(Winner(t, s.pcs[t].reason, false)) && (s.pcs[t].reason == "" ==> s.pcs[t].Notifies?))
    && (s.winner.Some? && !s.winner.value.returned ==>
          s.winner.value.thread < |s.pcs| && Cancelling(s.pcs[s.winner.value.thread]))
  }

  /** The winner with a reason has passed the mutex. */
  predicate Passed(s: State) {
    && s.winner.Some? && s.winner.value.reason != ""
    && (s.winner.value.returned ||
        (s.winner.value.thread < |s.pcs| && !s.pcs[s.winner.value.thread].Stores?))
  }

  /** The winner writes its reason once, after the flag and before it returns. */
  ghost predicate WriteOk(s: State) {
    && s.writes <= 1
    && (s.reason.Some? <==> s.writes == 1)
    && (s.reason.Some? ==> s.winner.Some? && s.reason.value == s.winner.value.reason)
    && (s.winner.Some? && s.winner.value.returned && s.winner.value.reason != "" ==> s.reason.Some?)
    && (forall t :: 0 <= t < |s.pcs| && (s.pcs[t].Stores? || s.pcs[t].Writes?) ==> s.reason.None?)
    && (forall t :: 0 <= t < |s.pcs| && (s.pcs[t].Releases? || (s.pcs[t].Notifies? && s.pcs[t].reason != "")) ==>
          s.reason.Some?)
  }

  predicate ObservedOk(s: State) {
    forall o :: o in s.observed ==> o.None? || o == s.reason
  }

  /** Once the winner has passed the mutex, nobody still believes the flag clear; once it returns, nobody is parked. */
  ghost predicate WakeOk(s: State) {
    && (Passed(s) ==> forall t :: 0 <= t < |s.pcs| ==> !s.pcs[t].Waits?)
    && (Passed(s) && s.winner.value.returned ==> forall t :: 0 <= t < |s.pcs| ==> !s.pcs[t].Parked?)
  }

  ghost predicate Inv(s: State) { LockOk(s) && WinnerOk(s) && WriteOk(s) && ObservedOk(s) && WakeOk(s) }

  lemma LockStep(s: State, step: Step)
    requires LockOk(s) && Enabled(s, step)
    ensures LockOk(Apply(s, step))
  {
  }

  lemma WinnerStep(s: State, step: Step)
    requires WinnerOk(s) && Enabled(s, step)
    ensures WinnerOk(Apply(s, step))
  {
  }

  lemma WriteStep(s: State, step: Step)
    requires WinnerOk(s) && WriteOk(s) && Enabled(s, step)
    ensures WriteOk(Apply(s, step))
  {
  }

  lemma ObservedStep(s: State, step: Step)
    requires WriteOk(s) && ObservedOk(s) && Enabled(s, step)
    ensures ObservedOk(Apply(s, step))
  {
  }

  lemma WakeStep(s: State, step: Step)
    requires LockOk(s) && WinnerOk(s) && WakeOk(s) && Enabled(s, step)
    ensures WakeOk(Apply(s, step))
  {
  }

  // ----- Executions

  ghost predicate Execution(states: seq<State>, steps: seq<Step>, threads: nat) {
    && |states| == |steps| + 1 && states[0] == Init(threads)
    && forall i :: 0 <= i < |steps| ==> Enabled(states[i], steps[i]) && states[i + 1] == Apply(states[i], steps[i])
  }

  lemma {:induction false} Reached(states: seq<State>, steps: seq<Step>, threads: nat, n: nat)
    requires Execution(states, steps, threads) && n < |states|
    ensures Inv(states[n])
    decreases n
  {
    if n > 0 {
      var (s, step) := (states[n - 1], steps[n - 1]);
      Reached(states, steps, threads, n - 1);
      LockStep(s, step);
      WinnerStep(s, step);
      WriteStep(s, step);
      ObservedStep(s, step);
      WakeStep(s, step);
    }
  }

  /** Once a winning call with a reason has returned, no thread is parked or about to park, ever. */
  lemma NobodyStaysParked(states: seq<State>, steps: seq<Step>, threads: nat, n: nat, t: nat)
    requires Execution(states, steps, threads) && n < |states| && t < |states[n].pcs|
    requires states[n].winner.Some? && states[n].winner.value.returned && states[n].winner.value.reason != ""
    ensures !states[n].pcs[t].Parked? && !states[n].pcs[t].Waits?
  {
    Reached(states, steps, threads, n);
  }

  /** The reason is written at most once, by the winner; an observed reason is none or the winner's. */
  lemma ReasonIsWinners(states: seq<State>, steps: seq<Step>, threads: nat, n: nat, o: Option<string>)
    requires Execution(states, steps, threads) && n < |states| && o in states[n].observed
    ensures states[n].writes <= 1
    ensures o.None? || (states[n].winner.Some? && o == Some(states[n].winner.value.reason) && states[n].writes == 1)
  {
    Reached(states, steps, threads, n);
  }

  lemma WinnerKept(s: State, step: Step)
    requires WinnerOk(s) && Enabled(s, step) && s.winner.Some?
    ensures Apply(s, step).winner.Some? && Apply(s, step).cancelled && |Apply(s, step).pcs| == |s.pcs|
    ensures Apply(s, step).winner.value.(returned := true) == s.winner.value.(returned := true)
    ensures s.winner.value.returned ==> Apply(s, step).winner.value.returned
  {
  }

  /** Steps never change who has won. */
  lemma {:induction false} WinnerStays(states: seq<State>, steps: seq<Step>, threads: nat, m: nat, n: nat)
    requires Execution(states, steps, threads) && m <= n < |states| && states[m].winner.Some?
    ensures states[n].winner.Some? && states[n].cancelled && |states[n].pcs| == |states[m].pcs|
    ensures states[n].winner.value.(returned := true) == states[m].winner.value.(returned := true)
    ensures states[m].winner.value.returned ==> states[n].winner.value.returned
    decreases n - m
  {
    if m < n {
      WinnerStays(states, steps, threads, m, n - 1);
      WinnerNext(states, steps, threads, n - 1);
    } else {
      Reached(states, steps, threads, m);
    }
  }

  lemma WinnerNext(states: seq<State>, steps: seq<Step>, threads: nat, n: nat)
    requires Execution(states, steps, threads) && n < |steps| && states[n].winner.Some?
    ensures states[n + 1].winner.Some? && states[n + 1].cancelled && |states[n + 1].pcs| == |states[n].pcs|
    ensures states[n + 1].winner.value.(returned := true) == states[n].winner.value.(returned := true)
    ensures states[n].winner.value.returned ==> states[n + 1].winner.value.returned
  {
    Reached(states, steps, threads, n);
    WinnerKept(states[n], steps[n]);
  }

  // ----- Which threads a notification misses

  /** Parked, or holding the mutex and about to park. */
  predicate Stranded(s: State, t: nat) { t < |s.pcs| && (s.pcs[t].Parked? || s.pcs[t].Waits?) }

  /** After the flag is set, nobody new is stranded, and only a spurious wakeup frees who is. */
  lemma StrandedStep(s: State, step: Step, t: nat)
    requires Inv(s) && Enabled(s, step) && s.winner.Some? && s.winner.value.returned && !step.Spurious?
    ensures Stranded(Apply(s, step), t) <==> Stranded(s, t)
  {
  }

  lemma NotificationMisses(s: State, w: nat, t: nat)
    requires Inv(s) && Enabled(s, Advance(w)) && s.pcs[w].Notifies?
    ensures Stranded(Apply(s, Advance(w)), t) <==> t < |s.pcs| && s.pcs[t].Waits?
    ensures var u := Apply(s, Advance(w)); u.winner.Some? && u.winner.value.returned
  {
  }

  /**
   The winner's notification misses exactly the threads that hold the mutex having found the flag clear: without
   spurious wakeups those, and no others, stay blocked for the rest of the execution.
   */
  lemma {:induction false} MissedExactly(states: seq<State>, steps: seq<Step>, threads: nat, m: nat, n: nat, t: nat)
    requires Execution(states, steps, threads) && m < n < |states|
    requires steps[m].Advance? && states[m].pcs[steps[m].thread].Notifies?
    requires forall i :: m < i < n ==> !steps[i].Spurious?
    ensures Stranded(states[n], t) <==> t < |states[m].pcs| && states[m].pcs[t].Waits?
    decreases n
  {
    Reached(states, steps, threads, m);
    NotificationMisses(states[m], steps[m].thread, t);
    if m + 1 < n {
      MissedExactly(states, steps, threads, m, n - 1, t);
      WinnerStays(states, steps, threads, m + 1, n - 1);
      StrandedNext(states, steps, threads, n - 1, t);
    }
  }

  lemma StrandedNext(states: seq<State>, steps: seq<Step>, threads: nat, n: nat, t: nat)
    requires Execution(states, steps, threads) && n < |steps| && !steps[n].Spurious?
    requires states[n].winner.Some? && states[n].winner.value.returned
    ensures Stranded(states[n + 1], t) <==> Stranded(states[n], t)
  {
    Reached(states, steps, threads, n);
    StrandedStep(states[n], steps[n], t);
  }

  predicate Missed(s: State) {
    s.winner == Some(Winner(1, "", true)) && |s.pcs| == 2 && s.pcs[0].Parked?
  }

  /** Without a reason the mutex is not taken, and a waiter between its load and its wait is missed. */
  lemma EmptyReasonMisses()
    ensures exists states: seq<State>, steps :: Execution(states, steps, 2) && |states| == 7 && Missed(states[6])
  {
    var steps := [CallWait(0), Advance(0), Advance(0), CallCancel(1, ""), Advance(1), Advance(0)];
    var s0 := Init(2);
    var s1 := Apply(s0, steps[0]);
    var s2 := Apply(s1, steps[1]);
    var s3 := Apply(s2, steps[2]);
    assert s3.pcs == [Waits, Idle] && !s3.cancelled;
    var s4 := Apply(s3, steps[3]);
    assert s4.pcs == [Waits, Notifies("")];
    var s5 := Apply(s4, steps[4]);
    assert s5.pcs == [Waits, Idle];
    var s6 := Apply(s5, steps[5]);
    var states := [s0, s1, s2, s3, s4, s5, s6];
    assert Execution(states, steps, 2);
  }

  // ----- After a return with a reason, every call completes

  function Work(pc: Pc): nat {
    match pc
    case Locks => 4 case Loads => 3 case LocksToRead => 3 case Reads => 2 case Unlocks => 1
    case _ => 0
  }

  predicate Settled(s: State) {
    s.winner.Some? && s.winner.value.returned && s.winner.value.reason != ""
  }

  /** Every step of a call brings it closer to its return and moves no other call. */
  lemma WorkDecreases(s: State, t: nat)
    requires Inv(s) && Settled(s) && Enabled(s, Advance(t))
    ensures Work(Apply(s, Advance(t)).pcs[t]) < Work(s.pcs[t]) && Settled(Apply(s, Advance(t)))
    ensures Work(Apply(s, Advance(t)).pcs[t]) == 0 ==> Apply(s, Advance(t)).pcs[t].Idle?
    ensures forall u :: 0 <= u < |s.pcs| && u != t ==> Apply(s, Advance(t)).pcs[u] == s.pcs[u]
  {
  }

  /** While some call is unfinished, some call can take its next step. */
  lemma NoDeadlock(s: State, t: nat) returns (u: nat)
    requires Inv(s) && Settled(s) && t < |s.pcs| && !s.pcs[t].Idle?
    ensures Enabled(s, Advance(u)) && Work(s.pcs[u]) > 0
  {
    if s.holder.Some? {
      u := s.holder.value;
      assert s.holder == Some(u);
    } else {
      u := t;
    }
    WorkDecreases(s, u);
  }

  // ----- One call at a time

  /** What a caller can find out about the scope. */
  datatype View = View(cancelled: bool, reason: Option<string>)

  /** The first call wins and its reason, unless empty, is kept; a later call changes nothing. */
  function AfterCancel(v: View, why: string): View {
    View(true, if !v.cancelled && why != "" then Some(why) else v.reason)
  }

  function Checked(v: View): Result<(), Option<string>> { if v.cancelled then Err(v.reason) else Ok(()) }

  function ViewOf(s: State): View { View(s.cancelled, s.reason) }

  /** From `s` the steps of thread `t` alone lead to `u`. */
  ghost predicate AloneTo(s: State, t: nat, u: State) {
    exists states, steps :: IsPath(states, steps, t) && states[0] == s && states[|states| - 1] == u
  }

  ghost predicate IsPath(states: seq<State>, steps: seq<Step>, t: nat) {
    && |states| == |steps| + 1
    && forall i :: 0 <= i < |steps| ==>
         steps[i].thread == t && Enabled(states[i], steps[i]) && states[i + 1] == Apply(states[i], steps[i])
  }

  lemma AloneStep(s: State, t: nat, u: State, step: Step)
    requires (s == u || AloneTo(s, t, u)) && step.thread == t && Enabled(u, step)
    ensures AloneTo(s, t, Apply(u, step))
  {
    var states, steps := [u], [];
    if AloneTo(s, t, u) {
      states, steps :| IsPath(states, steps, t) && states[0] == s && states[|states| - 1] == u;
    }
    var more := states + [Apply(u, step)];
    assert IsPath(more, steps + [step], t);
    assert more[0] == s && more[|more| - 1] == Apply(u, step);
  }

  /** A cancellation that nobody disturbs does what the method does, and returns. */
  lemma CancelAlone(s: State, t: nat, why: string) returns (u: State)
    requires t < |s.pcs| && s.pcs[t].Idle? && s.holder.None?
    ensures AloneTo(s, t, u) && ViewOf(u) == AfterCancel(ViewOf(s), why) && u.holder.None? && |u.pcs| == |s.pcs|
      && u.pcs[t].Idle?
    ensures if s.cancelled then u == s
      else u.winner == Some(Winner(t, why, true)) && forall i :: 0 <= i < |u.pcs| ==> !u.pcs[i].Parked?
  {
    u := Apply(s, CallCancel(t, why));
    AloneStep(s, t, s, CallCancel(t, why));
    if !s.cancelled {
      if why != "" {
        u := Stored(s, t, u, why);
      }
      AloneStep(s, t, u, Advance(t));
      u := Apply(u, Advance(t));
    }
  }

  lemma Stored(s: State, t: nat, u: State, why: string) returns (v: State)
    requires AloneTo(s, t, u) && t < |u.pcs| && u.pcs[t] == Stores(why) && u.holder.None?
    ensures AloneTo(s, t, v) && v == At(u, t, Notifies(why)).(reason := Some(why), writes := u.writes + 1)
  {
    AloneStep(s, t, u, Advance(t));
    var v1 := Apply(u, Advance(t));
    AloneStep(s, t, v1, Advance(t));
    var v2 := Apply(v1, Advance(t));
    AloneStep(s, t, v2, Advance(t));
    v := Apply(v2, Advance(t));
  }

  /** A check that nobody disturbs observes what the method returns, and changes nothing else. */
  lemma CheckAlone(s: State, t: nat) returns (u: State)
    requires t < |s.pcs| && s.pcs[t].Idle? && s.holder.None?
    ensures AloneTo(s, t, u)
    ensures u == if Checked(ViewOf(s)).Err? then s.(observed := s.observed + [Checked(ViewOf(s)).error]) else s
  {
    u := Apply(s, CallCheck(t));
    AloneStep(s, t, s, CallCheck(t));
    if s.cancelled {
      u := ReadAlone(s, t, u);
    }
  }

  lemma ReadAlone(s: State, t: nat, u: State) returns (v: State)
    requires AloneTo(s, t, u) && t < |u.pcs| && u.pcs[t] == LocksToRead && u.holder.None?
    ensures AloneTo(s, t, v) && v == At(u, t, Idle).(observed := u.observed + [u.reason])
  {
    AloneStep(s, t, u, Advance(t));
    var v1 := Apply(u, Advance(t));
    AloneStep(s, t, v1, Advance(t));
    var v2 := Apply(v1, Advance(t));
    AloneStep(s, t, v2, Advance(t));
    v := Apply(v2, Advance(t));
  }

  class Scope {
    var cancelled: bool
    var reason: Option<string>

    function Value(): View
      reads this
    {
      View(cancelled, reason)
    }

    constructor ()
      ensures Value() == ViewOf(Init(0))
    {
      cancelled, reason := false, None;
    }

    method CancelWithReason(why: string) returns (won: bool)
      modifies this
      ensures Value() == AfterCancel(old(Value()), why) && (won <==> !old(cancelled))
    {
      if cancelled {
        return false;
      }
      cancelled := true;
      if why != "" {
        reason := Some(why);
      }
      return true;
    }

    method Check() returns (r: Result<(), Option<string>>)
      ensures r == Checked(Value())
    {
      if cancelled {
        return Err(reason);
      }
      return Ok(());
    }
  }
}
