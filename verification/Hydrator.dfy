/** internal/app/hiveci_policy_hydrator.go: one goroutine re-reads the canonical
    policy; any number of signallers tell it that the policy changed.

    A step is one atomic action: a section under the state lock, one atomic load
    or store, or one channel operation. `Signal` is two steps, its locked section
    and its send. Every interleaving of steps is a run. */
module Hydrator {

  /** Where `Run` stands. */
  datatype Pc =
    | Waiting                 // for the first relay catch-up
    | Top                     // an attempt is pending
    | Attempting(loaded: nat) // the local read is under way
    | Refused                 // the read failed; `ready` is cleared
    | Noted                   // ... and `resumeNeeded` is set
    | Activating(resume: bool)
    | Parked                  // in the select
    | Woken                   // took the token
    | Stopped

  datatype Activation = Idle | Active(cancelled: bool)

  /** `sending` counts the signallers between their locked section and their send;
      `proved` is the generation that the last activated attempt had loaded. */
  datatype State = State(
    ready: bool, generation: nat, resumeNeeded: bool, active: Activation, token: bool, started: bool,
    sending: nat, pc: Pc, retry: bool, attempts: nat, proved: nat)

  datatype Step =
    | SignalLock | SignalSend | Start
    | Go | Begin | Fail | NoteFailure | Arm | Succeed | ActivationReturns
    | Receive | Wake | Retry | Done

  const INITIAL := State(false, 0, true, Idle, false, false, 0, Waiting, false, 0, 0)

  const MAX_RETRY_SHIFT := 4

  /** The retry delay in seconds after `attempts` failures: it doubles up to 16. */
  function RetryDelay(attempts: nat): nat
    requires attempts >= 1
  {
    if attempts == 1 then 1 else if RetryDelay(attempts - 1) < 16 then 2 * RetryDelay(attempts - 1) else 16
  }

  function Shifted(shift: nat): (d: nat)
    ensures d >= 1
  {
    if shift == 0 then 1 else 2 * Shifted(shift - 1)
  }

  /** Shifting a second by the capped number of failures gives that delay. */
  lemma {:induction false} ShiftIsDelay(attempts: nat)
    requires attempts >= 1
    ensures RetryDelay(attempts) == Shifted(if attempts - 1 > MAX_RETRY_SHIFT then MAX_RETRY_SHIFT else attempts - 1)
  {
    assert Shifted(4) == 16;
    if attempts > 1 {
      ShiftIsDelay(attempts - 1);
      if attempts <= MAX_RETRY_SHIFT + 1 {
        ShiftedBelow(attempts - 2, MAX_RETRY_SHIFT);
      }
    }
  }

  lemma {:induction false} ShiftedBelow(a: nat, b: nat)
    requires a < b
    ensures Shifted(a) < Shifted(b)
  {
    if a + 1 < b {
      ShiftedBelow(a, b - 1);
    }
  }

  predicate Enabled(s: State, step: Step) {
    match step
    case SignalLock => true
    case SignalSend => s.sending > 0
    case Start => true
    case Go => s.pc.Waiting? && s.started
    case Begin => s.pc.Top?
    case Fail => s.pc.Attempting?
    case NoteFailure => s.pc.Refused?
    case Arm => s.pc.Noted?
    case Succeed => s.pc.Attempting?
    case ActivationReturns => s.pc.Activating?
    case Receive => s.pc.Parked? && s.token
    case Wake => s.pc.Woken?
    case Retry => s.pc.Parked? && s.retry
    case Done => s.pc.Waiting? || s.pc.Parked?
  }

  function Do(s: State, step: Step): State
    requires Enabled(s, step)
  {
    match step
    case SignalLock =>
      s.(ready := false, resumeNeeded := true, generation := s.generation + 1,
         active := if s.active.Active? then Active(true) else Idle, sending := s.sending + 1)
    case SignalSend => s.(sending := s.sending - 1, token := true)
    case Start => s.(started := true)
    case Go => s.(pc := Top)
    case Begin => s.(pc := Attempting(s.generation))
    case Fail => s.(ready := false, pc := Refused)
    case NoteFailure => s.(resumeNeeded := true, pc := Noted)
    case Arm => s.(attempts := s.attempts + 1, retry := true, pc := Parked)
    case Succeed =>
      if s.generation == s.pc.loaded then
        s.(attempts := 0, retry := false, active := Active(false), resumeNeeded := false, ready := true,
           proved := s.generation, pc := Activating(s.resumeNeeded))
      else
        s.(attempts := 0, retry := false, pc := Parked)
    case ActivationReturns => s.(active := Idle, pc := Parked)
    case Receive => s.(token := false, pc := Woken)
    case Wake => s.(ready := false, attempts := 0, retry := false, pc := Top)
    case Retry => s.(retry := false, pc := Top)
    case Done => s.(pc := Stopped)
  }

  // ----- runs

  ghost predicate Next(s: State, step: Step, s': State) {
    Enabled(s, step) && s' == Do(s, step)
  }

  /** `states[k]` is the state before `steps[k]`. */
  datatype Run = Run(states: seq<State>, steps: seq<Step>)

  ghost predicate StepAt(run: Run, k: nat)
    requires k < |run.steps| && |run.states| == |run.steps| + 1
  {
    Next(run.states[k], run.steps[k], run.states[k + 1])
  }

  ghost predicate IsRun(run: Run) {
    && |run.states| == |run.steps| + 1 && run.states[0] == INITIAL
    && forall k {:trigger StepAt(run, k)} :: 0 <= k < |run.steps| ==> StepAt(run, k)
  }

  function Last(run: Run): State
    requires |run.states| > 0
  {
    run.states[|run.states| - 1]
  }

  function More(run: Run, step: Step, s: State): Run {
    Run(run.states + [s], run.steps + [step])
  }

  lemma MoreIsRun(run: Run, step: Step, s: State)
    requires IsRun(run) && Next(Last(run), step, s)
    ensures IsRun(More(run, step, s))
  {
    var more := More(run, step, s);
    forall k | 0 <= k < |more.steps|
      ensures StepAt(more, k)
    {
      if k < |run.steps| {
        assert StepAt(run, k);
      }
    }
  }

  /** What holds between any two steps of any run. */
  ghost predicate Inv(s: State) {
    && (!s.pc.Waiting? && !s.pc.Stopped? ==> s.started)
    && (s.ready ==> s.proved == s.generation)
    && (s.pc.Activating? <==> s.active.Active?) && (s.pc.Activating? ==> !s.retry)
    && (s.pc.Activating? && !s.active.cancelled ==> s.ready)
    && (s.pc.Attempting? ==> s.pc.loaded <= s.generation)
    && (s.pc.Attempting? && s.pc.loaded < s.generation ==> s.token || s.sending > 0)
    && ((s.pc.Activating? || s.pc.Parked?) && !s.ready ==> s.token || s.sending > 0 || (s.pc.Parked? && s.retry))
  }

  lemma StepKeepsInv(s: State, step: Step, s': State)
    requires Inv(s) && Next(s, step, s')
    ensures Inv(s')
  {
  }

  lemma {:induction false} RunKeepsInv(run: Run, n: nat)
    requires IsRun(run) && n < |run.states|
    ensures Inv(run.states[n])
  {
    if n > 0 {
      RunKeepsInv(run, n - 1);
      assert StepAt(run, n - 1);
      StepKeepsInv(run.states[n - 1], run.steps[n - 1], run.states[n]);
    }
  }

  /** The attempt that began at step `i` succeeded at step `j` and was activated. */
  ghost predicate Activated(run: Run, i: nat, j: nat)
    requires IsRun(run)
  {
    && i < j < |run.steps| && run.steps[i] == Begin && run.steps[j] == Succeed
    && (forall m :: i < m < j ==> run.steps[m] != Begin)
    && run.states[j + 1].pc.Activating?
  }

  /** No `Signal` takes effect in steps `i` up to `n`. */
  ghost predicate NoSignal(run: Run, i: nat, n: nat) {
    forall m :: i <= m < n && m < |run.steps| ==> run.steps[m] != SignalLock
  }

  /** Nothing speaks against what was read: no signal, no failed read and no wakeup. */
  ghost predicate Undisturbed(run: Run, i: nat, n: nat) {
    forall m :: i <= m < n && m < |run.steps| ==> !Disturbs(run.steps[m])
  }

  predicate Disturbs(step: Step) {
    step == SignalLock || step == Fail || step == Wake
  }

  // What one step can do to the values the theorems are about.

  lemma AttemptingBy(s: State, step: Step, s': State)
    requires Next(s, step, s') && s'.pc.Attempting? && (s.pc.Attempting? ==> s.pc.loaded <= s.generation)
    ensures
      || step == Begin
      || (s.pc == s'.pc && (s'.pc.loaded == s'.generation ==> !Disturbs(step) && s.pc.loaded == s.generation))
  {
  }

  lemma ReadyByStep(s: State, step: Step, s': State)
    requires Next(s, step, s') && s'.ready
    ensures (step == Succeed && s'.pc.Activating? && s.pc == Attempting(s.generation)) ||
            (s.ready && !Disturbs(step) && !(step == Succeed && s'.pc.Activating?))
  {
  }

  lemma ResumedByStep(s: State, step: Step, s': State)
    requires Next(s, step, s') && !s'.resumeNeeded
    ensures step != SignalLock && step != NoteFailure
    ensures s.resumeNeeded ==> step == Succeed && s'.pc == Activating(true)
    ensures step == Fail ==> s'.pc.Refused?
    ensures s.pc.Refused? ==> s'.pc.Refused?
  {
  }

  lemma {:induction false} BeginOf(run: Run, n: nat) returns (i: nat)
    requires IsRun(run) && n < |run.states| && run.states[n].pc.Attempting?
    ensures i < n && run.steps[i] == Begin && forall m :: i < m < n ==> run.steps[m] != Begin
    ensures run.states[n].pc.loaded == run.states[n].generation ==> Undisturbed(run, i, n)
    decreases n
  {
    assert n > 0;
    var k := n - 1;
    assert StepAt(run, k);
    RunKeepsInv(run, k);
    AttemptingBy(run.states[k], run.steps[k], run.states[n]);
    if run.steps[k] == Begin {
      i := k;
    } else {
      i := BeginOf(run, k);
    }
  }

  lemma {:induction false} ReadyBy(run: Run, n: nat) returns (i: nat, j: nat)
    requires IsRun(run) && n < |run.states| && run.states[n].ready
    ensures j < n && Activated(run, i, j) && Undisturbed(run, i, n)
    ensures forall i': nat, j': nat :: Activated(run, i', j') && j' < n ==> j' <= j
    decreases n
  {
    assert n > 0;
    var k := n - 1;
    assert StepAt(run, k);
    ReadyByStep(run.states[k], run.steps[k], run.states[n]);
    if run.steps[k] == Succeed && run.states[n].pc.Activating? {
      i := BeginOf(run, k);
      j := k;
    } else {
      i, j := ReadyBy(run, k);
    }
  }

  /** Safety. Whenever `ready` is set, or an activation runs that was not cancelled,
      the last activated attempt is current: since it began no signal took effect, no read failed
      and the loop was not woken. */
  lemma ReadyIsCurrent(run: Run, n: nat) returns (i: nat, j: nat)
    requires IsRun(run) && n < |run.states|
    requires run.states[n].ready || run.states[n].active == Active(false)
    ensures j < n && Activated(run, i, j) && Undisturbed(run, i, n)
    ensures forall i': nat, j': nat :: Activated(run, i', j') && j' < n ==> j' <= j
  {
    RunKeepsInv(run, n);
    i, j := ReadyBy(run, n);
  }

  /** No lost wakeup. A parked `Run` that is not ready will be woken: the channel
      holds a token, a retry is armed, or a signaller has yet to send. */
  lemma ParkedWillWake(run: Run, n: nat)
    requires IsRun(run) && n < |run.states|
    requires run.states[n].pc.Parked? && !run.states[n].ready
    ensures run.states[n].token || run.states[n].retry || run.states[n].sending > 0
  {
    RunKeepsInv(run, n);
  }

  /** No lost resume. `resumeNeeded` is clear only if an activation that resumes began,
      and no signal took effect and no failure was noted since. */
  lemma {:induction false} ResumedSince(run: Run, n: nat) returns (j: nat)
    requires IsRun(run) && n < |run.states| && !run.states[n].resumeNeeded
    ensures j < n && run.steps[j] == Succeed && run.states[j + 1].pc == Activating(true)
    ensures NoSignal(run, j, n) && forall m :: j < m < n ==> run.steps[m] != NoteFailure
    ensures forall m :: j < m < n && run.steps[m] == Fail ==> run.states[n].pc.Refused?
    decreases n
  {
    assert n > 0;
    var k := n - 1;
    assert StepAt(run, k);
    ResumedByStep(run.states[k], run.steps[k], run.states[n]);
    if run.states[k].resumeNeeded {
      j := k;
    } else {
      j := ResumedSince(run, k);
    }
  }

  /** The activation that step `j` begins. */
  ghost predicate Activates(run: Run, j: nat)
    requires |run.states| == |run.steps| + 1
  {
    j < |run.steps| && run.steps[j] == Succeed && run.states[j + 1].pc.Activating?
  }

  /** A signal took effect or a failure was noted after step `j`. */
  ghost predicate AsksResume(run: Run, j: nat, n: nat) {
    exists m :: j < m < n && m < |run.steps| && (run.steps[m] == SignalLock || run.steps[m] == NoteFailure)
  }

  lemma NeededByStep(s: State, step: Step, s': State)
    requires Next(s, step, s')
    ensures s'.resumeNeeded <==>
      step == SignalLock || step == NoteFailure || (s.resumeNeeded && !(step == Succeed && s'.pc.Activating?))
    ensures step == Succeed && s'.pc.Activating? ==> s'.pc == Activating(s.resumeNeeded)
  {
  }

  /** `resumeNeeded` is set exactly if each activation so far, so the last one, was followed by a
      signal or a noted failure. */
  lemma {:induction false} NeededSince(run: Run, n: nat)
    requires IsRun(run) && n < |run.states|
    ensures run.states[n].resumeNeeded <==> forall j: nat :: j < n && Activates(run, j) ==> AsksResume(run, j, n)
  {
    if n > 0 {
      var k := n - 1;
      NeededSince(run, k);
      assert StepAt(run, k);
      NeededByStep(run.states[k], run.steps[k], run.states[n]);
      forall j: nat | j < k
        ensures AsksResume(run, j, n) <==>
          AsksResume(run, j, k) || run.steps[k] == SignalLock || run.steps[k] == NoteFailure
      {
        if AsksResume(run, j, k) {
          var m :| j < m < k && m < |run.steps| && (run.steps[m] == SignalLock || run.steps[m] == NoteFailure);
          assert m < n;
        }
      }
      assert Activates(run, k) <==> run.steps[k] == Succeed && run.states[n].pc.Activating?;
      assert !AsksResume(run, k, n);
    }
  }

  /** An activation resumes exactly if it is the first, or a signal or a noted failure came since
      the one before. */
  lemma ResumesExactly(run: Run, j: nat)
    requires IsRun(run) && Activates(run, j)
    ensures run.states[j + 1].pc.resume <==>
      forall before: nat :: before < j && Activates(run, before) ==> AsksResume(run, before, j)
  {
    NeededSince(run, j);
    assert StepAt(run, j);
    NeededByStep(run.states[j], run.steps[j], run.states[j + 1]);
  }

  /** The failures since step `from`. */
  ghost function Failures(run: Run, from: nat, n: nat): set<nat> {
    set m: nat | from <= m < n && m < |run.steps| && run.steps[m] == Arm
  }

  lemma FailuresNext(run: Run, from: nat, k: nat)
    requires from <= k < |run.steps|
    ensures |Failures(run, from, k + 1)| == |Failures(run, from, k)| + if run.steps[k] == Arm then 1 else 0
  {
    assert Failures(run, from, k + 1) == Failures(run, from, k) + if run.steps[k] == Arm then {k} else {};
  }

  /** `attempts` counts the failed reads since the last read that succeeded or wakeup, if any. */
  lemma {:induction false} AttemptsCount(run: Run, n: nat) returns (from: nat)
    requires IsRun(run) && n < |run.states|
    ensures from <= n && (from > 0 ==> run.steps[from - 1] == Succeed || run.steps[from - 1] == Wake)
    ensures forall m :: from <= m < n ==> run.steps[m] != Succeed && run.steps[m] != Wake
    ensures run.states[n].attempts == |Failures(run, from, n)|
  {
    if n == 0 {
      from := 0;
      assert Failures(run, 0, 0) == {};
    } else {
      var k := n - 1;
      assert StepAt(run, k);
      AttemptsByStep(run.states[k], run.steps[k], run.states[n]);
      from := AttemptsCount(run, k);
      if run.steps[k] == Succeed || run.steps[k] == Wake {
        from := n;
        assert Failures(run, n, n) == {};
      } else {
        FailuresNext(run, from, k);
      }
    }
  }

  lemma AttemptsByStep(s: State, step: Step, s': State)
    requires Next(s, step, s')
    ensures step == Succeed || step == Wake ==> s'.attempts == 0
    ensures step == Arm ==> s'.attempts == s.attempts + 1
    ensures step != Succeed && step != Wake && step != Arm ==> s'.attempts == s.attempts
  {
  }

  // ----- settling

  /** Nothing is left to do until the next signal. */
  ghost predicate Settled(s: State) {
    s.pc.Parked? && s.ready && !s.token && !s.retry && s.sending == 0
  }

  /** A step of a time in which no new signal takes effect, no read fails and nobody stops
      the loop or starts it twice. */
  predicate Quiet(s: State, step: Step) {
    step != SignalLock && step != Fail && step != Done && (step == Start ==> !s.started)
  }

  /** No quiet step can be taken. */
  ghost predicate Stuck(s: State) {
    forall step :: Enabled(s, step) ==> !Quiet(s, step)
  }

  ghost function Backlog(s: State): nat {
    20 * s.sending + (if s.token then 10 else 0) +
    match s.pc
    case Waiting => if s.started then 8 else 9
    case Refused => 7
    case Noted => 6
    case Woken => 5
    case Parked => if s.retry then 5 else 0
    case Top => 4
    case Attempting(_) => 3
    case Activating(_) => 2
    case Stopped => 0
  }

  /** Whichever quiet step is taken, less is left to do. */
  lemma QuietProgress(s: State, step: Step)
    requires Inv(s) && !s.pc.Stopped? && Enabled(s, step) && Quiet(s, step)
    ensures var s' := Do(s, step); !s'.pc.Stopped? && s'.generation == s.generation && Backlog(s') < Backlog(s)
  {
    match s.pc
    case Waiting =>
    case Top =>
    case Attempting(_) =>
    case Refused =>
    case Noted =>
    case Activating(_) =>
    case Parked =>
    case Woken =>
  }

  /** A loop that is left alone and cannot go on has nothing left to do. */
  lemma StuckIsSettled(s: State)
    requires Inv(s) && !s.pc.Stopped?
    ensures Stuck(s) <==> Settled(s)
  {
    if !Settled(s) {
      var step :=
        if s.sending > 0 then SignalSend
        else match s.pc
          case Waiting => if s.started then Go else Start
          case Top => Begin
          case Attempting(_) => Succeed
          case Refused => NoteFailure
          case Noted => Arm
          case Activating(_) => ActivationReturns
          case Parked => if s.token then Receive else Retry
          case Woken => Wake
          case Stopped => Done;
      assert Enabled(s, step) && Quiet(s, step);
    }
  }

  /** `longer` continues `run` by quiet steps, in whatever order they are scheduled. */
  ghost predicate QuietlyExtends(run: Run, longer: Run)
    requires IsRun(run) && IsRun(longer)
  {
    && run.states <= longer.states && run.steps <= longer.steps
    && forall m :: |run.steps| <= m < |longer.steps| ==> Quiet(longer.states[m], longer.steps[m])
  }

  lemma {:induction false} QuietRun(run: Run, longer: Run, n: nat)
    requires IsRun(run) && IsRun(longer) && QuietlyExtends(run, longer) && !Last(run).pc.Stopped?
    requires |run.steps| <= n <= |longer.steps|
    ensures !longer.states[n].pc.Stopped? && longer.states[n].generation == Last(run).generation
    ensures n - |run.steps| + Backlog(longer.states[n]) <= Backlog(Last(run))
    decreases n
  {
    if n > |run.steps| {
      QuietRun(run, longer, n - 1);
      RunKeepsInv(longer, n - 1);
      assert StepAt(longer, n - 1);
      QuietProgress(longer.states[n - 1], longer.steps[n - 1]);
    } else {
      assert longer.states[n] == run.states[n];
    }
  }

  /** Convergence under every schedule. Once signals stop and reads succeed, a run that was
      not stopped goes on for at most `Backlog` steps, whatever the order of steps; and it
      cannot go on exactly when it is ready on the generation it had, with nothing left to do. */
  lemma Settles(run: Run, longer: Run)
    requires IsRun(run) && IsRun(longer) && QuietlyExtends(run, longer) && !Last(run).pc.Stopped?
    ensures |longer.steps| <= |run.steps| + Backlog(Last(run))
    ensures Stuck(Last(longer)) <==> Settled(Last(longer))
    ensures Stuck(Last(longer)) ==>
      Last(longer).ready && Last(longer).proved == Last(longer).generation == Last(run).generation
  {
    var n := |longer.steps|;
    QuietRun(run, longer, n);
    RunKeepsInv(longer, n);
    StuckIsSettled(Last(longer));
  }

  // ----- the goroutines

  /** What other goroutines do between two steps of the loop. */
  datatype Other = SignalTakesLock | SignalSends | Starts

  /** What the select of the loop takes. */
  datatype Choice = ContextDone | Changed | RetryDue

  /** A schedule: what happens at each moment, and what the select of a turn takes, given whether
      a token is there and whether a retry is armed. */
  datatype Schedule =
    Schedule(others: nat -> seq<Other>, readFails: nat -> bool, choose: (nat, bool, bool) -> Choice)

  predicate IsThere(choice: Choice, token: bool, retry: bool) {
    (choice.Changed? && token) || (choice.RetryDue? && retry)
  }

  /** What the other goroutines' steps do. */
  function OthersDo(s: State, others: seq<Other>): State {
    if others == [] then s
    else
      var t := OthersDo(s, others[..|others| - 1]);
      match others[|others| - 1]
      case SignalTakesLock => Do(t, SignalLock)
      case SignalSends => if t.sending > 0 then Do(t, SignalSend) else t
      case Starts => Do(t, Start)
  }

  /** An attempt whose read succeeds, with nothing in between. */
  function Reread(s: State): State
    requires s.pc.Top?
  {
    s.(ready := true, resumeNeeded := false, active := Idle, proved := s.generation, attempts := 0, retry := false,
       pc := Parked)
  }

  /** A select with nothing in between. */
  function Taken(s: State, choice: Choice): State
    requires s.pc.Parked?
  {
    match choice
    case ContextDone => s.(pc := Stopped)
    case Changed => if s.token then s.(token := false, ready := false, attempts := 0, retry := false, pc := Top) else s
    case RetryDue => if s.retry then s.(retry := false, pc := Top) else s
  }

  /** A turn with nothing in between and no failing read. */
  function QuietTurn(w: Schedule, turn: nat, s: State): State
    requires s.pc.Top? || s.pc.Parked?
  {
    var mid := if s.pc.Top? then Reread(s) else s;
    Taken(mid, w.choose(turn + 1, mid.token, mid.retry))
  }

  /** From this turn on the others do nothing, reads succeed, nobody stops the loop, and a select
      takes something that is there. */
  ghost predicate QuietFrom(w: Schedule, turn: nat) {
    && (forall m: nat :: m > 8 * turn ==> w.others(m) == [] && !w.readFails(m))
    && (forall t: nat, token, retry :: t > turn ==>
          && !w.choose(t, token, retry).ContextDone?
          && (token || retry ==> IsThere(w.choose(t, token, retry), token, retry)))
  }

  /** What is left to do after `n` quiet turns. */
  ghost predicate Calm(s: State, n: nat) {
    && (n >= 1 ==> !s.retry && (s.pc.Parked? ==> !s.token))
    && (n >= 2 ==> !s.token)
    && (n >= 3 ==> s.pc.Parked?)
  }

  ghost predicate CalmSince(w: Schedule, from: nat, turn: nat, s: State) {
    QuietFrom(w, from) && from <= turn ==> Calm(s, turn - from)
  }

  /** Since whichever turn the schedule is quiet, so much is done. */
  ghost predicate AlwaysCalm(w: Schedule, turn: nat, s: State) {
    forall from: nat :: CalmSince(w, from, turn, s)
  }

  lemma QuietTurnCalms(w: Schedule, from: nat, turn: nat, s: State)
    requires QuietFrom(w, from) && from <= turn && Calm(s, turn - from) && (s.pc.Top? || s.pc.Parked?)
    ensures Calm(QuietTurn(w, turn, s), turn + 1 - from)
  {
  }

  /** The hydrator's fields; `pc`, `retry` and `attempts` mirror the locals of its loop. Every
      atomic step is recorded. */
  class PolicyHydrator {
    var ready: bool
    var generation: nat
    var resumeNeeded: bool
    var active: Activation
    var token: bool
    var started: bool
    var sending: nat
    ghost var pc: Pc
    ghost var retry: bool
    ghost var attempts: nat
    ghost var proved: nat
    ghost var run: Run

    ghost function View(): State
      reads this
    {
      State(ready, generation, resumeNeeded, active, token, started, sending, pc, retry, attempts, proved)
    }

    /** What was recorded is a run that ends here. */
    ghost predicate Recorded()
      reads this
    {
      IsRun(run) && Last(run) == View()
    }

    constructor ()
      ensures Recorded() && run.steps == []
    {
      ready, generation, resumeNeeded, active := false, 0, true, Idle;
      token, started, sending, pc := false, false, 0, Waiting;
      retry, attempts, proved, run := false, 0, 0, Run([INITIAL], []);
    }

    ghost method Record(step: Step)
      requires IsRun(run) && Next(Last(run), step, View())
      modifies this`run
      ensures Recorded() && run == More(old(run), step, View())
    {
      MoreIsRun(run, step, View());
      run := More(run, step, View());
    }

    /** The locked section of a signal. */
    method SignalLocked()
      requires Recorded()
      modifies this
      ensures Recorded() && run == More(old(run), SignalLock, View()) && View() == Do(old(View()), SignalLock)
    {
      ready := false;
      resumeNeeded := true;
      generation := generation + 1;
      if active.Active? {
        active := Active(true);
      }
      sending := sending + 1;
      Record(SignalLock);
    }

    /** The send of a signal, which does not block. */
    method SignalChannel()
      requires Recorded() && sending > 0
      modifies this
      ensures Recorded() && run == More(old(run), SignalSend, View()) && View() == Do(old(View()), SignalSend)
    {
      sending := sending - 1;
      if !token {
        token := true;
      }
      Record(SignalSend);
    }

    /** Whatever other goroutines do in between: signals in any state, and the start. */
    method Others(others: seq<Other>)
      requires Recorded()
      modifies this
      ensures Recorded() && old(run.steps) <= run.steps && old(run.states) <= run.states
      ensures View() == OthersDo(old(View()), others) && (others == [] ==> run == old(run))
      ensures pc == old(pc) && retry == old(retry) && attempts == old(attempts) && (old(started) ==> started)
    {
      for i := 0 to |others|
        invariant Recorded() && old(run.steps) <= run.steps && old(run.states) <= run.states
        invariant View() == OthersDo(old(View()), others[..i]) && (i == 0 ==> run == old(run))
        invariant pc == old(pc) && retry == old(retry) && attempts == old(attempts) && (old(started) ==> started)
      {
        assert others[..i + 1][..i] == others[..i];
        match others[i]
        case SignalTakesLock => SignalLocked();
        case SignalSends =>
          if sending > 0 {
            SignalChannel();
          }
        case Starts =>
          started := true;
          Record(Start);
      }
      assert others[..|others|] == others;
    }

    // The steps of the loop.

    method LoadGeneration() returns (loaded: nat)
      requires Recorded() && pc.Top?
      modifies this
      ensures Recorded() && run == More(old(run), Begin, View()) && View() == Do(old(View()), Begin)
      ensures pc == Attempting(loaded)
    {
      loaded := generation;
      pc := Attempting(loaded);
      Record(Begin);
    }

    method ClearReady()
      requires Recorded() && pc.Attempting?
      modifies this
      ensures Recorded() && run == More(old(run), Fail, View()) && View() == Do(old(View()), Fail)
    {
      ready := false;
      pc := Refused;
      Record(Fail);
    }

    method AskResume()
      requires Recorded() && pc.Refused?
      modifies this
      ensures Recorded() && run == More(old(run), NoteFailure, View()) && View() == Do(old(View()), NoteFailure)
    {
      resumeNeeded := true;
      pc := Noted;
      Record(NoteFailure);
    }

    method ArmRetry(failures: nat) returns (delay: nat)
      requires Recorded() && pc.Noted? && attempts + 1 == failures
      modifies this
      ensures Recorded() && run == More(old(run), Arm, View()) && View() == Do(old(View()), Arm)
      ensures delay == RetryDelay(failures)
    {
      var shift := failures - 1;
      if shift > MAX_RETRY_SHIFT {
        shift := MAX_RETRY_SHIFT;
      }
      delay := Shifted(shift);
      ShiftIsDelay(failures);
      attempts, retry, pc := attempts + 1, true, Parked;
      Record(Arm);
    }

    /** The locked section after a successful read. */
    method Install(loaded: nat) returns (activates: bool, resume: bool)
      requires Recorded() && pc == Attempting(loaded)
      modifies this
      ensures Recorded() && run == More(old(run), Succeed, View()) && View() == Do(old(View()), Succeed)
      ensures pc == if activates then Activating(resume) else Parked
    {
      attempts, retry := 0, false;
      activates, resume := generation == loaded, false;
      if activates {
        active := Active(false);
        resume := resumeNeeded;
        resumeNeeded := false;
        ready := true;
        proved, pc := generation, Activating(resume);
      } else {
        pc := Parked;
      }
      Record(Succeed);
    }

    method EndActivation()
      requires Recorded() && pc.Activating?
      modifies this
      ensures Recorded() && run == More(old(run), ActivationReturns, View())
      ensures View() == Do(old(View()), ActivationReturns)
    {
      active := Idle;
      pc := Parked;
      Record(ActivationReturns);
    }

    method TakeToken()
      requires Recorded() && pc.Parked? && token
      modifies this
      ensures Recorded() && run == More(old(run), Receive, View()) && View() == Do(old(View()), Receive)
    {
      token := false;
      pc := Woken;
      Record(Receive);
    }

    method WakeUp()
      requires Recorded() && pc.Woken?
      modifies this
      ensures Recorded() && run == More(old(run), Wake, View()) && View() == Do(old(View()), Wake)
    {
      ready := false;
      attempts, retry, pc := 0, false, Top;
      Record(Wake);
    }

    method RetryFires()
      requires Recorded() && pc.Parked? && retry
      modifies this
      ensures Recorded() && run == More(old(run), Retry, View()) && View() == Do(old(View()), Retry)
    {
      retry, pc := false, Top;
      Record(Retry);
    }

    method Stop()
      requires Recorded() && (pc.Waiting? || pc.Parked?)
      modifies this
      ensures Recorded() && run == More(old(run), Done, View()) && View() == Do(old(View()), Done)
    {
      pc := Stopped;
      Record(Done);
    }

    method CatchUp()
      requires Recorded() && pc.Waiting? && started
      modifies this
      ensures Recorded() && run == More(old(run), Go, View()) && View() == Do(old(View()), Go)
    {
      pc := Top;
      Record(Go);
    }

    /** One attempt: the read, and what its failure or success changes. */
    method Attempt(w: Schedule, now: nat, failures: nat) returns (failures': nat, armed: bool)
      requires Recorded() && pc.Top? && attempts == failures
      modifies this
      ensures Recorded() && old(run.steps) <= run.steps && old(run.states) <= run.states
      ensures pc.Parked? && failures' == attempts && armed == retry == w.readFails(now)
      ensures failures' == if w.readFails(now) then failures + 1 else 0
      ensures |old(run.steps)| < |run.steps| && run.steps[|old(run.steps)|] == Begin
      ensures !w.readFails(now) && w.others(now) == [] && w.others(now + 1) == [] ==> View() == Reread(old(View()))
    {
      var loaded := LoadGeneration();
      Others(w.others(now));
      if w.readFails(now) {
        Refuse(w, now, failures);
        return failures + 1, true;
      }
      Accept(w, now, loaded);
      return 0, false;
    }

    /** The read failed. */
    method Refuse(w: Schedule, now: nat, failures: nat)
      requires Recorded() && pc.Attempting? && attempts == failures
      modifies this
      ensures Recorded() && old(run.steps) <= run.steps && old(run.states) <= run.states
      ensures pc.Parked? && retry && attempts == failures + 1
    {
      ClearReady();
      Others(w.others(now + 1));
      AskResume();
      Others(w.others(now + 2));
      var delay := ArmRetry(failures + 1);
    }

    /** The read succeeded: it is activated if nothing changed since. */
    method Accept(w: Schedule, now: nat, loaded: nat)
      requires Recorded() && pc == Attempting(loaded)
      modifies this
      ensures Recorded() && old(run.steps) <= run.steps && old(run.states) <= run.states
      ensures pc.Parked? && !retry && attempts == 0
      ensures w.others(now + 1) == [] && loaded == old(generation) ==> View() == Reread(old(View()).(pc := Top))
    {
      var activates, resume := Install(loaded);
      if activates {
        Others(w.others(now + 1));
        EndActivation();
      }
    }

    /** The select of the loop: it takes what it finds. */
    method Select(w: Schedule, now: nat, choice: Choice, failures: nat, armed: bool)
      returns (failures': nat, armed': bool, pending: bool, done: bool)
      requires Recorded() && pc.Parked? && attempts == failures && retry == armed
      modifies this
      ensures Recorded() && old(run.steps) <= run.steps && old(run.states) <= run.states
      ensures done <==> choice.ContextDone?
      ensures done ==> pc.Stopped?
      ensures !done ==> attempts == failures' && retry == armed' && pc == if pending then Top else Parked
      ensures !done ==> (pending <==> IsThere(choice, old(token), armed))
      ensures !done && !pending ==> run == old(run)
      ensures pending ==>
        |run.steps| > |old(run.steps)| && run.steps[|old(run.steps)|] == if choice.Changed? then Receive else Retry
      ensures w.others(now) == [] ==> View() == Taken(old(View()), choice)
    {
      failures', armed', pending, done := failures, armed, false, false;
      match choice
      case ContextDone =>
        Stop();
        done := true;
      case Changed =>
        if token {
          Wakes(w, now);
          failures', armed', pending := 0, false, true;
        }
      case RetryDue =>
        if armed {
          RetryFires();
          armed', pending := false, true;
        }
    }

    /** The select receives the token. */
    method Wakes(w: Schedule, now: nat)
      requires Recorded() && pc.Parked? && token
      modifies this
      ensures Recorded() && old(run.steps) <= run.steps && old(run.states) <= run.states
      ensures pc.Top? && !retry && attempts == 0
      ensures |run.steps| > |old(run.steps)| && run.steps[|old(run.steps)|] == Receive
      ensures w.others(now) == [] ==> View() == Taken(old(View()), Changed)
    {
      TakeToken();
      Others(w.others(now));
      WakeUp();
    }

    /** What comes before the select: an attempt if one is pending. */
    method ToSelect(w: Schedule, now: nat, failures: nat, armed: bool, pending: bool)
      returns (failures': nat, armed': bool)
      requires Recorded() && attempts == failures && retry == armed && pc == if pending then Top else Parked
      modifies this
      ensures Recorded() && old(run.steps) <= run.steps && old(run.states) <= run.states
      ensures pc.Parked? && attempts == failures' && retry == armed'
      ensures pending ==> Begin in run.steps[|old(run.steps)|..] && armed' == w.readFails(now + 1)
      ensures (forall m: nat :: m >= now ==> w.others(m) == [] && !w.readFails(m)) ==>
        View() == if pending then Reread(old(View())) else old(View())
    {
      failures', armed' := failures, armed;
      if pending {
        Others(w.others(now));
        ghost var before := |run.steps|;
        failures', armed' := Attempt(w, now + 1, failures);
        assert run.steps[before] == Begin;
      }
      Others(w.others(now + 5));
    }

    /** One turn of the loop: an attempt if one is pending, then the select, which `at` marks in
        the run. It goes on to an attempt exactly if it takes a token or a retry that is there. */
    method Turn(w: Schedule, turn: nat, failures: nat, armed: bool, pending: bool)
      returns (failures': nat, armed': bool, pending': bool, done: bool, ghost at: nat)
      requires Recorded() && attempts == failures && retry == armed && pc == if pending then Top else Parked
      modifies this
      ensures Recorded() && old(run.steps) <= run.steps && old(run.states) <= run.states
      ensures |old(run.steps)| <= at <= |run.steps| && run.states[at].pc.Parked?
      ensures pending ==> Begin in run.steps[|old(run.steps)|..at]
      ensures pending ==> run.states[at].retry == w.readFails(8 * turn + 2)
      ensures var s := run.states[at]; var choice := w.choose(turn + 1, s.token, s.retry);
        && (done <==> choice.ContextDone?)
        && (!done ==> (pending' <==> IsThere(choice, s.token, s.retry)))
        && (pending' ==> at < |run.steps| && run.steps[at] == if choice.Changed? then Receive else Retry)
      ensures done ==> pc.Stopped?
      ensures !done ==> attempts == failures' && retry == armed' && pc == if pending' then Top else Parked
      ensures QuietFrom(w, turn) ==> View() == QuietTurn(w, turn, old(View()))
    {
      failures', armed' := ToSelect(w, 8 * turn + 1, failures, armed, pending);
      at := |run.steps|;
      var choice := w.choose(turn + 1, token, armed');
      failures', armed', pending', done := Select(w, 8 * turn + 7, choice, failures', armed');
    }

    /** The loop waits until it is started or stopped. */
    method AwaitStart(w: Schedule) returns (go: bool)
      requires Recorded() && pc.Waiting? && attempts == 0 && !retry
      modifies this
      ensures Recorded() && old(run.steps) <= run.steps && attempts == 0 && !retry
      ensures go <==> started && !w.choose(0, true, false).ContextDone?
      ensures go ==> pc.Top?
      ensures !go ==> (pc.Waiting? && !started) || (pc.Stopped? && w.choose(0, started, false).ContextDone?)
    {
      Others(w.others(0));
      if w.choose(0, started, false).ContextDone? {
        Stop();
        return false;
      }
      if !started {
        return false;
      }
      CatchUp();
      return true;
    }

    /** The loop, with other goroutines between any two of its steps, for any number of turns.
        Whatever the schedule, what happens is a run of the protocol; and three turns after a
        schedule has become quiet nothing is left to do but what a signaller has yet to send. */
    method Loop(w: Schedule, turns: nat)
      requires Recorded() && pc.Waiting? && attempts == 0 && !retry
      modifies this
      ensures Recorded() && old(run.steps) <= run.steps
      ensures pc.Waiting? || pc.Top? || pc.Parked? || pc.Stopped?
      ensures pc.Waiting? ==> !started
      ensures pc.Stopped? ==> exists t: nat, token, retry :: t <= turns && w.choose(t, token, retry).ContextDone?
      ensures (pc.Top? || pc.Parked?) && turns > 0 ==> Begin in run.steps
      ensures pc.Top? || pc.Parked? ==> AlwaysCalm(w, turns, View())
    {
      var go := AwaitStart(w);
      if !go {
        return;
      }
      var failures, pending, armed, done := 0, true, false, false;
      for turn := 0 to turns
        invariant Recorded() && old(run.steps) <= run.steps
        invariant attempts == failures && retry == armed && pc == if pending then Top else Parked
        invariant if turn == 0 then pending else Begin in run.steps
        invariant AlwaysCalm(w, turn, View())
      {
        ghost var before, at := View(), 0;
        failures, armed, pending, done, at := Turn(w, turn, failures, armed, pending);
        if done {
          assert w.choose(turn + 1, run.states[at].token, run.states[at].retry).ContextDone?;
          return;
        }
        CalmerSince(w, turn, turn + 1, before, View());
      }
    }
  }

  /** The schedule has been quiet for three turns. */
  ghost predicate Rests(w: Schedule, turns: nat) {
    exists from: nat :: RestsSince(w, from, turns)
  }

  ghost predicate RestsSince(w: Schedule, from: nat, turns: nat) {
    from + 3 <= turns && QuietFrom(w, from)
  }

  lemma Rested(w: Schedule, turns: nat, s: State)
    requires Rests(w, turns) && AlwaysCalm(w, turns, s) && Inv(s) && (s.pc.Top? || s.pc.Parked?)
    ensures s.sending == 0 ==> Settled(s) && s.proved == s.generation
  {
    var from: nat :| RestsSince(w, from, turns);
    assert CalmSince(w, from, turns, s);
  }

  lemma CalmerSince(w: Schedule, turn: nat, next: nat, s: State, s': State)
    requires next == turn + 1 && (s.pc.Top? || s.pc.Parked?) && (QuietFrom(w, turn) ==> s' == QuietTurn(w, turn, s))
    requires AlwaysCalm(w, turn, s)
    ensures AlwaysCalm(w, next, s')
  {
    forall from: nat
      ensures CalmSince(w, from, next, s')
    {
      assert CalmSince(w, from, turn, s);
      if QuietFrom(w, from) && from <= turn {
        assert QuietFrom(w, turn);
        QuietTurnCalms(w, from, turn, s);
      }
    }
  }

  /** The theorems are about the goroutines. After any schedule, if the policy is marked ready, the
      attempt that was activated last began after every signal that took effect and every read
      that failed. Three turns after the schedule has become quiet, with no send outstanding, the
      hydrator is ready on its generation with nothing left to do. */
  method Hydrate(w: Schedule, turns: nat) returns (h: PolicyHydrator)
    ensures fresh(h) && h.Recorded()
    ensures h.ready ==> exists i: nat, j: nat :: Activated(h.run, i, j) && Undisturbed(h.run, i, |h.run.steps|)
    ensures h.pc.Parked? && !h.ready ==> h.token || h.retry || h.sending > 0
    ensures Rests(w, turns) && (h.pc.Top? || h.pc.Parked?) && h.sending == 0 ==>
      Settled(h.View()) && h.ready && h.proved == h.generation
  {
    h := new PolicyHydrator();
    h.Loop(w, turns);
    RunKeepsInv(h.run, |h.run.steps|);
    if h.ready {
      ghost var i, j := ReadyIsCurrent(h.run, |h.run.steps|);
    }
    ghost var s := h.View();
    if Rests(w, turns) && (s.pc.Top? || s.pc.Parked?) {
      Rested(w, turns, s);
    }
  }
}
