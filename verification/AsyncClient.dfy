/**
 The asyncio facade of dblift/api/async_client.py: one lock, one worker job per call, and
 cancellations that may come at any time and any number of times.

 Tasks run without interruption between two awaits, so each stretch from one await to the next
 is one step. The event loop may run them in any order. A cancellation is first requested and
 then delivered at the task's next turn, as asyncio does.
 */
module AsyncClient {
  import opened Basics

  type Task = nat

  /** How the wrapped call ended in its worker; `Fatal` is an exception outside `Exception`. */
  datatype Result = Returned(value: int) | Failed(error: int) | Fatal(error: int)

  datatype Job = NoJob | Running | Done(result: Result)

  /** What the awaiting caller gets: what the worker gave, a cancellation, the "is closed" error, or
   nothing from a second close. */
  datatype Ending = Gave(result: Result) | Cancelled | RefusedClosed | AlreadyClosed

  datatype Phase = NotStarted | Queued | Awaiting | Ended(ending: Ending)

  /**
   One call: whether it closes the client, where it is, whether a cancellation is requested but
   not delivered, the local flag `cancelled`, whether a cancellation was delivered when the
   worker was already done, and its job.
   */
  datatype Call = Call(
    closing: bool, phase: Phase, requested: bool, cancelled: bool, late: bool, job: Job)

  datatype State = State(holder: Option<Task>, closed: bool, calls: map<Task, Call>)

  datatype Step =
    | Spawn(closing: bool)
    | Begin
    | Granted
    | Cancel
    | Deliver
    | WorkerEnds(result: Result)
    | Resume

  // ---------------------------------------------------------------- the steps

  predicate Enabled(s: State, t: Task, step: Step) {
    if step.Spawn? then t !in s.calls
    else
      t in s.calls &&
      var c := s.calls[t];
      match step
      case Begin => c.phase == NotStarted && !c.requested
      case Granted => c.phase == Queued && !c.requested && s.holder.None?
      case Cancel => !c.phase.Ended?
      case Deliver => c.requested && !c.phase.Ended?
      case WorkerEnds(_) => c.job == Running
      case Resume => c.phase == Awaiting && !c.requested && c.job.Done?
  }

  function Set(s: State, t: Task, c: Call): State {
    s.(calls := s.calls[t := c])
  }

  /** The body of `async with self._lock` up to its await: the closed check, then the job. */
  function EnterLock(s: State, t: Task, c: Call): State {
    if s.closed then Set(s, t, c.(phase := Ended(if c.closing then AlreadyClosed else RefusedClosed)))
    else Set(s, t, c.(phase := Awaiting, job := Running)).(holder := Some(t))
  }

  /** Leaving the lock with an ending; a closing call marks the client closed however it ends. */
  function Leave(s: State, t: Task, c: Call, ending: Ending): State {
    Set(s, t, c.(phase := Ended(ending))).(holder := None, closed := s.closed || c.closing)
  }

  function Apply(s: State, t: Task, step: Step): State
    requires Enabled(s, t, step)
  {
    match step
    case Spawn(closing) => Set(s, t, Call(closing, NotStarted, false, false, false, NoJob))
    case Begin =>
      if s.holder.None? then EnterLock(s, t, s.calls[t]) else Set(s, t, s.calls[t].(phase := Queued))
    case Granted => EnterLock(s, t, s.calls[t])
    case Cancel => Set(s, t, s.calls[t].(requested := true))
    case Deliver =>
      var c := s.calls[t].(requested := false);
      if c.phase != Awaiting then Set(s, t, c.(phase := Ended(Cancelled)))
      else if c.job.Done? then Leave(s, t, c.(cancelled := true, late := true), Cancelled)
      else Set(s, t, c.(cancelled := true))
    case WorkerEnds(result) => Set(s, t, s.calls[t].(job := Done(result)))
    case Resume =>
      var c := s.calls[t];
      if c.cancelled && !c.job.result.Fatal? then Leave(s, t, c, Cancelled)
      else Leave(s, t, c, Gave(c.job.result))
  }

  // ---------------------------------------------------------------- the invariant

  predicate CallValid(c: Call) {
    && (c.job == Running ==> c.phase == Awaiting)
    && (c.phase == Awaiting ==> c.job != NoJob && !c.late)
    && (c.phase == NotStarted || c.phase == Queued ==> c.job == NoJob)
    && (c.cancelled ==> c.job != NoJob)
    && (c.late ==> c.cancelled)
    && match c.phase {
      case Ended(Gave(r)) => c.job == Done(r) && (c.cancelled ==> r.Fatal?) && !c.late
      case Ended(Cancelled) => c.job.NoJob? || (c.job.Done? && c.cancelled && (c.late || !c.job.result.Fatal?))
      case Ended(_) => c.job == NoJob
      case _ => true
    }
  }

  predicate Valid(s: State) {
    && (forall t :: t in s.calls ==> CallValid(s.calls[t]))
    && (forall t :: t in s.calls ==> (s.calls[t].phase == Awaiting <==> s.holder == Some(t)))
    && (s.holder.Some? ==> s.holder.value in s.calls)
    && (s.closed ==> s.holder.None?)
  }

  predicate Init(s: State) {
    s == State(None, false, map[])
  }

  lemma StepKeepsCall(s: State, t: Task, step: Step)
    requires Valid(s) && Enabled(s, t, step)
    ensures t in Apply(s, t, step).calls && CallValid(Apply(s, t, step).calls[t])
    ensures forall u :: u in s.calls && u != t ==>
      u in Apply(s, t, step).calls && Apply(s, t, step).calls[u] == s.calls[u]
  {
  }

  lemma StepKeepsValid(s: State, t: Task, step: Step)
    requires Valid(s) && Enabled(s, t, step)
    ensures Valid(Apply(s, t, step))
  {
    StepKeepsCall(s, t, step);
  }

  // ---------------------------------------------------------------- whole runs

  datatype Event = Event(task: Task, step: Step)

  predicate IsRun(states: seq<State>, events: seq<Event>) {
    && |states| == |events| + 1 && Init(states[0])
    && forall i :: 0 <= i < |events| ==>
      && Enabled(states[i], events[i].task, events[i].step)
      && states[i + 1] == Apply(states[i], events[i].task, events[i].step)
  }

  lemma RunStep(states: seq<State>, events: seq<Event>, i: nat)
    requires IsRun(states, events) && i < |events|
    ensures Enabled(states[i], events[i].task, events[i].step)
    ensures states[i + 1] == Apply(states[i], events[i].task, events[i].step)
  {
  }

  lemma {:induction false} RunIsValid(states: seq<State>, events: seq<Event>, i: nat)
    requires IsRun(states, events) && i < |states|
    ensures Valid(states[i])
  {
    if i > 0 {
      RunIsValid(states, events, i - 1);
      StepKeepsValid(states[i - 1], events[i - 1].task, events[i - 1].step);
    }
  }

  /** A run goes on with any step that is enabled where it stands. */
  lemma RunGoesOn(states: seq<State>, events: seq<Event>, t: Task, step: Step)
    requires IsRun(states, events) && Enabled(states[|events|], t, step)
    ensures IsRun(states + [Apply(states[|events|], t, step)], events + [Event(t, step)])
  {
  }

  /** One wrapped call at a time, and the lock is held by its task until the worker is done. */
  lemma OneCallAtATime(states: seq<State>, events: seq<Event>, i: nat, t: Task, u: Task)
    requires IsRun(states, events) && i < |states|
    requires t in states[i].calls && u in states[i].calls
    ensures states[i].calls[t].job == Running ==>
      states[i].holder == Some(t) && states[i].calls[t].phase == Awaiting && !states[i].closed
    ensures states[i].calls[t].job == Running && states[i].calls[u].job == Running ==> t == u
  {
    RunIsValid(states, events, i);
  }

  /** At this moment the caller still awaits, its worker is done, and a cancellation is on its way. */
  predicate CancelPending(s: State, t: Task) {
    && t in s.calls && s.calls[t].phase == Awaiting && s.calls[t].requested && s.calls[t].job.Done?
  }

  predicate WasPending(states: seq<State>, t: Task, i: nat)
    requires i < |states|
  {
    exists k: nat :: k <= i && CancelPending(states[k], t)
  }

  predicate PendingOrLate(s: State, t: Task) {
    t in s.calls && (CancelPending(s, t) || s.calls[t].late)
  }

  lemma StepKeepsPending(s: State, t: Task, u: Task, step: Step)
    requires Enabled(s, u, step) && PendingOrLate(s, t)
    ensures PendingOrLate(Apply(s, u, step), t)
  {
    if u != t {
      assert Apply(s, u, step).calls[t] == s.calls[t];
    }
  }

  /** A cancellation pending when the worker is done is delivered before the call can end. */
  lemma {:induction false} PendingIsDelivered(states: seq<State>, events: seq<Event>, k: nat, i: nat, t: Task)
    requires IsRun(states, events) && k <= i < |states| && CancelPending(states[k], t)
    ensures PendingOrLate(states[i], t)
    decreases i - k
  {
    if k < i {
      PendingIsDelivered(states, events, k, i - 1, t);
      RunStep(states, events, i - 1);
      StepKeepsPending(states[i - 1], t, events[i - 1].task, events[i - 1].step);
    }
  }

  /** Only such a moment sets the flag. */
  lemma {:induction false} LateWasPending(states: seq<State>, events: seq<Event>, i: nat, t: Task)
    requires IsRun(states, events) && i < |states| && t in states[i].calls && states[i].calls[t].late
    ensures WasPending(states, t, i)
  {
    if i > 0 {
      RunIsValid(states, events, i - 1);
      if t in states[i - 1].calls && states[i - 1].calls[t].late {
        LateWasPending(states, events, i - 1, t);
      } else {
        assert CancelPending(states[i - 1], t);
      }
    }
  }

  /** The flag `late` of an ended call tells that the run came through such a moment. */
  lemma LateMeans(states: seq<State>, events: seq<Event>, i: nat, t: Task)
    requires IsRun(states, events) && i < |states| && t in states[i].calls && states[i].calls[t].phase.Ended?
    ensures states[i].calls[t].late <==> WasPending(states, t, i)
  {
    if states[i].calls[t].late {
      LateWasPending(states, events, i, t);
    }
    if WasPending(states, t, i) {
      var k: nat :| k <= i && CancelPending(states[k], t);
      PendingIsDelivered(states, events, k, i, t);
    }
  }

  /**
   What a caller whose job was submitted gets, and only once its worker is done: a caller that
   was never cancelled gets exactly what the worker gave; a cancelled one gets the cancellation,
   except exactly when the worker ended outside `Exception` and the run came through no moment
   at which a cancellation was pending with the worker done.
   */
  lemma EndingOfSubmitted(states: seq<State>, events: seq<Event>, i: nat, t: Task)
    requires IsRun(states, events) && i < |states| && t in states[i].calls
    requires states[i].calls[t].phase.Ended? && states[i].calls[t].job != NoJob
    ensures states[i].calls[t].job.Done?
    ensures var c := states[i].calls[t];
      && (!c.cancelled ==> c.phase == Ended(Gave(c.job.result)))
      && (c.cancelled ==> (c.phase == Ended(Cancelled) <==>
            !c.job.result.Fatal? || WasPending(states, t, i)))
      && (c.cancelled && c.phase != Ended(Cancelled) ==> c.phase == Ended(Gave(c.job.result)))
  {
    RunIsValid(states, events, i);
    LateMeans(states, events, i, t);
  }

  /** The job is submitted and a cancellation is requested or delivered; if ended, it was delivered. */
  predicate CancellationKept(s: State, t: Task) {
    t in s.calls &&
    var c := s.calls[t];
    c.job != NoJob && (if c.phase.Ended? then c.cancelled else c.requested || c.cancelled)
  }

  lemma StepKeepsCancellation(s: State, t: Task, u: Task, step: Step)
    requires Valid(s) && Enabled(s, u, step) && CancellationKept(s, t)
    ensures CancellationKept(Apply(s, u, step), t)
  {
  }

  /** Once requested, a cancellation stays with the call until the call has ended. */
  lemma {:induction false} CancellationStays(states: seq<State>, events: seq<Event>, t: Task, i: nat, j: nat)
    requires IsRun(states, events) && i <= j < |states| && CancellationKept(states[i], t)
    ensures CancellationKept(states[j], t)
    decreases j - i
  {
    if i < j {
      CancellationStays(states, events, t, i, j - 1);
      RunIsValid(states, events, j - 1);
      StepKeepsCancellation(states[j - 1], t, events[j - 1].task, events[j - 1].step);
    }
  }

  /** A caller cancelled while its worker runs ends cancelled, unless the worker ended fatally. */
  lemma CancelledEndsCancelled(states: seq<State>, events: seq<Event>, t: Task, i: nat, j: nat)
    requires IsRun(states, events) && i < j < |states|
    requires t in states[i].calls && states[i].calls[t].job == Running
    requires events[i] == Event(t, Cancel)
    requires t in states[j].calls && states[j].calls[t].phase.Ended?
    ensures states[j].calls[t].job.Done?
    ensures !states[j].calls[t].job.result.Fatal? ==> states[j].calls[t].phase == Ended(Cancelled)
  {
    RunIsValid(states, events, i);
    CancellationStays(states, events, t, i + 1, j);
    EndingOfSubmitted(states, events, j, t);
  }

  /** A cancellation is on its way to a call that has no job yet, or has ended it. */
  predicate CancelledFirst(s: State, t: Task) {
    t in s.calls &&
    var c := s.calls[t];
    c.job == NoJob && (if c.phase.Ended? then c.phase == Ended(Cancelled) else c.requested)
  }

  lemma StepKeepsCancelledFirst(s: State, t: Task, u: Task, step: Step)
    requires Valid(s) && Enabled(s, u, step) && CancelledFirst(s, t)
    ensures CancelledFirst(Apply(s, u, step), t)
  {
    if u != t {
      assert Apply(s, u, step).calls[t] == s.calls[t];
    }
  }

  /** A call cancelled before it gets its job never has one, and ends cancelled. */
  lemma {:induction false} CancelledBeforeJob(states: seq<State>, events: seq<Event>, t: Task, i: nat, j: nat)
    requires IsRun(states, events) && i < j < |states| && events[i] == Event(t, Cancel)
    requires t in states[i].calls && states[i].calls[t].job == NoJob
    ensures t in states[j].calls && states[j].calls[t].job == NoJob
    ensures states[j].calls[t].phase.Ended? ==> states[j].calls[t].phase == Ended(Cancelled)
    ensures CancelledFirst(states[j], t)
    decreases j - i
  {
    RunStep(states, events, j - 1);
    if i < j - 1 {
      CancelledBeforeJob(states, events, t, i, j - 1);
      RunIsValid(states, events, j - 1);
      StepKeepsCancelledFirst(states[j - 1], t, events[j - 1].task, events[j - 1].step);
    }
  }

  /** The exception: cancelled first, a worker ending outside `Exception`, and that is what comes out. */
  lemma FatalOverridesCancellation(t: Task, code: int)
    ensures exists states: seq<State>, events: seq<Event> ::
      && IsRun(states, events) && t in states[|events|].calls
      && states[|events|].calls[t].cancelled
      && states[|events|].calls[t].phase == Ended(Gave(Fatal(code)))
  {
    var events := [
      Event(t, Spawn(false)), Event(t, Begin), Event(t, Cancel), Event(t, Deliver),
      Event(t, WorkerEnds(Fatal(code))), Event(t, Resume)];
    var c := Call(false, Awaiting, false, true, false, Running);
    var s0 := State(None, false, map[]);
    var s1 := Apply(s0, t, events[0].step);
    var s2 := Apply(s1, t, events[1].step);
    var s3 := Apply(s2, t, events[2].step);
    var s4 := Apply(s3, t, events[3].step);
    assert s4.calls[t] == c && s4.holder == Some(t);
    var s5 := Apply(s4, t, events[4].step);
    assert s5.calls[t] == c.(job := Done(Fatal(code)));
    var s6 := Apply(s5, t, events[5].step);
    var states := [s0, s1, s2, s3, s4, s5, s6];
    assert IsRun(states, events);
  }

  /** The calls whose job was handed to the executor. */
  function Submitted(s: State): set<Task> {
    set t | t in s.calls && s.calls[t].job != NoJob
  }

  lemma StepAfterClose(s: State, t: Task, step: Step)
    requires Valid(s) && s.closed && Enabled(s, t, step)
    ensures Apply(s, t, step).closed && Submitted(Apply(s, t, step)) == Submitted(s)
  {
    var s' := Apply(s, t, step);
    assert forall u :: u in Submitted(s') <==> u in Submitted(s);
  }

  lemma NoneRunsClosed(s: State)
    requires Valid(s) && s.closed
    ensures forall t :: t in s.calls ==> s.calls[t].job != Running
  {
  }

  /** Once closed, always closed: no job is running then and none is submitted any more. */
  lemma {:induction false} NothingAfterClose(states: seq<State>, events: seq<Event>, i: nat, j: nat)
    requires IsRun(states, events) && i <= j < |states| && states[i].closed
    ensures states[j].closed && Submitted(states[j]) == Submitted(states[i])
    ensures forall t :: t in states[j].calls ==> states[j].calls[t].job != Running
    decreases j - i
  {
    if i < j {
      NothingAfterClose(states, events, i, j - 1);
      RunIsValid(states, events, j - 1);
      StepAfterClose(states[j - 1], events[j - 1].task, events[j - 1].step);
    }
    RunIsValid(states, events, j);
    NoneRunsClosed(states[j]);
  }

  /** A closing call that got to run closes the client, even when it is cancelled or raises. */
  lemma CloseCloses(states: seq<State>, events: seq<Event>, i: nat, t: Task)
    requires IsRun(states, events) && i < |states| && t in states[i].calls
    requires states[i].calls[t].closing && states[i].calls[t].phase.Ended? && states[i].calls[t].job != NoJob
    ensures states[i].closed
  {
    RunIsValid(states, events, i);
    ClosingInvariant(states, events, i, t);
  }

  /** A closing call whose job is over has closed the client. */
  predicate ClosedIfOver(s: State, t: Task) {
    t in s.calls && s.calls[t].closing && s.calls[t].phase.Ended? && s.calls[t].job != NoJob ==> s.closed
  }

  lemma StepClosesIfOver(s: State, t: Task, u: Task, step: Step)
    requires Valid(s) && Enabled(s, u, step) && ClosedIfOver(s, t)
    ensures ClosedIfOver(Apply(s, u, step), t)
  {
    if u != t && t in s.calls {
      assert Apply(s, u, step).calls[t] == s.calls[t];
    }
  }

  lemma {:induction false} ClosingInvariant(states: seq<State>, events: seq<Event>, i: nat, t: Task)
    requires IsRun(states, events) && i < |states|
    ensures ClosedIfOver(states[i], t)
  {
    if i > 0 {
      RunIsValid(states, events, i - 1);
      ClosingInvariant(states, events, i - 1, t);
      StepClosesIfOver(states[i - 1], t, events[i - 1].task, events[i - 1].step);
    }
  }

  // ---------------------------------------------------------------- where an ending comes from

  /** Among the first `n` events, task `t` took the step. */
  predicate Took(events: seq<Event>, n: nat, t: Task, step: Step) {
    exists k: nat :: k < n && k < |events| && events[k] == Event(t, step)
  }

  /** Among the first `n` events, task `t` came to the lock, with the client closed or open. */
  predicate CameToLock(states: seq<State>, events: seq<Event>, n: nat, t: Task, closed: bool)
    requires |states| == |events| + 1
  {
    exists k: nat :: k < n && k < |events| && states[k].closed == closed &&
      (events[k] == Event(t, Begin) || events[k] == Event(t, Granted))
  }

  /** What the run must have seen for the call to be as it is. */
  predicate Explained(states: seq<State>, events: seq<Event>, n: nat, t: Task, c: Call)
    requires |states| == |events| + 1
  {
    && Took(events, n, t, Spawn(c.closing))
    && (c.requested || c.cancelled || c.phase == Ended(Cancelled) ==> Took(events, n, t, Cancel))
    && (c.job.Done? ==> Took(events, n, t, WorkerEnds(c.job.result)))
    && (c.job != NoJob ==> CameToLock(states, events, n, t, false))
    && (c.phase == Ended(RefusedClosed) ==> !c.closing && CameToLock(states, events, n, t, true))
    && (c.phase == Ended(AlreadyClosed) ==> c.closing && CameToLock(states, events, n, t, true))
  }

  lemma TookLater(events: seq<Event>, n: nat, t: Task, step: Step)
    requires n < |events|
    ensures Took(events, n, t, step) ==> Took(events, n + 1, t, step)
    ensures events[n] == Event(t, step) ==> Took(events, n + 1, t, step)
  {
  }

  lemma CameLater(states: seq<State>, events: seq<Event>, n: nat, t: Task, closed: bool)
    requires |states| == |events| + 1 && n < |events|
    ensures CameToLock(states, events, n, t, closed) ==> CameToLock(states, events, n + 1, t, closed)
    ensures states[n].closed == closed && (events[n] == Event(t, Begin) || events[n] == Event(t, Granted)) ==>
      CameToLock(states, events, n + 1, t, closed)
  {
  }

  lemma ExplainedLater(states: seq<State>, events: seq<Event>, n: nat, t: Task, c: Call)
    requires |states| == |events| + 1 && n < |events| && Explained(states, events, n, t, c)
    ensures Explained(states, events, n + 1, t, c)
  {
    TookLater(events, n, t, Spawn(c.closing));
    TookLater(events, n, t, Cancel);
    if c.job.Done? {
      TookLater(events, n, t, WorkerEnds(c.job.result));
    }
    CameLater(states, events, n, t, false);
    CameLater(states, events, n, t, true);
  }

  /** What a step of its task may change about a call, with the client closed or open before it. */
  predicate MayChange(closed: bool, step: Step, c: Call, c': Call) {
    var entered := step == Begin || step == Granted;
    && c'.closing == c.closing
    && (c'.requested || c'.cancelled || c'.phase == Ended(Cancelled) ==>
          c.requested || c.cancelled || c.phase == Ended(Cancelled) || step == Cancel)
    && (c'.job.Done? ==> c'.job == c.job || step == WorkerEnds(c'.job.result))
    && (c'.job != NoJob ==> c.job != NoJob || (entered && !closed))
    && (c'.phase == Ended(RefusedClosed) ==> c'.phase == c.phase || (entered && closed && !c.closing))
    && (c'.phase == Ended(AlreadyClosed) ==> c'.phase == c.phase || (entered && closed && c.closing))
  }

  lemma StepChanges(s: State, t: Task, step: Step)
    requires Enabled(s, t, step)
    ensures t in Apply(s, t, step).calls
    ensures var c' := Apply(s, t, step).calls[t];
      if step.Spawn? then c' == Call(step.closing, NotStarted, false, false, false, NoJob)
      else MayChange(s.closed, step, s.calls[t], c')
  {
  }

  lemma ChangeIsExplained(states: seq<State>, events: seq<Event>, n: nat, t: Task, c: Call, c': Call)
    requires |states| == |events| + 1 && n < |events| && events[n].task == t
    requires Explained(states, events, n, t, c) && MayChange(states[n].closed, events[n].step, c, c')
    ensures Explained(states, events, n + 1, t, c')
  {
    TookLater(events, n, t, Spawn(c.closing));
    TookLater(events, n, t, Cancel);
    if c'.job.Done? {
      TookLater(events, n, t, WorkerEnds(c'.job.result));
    }
    CameLater(states, events, n, t, false);
    CameLater(states, events, n, t, true);
  }

  lemma StepIsExplained(states: seq<State>, events: seq<Event>, n: nat, t: Task)
    requires IsRun(states, events) && n < |events| && t in states[n + 1].calls
    requires t in states[n].calls ==> Explained(states, events, n, t, states[n].calls[t])
    ensures Explained(states, events, n + 1, t, states[n + 1].calls[t])
  {
    var s, e := states[n], events[n];
    if e.task != t {
      assert states[n + 1].calls[t] == s.calls[t];
      ExplainedLater(states, events, n, t, s.calls[t]);
    } else {
      StepChanges(s, t, e.step);
      if e.step.Spawn? {
        TookLater(events, n, t, e.step);
      } else {
        ChangeIsExplained(states, events, n, t, s.calls[t], states[n + 1].calls[t]);
      }
    }
  }

  lemma {:induction false} CallIsExplained(states: seq<State>, events: seq<Event>, i: nat, t: Task)
    requires IsRun(states, events) && i < |states| && t in states[i].calls
    ensures Explained(states, events, i, t, states[i].calls[t])
  {
    if i > 0 {
      if t in states[i - 1].calls {
        CallIsExplained(states, events, i - 1, t);
      }
      StepIsExplained(states, events, i - 1, t);
    }
  }

  /**
   A call that ended without a job and without being cancelled came to the lock of a closed client:
   an ordinary one gets the "is closed" error, a close gets nothing, and never the other way round.
   */
  lemma EndingOfRefused(states: seq<State>, events: seq<Event>, i: nat, t: Task)
    requires IsRun(states, events) && i < |states| && t in states[i].calls
    requires states[i].calls[t].phase.Ended? && states[i].calls[t].job == NoJob
    ensures var c := states[i].calls[t];
      && (c.phase == Ended(Cancelled) ==> Took(events, i, t, Cancel))
      && (c.phase != Ended(Cancelled) ==>
            CameToLock(states, events, i, t, true) && Took(events, i, t, Spawn(c.closing)) &&
            c.phase == Ended(if c.closing then AlreadyClosed else RefusedClosed))
  {
    RunIsValid(states, events, i);
    CallIsExplained(states, events, i, t);
  }

  /** No ordinary call ends like a second close, and no close is refused. */
  lemma EndingFitsCall(states: seq<State>, events: seq<Event>, i: nat, t: Task)
    requires IsRun(states, events) && i < |states| && t in states[i].calls
    ensures states[i].calls[t].phase == Ended(AlreadyClosed) ==> states[i].calls[t].closing
    ensures states[i].calls[t].phase == Ended(RefusedClosed) ==> !states[i].calls[t].closing
  {
    CallIsExplained(states, events, i, t);
  }

  /** So a call made on a closed client, unless cancelled, gets the error, and a close gets nothing. */
  lemma CallAfterClose(states: seq<State>, events: seq<Event>, i: nat, j: nat, t: Task)
    requires IsRun(states, events) && i <= j < |states| && states[i].closed
    requires t !in states[i].calls && t in states[j].calls && states[j].calls[t].phase.Ended?
    ensures var c := states[j].calls[t];
      || (c.phase == Ended(Cancelled) && Took(events, j, t, Cancel))
      || c.phase == Ended(if c.closing then AlreadyClosed else RefusedClosed)
  {
    NothingAfterClose(states, events, i, j);
    assert t !in Submitted(states[j]);
    EndingOfRefused(states, events, j, t);
  }

  /** A submitted call gets what its own worker gave, or a cancellation somebody asked for. */
  lemma EndingIsEarned(states: seq<State>, events: seq<Event>, i: nat, t: Task, r: Result)
    requires IsRun(states, events) && i < |states| && t in states[i].calls
    ensures states[i].calls[t].phase == Ended(Gave(r)) ==>
      Took(events, i, t, WorkerEnds(r)) && CameToLock(states, events, i, t, false)
    ensures states[i].calls[t].phase == Ended(Cancelled) ==> Took(events, i, t, Cancel)
  {
    RunIsValid(states, events, i);
    CallIsExplained(states, events, i, t);
  }

  /** Some closing call has been to its end. */
  predicate SomeoneClosed(s: State) {
    exists u :: u in s.calls && s.calls[u].closing && s.calls[u].phase.Ended? && s.calls[u].job != NoJob
  }

  lemma StepClosesOnlyByClose(s: State, t: Task, step: Step)
    requires Valid(s) && Enabled(s, t, step) && (s.closed ==> SomeoneClosed(s))
    ensures Apply(s, t, step).closed ==> SomeoneClosed(Apply(s, t, step))
  {
    var s' := Apply(s, t, step);
    if s.closed {
      var u :| u in s.calls && s.calls[u].closing && s.calls[u].phase.Ended? && s.calls[u].job != NoJob;
      assert u != t;
      assert s'.calls[u] == s.calls[u];
    } else if s'.closed {
      assert s'.calls[t].closing && s'.calls[t].phase.Ended? && s'.calls[t].job != NoJob;
    }
  }

  /** The client is closed only by a closing call whose job is over. */
  lemma {:induction false} ClosedOnlyByClose(states: seq<State>, events: seq<Event>, i: nat)
    requires IsRun(states, events) && i < |states|
    ensures states[i].closed <==> SomeoneClosed(states[i])
  {
    if i > 0 {
      RunIsValid(states, events, i - 1);
      ClosedOnlyByClose(states, events, i - 1);
      StepClosesOnlyByClose(states[i - 1], events[i - 1].task, events[i - 1].step);
    }
    if SomeoneClosed(states[i]) {
      var u :| u in states[i].calls && states[i].calls[u].closing && states[i].calls[u].phase.Ended? &&
        states[i].calls[u].job != NoJob;
      CloseCloses(states, events, i, u);
    }
  }

  /**
   Whatever the run, a call that has not ended can be cancelled and can go on: with its pending
   cancellation, to the lock, with any result of its worker, or with that result; a queued one only
   waits for another that holds the lock. Anybody can make a call or a close at any time.
   */
  lemma CallCanGoOn(states: seq<State>, events: seq<Event>, i: nat, t: Task)
    requires IsRun(states, events) && i < |states|
    ensures t !in states[i].calls ==> forall closing :: Enabled(states[i], t, Spawn(closing))
    ensures t in states[i].calls && !states[i].calls[t].phase.Ended? ==>
      var s, c := states[i], states[i].calls[t];
      && Enabled(s, t, Cancel)
      && (c.requested ==> Enabled(s, t, Deliver))
      && (!c.requested && c.phase == NotStarted ==> Enabled(s, t, Begin))
      && (!c.requested && c.phase == Queued && !Enabled(s, t, Granted) ==>
            s.holder.Some? && s.holder.value != t && s.holder.value in s.calls &&
            s.calls[s.holder.value].phase == Awaiting)
      && (c.phase == Awaiting && !c.job.Done? ==> forall r :: Enabled(s, t, WorkerEnds(r)))
      && (!c.requested && c.phase == Awaiting && c.job.Done? ==> Enabled(s, t, Resume))
  {
    RunIsValid(states, events, i);
  }
}
