/**
 The lock and re-entrancy protocol around the public operations of one client
 (dblift/api/client.py, dblift/api/events.py).

 Any number of threads call, nest, return, raise and close in any interleaving. Each atomic
 step of the wrapper is a step of the machine: the re-entrancy check, taking the lock, pushing
 the thread-local stack, binding the emitter, and undoing these in the opposite order.
 */
module OperationLock {
  import opened Basics

  type Thread = nat
  type Wrapper = nat
  type Emitter = nat

  datatype Entry = Entry(name: string, wrapper: Wrapper)

  /** How far a wrapped call has got; `Body` is the time its inner function runs. */
  datatype Phase = Waiting | Locked | Stacked | Body | Unbound | Popped

  /**
   One call in progress on a thread: an operation of the client, its `close`, or any other
   scope that binds an emitter on this thread (an operation of another client).
   */
  datatype Frame =
    | Op(entry: Entry, mutating: bool, saved: seq<Entry>, emitter: Option<Emitter>,
         token: Option<Emitter>, phase: Phase)
    | Close(held: bool)
    | Foreign(bound: Option<Emitter>, outer: Option<Emitter>)

  /** A thread: its operation stack, its active emitter, what that was before, and its calls. */
  datatype Local = Local(
    stack: seq<Entry>, active: Option<Emitter>, home: Option<Emitter>, frames: seq<Frame>)

  datatype State = State(owner: Option<Thread>, count: nat, threads: map<Thread, Local>)

  datatype Step =
    | Call(name: string, wrapper: Wrapper, mutating: bool, emitter: Option<Emitter>)
    | CallClose
    | EnterForeign(emitter: Option<Emitter>)
    | Acquire
    | PushStack
    | Bind
    | Finish(raised: bool)
    | PopStack
    | Release
    | LeaveForeign

  // ---------------------------------------------------------------- the check

  /** `_raise_if_reentrant` with a wrapper: whether the mutating call is refused. */
  predicate Refused(stack: seq<Entry>, name: string, wrapper: Wrapper) {
    stack != [] &&
    !((forall e :: e in stack ==> e.name == name) && forall e :: e in stack ==> e.wrapper != wrapper)
  }

  /** `_raise_if_reentrant` without a wrapper: whether `close` is refused. */
  predicate CloseRefused(stack: seq<Entry>) {
    stack != []
  }

  // ---------------------------------------------------------------- the steps

  // A refused call raises before it touches anything, so it is no step of the machine: `Enabled`
  // is false for it and the state stays as it is.

  function Top(l: Local): Frame
    requires l.frames != []
  {
    l.frames[|l.frames| - 1]
  }

  predicate RunsBody(f: Frame) {
    match f
    case Op(_, _, _, _, _, phase) => phase == Body
    case Close(held) => held
    case Foreign(_, _) => true
  }

  /** Python code of the thread itself runs: no wrapper is between two of its steps. */
  predicate InBody(l: Local) {
    l.frames == [] || RunsBody(Top(l))
  }

  predicate TopAt(l: Local, phase: Phase) {
    l.frames != [] && Top(l).Op? && Top(l).phase == phase
  }

  predicate Free(s: State, t: Thread) {
    s.owner.None? || s.owner == Some(t)
  }

  predicate Enabled(s: State, t: Thread, step: Step) {
    t in s.threads &&
    var l := s.threads[t];
    match step
    case Call(name, wrapper, mutating, _) => InBody(l) && !(mutating && Refused(l.stack, name, wrapper))
    case CallClose => InBody(l) && !CloseRefused(l.stack)
    case EnterForeign(_) => InBody(l)
    case Acquire => Free(s, t) && (TopAt(l, Waiting) || (l.frames != [] && Top(l) == Close(false)))
    case PushStack => TopAt(l, Locked)
    case Bind => TopAt(l, Stacked)
    case Finish(_) => TopAt(l, Body)
    case PopStack => TopAt(l, Unbound)
    case Release => TopAt(l, Popped) || (l.frames != [] && Top(l) == Close(true))
    case LeaveForeign => l.frames != [] && Top(l).Foreign?
  }

  function Pushed(l: Local, f: Frame): Local {
    l.(frames := l.frames + [f])
  }

  function WithTop(l: Local, f: Frame): Local
    requires l.frames != []
  {
    l.(frames := l.frames[..|l.frames| - 1] + [f])
  }

  function Dropped(l: Local): Local
    requires l.frames != []
  {
    l.(frames := l.frames[..|l.frames| - 1])
  }

  /** The thread after its step; the lock apart. */
  function LocalStep(l: Local, step: Step): Local
    requires step.Call? || step.CallClose? || step.EnterForeign? || l.frames != []
    requires step.Acquire? && !Top(l).Op? ==> Top(l).Close?
    requires step.PushStack? || step.Bind? || step.Finish? || step.PopStack? ==> Top(l).Op?
    requires step.LeaveForeign? ==> Top(l).Foreign?
  {
    match step
    case Call(name, wrapper, mutating, emitter) =>
      Pushed(l, Op(Entry(name, wrapper), mutating, l.stack, emitter, None, Waiting))
    case CallClose => Pushed(l, Close(false))
    case EnterForeign(emitter) =>
      Pushed(l, Foreign(emitter, l.active)).(active := if emitter.Some? then emitter else l.active)
    case Acquire =>
      if Top(l).Op? then WithTop(l, Top(l).(phase := Locked)) else WithTop(l, Close(true))
    case PushStack =>
      WithTop(l, Top(l).(phase := Stacked)).(stack := Top(l).saved + [Top(l).entry])
    case Bind =>
      if Top(l).emitter.Some? then
        WithTop(l, Top(l).(phase := Body, token := l.active)).(active := Top(l).emitter)
      else WithTop(l, Top(l).(phase := Body))
    case Finish(_) =>
      if Top(l).emitter.Some? then
        WithTop(l, Top(l).(phase := Unbound)).(active := Top(l).token)
      else WithTop(l, Top(l).(phase := Unbound))
    case PopStack =>
      WithTop(l, Top(l).(phase := Popped)).(stack := Top(l).saved)
    case Release => Dropped(l)
    case LeaveForeign =>
      if Top(l).bound.Some? then Dropped(l).(active := Top(l).outer) else Dropped(l)
  }

  function Apply(s: State, t: Thread, step: Step): State
    requires Enabled(s, t, step)
  {
    var threads := s.threads[t := LocalStep(s.threads[t], step)];
    match step
    case Acquire => State(Some(t), s.count + 1, threads)
    case Release =>
      if s.count <= 1 then State(None, 0, threads) else State(s.owner, s.count - 1, threads)
    case _ => State(s.owner, s.count, threads)
  }

  // ---------------------------------------------------------------- what the frames say

  /** The operations entered on this thread, outermost first. */
  function EntriesOf(frames: seq<Frame>): seq<Entry> {
    if frames == [] then []
    else
      var f := frames[|frames| - 1];
      var below := EntriesOf(frames[..|frames| - 1]);
      if f.Op? && f.phase in {Stacked, Body, Unbound} then below + [f.entry] else below
  }

  /** The emitter that should be active inside these calls. */
  function ActiveIn(home: Option<Emitter>, frames: seq<Frame>): Option<Emitter> {
    if frames == [] then home
    else
      var f := frames[|frames| - 1];
      var below := ActiveIn(home, frames[..|frames| - 1]);
      match f
      case Op(_, _, _, emitter, _, phase) => if phase == Body && emitter.Some? then emitter else below
      case Close(_) => below
      case Foreign(bound, _) => if bound.Some? then bound else below
  }

  predicate Holds(f: Frame) {
    match f
    case Op(_, _, _, _, _, phase) => phase != Waiting
    case Close(held) => held
    case Foreign(_, _) => false
  }

  /** How many of these calls hold the lock. */
  function HeldBy(frames: seq<Frame>): nat {
    if frames == [] then 0
    else HeldBy(frames[..|frames| - 1]) + if Holds(frames[|frames| - 1]) then 1 else 0
  }

  // ---------------------------------------------------------------- the invariant

  /** Frame `i` remembers what was there when it was entered, and was rightly let in. */
  predicate FrameValid(l: Local, i: nat)
    requires i < |l.frames|
  {
    var below := l.frames[..i];
    && (i < |l.frames| - 1 ==> RunsBody(l.frames[i]))
    && match l.frames[i] {
      case Op(entry, mutating, saved, emitter, token, phase) =>
        && saved == EntriesOf(below)
        && (phase == Body && emitter.Some? ==> token == ActiveIn(l.home, below))
        && (mutating ==> forall f :: f in below && f.Op? ==>
              f.entry.name == entry.name && f.entry.wrapper != entry.wrapper)
      case Close(_) => forall f :: f in below ==> !f.Op?
      case Foreign(_, outer) => outer == ActiveIn(l.home, below)
    }
  }

  predicate LocalValid(l: Local) {
    && (forall i: nat :: i < |l.frames| ==> FrameValid(l, i))
    && l.stack == EntriesOf(l.frames)
    && l.active == ActiveIn(l.home, l.frames)
  }

  /** The lock is held by one thread at most, once for each of its calls that hold it. */
  predicate LockValid(s: State) {
    && (s.owner.None? <==> s.count == 0)
    && (s.owner.Some? ==> s.owner.value in s.threads && s.count == HeldBy(s.threads[s.owner.value].frames))
    && (forall t :: t in s.threads && s.owner != Some(t) ==> HeldBy(s.threads[t].frames) == 0)
  }

  predicate Valid(s: State) {
    (forall t :: t in s.threads ==> LocalValid(s.threads[t])) && LockValid(s)
  }

  predicate Init(s: State) {
    && s.owner.None? && s.count == 0
    && forall t :: t in s.threads ==>
      var l := s.threads[t];
      l.frames == [] && l.stack == [] && l.active == l.home
  }

  /** While every call below runs its body, the stack holds exactly the operations below. */
  lemma {:induction false} EntriesCover(frames: seq<Frame>)
    requires forall f :: f in frames ==> RunsBody(f)
    ensures forall f :: f in frames && f.Op? ==> f.entry in EntriesOf(frames)
    ensures forall e :: e in EntriesOf(frames) ==> exists f :: f in frames && f.Op? && f.entry == e
  {
    if frames != [] {
      var front, last := frames[..|frames| - 1], frames[|frames| - 1];
      assert frames == front + [last];
      EntriesCover(front);
    }
  }

  lemma AllRunBodies(l: Local)
    requires LocalValid(l) && InBody(l)
    ensures forall g :: g in l.frames ==> RunsBody(g)
  {
    forall i: nat | i < |l.frames| ensures RunsBody(l.frames[i]) {
      assert FrameValid(l, i);
    }
  }

  /** What a call may be that is entered on this thread now. */
  predicate MayEnter(l: Local, f: Frame) {
    match f
    case Op(entry, mutating, saved, _, _, phase) =>
      phase == Waiting && saved == l.stack && (mutating ==> !Refused(l.stack, entry.name, entry.wrapper))
    case Close(held) => !held && l.stack == []
    case Foreign(_, outer) => outer == l.active
  }

  lemma PushedFrameValid(l: Local, f: Frame, active: Option<Emitter>)
    requires LocalValid(l) && InBody(l) && MayEnter(l, f)
    ensures FrameValid(Pushed(l, f).(active := active), |l.frames|)
  {
    assert Pushed(l, f).frames[..|l.frames|] == l.frames;
    AllRunBodies(l);
    EntriesCover(l.frames);
  }

  lemma PushKeeps(l: Local, f: Frame, active: Option<Emitter>)
    requires LocalValid(l) && InBody(l) && MayEnter(l, f)
    requires active == if f.Foreign? && f.bound.Some? then f.bound else l.active
    ensures LocalValid(Pushed(l, f).(active := active))
    ensures HeldBy(Pushed(l, f).frames) == HeldBy(l.frames)
  {
    var l' := Pushed(l, f).(active := active);
    var n := |l.frames|;
    assert l'.frames[..n] == l.frames;
    PushedFrameValid(l, f, active);
    forall i: nat | i < n ensures FrameValid(l', i) {
      assert FrameValid(l, i);
      assert l'.frames[..i] == l.frames[..i];
    }
  }

  lemma TopKeeps(l: Local, f: Frame, stack: seq<Entry>, active: Option<Emitter>)
    requires LocalValid(l) && l.frames != []
    requires var l' := WithTop(l, f).(stack := stack, active := active);
      && FrameValid(l', |l.frames| - 1)
      && stack == EntriesOf(l'.frames) && active == ActiveIn(l.home, l'.frames)
    ensures LocalValid(WithTop(l, f).(stack := stack, active := active))
  {
    var l' := WithTop(l, f).(stack := stack, active := active);
    forall i: nat | i < |l'.frames| ensures FrameValid(l', i) {
      if i < |l.frames| - 1 {
        assert FrameValid(l, i);
        assert l'.frames[..i] == l.frames[..i];
      }
    }
  }

  lemma DropKeeps(l: Local, active: Option<Emitter>)
    requires LocalValid(l) && l.frames != []
    requires l.stack == EntriesOf(l.frames[..|l.frames| - 1])
    requires active == ActiveIn(l.home, l.frames[..|l.frames| - 1])
    ensures LocalValid(Dropped(l).(active := active))
  {
    var l' := Dropped(l).(active := active);
    forall i: nat | i < |l'.frames| ensures FrameValid(l', i) {
      assert FrameValid(l, i);
      assert l'.frames[..i] == l.frames[..i];
    }
  }

  /** Every step of a thread keeps its own invariant. */
  lemma LocalStepKeeps(s: State, t: Thread, step: Step)
    requires t in s.threads && LocalValid(s.threads[t]) && Enabled(s, t, step)
    ensures LocalValid(LocalStep(s.threads[t], step))
    ensures HeldBy(LocalStep(s.threads[t], step).frames) ==
      HeldBy(s.threads[t].frames) + (if step.Acquire? then 1 else if step.Release? then -1 else 0)
  {
    var l := s.threads[t];
    if step.Call? {
      PushKeeps(l, Op(Entry(step.name, step.wrapper), step.mutating, l.stack, step.emitter, None, Waiting), l.active);
    } else if step.CallClose? {
      PushKeeps(l, Close(false), l.active);
    } else if step.EnterForeign? {
      PushKeeps(l, Foreign(step.emitter, l.active), if step.emitter.Some? then step.emitter else l.active);
    } else if WorksOnTop(step) {
      TopStepFrames(s, t, step);
      TopStepKeeps(s, t, step);
    } else {
      DropStepKeeps(s, t, step);
    }
  }

  /** The steps that end the innermost call of the thread. */
  lemma DropStepKeeps(s: State, t: Thread, step: Step)
    requires t in s.threads && LocalValid(s.threads[t]) && Enabled(s, t, step) && (step.Release? || step.LeaveForeign?)
    ensures LocalValid(LocalStep(s.threads[t], step))
    ensures HeldBy(LocalStep(s.threads[t], step).frames) ==
      HeldBy(s.threads[t].frames) + if step.Release? then -1 else 0
  {
    var l := s.threads[t];
    assert FrameValid(l, |l.frames| - 1);
    DropKeeps(l, LocalStep(l, step).active);
  }

  predicate WorksOnTop(step: Step) {
    step.Acquire? || step.PushStack? || step.Bind? || step.Finish? || step.PopStack?
  }

  /** The calls below the innermost one stay, and one more holds the lock only after taking it. */
  lemma TopStepFrames(s: State, t: Thread, step: Step)
    requires t in s.threads && Enabled(s, t, step) && WorksOnTop(step)
    ensures var l, l' := s.threads[t], LocalStep(s.threads[t], step);
      && |l'.frames| == |l.frames| && l'.frames[..|l.frames| - 1] == l.frames[..|l.frames| - 1]
      && HeldBy(l'.frames) == HeldBy(l.frames) + if step.Acquire? then 1 else 0
  {
  }

  /** What the innermost call adds to the stack and the active emitter of those below it. */
  lemma TopMeans(home: Option<Emitter>, frames: seq<Frame>)
    requires frames != []
    ensures var f, below := frames[|frames| - 1], frames[..|frames| - 1];
      && EntriesOf(frames) ==
           (if f.Op? && f.phase in {Stacked, Body, Unbound} then EntriesOf(below) + [f.entry] else EntriesOf(below))
      && (f.Op? ==>
           ActiveIn(home, frames) == if f.phase == Body && f.emitter.Some? then f.emitter else ActiveIn(home, below))
      && (f.Close? ==> ActiveIn(home, frames) == ActiveIn(home, below))
  {
  }

  /** The steps that move the innermost call of the thread on. */
  lemma TopStepKeeps(s: State, t: Thread, step: Step)
    requires t in s.threads && LocalValid(s.threads[t]) && Enabled(s, t, step) && WorksOnTop(step)
    ensures LocalValid(LocalStep(s.threads[t], step))
  {
    var l, l' := s.threads[t], LocalStep(s.threads[t], step);
    var n := |l.frames| - 1;
    assert FrameValid(l, n);
    TopStepFrames(s, t, step);
    TopMeans(l.home, l.frames);
    TopMeans(l.home, l'.frames);
    TopStepMeans(l, l', step);
    TopKeeps(l, l'.frames[n], l'.stack, l'.active);
  }

  lemma TopStepMeans(l: Local, l': Local, step: Step)
    requires l.frames != [] && FrameValid(l, |l.frames| - 1)
    requires WorksOnTop(step) && (step.Acquire? ==> Top(l) == Close(false) || TopAt(l, Waiting))
    requires step.PushStack? ==> TopAt(l, Locked)
    requires step.Bind? ==> TopAt(l, Stacked)
    requires step.Finish? ==> TopAt(l, Body)
    requires step.PopStack? ==> TopAt(l, Unbound)
    requires l' == LocalStep(l, step)
    requires l.stack == EntriesOf(l.frames) && l.active == ActiveIn(l.home, l.frames)
    ensures |l'.frames| == |l.frames|
    ensures FrameValid(l', |l.frames| - 1)
    ensures l'.stack == EntriesOf(l'.frames) && l'.active == ActiveIn(l.home, l'.frames)
  {
    var n := |l.frames| - 1;
    assert l'.frames[..n] == l.frames[..n];
    TopMeans(l.home, l.frames);
    TopMeans(l.home, l'.frames);
  }

  lemma LockStepKeeps(s: State, t: Thread, step: Step)
    requires LockValid(s) && Enabled(s, t, step)
    requires HeldBy(LocalStep(s.threads[t], step).frames) ==
      HeldBy(s.threads[t].frames) + (if step.Acquire? then 1 else if step.Release? then -1 else 0)
    ensures LockValid(Apply(s, t, step))
  {
    var s' := Apply(s, t, step);
    forall u | u in s'.threads
      ensures s'.owner != Some(u) ==> HeldBy(s'.threads[u].frames) == 0
    {
      if u != t {
        assert s'.threads[u] == s.threads[u];
      }
    }
  }

  lemma StepKeepsValid(s: State, t: Thread, step: Step)
    requires Valid(s) && Enabled(s, t, step)
    ensures Valid(Apply(s, t, step))
  {
    LocalStepKeeps(s, t, step);
    LockStepKeeps(s, t, step);
    var s' := Apply(s, t, step);
    forall u | u in s'.threads
      ensures LocalValid(s'.threads[u])
    {
      if u != t {
        assert s'.threads[u] == s.threads[u];
      }
    }
  }

  // ---------------------------------------------------------------- whole runs

  datatype Event = Event(thread: Thread, step: Step)

  /** `states` is a run: each event is enabled where it happens and leads to the next state. */
  predicate IsRun(states: seq<State>, events: seq<Event>) {
    && |states| == |events| + 1 && Init(states[0])
    && forall i :: 0 <= i < |events| ==>
      && Enabled(states[i], events[i].thread, events[i].step)
      && states[i + 1] == Apply(states[i], events[i].thread, events[i].step)
  }

  lemma {:induction false} RunIsValid(states: seq<State>, events: seq<Event>, i: nat)
    requires IsRun(states, events) && i < |states|
    ensures Valid(states[i])
  {
    if i > 0 {
      RunIsValid(states, events, i - 1);
      StepKeepsValid(states[i - 1], events[i - 1].thread, events[i - 1].step);
    }
  }

  /** A run goes on with any step that is enabled where it stands. */
  lemma RunGoesOn(states: seq<State>, events: seq<Event>, t: Thread, step: Step)
    requires IsRun(states, events) && Enabled(states[|events|], t, step)
    ensures IsRun(states + [Apply(states[|events|], t, step)], events + [Event(t, step)])
  {
  }

  // ---------------------------------------------------------------- the guarantees

  lemma {:induction false} EntriesAreHeld(frames: seq<Frame>)
    ensures |EntriesOf(frames)| <= HeldBy(frames)
  {
    if frames != [] {
      EntriesAreHeld(frames[..|frames| - 1]);
    }
  }

  lemma {:induction false} HeldAt(frames: seq<Frame>, k: nat)
    requires k < |frames| && Holds(frames[k])
    ensures HeldBy(frames) > 0
  {
    if k < |frames| - 1 {
      HeldAt(frames[..|frames| - 1], k);
    }
  }

  /** At most one thread has operations on its stack, and it owns the lock once per held call. */
  lemma MutualExclusion(states: seq<State>, events: seq<Event>, i: nat, t: Thread, u: Thread)
    requires IsRun(states, events) && i < |states|
    requires t in states[i].threads && u in states[i].threads
    ensures states[i].threads[t].stack != [] ==>
      states[i].owner == Some(t) && states[i].count == HeldBy(states[i].threads[t].frames)
    ensures states[i].threads[t].stack != [] && states[i].threads[u].stack != [] ==> t == u
  {
    RunIsValid(states, events, i);
    EntriesAreHeld(states[i].threads[t].frames);
    EntriesAreHeld(states[i].threads[u].frames);
  }

  /** Below a mutating call there are only calls of its own operation through other wrappers. */
  lemma MutatingNeverNests(
    states: seq<State>, events: seq<Event>, i: nat, t: Thread, below: nat, above: nat)
    requires IsRun(states, events) && i < |states| && t in states[i].threads
    requires below < above < |states[i].threads[t].frames|
    requires states[i].threads[t].frames[below].Op? && states[i].threads[t].frames[above].Op?
    requires states[i].threads[t].frames[above].mutating
    ensures var f, g := states[i].threads[t].frames[below].entry, states[i].threads[t].frames[above].entry;
      f.name == g.name && f.wrapper != g.wrapper
  {
    RunIsValid(states, events, i);
    var frames := states[i].threads[t].frames;
    assert FrameValid(states[i].threads[t], above);
    assert frames[below] in frames[..above];
  }

  /**
   While a close body runs, every operation whose body runs on any thread was started from
   inside that close body; in particular none was running when it started.
   */
  lemma CloseRunsAlone(
    states: seq<State>, events: seq<Event>, i: nat, t: Thread, close: nat, u: Thread, op: nat)
    requires IsRun(states, events) && i < |states|
    requires t in states[i].threads && close < |states[i].threads[t].frames|
    requires states[i].threads[t].frames[close] == Close(true)
    requires u in states[i].threads && op < |states[i].threads[u].frames|
    requires states[i].threads[u].frames[op].Op? && states[i].threads[u].frames[op].phase == Body
    ensures u == t && op > close
  {
    RunIsValid(states, events, i);
    var s := states[i];
    HeldAt(s.threads[t].frames, close);
    HeldAt(s.threads[u].frames, op);
    assert FrameValid(s.threads[t], close);
    var below := s.threads[t].frames[..close];
    assert forall k :: 0 <= k < close ==> s.threads[t].frames[k] in below;
  }

  /**
   Exactly which calls are refused: a mutating one when another operation, or the same through
   the same wrapper, is in progress on this thread; `close` when any operation is.
   */
  lemma RefusedMeans(
    states: seq<State>, events: seq<Event>, i: nat, t: Thread, name: string, wrapper: Wrapper)
    requires IsRun(states, events) && i < |states| && t in states[i].threads
    requires InBody(states[i].threads[t])
    ensures Refused(states[i].threads[t].stack, name, wrapper) <==>
      exists f :: f in states[i].threads[t].frames && f.Op? &&
        (f.entry.name != name || f.entry.wrapper == wrapper)
    ensures CloseRefused(states[i].threads[t].stack) <==>
      exists f :: f in states[i].threads[t].frames && f.Op?
  {
    RunIsValid(states, events, i);
    var l := states[i].threads[t];
    forall f | f in l.frames ensures RunsBody(f) {
      var k :| 0 <= k < |l.frames| && l.frames[k] == f;
      assert FrameValid(l, k);
    }
    EntriesCover(l.frames);
    if l.stack != [] {
      assert l.stack[0] in EntriesOf(l.frames);
    }
  }

  /** The thread runs code of its own: no call is in progress, or the innermost one has got to its body. */
  predicate RunsOwnCode(l: Local) {
    || l.frames == []
    || (Top(l).Op? && Top(l).phase == Body)
    || Top(l) == Close(true)
    || Top(l).Foreign?
  }

  /**
   Exactly which calls a thread can make, by what it has in progress: a read-only one always; a
   mutating one when every operation in progress is the same through another wrapper; `close` when
   none is in progress.
   */
  lemma Admitted(
    states: seq<State>, events: seq<Event>, i: nat, t: Thread,
    name: string, wrapper: Wrapper, mutating: bool, emitter: Option<Emitter>)
    requires IsRun(states, events) && i < |states| && t in states[i].threads
    ensures var l := states[i].threads[t];
      && (Enabled(states[i], t, Call(name, wrapper, mutating, emitter)) <==>
          RunsOwnCode(l) &&
          (mutating ==> forall f :: f in l.frames && f.Op? ==> f.entry.name == name && f.entry.wrapper != wrapper))
      && (Enabled(states[i], t, CallClose) <==> RunsOwnCode(l) && forall f :: f in l.frames ==> !f.Op?)
      && (Enabled(states[i], t, EnterForeign(emitter)) <==> RunsOwnCode(l))
  {
    if InBody(states[i].threads[t]) {
      RefusedMeans(states, events, i, t, name, wrapper);
    }
  }

  /** The state after the steps of one thread, if each is enabled where it is taken. */
  function After(s: State, t: Thread, steps: seq<Step>): Option<State>
    decreases |steps|
  {
    if steps == [] then Some(s)
    else if Enabled(s, t, steps[0]) then After(Apply(s, t, steps[0]), t, steps[1..])
    else None
  }

  lemma AfterStep(s: State, t: Thread, step: Step, rest: seq<Step>)
    requires Enabled(s, t, step)
    ensures After(s, t, [step] + rest) == After(Apply(s, t, step), t, rest)
  {
    assert ([step] + rest)[1..] == rest;
  }

  /** The state in which a call entered at `s` has got to `phase`. */
  function CallAt(s: State, t: Thread, call: Step, phase: Phase): State
    requires t in s.threads && call.Call?
  {
    var l, entry := s.threads[t], Entry(call.name, call.wrapper);
    var token := if call.emitter.Some? && phase in {Body, Unbound, Popped} then l.active else None;
    var frame := Op(entry, call.mutating, l.stack, call.emitter, token, phase);
    var stack := if phase in {Stacked, Body, Unbound} then l.stack + [entry] else l.stack;
    var active := if phase == Body && call.emitter.Some? then call.emitter else l.active;
    var threads := s.threads[t := Local(stack, active, l.home, l.frames + [frame])];
    if phase == Waiting then State(s.owner, s.count, threads) else State(Some(t), s.count + 1, threads)
  }

  lemma TopReplaced(frames: seq<Frame>, f: Frame, g: Frame)
    ensures (frames + [f])[..|frames + [f]| - 1] + [g] == frames + [g]
    ensures (frames + [f])[..|frames + [f]| - 1] == frames
  {
  }

  /** A call that is let in gets from phase to phase: the lock once it is free, then stack, then emitter. */
  lemma CallGoesIn(s: State, t: Thread, call: Step)
    requires call.Call? && Enabled(s, t, call)
    ensures Apply(s, t, call) == CallAt(s, t, call, Waiting)
    ensures Enabled(CallAt(s, t, call, Waiting), t, Acquire) <==> s.owner in [None, Some(t)]
    ensures Free(s, t) ==> Apply(CallAt(s, t, call, Waiting), t, Acquire) == CallAt(s, t, call, Locked)
  {
    CallTakesLock(s, t, call);
  }

  lemma CallTakesLock(s: State, t: Thread, call: Step)
    requires call.Call? && t in s.threads
    ensures Enabled(CallAt(s, t, call, Waiting), t, Acquire) <==> s.owner in [None, Some(t)]
    ensures Free(s, t) ==> Apply(CallAt(s, t, call, Waiting), t, Acquire) == CallAt(s, t, call, Locked)
  {
    var l := s.threads[t];
    TopReplaced(l.frames, Top(CallAt(s, t, call, Waiting).threads[t]), Top(CallAt(s, t, call, Locked).threads[t]));
  }

  lemma CallGetsToBody(s: State, t: Thread, call: Step)
    requires call.Call? && t in s.threads
    ensures Enabled(CallAt(s, t, call, Locked), t, PushStack)
    ensures Apply(CallAt(s, t, call, Locked), t, PushStack) == CallAt(s, t, call, Stacked)
    ensures Enabled(CallAt(s, t, call, Stacked), t, Bind)
    ensures Apply(CallAt(s, t, call, Stacked), t, Bind) == CallAt(s, t, call, Body)
  {
    var l := s.threads[t];
    TopReplaced(l.frames, Top(CallAt(s, t, call, Locked).threads[t]), Top(CallAt(s, t, call, Stacked).threads[t]));
    TopReplaced(l.frames, Top(CallAt(s, t, call, Stacked).threads[t]), Top(CallAt(s, t, call, Body).threads[t]));
  }

  lemma BodyEnds(s: State, t: Thread, call: Step, raised: bool)
    requires call.Call? && t in s.threads
    ensures Enabled(CallAt(s, t, call, Body), t, Finish(raised))
    ensures Apply(CallAt(s, t, call, Body), t, Finish(raised)) == CallAt(s, t, call, Unbound)
    ensures Enabled(CallAt(s, t, call, Unbound), t, PopStack)
    ensures Apply(CallAt(s, t, call, Unbound), t, PopStack) == CallAt(s, t, call, Popped)
  {
    var l := s.threads[t];
    TopReplaced(l.frames, Top(CallAt(s, t, call, Body).threads[t]), Top(CallAt(s, t, call, Unbound).threads[t]));
    TopReplaced(l.frames, Top(CallAt(s, t, call, Unbound).threads[t]), Top(CallAt(s, t, call, Popped).threads[t]));
  }

  lemma CallGoesOut(s: State, t: Thread, call: Step)
    requires LockValid(s) && call.Call? && t in s.threads && Free(s, t)
    ensures Enabled(CallAt(s, t, call, Popped), t, Release)
    ensures Apply(CallAt(s, t, call, Popped), t, Release) == s
  {
    var l, f := s.threads[t], Top(CallAt(s, t, call, Popped).threads[t]);
    TopReplaced(l.frames, f, f);
    assert s.threads[t := l] == s.threads;
  }

  /**
   A call that is let in and finds the lock free gets to its body, which runs on the stack and with
   the emitter of `CallAt`; from there it ends, by return or by raising, in the state it started in.
   */
  lemma UndisturbedCall(s: State, t: Thread, call: Step, raised: bool)
    requires LockValid(s) && call.Call? && Enabled(s, t, call) && Free(s, t)
    ensures After(s, t, [call] + ([Acquire] + ([PushStack] + ([Bind] + [])))) == Some(CallAt(s, t, call, Body))
    ensures After(CallAt(s, t, call, Body), t, [Finish(raised)] + ([PopStack] + ([Release] + []))) == Some(s)
  {
    CallGoesIn(s, t, call);
    CallGetsToBody(s, t, call);
    BodyEnds(s, t, call, raised);
    CallGoesOut(s, t, call);
    AfterStep(s, t, call, [Acquire] + ([PushStack] + ([Bind] + [])));
    AfterStep(CallAt(s, t, call, Waiting), t, Acquire, [PushStack] + ([Bind] + []));
    AfterStep(CallAt(s, t, call, Locked), t, PushStack, [Bind] + []);
    AfterStep(CallAt(s, t, call, Stacked), t, Bind, []);
    AfterStep(CallAt(s, t, call, Body), t, Finish(raised), [PopStack] + ([Release] + []));
    AfterStep(CallAt(s, t, call, Unbound), t, PopStack, [Release] + []);
    AfterStep(CallAt(s, t, call, Popped), t, Release, []);
  }

  function ClosingAt(s: State, t: Thread, held: bool): State
    requires t in s.threads
  {
    var l := s.threads[t];
    var threads := s.threads[t := l.(frames := l.frames + [Close(held)])];
    if held then State(Some(t), s.count + 1, threads) else State(s.owner, s.count, threads)
  }

  lemma CloseGoesIn(s: State, t: Thread)
    requires Enabled(s, t, CallClose)
    ensures Apply(s, t, CallClose) == ClosingAt(s, t, false)
    ensures Enabled(ClosingAt(s, t, false), t, Acquire) <==> s.owner in [None, Some(t)]
    ensures Free(s, t) ==> Apply(ClosingAt(s, t, false), t, Acquire) == ClosingAt(s, t, true)
  {
    TopReplaced(s.threads[t].frames, Close(false), Close(true));
  }

  lemma CloseGoesOut(s: State, t: Thread)
    requires LockValid(s) && t in s.threads && Free(s, t)
    ensures Enabled(ClosingAt(s, t, true), t, Release)
    ensures Apply(ClosingAt(s, t, true), t, Release) == s
  {
    var l := s.threads[t];
    TopReplaced(l.frames, Close(true), Close(true));
    assert s.threads[t := l] == s.threads;
  }

  /** The same for `close`, which leaves stack and emitter alone. */
  lemma UndisturbedClose(s: State, t: Thread)
    requires LockValid(s) && Enabled(s, t, CallClose) && Free(s, t)
    ensures After(s, t, [CallClose] + ([Acquire] + [])) == Some(ClosingAt(s, t, true))
    ensures After(ClosingAt(s, t, true), t, [Release] + []) == Some(s)
  {
    CloseGoesIn(s, t);
    CloseGoesOut(s, t);
    AfterStep(s, t, CallClose, [Acquire] + []);
    AfterStep(ClosingAt(s, t, false), t, Acquire, []);
    AfterStep(ClosingAt(s, t, true), t, Release, []);
  }

  /** Any threads can start, each with the emitter it has. */
  lemma AnyThreadsStart(homes: map<Thread, Option<Emitter>>)
    ensures Init(State(None, 0, map t | t in homes :: Local([], homes[t], homes[t], [])))
  {
  }

  /** An operation or a `close` that has not got the lock yet. */
  predicate WaitsForLock(l: Local) {
    TopAt(l, Waiting) || (l.frames != [] && Top(l) == Close(false))
  }

  /** The step by which a call in progress goes on, whatever its body still does. */
  function NextStep(f: Frame): Step {
    match f
    case Op(_, _, _, _, _, Waiting) => Acquire
    case Op(_, _, _, _, _, Locked) => PushStack
    case Op(_, _, _, _, _, Stacked) => Bind
    case Op(_, _, _, _, _, Body) => Finish(false)
    case Op(_, _, _, _, _, Unbound) => PopStack
    case Op(_, _, _, _, _, Popped) => Release
    case Close(held) => if held then Release else Acquire
    case Foreign(_, _) => LeaveForeign
  }

  /** A thread that waits for the lock can take it, or its holder is another thread that can go on. */
  lemma HolderCanGoOn(states: seq<State>, events: seq<Event>, i: nat, t: Thread)
    requires IsRun(states, events) && i < |states| && t in states[i].threads
    requires WaitsForLock(states[i].threads[t])
    ensures Enabled(states[i], t, Acquire) ||
      (states[i].owner.Some? && states[i].owner != Some(t) && states[i].owner.value in states[i].threads &&
        states[i].threads[states[i].owner.value].frames != [] &&
        Enabled(states[i], states[i].owner.value, NextStep(Top(states[i].threads[states[i].owner.value]))))
  {
    RunIsValid(states, events, i);
  }

  /** A step of a thread never touches the calls below the innermost one. */
  lemma LocalLowerKept(s: State, t: Thread, step: Step, n: nat)
    requires Enabled(s, t, step) && |s.threads[t].frames| >= n
    requires |s.threads[t].frames| == n ==> |LocalStep(s.threads[t], step).frames| > n
    requires |LocalStep(s.threads[t], step).frames| >= n
    ensures LocalStep(s.threads[t], step).frames[..n] == s.threads[t].frames[..n]
  {
  }

  lemma LowerCallsKept(s: State, u: Thread, step: Step, t: Thread, n: nat)
    requires Enabled(s, u, step) && t in s.threads && |s.threads[t].frames| >= n
    requires |s.threads[t].frames| == n ==> |Apply(s, u, step).threads[t].frames| > n
    requires |Apply(s, u, step).threads[t].frames| >= n
    ensures Apply(s, u, step).threads[t].frames[..n] == s.threads[t].frames[..n]
  {
    if u == t {
      assert Apply(s, u, step).threads[t] == LocalStep(s.threads[t], step);
      LocalLowerKept(s, t, step, n);
    } else {
      assert Apply(s, u, step).threads[t] == s.threads[t];
    }
  }

  lemma RunStep(states: seq<State>, events: seq<Event>, i: nat)
    requires IsRun(states, events) && i < |events|
    ensures Enabled(states[i], events[i].thread, events[i].step)
    ensures states[i + 1] == Apply(states[i], events[i].thread, events[i].step)
  {
  }

  /** From state `i` on the thread is there, and strictly between `i` and `j` it has more than `n` calls. */
  predicate Inside(states: seq<State>, t: Thread, n: nat, i: nat, j: nat)
    requires i < j < |states|
  {
    && (forall k :: i <= k <= j ==> t in states[k].threads)
    && (forall k :: i < k < j ==> |states[k].threads[t].frames| > n)
  }

  /** While thread `t` has more than `n` calls in progress, its outermost `n` stay as they are. */
  lemma {:induction false} OuterCallsKept(states: seq<State>, events: seq<Event>, t: Thread, n: nat, i: nat, j: nat)
    requires IsRun(states, events) && i < j < |states| && Inside(states, t, n, i, j)
    requires |states[i].threads[t].frames| == n && |states[j].threads[t].frames| >= n
    requires i + 1 == j ==> |states[j].threads[t].frames| > n
    ensures states[j].threads[t].frames[..n] == states[i].threads[t].frames
    decreases j - i
  {
    var e := events[j - 1];
    RunStep(states, events, j - 1);
    if j - 1 > i {
      OuterCallsKept(states, events, t, n, i, j - 1);
    }
    LowerCallsKept(states[j - 1], e.thread, e.step, t, n);
  }

  lemma {:induction false} HomeKept(states: seq<State>, events: seq<Event>, t: Thread, i: nat, j: nat)
    requires IsRun(states, events) && i <= j < |states| && t in states[i].threads
    ensures t in states[j].threads && states[j].threads[t].home == states[i].threads[t].home
    decreases j - i
  {
    if i < j {
      HomeKept(states, events, t, i, j - 1);
    }
  }

  /**
   Whatever happens in between, on this thread or others, by return or by raising: when the
   call entered at `i` is over, the thread has the stack, the emitter and the calls it had.
   */
  lemma CallRestores(states: seq<State>, events: seq<Event>, t: Thread, i: nat, j: nat)
    requires IsRun(states, events) && i < j < |states| && t in states[i].threads
    requires forall k :: i < k < j ==>
      t in states[k].threads && |states[k].threads[t].frames| > |states[i].threads[t].frames|
    requires |states[i + 1].threads[t].frames| > |states[i].threads[t].frames|
    requires t in states[j].threads && |states[j].threads[t].frames| == |states[i].threads[t].frames|
    ensures states[j].threads[t] == states[i].threads[t]
  {
    forall k | i <= k < |states| ensures t in states[k].threads {
      HomeKept(states, events, t, i, k);
    }
    OuterCallsKept(states, events, t, |states[i].threads[t].frames|, i, j);
    HomeKept(states, events, t, i, j);
    RunIsValid(states, events, i);
    RunIsValid(states, events, j);
    var frames := states[j].threads[t].frames;
    assert frames == frames[..|frames|];
  }
}
