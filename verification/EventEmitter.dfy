/**
 The event emitter of dblift/api/events.py with batching and re-entrant listeners.

 A listener is a finite program of emitter calls that may depend on the event it gets, and
 registrations do not change while events are dispatched. `fuel` is the interpreter's remaining
 recursion depth: a call made with none left raises. The dispatch that called a listener catches
 what it raises; an exception outside `Exception` goes through every dispatch and every flush.
 */
module EventEmitter {
  /** `id` stands for the identity of the event object: its number in emission order. */
  datatype Event = Event(id: nat, kind: string, payload: nat)

  /** `Exit` raises an exception outside `Exception`. */
  datatype Action = Emit(kind: string, payload: nat) | StartBatch | StopBatch | FlushBatch | Raise | Exit

  type Listener = Event -> seq<Action>

  /** Exact listeners by event type, and wildcard listeners with their patterns, in order. */
  datatype Registry = Registry(
    exact: map<string, seq<Listener>>, wildcard: seq<(string, Listener)>,
    matches: (string, string) -> bool)

  function MatchingWildcards(
    wildcard: seq<(string, Listener)>, matches: (string, string) -> bool, kind: string): seq<Listener>
  {
    if wildcard == [] then []
    else
      (if matches(wildcard[0].0, kind) then [wildcard[0].1] else []) +
      MatchingWildcards(wildcard[1..], matches, kind)
  }

  /** Everyone an event of this type is sent to: exact listeners first, then matching patterns. */
  function Listeners(registry: Registry, kind: string): seq<Listener> {
    (if kind in registry.exact then registry.exact[kind] else []) +
    MatchingWildcards(registry.wildcard, registry.matches, kind)
  }

  datatype Mark = Started | Stopped

  /** A listener called with an event; a dispatch calls all its listeners at the same recursion depth. */
  datatype ListenerCall = ListenerCall(depth: nat, listener: Listener, event: Event)

  /**
   The emitter's fields, and what has happened to the events so far: all that were emitted,
   those dispatched, the rest of each flush still to be dispatched (outermost first), the
   batches `stop_batch` returned, those `start_batch` dropped and those an abandoned flush left;
   every start and stop call; how often a start call met buffered events, a flush was left with
   events to go, and an event was sent while an older one still waited in a flush; and every call
   of a listener.
   */
  datatype Bus = Bus(
    batchMode: bool, batched: seq<Event>, stoppedDuringFlush: bool, history: seq<Event>,
    emitted: seq<Event>, dispatched: seq<Event>, awaiting: seq<seq<Event>>,
    returned: seq<seq<Event>>, lost: seq<Event>, abandoned: seq<Event>, marks: seq<Mark>,
    restarts: nat, aborts: nat, overtakes: nat, calls: seq<ListenerCall>)

  function Flat(batches: seq<seq<Event>>): seq<Event> {
    if batches == [] then [] else Flat(batches[..|batches| - 1]) + batches[|batches| - 1]
  }

  // ---------------------------------------------------------------- what the calls do

  /** How a call ended: normally, by an `Exception`, or by an exception outside it. */
  datatype How = Fine | Raised | Fatal

  datatype Outcome = Outcome(bus: Bus, how: How)

  function Start(s: Bus): Bus {
    s.(batchMode := true, batched := [], stoppedDuringFlush := false,
       lost := s.lost + s.batched, marks := s.marks + [Started],
       restarts := s.restarts + if s.batched != [] then 1 else 0)
  }

  function Stop(s: Bus): Bus {
    s.(batchMode := false, batched := [], stoppedDuringFlush := true,
       returned := s.returned + [s.batched], marks := s.marks + [Stopped])
  }

  /** `emit` up to the point where it buffers or dispatches. */
  function Emitted(s: Bus, keepHistory: bool, e: Event): Bus {
    s.(emitted := s.emitted + [e], history := if keepHistory then s.history + [e] else s.history)
  }

  predicate OlderWaits(s: Bus, e: Event) {
    exists i :: 0 <= i < |Flat(s.awaiting)| && Flat(s.awaiting)[i].id < e.id
  }

  /** An event starts on its way to the listeners. */
  function Sent(s: Bus, e: Event): Bus {
    s.(dispatched := s.dispatched + [e], overtakes := s.overtakes + if OlderWaits(s, e) then 1 else 0)
  }

  /** A listener is called with an event. */
  function Noted(s: Bus, depth: nat, listener: Listener, e: Event): Bus {
    s.(calls := s.calls + [ListenerCall(depth, listener, e)])
  }

  function DoEmit(registry: Registry, keepHistory: bool, s: Bus, kind: string, payload: nat, fuel: nat): (o: Outcome)
    ensures o.bus.awaiting == s.awaiting
    decreases fuel, 2, 0
  {
    if fuel == 0 then Outcome(s, Raised)
    else
      var e := Event(|s.emitted|, kind, payload);
      var s1 := Emitted(s, keepHistory, e);
      if s.batchMode then Outcome(s1.(batched := s.batched + [e]), Fine)
      else Dispatch(registry, keepHistory, s1, e, fuel - 1)
  }

  function Dispatch(registry: Registry, keepHistory: bool, s: Bus, e: Event, fuel: nat): (o: Outcome)
    ensures o.bus.awaiting == s.awaiting
    decreases fuel, 5, 0
  {
    CallAll(registry, keepHistory, Sent(s, e), e, Listeners(registry, e.kind), fuel)
  }

  /** What a listener raises stops that listener only, unless it is outside `Exception`. */
  function CallAll(
    registry: Registry, keepHistory: bool, s: Bus, e: Event, listeners: seq<Listener>, fuel: nat): (o: Outcome)
    ensures o.bus.awaiting == s.awaiting
    decreases fuel, 4, |listeners|
  {
    if listeners == [] then Outcome(s, Fine)
    else
      var o1 := Perform(registry, keepHistory, Noted(s, fuel, listeners[0], e), listeners[0](e), fuel);
      if o1.how == Fatal then o1 else CallAll(registry, keepHistory, o1.bus, e, listeners[1..], fuel)
  }

  /** A listener's program up to its end or to the first call that raises. */
  function Perform(registry: Registry, keepHistory: bool, s: Bus, actions: seq<Action>, fuel: nat): (o: Outcome)
    ensures o.bus.awaiting == s.awaiting
    decreases fuel, 3, |actions|
  {
    if actions == [] then Outcome(s, Fine)
    else
      var o1 := Act(registry, keepHistory, s, actions[0], fuel);
      if o1.how != Fine then o1 else Perform(registry, keepHistory, o1.bus, actions[1..], fuel)
  }

  function Act(registry: Registry, keepHistory: bool, s: Bus, action: Action, fuel: nat): (o: Outcome)
    ensures o.bus.awaiting == s.awaiting
    decreases fuel, 2, 1
  {
    match action
    case Emit(kind, payload) => DoEmit(registry, keepHistory, s, kind, payload, fuel)
    case StartBatch => Outcome(Start(s), Fine)
    case StopBatch => Outcome(Stop(s), Fine)
    case FlushBatch => Flush(registry, keepHistory, s, fuel)
    case Raise => Outcome(s, Raised)
    case Exit => Outcome(s, Fatal)
  }

  function BeginFlush(s: Bus): Bus {
    s.(batchMode := false, batched := [], stoppedDuringFlush := false, awaiting := s.awaiting + [s.batched])
  }

  /** The innermost flush: what it has left, and the flushes around it. */
  function Rest(s: Bus): seq<Event>
    requires s.awaiting != []
  {
    s.awaiting[|s.awaiting| - 1]
  }

  function Outer(s: Bus): seq<seq<Event>>
    requires s.awaiting != []
  {
    s.awaiting[..|s.awaiting| - 1]
  }

  /** The `finally` of a flush; what it still has left is gone. */
  function EndFlush(s: Bus): Bus
    requires s.awaiting != []
  {
    s.(awaiting := Outer(s), batchMode := s.batchMode || !s.stoppedDuringFlush,
       abandoned := s.abandoned + Rest(s), aborts := s.aborts + if Rest(s) != [] then 1 else 0)
  }

  function Flush(registry: Registry, keepHistory: bool, s: Bus, fuel: nat): (o: Outcome)
    ensures o.bus.awaiting == s.awaiting
    decreases fuel, 2, 0
  {
    if fuel == 0 then Outcome(s, Raised)
    else if !s.batchMode then Outcome(s, Fine)
    else
      var o1 := DispatchAll(registry, keepHistory, BeginFlush(s), s.batched, fuel - 1);
      Outcome(EndFlush(o1.bus), o1.how)
  }

  /** The innermost flush has only `left` still to dispatch. */
  function StillToGo(s: Bus, left: seq<Event>): Bus
    requires s.awaiting != []
  {
    s.(awaiting := Outer(s) + [left])
  }

  /** The loop of `flush_batch` over what is left of its batch. */
  function DispatchAll(
    registry: Registry, keepHistory: bool, s: Bus, left: seq<Event>, fuel: nat): (o: Outcome)
    requires s.awaiting != [] && Rest(s) == left
    ensures o.bus.awaiting != [] && Outer(o.bus) == Outer(s)
    ensures o.how != Fatal ==> Rest(o.bus) == []
    decreases fuel, 6, |left|
  {
    if left == [] then Outcome(s, Fine)
    else
      var o1 := Dispatch(registry, keepHistory, StillToGo(s, left[1..]), left[0], fuel);
      if o1.how == Fatal then o1 else DispatchAll(registry, keepHistory, o1.bus, left[1..], fuel)
  }

  // ---------------------------------------------------------------- where every event is

  /** How often an event stands in the places an event can be in, all together. */
  function Copies(s: Bus, x: Event): nat {
    multiset(s.dispatched)[x] + multiset(Flat(s.awaiting))[x] + multiset(s.batched)[x] +
    multiset(Flat(s.returned))[x] + multiset(s.lost)[x] + multiset(s.abandoned)[x]
  }

  /** In emission order. */
  predicate InOrder(batch: seq<Event>) {
    forall i, j :: 0 <= i < j < |batch| ==> batch[i].id < batch[j].id
  }

  /** Everything still to be dispatched: what the flushes have left, then the buffer. */
  function Queue(s: Bus): seq<Event> {
    Flat(s.awaiting) + s.batched
  }

  /** Event number `i` to be dispatched came before the older `a`. */
  predicate Overtook(s: Bus, i: nat, a: Event) {
    i < |s.dispatched| && a in s.emitted && a.id < s.dispatched[i].id && a !in s.dispatched[..i]
  }

  /**
   Whatever waits is in emission order, flushes and buffer taken together, and so is every
   returned batch; events are dispatched in emission order unless one was sent past an older one.
   */
  ghost predicate Ordered(s: Bus) {
    && InOrder(Queue(s))
    && (forall b :: b in s.returned ==> InOrder(b))
    && (s.overtakes == 0 ==> InOrder(s.dispatched + Queue(s)))
    && (s.overtakes > 0 ==> exists i: nat, a :: Overtook(s, i, a))
  }

  /** Every event emitted is in exactly one place exactly once. */
  ghost predicate Placed(s: Bus) {
    && (forall i :: 0 <= i < |s.emitted| ==> s.emitted[i].id == i)
    && (forall x :: Copies(s, x) == multiset(s.emitted)[x])
  }

  /** And nothing is buffered while batching is off. */
  ghost predicate Valid(s: Bus) {
    Placed(s) && Ordered(s) && (!s.batchMode ==> s.batched == [])
  }

  /** Since mark number `base`, the mode flags follow the last start or stop call. */
  predicate FlagsFollow(s: Bus, base: nat) {
    base <= |s.marks| &&
    var since := s.marks[base..];
    && (s.stoppedDuringFlush <==> since != [] && since[|since| - 1] == Stopped)
    && (s.batchMode ==> since != [] && since[|since| - 1] == Started)
  }

  /** Nothing is taken back, and events get lost or abandoned only with a count of it. */
  ghost predicate Grows(s: Bus, r: Bus) {
    && s.emitted <= r.emitted && s.dispatched <= r.dispatched && s.returned <= r.returned
    && s.lost <= r.lost && s.abandoned <= r.abandoned && s.marks <= r.marks
    && s.restarts <= r.restarts && s.aborts <= r.aborts && s.overtakes <= r.overtakes && s.calls <= r.calls
    && (r.restarts == s.restarts <==> r.lost == s.lost)
    && (r.aborts == s.aborts <==> r.abandoned == s.abandoned)
  }

  /** The history stays that of emission, and the mode flags go on following the marks. */
  ghost predicate Carries(s: Bus, r: Bus, keepHistory: bool) {
    && Grows(s, r)
    && (keepHistory && s.history == s.emitted ==> r.history == r.emitted)
    && (forall base: nat :: FlagsFollow(s, base) ==> FlagsFollow(r, base))
  }

  /** What any piece of a run does to the emitter, however deeply its listeners nest. */
  ghost predicate Leads(s: Bus, r: Bus, keepHistory: bool) {
    (Valid(s) ==> Valid(r)) && Carries(s, r, keepHistory)
  }

  /** The same for a call: events are abandoned only when it ends by an exception outside `Exception`. */
  ghost predicate LeadsTo(s: Bus, o: Outcome, keepHistory: bool) {
    Leads(s, o.bus, keepHistory) && (o.how != Fatal ==> o.bus.abandoned == s.abandoned)
  }

  lemma LeadsOn(s: Bus, m: Bus, r: Bus, keepHistory: bool)
    requires Leads(s, m, keepHistory) && Leads(m, r, keepHistory)
    ensures Leads(s, r, keepHistory)
  {
    CarriesOn(s, m, r, keepHistory);
  }

  lemma CarriesOn(s: Bus, m: Bus, r: Bus, keepHistory: bool)
    requires Carries(s, m, keepHistory) && Carries(m, r, keepHistory)
    ensures Carries(s, r, keepHistory)
  {
  }

  lemma LeadsOnTo(s: Bus, m: Bus, o: Outcome, keepHistory: bool)
    requires Leads(s, m, keepHistory) && m.abandoned == s.abandoned && LeadsTo(m, o, keepHistory)
    ensures LeadsTo(s, o, keepHistory)
  {
    LeadsOn(s, m, o.bus, keepHistory);
  }

  lemma FlatAppend(batches: seq<seq<Event>>, b: seq<Event>)
    ensures Flat(batches + [b]) == Flat(batches) + b
  {
    assert (batches + [b])[..|batches|] == batches;
  }

  lemma FlatInnermost(s: Bus)
    requires s.awaiting != []
    ensures Flat(s.awaiting) == Flat(Outer(s)) + Rest(s)
  {
  }

  /** Dropping a stretch keeps the order of the rest. */
  lemma DropInOrder(a: seq<Event>, b: seq<Event>, c: seq<Event>)
    requires InOrder(a + b + c)
    ensures InOrder(a + c)
  {
    var whole := a + b + c;
    forall i, j | 0 <= i < j < |a + c| ensures (a + c)[i].id < (a + c)[j].id {
      var k := if i < |a| then i else i + |b|;
      var l := if j < |a| then j else j + |b|;
      assert whole[k] == (a + c)[i] && whole[l] == (a + c)[j];
    }
  }

  lemma LastInOrder(a: seq<Event>, e: Event)
    requires InOrder(a) && forall x :: x in a ==> x.id < e.id
    ensures InOrder(a + [e])
  {
    forall i, j | 0 <= i < j < |a + [e]| ensures (a + [e])[i].id < (a + [e])[j].id {
      assert a[i] in a;
    }
  }

  /** What was emitted is the only thing anywhere, so it is older than the next event. */
  lemma NextIsNew(s: Bus, e: Event)
    requires Placed(s) && e.id == |s.emitted|
    ensures forall x :: x in s.dispatched + Queue(s) ==> x.id < e.id
  {
    forall x | x in s.dispatched + Queue(s) ensures x.id < e.id {
      assert x in s.dispatched || x in Flat(s.awaiting) || x in s.batched;
      assert Copies(s, x) > 0;
      assert x in multiset(s.emitted) && x in s.emitted;
    }
  }

  // ---------------------------------------------------------------- start and stop

  lemma PartsInOrder(a: seq<Event>, b: seq<Event>)
    requires InOrder(a + b)
    ensures InOrder(a) && InOrder(b)
  {
    forall i, j | 0 <= i < j < |b| ensures b[i].id < b[j].id {
      assert (a + b)[|a| + i] == b[i] && (a + b)[|a| + j] == b[j];
    }
    assert forall i :: 0 <= i < |a| ==> (a + b)[i] == a[i];
  }

  lemma ClearedOrdered(s: Bus, r: Bus)
    requires Ordered(s) && r.batched == [] && r.awaiting == s.awaiting
    requires r.dispatched == s.dispatched && r.emitted == s.emitted && r.overtakes == s.overtakes
    requires forall b :: b in r.returned ==> b in s.returned || b == s.batched
    ensures Ordered(r)
  {
    PartsInOrder(Flat(s.awaiting), s.batched);
    assert Queue(r) == Flat(s.awaiting);
    if s.overtakes == 0 {
      assert s.dispatched + Queue(s) == (s.dispatched + Flat(s.awaiting)) + s.batched;
      PartsInOrder(s.dispatched + Flat(s.awaiting), s.batched);
    } else {
      var i: nat, a :| Overtook(s, i, a);
      assert Overtook(r, i, a);
    }
  }

  lemma StartPlaced(s: Bus)
    requires Placed(s)
    ensures Placed(Start(s))
  {
    forall x ensures Copies(Start(s), x) == Copies(s, x) {
    }
  }

  lemma StartKeepsValid(s: Bus)
    requires Valid(s)
    ensures Valid(Start(s))
  {
    StartPlaced(s);
    ClearedOrdered(s, Start(s));
  }

  lemma StartCarries(s: Bus, keepHistory: bool)
    ensures Carries(s, Start(s), keepHistory)
  {
  }

  lemma StartLeads(s: Bus, keepHistory: bool)
    ensures Leads(s, Start(s), keepHistory)
  {
    StartCarries(s, keepHistory);
    if Valid(s) {
      StartKeepsValid(s);
    }
  }

  lemma StopPlaced(s: Bus)
    requires Placed(s)
    ensures Placed(Stop(s))
  {
    FlatAppend(s.returned, s.batched);
    forall x ensures Copies(Stop(s), x) == Copies(s, x) {
    }
  }

  lemma StopKeepsValid(s: Bus)
    requires Valid(s)
    ensures Valid(Stop(s)) && InOrder(s.batched)
  {
    StopPlaced(s);
    ClearedOrdered(s, Stop(s));
    PartsInOrder(Flat(s.awaiting), s.batched);
  }

  lemma StopCarries(s: Bus, keepHistory: bool)
    ensures Carries(s, Stop(s), keepHistory)
  {
  }

  lemma StopLeads(s: Bus, keepHistory: bool)
    ensures Leads(s, Stop(s), keepHistory)
  {
    StopCarries(s, keepHistory);
    if Valid(s) {
      StopKeepsValid(s);
    }
  }

  // ---------------------------------------------------------------- one event

  lemma BufferOrdered(s: Bus, keepHistory: bool, e: Event)
    requires Placed(s) && Ordered(s) && e.id == |s.emitted|
    ensures Ordered(Emitted(s, keepHistory, e).(batched := s.batched + [e]))
  {
    var r := Emitted(s, keepHistory, e).(batched := s.batched + [e]);
    NextIsNew(s, e);
    assert forall x :: x in Queue(s) ==> x in s.dispatched + Queue(s);
    LastInOrder(Queue(s), e);
    assert Queue(r) == Queue(s) + [e];
    if s.overtakes == 0 {
      LastInOrder(s.dispatched + Queue(s), e);
      assert r.dispatched + Queue(r) == s.dispatched + Queue(s) + [e];
    } else {
      var i: nat, a :| Overtook(s, i, a);
      assert Overtook(r, i, a);
    }
  }

  lemma BufferPlaced(s: Bus, keepHistory: bool, e: Event)
    requires Placed(s) && e.id == |s.emitted|
    ensures Placed(Emitted(s, keepHistory, e).(batched := s.batched + [e]))
  {
    var r := Emitted(s, keepHistory, e).(batched := s.batched + [e]);
    forall x ensures Copies(r, x) == Copies(s, x) + multiset{e}[x] {
    }
  }

  lemma BufferCarries(s: Bus, keepHistory: bool, e: Event)
    requires e.id == |s.emitted| && s.batchMode
    ensures Carries(s, Emitted(s, keepHistory, e).(batched := s.batched + [e]), keepHistory)
  {
  }

  lemma BufferLeads(s: Bus, keepHistory: bool, e: Event)
    requires e.id == |s.emitted| && s.batchMode
    ensures Leads(s, Emitted(s, keepHistory, e).(batched := s.batched + [e]), keepHistory)
  {
    BufferCarries(s, keepHistory, e);
    if Valid(s) {
      BufferPlaced(s, keepHistory, e);
      BufferOrdered(s, keepHistory, e);
    }
  }

  /** An event sent past an older one has overtaken it for good. */
  lemma SentOvertakes(s: Bus, e: Event, a: Event)
    requires a in s.emitted && a.id < e.id && a !in s.dispatched
    ensures Overtook(Sent(s, e), |s.dispatched|, a)
  {
    assert Sent(s, e).dispatched[..|s.dispatched|] == s.dispatched;
  }

  lemma OvertookStays(s: Bus, r: Bus, i: nat, a: Event)
    requires Overtook(s, i, a) && s.dispatched <= r.dispatched && s.emitted <= r.emitted
    ensures Overtook(r, i, a)
  {
    assert r.dispatched[..i] == s.dispatched[..i];
    assert r.dispatched[i] == s.dispatched[i];
  }

  /** What waits was emitted and is not dispatched. */
  lemma WaitingOnce(s: Bus, a: Event)
    requires Placed(s) && a in Flat(s.awaiting)
    ensures a in s.emitted && a !in s.dispatched
  {
    assert Copies(s, a) > 0;
    assert a in multiset(s.emitted);
    EmittedOnce(s, a);
  }

  lemma EmittedOnce(s: Bus, x: Event)
    requires forall i :: 0 <= i < |s.emitted| ==> s.emitted[i].id == i
    ensures multiset(s.emitted)[x] == if x in s.emitted then 1 else 0
  {
    if x in s.emitted {
      var i :| 0 <= i < |s.emitted| && s.emitted[i] == x;
      assert s.emitted == s.emitted[..i] + [x] + s.emitted[i + 1..];
      assert x !in s.emitted[..i] && x !in s.emitted[i + 1..];
    }
  }

  lemma DirectPlaced(s: Bus, keepHistory: bool, e: Event)
    requires Placed(s) && e.id == |s.emitted|
    ensures Placed(Sent(Emitted(s, keepHistory, e), e))
  {
    var r := Sent(Emitted(s, keepHistory, e), e);
    forall x ensures Copies(r, x) == Copies(s, x) + multiset{e}[x] {
    }
  }

  lemma DirectOrdered(s: Bus, keepHistory: bool, e: Event)
    requires Placed(s) && Ordered(s) && s.batched == [] && e.id == |s.emitted|
    ensures Ordered(Sent(Emitted(s, keepHistory, e), e))
  {
    var m := Emitted(s, keepHistory, e);
    var r := Sent(m, e);
    NextIsNew(s, e);
    assert Queue(s) == Flat(s.awaiting) == Queue(r);
    if s.overtakes > 0 {
      var i: nat, a :| Overtook(s, i, a);
      OvertookStays(s, r, i, a);
    } else if Flat(s.awaiting) != [] {
      var a := Flat(s.awaiting)[0];
      assert a in s.dispatched + Queue(s);
      WaitingOnce(s, a);
      SentOvertakes(m, e, a);
    } else {
      assert s.dispatched + Queue(s) == s.dispatched;
      LastInOrder(s.dispatched, e);
      assert r.dispatched + Queue(r) == s.dispatched + [e];
    }
  }

  lemma DirectCarries(s: Bus, keepHistory: bool, e: Event)
    requires e.id == |s.emitted| && !s.batchMode
    ensures Carries(s, Sent(Emitted(s, keepHistory, e), e), keepHistory)
  {
  }

  lemma DirectLeads(s: Bus, keepHistory: bool, e: Event)
    requires e.id == |s.emitted| && !s.batchMode
    ensures Leads(s, Sent(Emitted(s, keepHistory, e), e), keepHistory)
  {
    DirectCarries(s, keepHistory, e);
    if Valid(s) {
      DirectPlaced(s, keepHistory, e);
      DirectOrdered(s, keepHistory, e);
    }
  }

  // ---------------------------------------------------------------- the steps of a flush

  lemma BeginFlushPlaced(s: Bus)
    requires Placed(s)
    ensures Placed(BeginFlush(s))
  {
    FlatAppend(s.awaiting, s.batched);
    forall x ensures Copies(BeginFlush(s), x) == Copies(s, x) {
    }
  }

  lemma BeginFlushOrdered(s: Bus)
    requires Ordered(s)
    ensures Ordered(BeginFlush(s))
  {
    var r := BeginFlush(s);
    FlatAppend(s.awaiting, s.batched);
    assert Queue(r) == Queue(s);
    if s.overtakes > 0 {
      var i: nat, a :| Overtook(s, i, a);
      OvertookStays(s, r, i, a);
    }
  }

  lemma BeginFlushCarries(s: Bus, keepHistory: bool)
    requires s.batchMode
    ensures Carries(s, BeginFlush(s), keepHistory)
  {
  }

  lemma BeginFlushLeads(s: Bus, keepHistory: bool)
    requires s.batchMode
    ensures Leads(s, BeginFlush(s), keepHistory)
  {
    BeginFlushCarries(s, keepHistory);
    if Valid(s) {
      BeginFlushPlaced(s);
      BeginFlushOrdered(s);
    }
  }

  lemma TakePlaced(s: Bus, left: seq<Event>)
    requires Placed(s) && s.awaiting != [] && Rest(s) == left && left != []
    ensures Placed(Sent(StillToGo(s, left[1..]), left[0]))
  {
    var r := Sent(StillToGo(s, left[1..]), left[0]);
    forall x ensures Copies(r, x) == Copies(s, x) {
      FlatInnermost(s);
      FlatAppend(Outer(s), left[1..]);
      assert left == [left[0]] + left[1..];
      assert Flat(s.awaiting) == Flat(Outer(s)) + [left[0]] + left[1..];
    }
  }

  lemma TakeOrdered(s: Bus, left: seq<Event>)
    requires Placed(s) && Ordered(s) && s.awaiting != [] && Rest(s) == left && left != []
    ensures Ordered(Sent(StillToGo(s, left[1..]), left[0]))
  {
    var outer := Flat(Outer(s));
    var m := StillToGo(s, left[1..]);
    var r := Sent(m, left[0]);
    TakeQueues(s, left);
    DropInOrder(outer, [left[0]], left[1..] + s.batched);
    if s.overtakes > 0 {
      var i: nat, a :| Overtook(s, i, a);
      OvertookStays(s, r, i, a);
    } else if outer != [] {
      TakeOvertakes(s, m, left);
    } else {
      assert r.dispatched + Queue(r) == s.dispatched + Queue(s);
      TakenInOrder(s, m, left);
    }
  }

  lemma TakeQueues(s: Bus, left: seq<Event>)
    requires s.awaiting != [] && Rest(s) == left && left != []
    ensures var outer, later := Flat(Outer(s)), left[1..] + s.batched;
      Queue(s) == outer + [left[0]] + later && Queue(Sent(StillToGo(s, left[1..]), left[0])) == outer + later
  {
    FlatInnermost(s);
    FlatAppend(Outer(s), left[1..]);
  }

  /** With events left in an outer flush, the next of the inner one is sent past them. */
  lemma TakeOvertakes(s: Bus, m: Bus, left: seq<Event>)
    requires Placed(s) && InOrder(Queue(s)) && s.awaiting != [] && Rest(s) == left && left != []
    requires m == StillToGo(s, left[1..]) && Flat(Outer(s)) != []
    ensures OlderWaits(m, left[0]) && exists i: nat, a :: Overtook(Sent(m, left[0]), i, a)
  {
    var outer := Flat(Outer(s));
    TakeQueues(s, left);
    assert Queue(s)[0] == outer[0] && Queue(s)[|outer|] == left[0];
    FlatInnermost(s);
    FlatAppend(Outer(s), left[1..]);
    assert Flat(m.awaiting)[0] == outer[0] && outer[0] in Flat(s.awaiting);
    WaitingOnce(s, outer[0]);
    SentOvertakes(m, left[0], outer[0]);
  }

  lemma TakenInOrder(s: Bus, m: Bus, left: seq<Event>)
    requires InOrder(Queue(s)) && s.awaiting != [] && Rest(s) == left && left != []
    requires m == StillToGo(s, left[1..]) && Flat(Outer(s)) == []
    ensures !OlderWaits(m, left[0])
  {
    FlatInnermost(s);
    FlatAppend(Outer(s), left[1..]);
    assert Flat(m.awaiting) == left[1..];
    forall i | 0 <= i < |left| - 1 ensures left[0].id < left[1..][i].id {
      assert Queue(s)[0] == left[0] && Queue(s)[i + 1] == left[1..][i];
    }
  }

  /** Taking the next event of a flush moves it from awaiting to dispatched. */
  lemma TakeCarries(s: Bus, keepHistory: bool, left: seq<Event>)
    requires s.awaiting != [] && Rest(s) == left && left != []
    ensures Carries(s, Sent(StillToGo(s, left[1..]), left[0]), keepHistory)
  {
  }

  lemma TakeLeads(s: Bus, keepHistory: bool, left: seq<Event>)
    requires s.awaiting != [] && Rest(s) == left && left != []
    ensures Leads(s, Sent(StillToGo(s, left[1..]), left[0]), keepHistory)
  {
    TakeCarries(s, keepHistory, left);
    if Valid(s) {
      TakePlaced(s, left);
      TakeOrdered(s, left);
    }
  }

  lemma EndFlushPlaced(d: Bus)
    requires Placed(d) && d.awaiting != []
    ensures Placed(EndFlush(d))
  {
    FlatInnermost(d);
    forall x ensures Copies(EndFlush(d), x) == Copies(d, x) {
    }
  }

  lemma EndFlushOrdered(d: Bus)
    requires Ordered(d) && d.awaiting != []
    ensures Ordered(EndFlush(d))
  {
    var r := EndFlush(d);
    FlatInnermost(d);
    DropInOrder(Flat(Outer(d)), Rest(d), d.batched);
    if d.overtakes > 0 {
      var i: nat, a :| Overtook(d, i, a);
      OvertookStays(d, r, i, a);
    } else {
      assert d.dispatched + Queue(d) == d.dispatched + Flat(Outer(d)) + Rest(d) + d.batched;
      DropInOrder(d.dispatched + Flat(Outer(d)), Rest(d), d.batched);
      assert r.dispatched + Queue(r) == d.dispatched + Flat(Outer(d)) + d.batched;
    }
  }

  lemma EndFlushCarries(s: Bus, d: Bus, keepHistory: bool)
    requires s.batchMode && Carries(s, d, keepHistory) && d.awaiting != []
    ensures Carries(s, EndFlush(d), keepHistory)
  {
    forall base: nat | FlagsFollow(s, base) ensures FlagsFollow(EndFlush(d), base) {
      assert FlagsFollow(d, base);
      assert d.marks[base..] != [];
    }
  }

  lemma EndFlushLeads(s: Bus, o: Outcome, keepHistory: bool)
    requires s.batchMode && LeadsTo(s, o, keepHistory)
    requires o.bus.awaiting != [] && (o.how != Fatal ==> Rest(o.bus) == [])
    ensures LeadsTo(s, Outcome(EndFlush(o.bus), o.how), keepHistory)
  {
    EndFlushCarries(s, o.bus, keepHistory);
    if Valid(s) {
      EndFlushPlaced(o.bus);
      EndFlushOrdered(o.bus);
    }
  }

  // ---------------------------------------------------------------- every call, however nested

  lemma NotedPlaced(s: Bus, depth: nat, listener: Listener, e: Event)
    requires Placed(s)
    ensures Placed(Noted(s, depth, listener, e))
  {
    forall x ensures Copies(Noted(s, depth, listener, e), x) == Copies(s, x) {
    }
  }

  lemma NotedOrdered(s: Bus, depth: nat, listener: Listener, e: Event)
    requires Ordered(s)
    ensures Ordered(Noted(s, depth, listener, e))
  {
    var r := Noted(s, depth, listener, e);
    assert Queue(r) == Queue(s);
    if s.overtakes > 0 {
      var i: nat, a :| Overtook(s, i, a);
      OvertookStays(s, r, i, a);
    }
  }

  lemma NotedLeads(s: Bus, keepHistory: bool, depth: nat, listener: Listener, e: Event)
    ensures Leads(s, Noted(s, depth, listener, e), keepHistory)
  {
    if Valid(s) {
      NotedPlaced(s, depth, listener, e);
      NotedOrdered(s, depth, listener, e);
    }
  }

  lemma EmitDispatches(registry: Registry, keepHistory: bool, s: Bus, e: Event, fuel: nat)
    requires fuel > 0 && !s.batchMode && e.id == |s.emitted|
    ensures DoEmit(registry, keepHistory, s, e.kind, e.payload, fuel) ==
      CallAll(registry, keepHistory, Sent(Emitted(s, keepHistory, e), e), e, Listeners(registry, e.kind), fuel - 1)
  {
  }

  /** An event sent at once, around the calls `o` of its listeners. */
  lemma AroundCallsLeads(s: Bus, keepHistory: bool, e: Event, o: Outcome)
    requires e.id == |s.emitted| && !s.batchMode
    requires LeadsTo(Sent(Emitted(s, keepHistory, e), e), o, keepHistory)
    ensures LeadsTo(s, o, keepHistory)
  {
    DirectLeads(s, keepHistory, e);
    LeadsOnTo(s, Sent(Emitted(s, keepHistory, e), e), o, keepHistory);
  }

  lemma {:induction false} EmitLeads(
    registry: Registry, keepHistory: bool, s: Bus, kind: string, payload: nat, fuel: nat)
    ensures LeadsTo(s, DoEmit(registry, keepHistory, s, kind, payload, fuel), keepHistory)
    decreases fuel, 2, 0
  {
    if fuel > 0 {
      var e := Event(|s.emitted|, kind, payload);
      if s.batchMode {
        BufferLeads(s, keepHistory, e);
      } else {
        var s1 := Sent(Emitted(s, keepHistory, e), e);
        EmitDispatches(registry, keepHistory, s, e, fuel);
        CallAllLeads(registry, keepHistory, s1, e, Listeners(registry, kind), fuel - 1);
        AroundCallsLeads(s, keepHistory, e, CallAll(registry, keepHistory, s1, e, Listeners(registry, kind), fuel - 1));
      }
    }
  }

  lemma {:induction false} CallAllLeads(
    registry: Registry, keepHistory: bool, s: Bus, e: Event, listeners: seq<Listener>, fuel: nat)
    ensures LeadsTo(s, CallAll(registry, keepHistory, s, e, listeners, fuel), keepHistory)
    decreases fuel, 4, |listeners|
  {
    if listeners != [] {
      var s1 := Noted(s, fuel, listeners[0], e);
      NotedLeads(s, keepHistory, fuel, listeners[0], e);
      PerformLeads(registry, keepHistory, s1, listeners[0](e), fuel);
      var o1 := Perform(registry, keepHistory, s1, listeners[0](e), fuel);
      LeadsOnTo(s, s1, o1, keepHistory);
      if o1.how != Fatal {
        CallAllLeads(registry, keepHistory, o1.bus, e, listeners[1..], fuel);
        LeadsOnTo(s, o1.bus, CallAll(registry, keepHistory, o1.bus, e, listeners[1..], fuel), keepHistory);
      }
    }
  }

  lemma {:induction false} PerformLeads(registry: Registry, keepHistory: bool, s: Bus, actions: seq<Action>, fuel: nat)
    ensures LeadsTo(s, Perform(registry, keepHistory, s, actions, fuel), keepHistory)
    decreases fuel, 3, |actions|
  {
    if actions != [] {
      ActLeads(registry, keepHistory, s, actions[0], fuel);
      var o1 := Act(registry, keepHistory, s, actions[0], fuel);
      if o1.how == Fine {
        PerformLeads(registry, keepHistory, o1.bus, actions[1..], fuel);
        LeadsOnTo(s, o1.bus, Perform(registry, keepHistory, o1.bus, actions[1..], fuel), keepHistory);
      }
    }
  }

  lemma {:induction false} ActLeads(registry: Registry, keepHistory: bool, s: Bus, action: Action, fuel: nat)
    ensures LeadsTo(s, Act(registry, keepHistory, s, action, fuel), keepHistory)
    decreases fuel, 2, 1
  {
    match action {
      case Emit(kind, payload) => EmitLeads(registry, keepHistory, s, kind, payload, fuel);
      case StartBatch => StartLeads(s, keepHistory);
      case StopBatch => StopLeads(s, keepHistory);
      case FlushBatch => FlushLeads(registry, keepHistory, s, fuel);
      case Raise =>
      case Exit =>
    }
  }

  lemma FlushIsLoop(registry: Registry, keepHistory: bool, s: Bus, fuel: nat)
    requires fuel > 0 && s.batchMode
    ensures var o := DispatchAll(registry, keepHistory, BeginFlush(s), s.batched, fuel - 1);
      Flush(registry, keepHistory, s, fuel) == Outcome(EndFlush(o.bus), o.how)
  {
  }

  /** A flush around a loop `o` over its batch. */
  lemma AroundLoopLeads(s: Bus, o: Outcome, keepHistory: bool)
    requires s.batchMode && LeadsTo(BeginFlush(s), o, keepHistory)
    requires o.bus.awaiting != [] && (o.how != Fatal ==> Rest(o.bus) == [])
    ensures LeadsTo(s, Outcome(EndFlush(o.bus), o.how), keepHistory)
  {
    BeginFlushLeads(s, keepHistory);
    LeadsOnTo(s, BeginFlush(s), o, keepHistory);
    EndFlushLeads(s, o, keepHistory);
  }

  lemma {:induction false} FlushLeads(registry: Registry, keepHistory: bool, s: Bus, fuel: nat)
    ensures LeadsTo(s, Flush(registry, keepHistory, s, fuel), keepHistory)
    decreases fuel, 2, 0
  {
    if fuel > 0 && s.batchMode {
      DispatchAllLeads(registry, keepHistory, BeginFlush(s), s.batched, fuel - 1);
      AroundLoopLeads(s, DispatchAll(registry, keepHistory, BeginFlush(s), s.batched, fuel - 1), keepHistory);
      FlushIsLoop(registry, keepHistory, s, fuel);
    }
  }

  lemma {:induction false} DispatchAllLeads(
    registry: Registry, keepHistory: bool, s: Bus, left: seq<Event>, fuel: nat)
    requires s.awaiting != [] && Rest(s) == left
    ensures LeadsTo(s, DispatchAll(registry, keepHistory, s, left, fuel), keepHistory)
    decreases fuel, 6, |left|
  {
    if left != [] {
      TakeLeads(s, keepHistory, left);
      var s1 := Sent(StillToGo(s, left[1..]), left[0]);
      CallAllLeads(registry, keepHistory, s1, left[0], Listeners(registry, left[0].kind), fuel);
      var o1 := CallAll(registry, keepHistory, s1, left[0], Listeners(registry, left[0].kind), fuel);
      LeadsOnTo(s, s1, o1, keepHistory);
      if o1.how != Fatal {
        DispatchAllLeads(registry, keepHistory, o1.bus, left[1..], fuel);
        LeadsOnTo(s, o1.bus, DispatchAll(registry, keepHistory, o1.bus, left[1..], fuel), keepHistory);
      }
    }
  }

  // ---------------------------------------------------------------- the guarantees

  /** Each emitted event is in exactly one place, once, and nothing else is anywhere. */
  lemma EachEventOnce(s: Bus, x: Event)
    requires Valid(s)
    ensures Copies(s, x) == if x in s.emitted then 1 else 0
  {
    EmittedOnce(s, x);
  }

  /** After a flush batching is on, unless the last start or stop call made during it was a stop. */
  lemma FlushRestoresMode(registry: Registry, keepHistory: bool, s: Bus, fuel: nat)
    requires s.batchMode && fuel > 0
    ensures var r := Flush(registry, keepHistory, s, fuel).bus;
      && s.marks <= r.marks
      && (r.batchMode <==> !(|r.marks| > |s.marks| && r.marks[|r.marks| - 1] == Stopped))
  {
    var b := BeginFlush(s);
    var d := DispatchAll(registry, keepHistory, b, s.batched, fuel - 1).bus;
    DispatchAllLeads(registry, keepHistory, b, s.batched, fuel - 1);
    assert FlagsFollow(b, |s.marks|);
    assert FlagsFollow(d, |s.marks|);
    var since := d.marks[|s.marks|..];
    assert since != [] ==> since[|since| - 1] == d.marks[|d.marks| - 1];
  }

  /** What the emitter counts: a start call drops events when it meets some, a flush when it is left early. */
  lemma LossIsCounted(registry: Registry, keepHistory: bool, s: Bus, actions: seq<Action>, fuel: nat)
    ensures var o := Perform(registry, keepHistory, s, actions, fuel);
      && (o.bus.lost != s.lost <==> o.bus.restarts > s.restarts)
      && (o.bus.abandoned != s.abandoned <==> o.bus.aborts > s.aborts)
      && (o.bus.abandoned != s.abandoned ==> o.how == Fatal)
  {
    PerformLeads(registry, keepHistory, s, actions, fuel);
  }

  // ---------------------------------------------------------------- which programs lose events

  /** No listener ever does this, whatever event it gets. */
  ghost predicate NoListenerDoes(registry: Registry, action: Action) {
    forall kind: string, i, e ::
      0 <= i < |Listeners(registry, kind)| ==> action !in Listeners(registry, kind)[i](e)
  }

  /** The call drops nothing from the buffer. */
  predicate KeepsBuffer(s: Bus, o: Outcome) {
    o.bus.lost == s.lost
  }

  /** Events are lost to a start call only if the program or some listener makes one. */
  lemma {:induction false} NoStartNoLoss(
    registry: Registry, keepHistory: bool, s: Bus, actions: seq<Action>, fuel: nat)
    requires NoListenerDoes(registry, StartBatch) && StartBatch !in actions
    ensures KeepsBuffer(s, Perform(registry, keepHistory, s, actions, fuel))
    decreases fuel, 3, |actions|
  {
    if actions != [] {
      var o1 := Act(registry, keepHistory, s, actions[0], fuel);
      assert actions[0] in actions;
      ActKeepsBuffer(registry, keepHistory, s, actions[0], fuel);
      if o1.how == Fine {
        NoStartNoLoss(registry, keepHistory, o1.bus, actions[1..], fuel);
      }
    }
  }

  lemma {:induction false} ActKeepsBuffer(registry: Registry, keepHistory: bool, s: Bus, action: Action, fuel: nat)
    requires NoListenerDoes(registry, StartBatch) && action != StartBatch
    ensures KeepsBuffer(s, Act(registry, keepHistory, s, action, fuel))
    decreases fuel, 2, 1
  {
    if fuel > 0 && action.Emit? && !s.batchMode {
      var e := Event(|s.emitted|, action.kind, action.payload);
      DispatchKeepsBuffer(registry, keepHistory, Emitted(s, keepHistory, e), e, fuel - 1);
    } else if fuel > 0 && action == FlushBatch && s.batchMode {
      DispatchAllKeepsBuffer(registry, keepHistory, BeginFlush(s), s.batched, fuel - 1);
    }
  }

  lemma {:induction false} DispatchKeepsBuffer(registry: Registry, keepHistory: bool, s: Bus, e: Event, fuel: nat)
    requires NoListenerDoes(registry, StartBatch)
    ensures KeepsBuffer(s, Dispatch(registry, keepHistory, s, e, fuel))
    decreases fuel, 5, 0
  {
    CallAllKeepsBuffer(registry, keepHistory, Sent(s, e), e, 0, fuel);
  }

  lemma {:induction false} CallAllKeepsBuffer(
    registry: Registry, keepHistory: bool, s: Bus, e: Event, k: nat, fuel: nat)
    requires NoListenerDoes(registry, StartBatch) && k <= |Listeners(registry, e.kind)|
    ensures KeepsBuffer(s, CallAll(registry, keepHistory, s, e, Listeners(registry, e.kind)[k..], fuel))
    decreases fuel, 4, |Listeners(registry, e.kind)| - k
  {
    var all := Listeners(registry, e.kind);
    if k < |all| {
      var s1 := Noted(s, fuel, all[k], e);
      NoStartNoLoss(registry, keepHistory, s1, all[k](e), fuel);
      var o1 := Perform(registry, keepHistory, s1, all[k](e), fuel);
      assert all[k..][1..] == all[k + 1..];
      CallAllKeepsBuffer(registry, keepHistory, o1.bus, e, k + 1, fuel);
    }
  }

  lemma {:induction false} DispatchAllKeepsBuffer(
    registry: Registry, keepHistory: bool, s: Bus, left: seq<Event>, fuel: nat)
    requires NoListenerDoes(registry, StartBatch) && s.awaiting != [] && Rest(s) == left
    ensures KeepsBuffer(s, DispatchAll(registry, keepHistory, s, left, fuel))
    decreases fuel, 6, |left|
  {
    if left != [] {
      var s1 := StillToGo(s, left[1..]);
      DispatchKeepsBuffer(registry, keepHistory, s1, left[0], fuel);
      var o1 := Dispatch(registry, keepHistory, s1, left[0], fuel);
      if o1.how != Fatal {
        DispatchAllKeepsBuffer(registry, keepHistory, o1.bus, left[1..], fuel);
      }
    }
  }

  /** A run ends by an exception outside `Exception` only if the program or some listener raises one. */
  lemma {:induction false} NoExitNoFatal(
    registry: Registry, keepHistory: bool, s: Bus, actions: seq<Action>, fuel: nat)
    requires NoListenerDoes(registry, Exit) && Exit !in actions
    ensures Perform(registry, keepHistory, s, actions, fuel).how != Fatal
    ensures Perform(registry, keepHistory, s, actions, fuel).bus.abandoned == s.abandoned
    decreases fuel, 3, |actions|
  {
    PerformLeads(registry, keepHistory, s, actions, fuel);
    if actions != [] {
      var o1 := Act(registry, keepHistory, s, actions[0], fuel);
      assert actions[0] in actions;
      ActIsNotFatal(registry, keepHistory, s, actions[0], fuel);
      if o1.how == Fine {
        NoExitNoFatal(registry, keepHistory, o1.bus, actions[1..], fuel);
      }
    }
  }

  lemma {:induction false} ActIsNotFatal(registry: Registry, keepHistory: bool, s: Bus, action: Action, fuel: nat)
    requires NoListenerDoes(registry, Exit) && action != Exit
    ensures Act(registry, keepHistory, s, action, fuel).how != Fatal
    decreases fuel, 2, 1
  {
    if fuel > 0 && action.Emit? && !s.batchMode {
      var e := Event(|s.emitted|, action.kind, action.payload);
      DispatchIsNotFatal(registry, keepHistory, Emitted(s, keepHistory, e), e, fuel - 1);
    } else if fuel > 0 && action == FlushBatch && s.batchMode {
      DispatchAllIsNotFatal(registry, keepHistory, BeginFlush(s), s.batched, fuel - 1);
    }
  }

  lemma {:induction false} DispatchIsNotFatal(registry: Registry, keepHistory: bool, s: Bus, e: Event, fuel: nat)
    requires NoListenerDoes(registry, Exit)
    ensures Dispatch(registry, keepHistory, s, e, fuel).how != Fatal
    decreases fuel, 5, 0
  {
    CallAllIsNotFatal(registry, keepHistory, Sent(s, e), e, 0, fuel);
  }

  lemma {:induction false} CallAllIsNotFatal(
    registry: Registry, keepHistory: bool, s: Bus, e: Event, k: nat, fuel: nat)
    requires NoListenerDoes(registry, Exit) && k <= |Listeners(registry, e.kind)|
    ensures CallAll(registry, keepHistory, s, e, Listeners(registry, e.kind)[k..], fuel).how != Fatal
    decreases fuel, 4, |Listeners(registry, e.kind)| - k
  {
    var all := Listeners(registry, e.kind);
    if k < |all| {
      var s1 := Noted(s, fuel, all[k], e);
      NoExitNoFatal(registry, keepHistory, s1, all[k](e), fuel);
      var o1 := Perform(registry, keepHistory, s1, all[k](e), fuel);
      assert all[k..][1..] == all[k + 1..];
      CallAllIsNotFatal(registry, keepHistory, o1.bus, e, k + 1, fuel);
    }
  }

  lemma {:induction false} DispatchAllIsNotFatal(
    registry: Registry, keepHistory: bool, s: Bus, left: seq<Event>, fuel: nat)
    requires NoListenerDoes(registry, Exit) && s.awaiting != [] && Rest(s) == left
    ensures DispatchAll(registry, keepHistory, s, left, fuel).how != Fatal
    decreases fuel, 6, |left|
  {
    if left != [] {
      var s1 := StillToGo(s, left[1..]);
      DispatchIsNotFatal(registry, keepHistory, s1, left[0], fuel);
      DispatchAllIsNotFatal(
        registry, keepHistory, Dispatch(registry, keepHistory, s1, left[0], fuel).bus, left[1..], fuel);
    }
  }

  /** The emitter in a flush of `left` once its first `n` events have been dispatched. */
  function AfterSending(
    registry: Registry, keepHistory: bool, s: Bus, left: seq<Event>, n: nat, fuel: nat): (r: Bus)
    requires s.awaiting != [] && n <= |left|
    ensures r.awaiting != []
    decreases n
  {
    if n == 0 then s
    else
      AfterSending(
        registry, keepHistory, Dispatch(registry, keepHistory, StillToGo(s, left[1..]), left[0], fuel).bus,
        left[1..], n - 1, fuel)
  }

  /** The dispatch of event number `n` of the batch ends by an exception outside `Exception`. */
  predicate LeavesAt(registry: Registry, keepHistory: bool, s: Bus, left: seq<Event>, n: nat, fuel: nat)
    requires s.awaiting != [] && n < |left|
  {
    var before := AfterSending(registry, keepHistory, s, left, n, fuel);
    Dispatch(registry, keepHistory, StillToGo(before, left[n + 1..]), left[n], fuel).how == Fatal
  }

  /** Event number `i` is the first such event of the batch, or there is none and `i` is its length. */
  predicate FirstLeaving(registry: Registry, keepHistory: bool, s: Bus, left: seq<Event>, i: nat, fuel: nat)
    requires s.awaiting != [] && i <= |left|
  {
    && (forall n :: 0 <= n < i ==> !LeavesAt(registry, keepHistory, s, left, n, fuel))
    && (i < |left| ==> LeavesAt(registry, keepHistory, s, left, i, fuel))
  }

  lemma LeavesLater(registry: Registry, keepHistory: bool, s: Bus, left: seq<Event>, n: nat, fuel: nat)
    requires s.awaiting != [] && 0 < n < |left|
    ensures var o1 := Dispatch(registry, keepHistory, StillToGo(s, left[1..]), left[0], fuel);
      LeavesAt(registry, keepHistory, s, left, n, fuel) ==
        LeavesAt(registry, keepHistory, o1.bus, left[1..], n - 1, fuel)
  {
    assert left[1..][n..] == left[n + 1..] && left[1..][n - 1] == left[n];
  }

  lemma FirstLeavingLater(registry: Registry, keepHistory: bool, s: Bus, left: seq<Event>, i: nat, fuel: nat)
    requires s.awaiting != [] && 0 < i <= |left| && FirstLeaving(registry, keepHistory, s, left, i, fuel)
    ensures var o1 := Dispatch(registry, keepHistory, StillToGo(s, left[1..]), left[0], fuel);
      o1.how != Fatal && FirstLeaving(registry, keepHistory, o1.bus, left[1..], i - 1, fuel)
  {
    var o1 := Dispatch(registry, keepHistory, StillToGo(s, left[1..]), left[0], fuel);
    assert !LeavesAt(registry, keepHistory, s, left, 0, fuel);
    forall n | 0 <= n < i && n < |left| - 1
      ensures LeavesAt(registry, keepHistory, o1.bus, left[1..], n, fuel) ==
        LeavesAt(registry, keepHistory, s, left, n + 1, fuel)
    {
      LeavesLater(registry, keepHistory, s, left, n + 1, fuel);
    }
  }

  lemma LeavesAtOnce(registry: Registry, keepHistory: bool, s: Bus, left: seq<Event>, fuel: nat)
    requires s.awaiting != [] && Rest(s) == left && left != []
    requires LeavesAt(registry, keepHistory, s, left, 0, fuel)
    ensures var o := DispatchAll(registry, keepHistory, s, left, fuel);
      o.how == Fatal && Rest(o.bus) == left[1..]
  {
  }

  lemma GoesOn(registry: Registry, keepHistory: bool, s: Bus, left: seq<Event>, fuel: nat)
    requires s.awaiting != [] && Rest(s) == left && left != []
    requires Dispatch(registry, keepHistory, StillToGo(s, left[1..]), left[0], fuel).how != Fatal
    ensures var o1 := Dispatch(registry, keepHistory, StillToGo(s, left[1..]), left[0], fuel);
      DispatchAll(registry, keepHistory, s, left, fuel) == DispatchAll(registry, keepHistory, o1.bus, left[1..], fuel)
  {
  }

  /** What a flush leaves behind of `left` when event number `i` is the first whose dispatch ends that way. */
  predicate LeavesRest(o: Outcome, left: seq<Event>, i: nat)
    requires o.bus.awaiting != [] && i <= |left|
  {
    (o.how == Fatal <==> i < |left|) && Rest(o.bus) == if i < |left| then left[i + 1..] else []
  }

  lemma RestLater(o: Outcome, left: seq<Event>, i: nat)
    requires o.bus.awaiting != [] && 0 < i <= |left| && LeavesRest(o, left[1..], i - 1)
    ensures LeavesRest(o, left, i)
  {
    assert i < |left| ==> left[1..][i..] == left[i + 1..];
  }

  lemma NothingLeft(registry: Registry, keepHistory: bool, s: Bus, fuel: nat)
    requires s.awaiting != [] && Rest(s) == []
    ensures LeavesRest(DispatchAll(registry, keepHistory, s, [], fuel), [], 0)
  {
  }

  lemma RestAtOnce(registry: Registry, keepHistory: bool, s: Bus, left: seq<Event>, fuel: nat)
    requires s.awaiting != [] && Rest(s) == left && left != []
    requires LeavesAt(registry, keepHistory, s, left, 0, fuel)
    ensures LeavesRest(DispatchAll(registry, keepHistory, s, left, fuel), left, 0)
  {
    LeavesAtOnce(registry, keepHistory, s, left, fuel);
  }

  lemma {:induction false} FlushLeaves(
    registry: Registry, keepHistory: bool, s: Bus, left: seq<Event>, i: nat, fuel: nat)
    requires s.awaiting != [] && Rest(s) == left && i <= |left|
    requires FirstLeaving(registry, keepHistory, s, left, i, fuel)
    ensures LeavesRest(DispatchAll(registry, keepHistory, s, left, fuel), left, i)
    decreases |left|
  {
    if left == [] {
      NothingLeft(registry, keepHistory, s, fuel);
    } else if i == 0 {
      RestAtOnce(registry, keepHistory, s, left, fuel);
    } else {
      var o1 := Dispatch(registry, keepHistory, StillToGo(s, left[1..]), left[0], fuel);
      FirstLeavingLater(registry, keepHistory, s, left, i, fuel);
      GoesOn(registry, keepHistory, s, left, fuel);
      FlushLeaves(registry, keepHistory, o1.bus, left[1..], i - 1, fuel);
      RestLater(DispatchAll(registry, keepHistory, s, left, fuel), left, i);
    }
  }

  /** Exactly what a flush leaves behind: the events after the first whose dispatch ends that way. */
  lemma FlushLeavesRest(registry: Registry, keepHistory: bool, s: Bus, left: seq<Event>, i: nat, fuel: nat)
    requires s.awaiting != [] && Rest(s) == left && i <= |left|
    requires FirstLeaving(registry, keepHistory, s, left, i, fuel)
    ensures var o := DispatchAll(registry, keepHistory, s, left, fuel);
      && (o.how == Fatal <==> i < |left|)
      && Rest(o.bus) == if i < |left| then left[i + 1..] else []
  {
    FlushLeaves(registry, keepHistory, s, left, i, fuel);
  }

  /** There always is such a number; the search starts at `n`. */
  lemma {:induction false} FindLeaving(
    registry: Registry, keepHistory: bool, s: Bus, left: seq<Event>, n: nat, fuel: nat) returns (i: nat)
    requires s.awaiting != [] && n <= |left|
    requires forall k :: 0 <= k < n ==> !LeavesAt(registry, keepHistory, s, left, k, fuel)
    ensures i <= |left| && FirstLeaving(registry, keepHistory, s, left, i, fuel)
    decreases |left| - n
  {
    if n == |left| || LeavesAt(registry, keepHistory, s, left, n, fuel) {
      i := n;
    } else {
      i := FindLeaving(registry, keepHistory, s, left, n + 1, fuel);
    }
  }

  const EMPTY := Bus(false, [], false, [], [], [], [], [], [], [], [], 0, 0, 0, [])

  lemma PerformNext(registry: Registry, keepHistory: bool, s: Bus, action: Action, rest: seq<Action>, fuel: nat)
    ensures var o1 := Act(registry, keepHistory, s, action, fuel);
      Perform(registry, keepHistory, s, [action] + rest, fuel) ==
        if o1.how != Fine then o1 else Perform(registry, keepHistory, o1.bus, rest, fuel)
  {
    assert ([action] + rest)[1..] == rest;
  }

  /** A listener that does one thing. */
  lemma OneAction(registry: Registry, keepHistory: bool, s: Bus, action: Action, fuel: nat)
    ensures Perform(registry, keepHistory, s, [action], fuel) == Act(registry, keepHistory, s, action, fuel)
  {
    assert [action] == [action] + [];
    PerformNext(registry, keepHistory, s, action, [], fuel);
  }

  lemma Buffers(registry: Registry, keepHistory: bool, s: Bus, kind: string, payload: nat, rest: seq<Action>, fuel: nat)
    requires s.batchMode && fuel > 0
    ensures var e := Event(|s.emitted|, kind, payload);
      Perform(registry, keepHistory, s, [Emit(kind, payload)] + rest, fuel) ==
        Perform(registry, keepHistory, Emitted(s, keepHistory, e).(batched := s.batched + [e]), rest, fuel)
  {
    PerformNext(registry, keepHistory, s, Emit(kind, payload), rest, fuel);
  }

  lemma Starts(registry: Registry, keepHistory: bool, s: Bus, rest: seq<Action>, fuel: nat)
    ensures Perform(registry, keepHistory, s, [StartBatch] + rest, fuel) ==
      Perform(registry, keepHistory, Start(s), rest, fuel)
  {
    PerformNext(registry, keepHistory, s, StartBatch, rest, fuel);
  }

  /** A new emitter with two events in its batch. */
  function BatchedTwo(keepHistory: bool, a: Event, b: Event): Bus {
    Emitted(Emitted(Start(EMPTY), keepHistory, a), keepHistory, b).(batched := [a, b])
  }

  lemma BatchOfTwo(registry: Registry, keepHistory: bool, a: Event, b: Event, rest: seq<Action>, fuel: nat)
    requires fuel > 0 && a.id == 0 && b.id == 1
    ensures Perform(
      registry, keepHistory, EMPTY,
      [StartBatch] + ([Emit(a.kind, a.payload)] + ([Emit(b.kind, b.payload)] + rest)), fuel) ==
      Perform(registry, keepHistory, BatchedTwo(keepHistory, a, b), rest, fuel)
  {
    var s1 := Start(EMPTY);
    var s2 := Emitted(s1, keepHistory, a).(batched := [a]);
    assert a == Event(|s1.emitted|, a.kind, a.payload) && b == Event(|s2.emitted|, b.kind, b.payload);
    Starts(registry, keepHistory, EMPTY, [Emit(a.kind, a.payload)] + ([Emit(b.kind, b.payload)] + rest), fuel);
    Buffers(registry, keepHistory, s1, a.kind, a.payload, [Emit(b.kind, b.payload)] + rest, fuel);
    Buffers(registry, keepHistory, s2, b.kind, b.payload, rest, fuel);
    assert s1.batched + [a] == [a] && s2.batched + [b] == [a, b];
    assert BatchedTwo(keepHistory, a, b) == Emitted(s2, keepHistory, b).(batched := s2.batched + [b]);
  }

  /** A listener of "a" that leaves by an exception outside `Exception`. */
  const EXITS := Registry(map["a" := [e => [Exit]]], [], (pattern, kind) => false)

  lemma ListenersOfExits(e: Event)
    requires e.kind == "a"
    ensures Listeners(EXITS, e.kind) != [] && Listeners(EXITS, e.kind)[0](e) == [Exit]
  {
  }

  /** A flush left by such an exception: the second event of its batch is gone. */
  lemma FlushAbandoned(keepHistory: bool)
    ensures var run := [StartBatch] + ([Emit("a", 0)] + ([Emit("b", 1)] + [FlushBatch]));
      Perform(EXITS, keepHistory, EMPTY, run, 3).bus.abandoned == [Event(1, "b", 1)]
  {
    var e0, e1 := Event(0, "a", 0), Event(1, "b", 1);
    BatchOfTwo(EXITS, keepHistory, e0, e1, [FlushBatch], 3);
    ListenersOfExits(e0);
    FlushExits(EXITS, keepHistory, BatchedTwo(keepHistory, e0, e1), e0, e1, 3);
  }

  lemma FlushExits(registry: Registry, keepHistory: bool, s: Bus, e0: Event, e1: Event, fuel: nat)
    requires s.batchMode && s.batched == [e0, e1] && fuel > 0
    requires Listeners(registry, e0.kind) != [] && Listeners(registry, e0.kind)[0](e0) == [Exit]
    ensures Perform(registry, keepHistory, s, [FlushBatch], fuel).bus.abandoned == s.abandoned + [e1]
  {
    var b := BeginFlush(s);
    var sent := Sent(StillToGo(b, [e1]), e0);
    var called := Noted(sent, fuel - 1, Listeners(registry, e0.kind)[0], e0);
    OneAction(registry, keepHistory, s, FlushBatch, fuel);
    assert [e0, e1][1..] == [e1];
    OneAction(registry, keepHistory, called, Exit, fuel - 1);
    assert CallAll(registry, keepHistory, sent, e0, Listeners(registry, e0.kind), fuel - 1) == Outcome(called, Fatal);
    assert Rest(b) == [e0, e1] && Rest(called) == [e1];
    assert DispatchAll(registry, keepHistory, b, [e0, e1], fuel - 1) == Outcome(called, Fatal);
  }

  /** `part` occurs in `whole` in the same order. */
  predicate Subsequence(part: seq<Event>, whole: seq<Event>) {
    if part == [] then true
    else if whole == [] then false
    else if part[0] == whole[0] then Subsequence(part[1..], whole[1..])
    else Subsequence(part, whole[1..])
  }

  lemma {:induction false} SubsequenceLater(part: seq<Event>, skipped: seq<Event>, whole: seq<Event>)
    requires Subsequence(part, whole)
    ensures Subsequence(part, skipped + whole)
    decreases |skipped| + |whole|, 1
  {
    if skipped != [] {
      SubsequenceLater(part, skipped[1..], whole);
      var longer := skipped[1..] + whole;
      assert (skipped + whole)[1..] == longer;
      if part != [] && part[0] == skipped[0] {
        SubsequenceTail(part, longer);
      }
    } else {
      assert skipped + whole == whole;
    }
  }

  lemma {:induction false} SubsequenceTail(part: seq<Event>, whole: seq<Event>)
    requires part != [] && Subsequence(part, whole)
    ensures Subsequence(part[1..], whole)
    decreases |whole|
  {
    if part[0] == whole[0] {
      if part[1..] != [] {
        var rest := whole[1..];
        if part[1] == whole[0] {
          SubsequenceTail(part[1..], rest);
        }
      }
    } else {
      SubsequenceTail(part, whole[1..]);
      if part[1..] != [] && part[1] == whole[0] {
        SubsequenceTail(part[1..], whole[1..]);
      }
    }
  }

  /** The first of `part` right after `before`, the others after `mid`: all of it after `before`. */
  lemma SubsequenceGlue(part: seq<Event>, before: seq<Event>, mid: seq<Event>, whole: seq<Event>)
    requires part != [] && before + [part[0]] <= mid <= whole
    requires Subsequence(part[1..], whole[|mid|..])
    ensures Subsequence(part, whole[|before|..])
  {
    var nested, later := mid[|before| + 1..], whole[|mid|..];
    SubsequenceLater(part[1..], nested, later);
    assert whole[|before|..] == [part[0]] + (nested + later);
  }

  /**
   A flush dispatches its batch in emission order, whatever else its listeners cause: all of it,
   or up to where an exception outside `Exception` leaves it.
   */
  lemma {:induction false} FlushDispatchesInOrder(
    registry: Registry, keepHistory: bool, s: Bus, left: seq<Event>, fuel: nat)
    requires s.awaiting != [] && Rest(s) == left
    ensures var o := DispatchAll(registry, keepHistory, s, left, fuel);
      SentInOrder(left, s.dispatched, o.bus.dispatched, Rest(o.bus)) && (o.how != Fatal ==> Rest(o.bus) == [])
    decreases |left|
  {
    if left != [] {
      var e := left[0];
      var s1 := Sent(StillToGo(s, left[1..]), e);
      CallAllLeads(registry, keepHistory, s1, e, Listeners(registry, e.kind), fuel);
      var o1 := CallAll(registry, keepHistory, s1, e, Listeners(registry, e.kind), fuel);
      if o1.how == Fatal {
        FirstSent(left, s.dispatched, o1.bus.dispatched);
      } else {
        FlushDispatchesInOrder(registry, keepHistory, o1.bus, left[1..], fuel);
        var o := DispatchAll(registry, keepHistory, o1.bus, left[1..], fuel);
        NextSent(left, s.dispatched, o1.bus.dispatched, o.bus.dispatched, Rest(o.bus));
      }
    }
  }

  /** From `before` to `after`, all of `left` but its tail `rest` was dispatched, in order. */
  predicate SentInOrder(left: seq<Event>, before: seq<Event>, after: seq<Event>, rest: seq<Event>) {
    && before <= after && |rest| <= |left| && rest == left[|left| - |rest|..]
    && Subsequence(left[..|left| - |rest|], after[|before|..])
  }

  lemma FirstSent(left: seq<Event>, before: seq<Event>, after: seq<Event>)
    requires left != [] && before + [left[0]] <= after
    ensures SentInOrder(left, before, after, left[1..])
  {
    assert left[..1] == [left[0]];
    assert after[|before|] == (before + [left[0]])[|before|];
  }

  lemma NextSent(left: seq<Event>, before: seq<Event>, mid: seq<Event>, after: seq<Event>, rest: seq<Event>)
    requires left != [] && before + [left[0]] <= mid && SentInOrder(left[1..], mid, after, rest)
    ensures SentInOrder(left, before, after, rest)
  {
    var n := |left| - |rest|;
    assert left[..n][1..] == left[1..][..n - 1];
    SubsequenceGlue(left[..n], before, mid, after);
  }

  // ---------------------------------------------------------------- history

  /** Members of both, in the order of their numbers: the same sequence. */
  lemma SameWhenInOrder(s: Bus)
    requires Placed(s) && InOrder(s.dispatched) && multiset(s.dispatched) == multiset(s.emitted)
    ensures s.dispatched == s.emitted
  {
    var n := |s.dispatched|;
    assert |multiset(s.dispatched)| == n && |multiset(s.emitted)| == |s.emitted|;
    forall i | 0 <= i < n ensures s.dispatched[i].id < n && s.dispatched[i] == s.emitted[s.dispatched[i].id] {
      assert s.dispatched[i] in multiset(s.dispatched);
      assert s.dispatched[i] in s.emitted;
    }
    forall i | 0 <= i < n ensures s.dispatched[i].id == i {
      AtLeastIndex(s.dispatched, i);
      AtMostIndex(s.dispatched, i);
    }
  }

  lemma {:induction false} AtLeastIndex(batch: seq<Event>, i: nat)
    requires InOrder(batch) && i < |batch|
    ensures batch[i].id >= i
  {
    if i > 0 {
      AtLeastIndex(batch, i - 1);
    }
  }

  lemma {:induction false} AtMostIndex(batch: seq<Event>, i: nat)
    requires InOrder(batch) && i < |batch|
    requires forall j :: 0 <= j < |batch| ==> batch[j].id < |batch|
    ensures batch[i].id <= i
    decreases |batch| - i
  {
    if i + 1 < |batch| {
      AtMostIndex(batch, i + 1);
    }
  }

  lemma {:induction false} FlatEmpty(batches: seq<seq<Event>>, x: Event)
    ensures x in Flat(batches) <==> exists b :: b in batches && x in b
  {
    if batches != [] {
      var front, last := batches[..|batches| - 1], batches[|batches| - 1];
      FlatEmpty(front, x);
      assert batches == front + [last];
    }
  }

  /** Nothing waits, was given back or was dropped. */
  predicate AllDispatched(s: Bus) {
    Flat(s.awaiting) == [] && s.batched == [] && Flat(s.returned) == [] && s.lost == [] && s.abandoned == []
  }

  lemma OthersEmpty(s: Bus)
    requires Placed(s)
    ensures multiset(s.dispatched) == multiset(s.emitted) <==> AllDispatched(s)
  {
    if multiset(s.dispatched) == multiset(s.emitted) {
      forall x ensures x !in Flat(s.awaiting) && x !in s.batched && x !in Flat(s.returned)
                   && x !in s.lost && x !in s.abandoned {
        assert Copies(s, x) == multiset(s.emitted)[x];
      }
      HasMember(Flat(s.awaiting));
      HasMember(s.batched);
      HasMember(Flat(s.returned));
      HasMember(s.lost);
      HasMember(s.abandoned);
    }
    if AllDispatched(s) {
      forall x ensures multiset(s.dispatched)[x] == multiset(s.emitted)[x] {
        assert Copies(s, x) == multiset(s.emitted)[x];
      }
    }
  }

  lemma HasMember(batch: seq<Event>)
    ensures batch != [] ==> exists x :: x in batch
  {
    if batch != [] {
      assert batch[0] in batch;
    }
  }

  /**
   The history is documented to be in dispatch order. It is the order of emission, and the two
   agree exactly when every event was dispatched and none was sent while an older one waited.
   */
  lemma HistoryIsDispatchOrder(s: Bus)
    requires Valid(s) && s.history == s.emitted
    ensures s.history == s.dispatched <==> AllDispatched(s) && s.overtakes == 0
  {
    OthersEmpty(s);
    if s.dispatched == s.emitted && s.overtakes > 0 {
      var i: nat, a :| Overtook(s, i, a);
      NotOvertaken(s, i, a);
    }
    if AllDispatched(s) && s.overtakes == 0 {
      assert s.dispatched + Queue(s) == s.dispatched;
      SameWhenInOrder(s);
    }
  }

  lemma NotOvertaken(s: Bus, i: nat, a: Event)
    requires Placed(s) && s.dispatched == s.emitted
    ensures !Overtook(s, i, a)
  {
    if i < |s.emitted| && a in s.emitted && a.id < s.emitted[i].id {
      var k :| 0 <= k < |s.emitted| && s.emitted[k] == a;
      assert s.dispatched[..i][k] == a;
    }
  }

  /** While events are buffered the history is ahead of what was dispatched. */
  lemma HistoryWhileBuffering(registry: Registry, fuel: nat)
    requires fuel > 0
    ensures var r := Perform(registry, true, EMPTY, [StartBatch] + ([Emit("a", 0)] + []), fuel).bus;
      r.history == [Event(0, "a", 0)] && r.dispatched == []
  {
    Starts(registry, true, EMPTY, [Emit("a", 0)] + [], fuel);
    Buffers(registry, true, Start(EMPTY), "a", 0, [], fuel);
  }

  /** A listener of "a" that emits a "b". */
  const EMITS_B := Registry(map["a" := [e => [Emit("b", 0)]]], [], (pattern, kind) => false)

  lemma ListenersOfEmitsB()
    ensures |Listeners(EMITS_B, "a")| == 1 && forall e :: Listeners(EMITS_B, "a")[0](e) == [Emit("b", 0)]
    ensures Listeners(EMITS_B, "b") == [] && Listeners(EMITS_B, "c") == []
  {
  }

  /** An event emitted from inside a flush overtakes the rest of it: all are dispatched, in another order. */
  lemma HistoryOvertaken()
    ensures var a, b, c := Event(0, "a", 0), Event(2, "b", 0), Event(1, "c", 0);
      var run := [StartBatch] + ([Emit("a", 0)] + ([Emit("c", 0)] + [FlushBatch]));
      var r := Perform(EMITS_B, true, EMPTY, run, 3).bus;
      AllDispatched(r) && r.history == [a, c, b] && r.dispatched == [a, b, c]
  {
    var a, b, c := Event(0, "a", 0), Event(2, "b", 0), Event(1, "c", 0);
    var s3 := BatchedTwo(true, a, c);
    BatchOfTwo(EMITS_B, true, a, c, [FlushBatch], 3);
    ListenersOfEmitsB();
    FlushOvertaken(EMITS_B, s3, a, c, b);
    OvertakenFields(s3, a, c, b, Listeners(EMITS_B, "a")[0]);
  }

  lemma FlushOvertaken(registry: Registry, s: Bus, a: Event, c: Event, b: Event)
    requires s.batchMode && s.batched == [a, c] && b.id == |s.emitted|
    requires Listeners(registry, b.kind) == [] && Listeners(registry, c.kind) == []
    requires |Listeners(registry, a.kind)| == 1 && Listeners(registry, a.kind)[0](a) == [Emit(b.kind, b.payload)]
    ensures Perform(registry, true, s, [FlushBatch], 3) ==
      Outcome(Overtaken(s, a, c, b, Listeners(registry, a.kind)[0]), Fine)
  {
    OneAction(registry, true, s, FlushBatch, 3);
    FlushIsLoop(registry, true, s, 3);
    FirstOfFlush(registry, BeginFlush(s), a, c, b);
    LastOfFlush(registry, true, Overtaking(BeginFlush(s), a, c, b, Listeners(registry, a.kind)[0]), c, 2);
  }

  /** The flush over. */
  function Overtaken(s: Bus, a: Event, c: Event, b: Event, emitter: Listener): Bus {
    EndFlush(Sent(StillToGo(Overtaking(BeginFlush(s), a, c, b, emitter), []), c))
  }

  lemma OvertakenFields(s: Bus, a: Event, c: Event, b: Event, emitter: Listener)
    ensures var r := Overtaken(s, a, c, b, emitter);
      && r.history == s.history + [b] && r.dispatched == s.dispatched + [a, b, c]
      && r.batched == [] && r.awaiting == s.awaiting && r.returned == s.returned
      && r.lost == s.lost && r.abandoned == s.abandoned
  {
    assert s.dispatched + [a] + [b] + [c] == s.dispatched + [a, b, c];
    assert s.abandoned + [] == s.abandoned;
  }

  /** In a flush of `a` and `c`, once `a` is sent and its listener has emitted `b`. */
  function Overtaking(s: Bus, a: Event, c: Event, b: Event, emitter: Listener): Bus
    requires s.awaiting != []
  {
    Sent(Emitted(Noted(Sent(StillToGo(s, [c]), a), 2, emitter, a), true, b), b)
  }

  lemma FirstOfFlush(registry: Registry, s: Bus, a: Event, c: Event, b: Event)
    requires s.awaiting != [] && Rest(s) == [a, c] && !s.batchMode && b.id == |s.emitted|
    requires Listeners(registry, b.kind) == [] && |Listeners(registry, a.kind)| == 1
    requires Listeners(registry, a.kind)[0](a) == [Emit(b.kind, b.payload)]
    ensures DispatchAll(registry, true, s, [a, c], 2) ==
      DispatchAll(registry, true, Overtaking(s, a, c, b, Listeners(registry, a.kind)[0]), [c], 2)
  {
    var s2 := Sent(StillToGo(s, [c]), a);
    var s3 := Noted(s2, 2, Listeners(registry, a.kind)[0], a);
    assert [a, c][1..] == [c];
    OneAction(registry, true, s3, Emit(b.kind, b.payload), 2);
    EmitDispatches(registry, true, s3, b, 2);
    OneListener(registry, true, s2, a, 2);
  }

  lemma OneListener(registry: Registry, keepHistory: bool, s: Bus, e: Event, fuel: nat)
    requires |Listeners(registry, e.kind)| == 1
    ensures var listener := Listeners(registry, e.kind)[0];
      var o1 := Perform(registry, keepHistory, Noted(s, fuel, listener, e), listener(e), fuel);
      CallAll(registry, keepHistory, s, e, Listeners(registry, e.kind), fuel) ==
        if o1.how == Fatal then o1 else Outcome(o1.bus, Fine)
  {
    var all := Listeners(registry, e.kind);
    assert all[1..] == [];
  }

  lemma LastOfFlush(registry: Registry, keepHistory: bool, s: Bus, e: Event, fuel: nat)
    requires s.awaiting != [] && Rest(s) == [e] && Listeners(registry, e.kind) == []
    ensures DispatchAll(registry, keepHistory, s, [e], fuel) == Outcome(Sent(StillToGo(s, []), e), Fine)
  {
    var sent := Sent(StillToGo(s, []), e);
    assert [e][1..] == [] && Rest(sent) == [];
    assert CallAll(registry, keepHistory, sent, e, [], fuel) == Outcome(sent, Fine);
    assert DispatchAll(registry, keepHistory, sent, [], fuel) == Outcome(sent, Fine);
  }

  // ---------------------------------------------------------------- the emitter

  class EventEmitter {
    const registry: Registry
    const keepHistory: bool
    var history: seq<Event>
    var batchMode: bool
    var batchedEvents: seq<Event>
    var batchStoppedDuringFlush: bool
    /** Source of event identities. */
    var emittedCount: nat

    ghost var emitted: seq<Event>
    ghost var dispatched: seq<Event>
    ghost var awaiting: seq<seq<Event>>
    ghost var returned: seq<seq<Event>>
    ghost var lost: seq<Event>
    ghost var abandoned: seq<Event>
    ghost var marks: seq<Mark>
    ghost var restarts: nat
    ghost var aborts: nat
    ghost var overtakes: nat
    ghost var calls: seq<ListenerCall>

    ghost function View(): Bus
      reads this
    {
      Bus(batchMode, batchedEvents, batchStoppedDuringFlush, history,
          emitted, dispatched, awaiting, returned, lost, abandoned, marks, restarts, aborts, overtakes, calls)
    }

    /** Identities are handed out in emission order. */
    ghost predicate Numbered()
      reads this
    {
      emittedCount == |emitted|
    }

    /** What every run keeps. */
    ghost predicate Consistent()
      reads this
    {
      Numbered() && Valid(View()) && (keepHistory ==> history == emitted)
    }

    constructor (registry: Registry, keepHistory: bool)
      ensures Consistent() && this.registry == registry && this.keepHistory == keepHistory
      ensures View() == EMPTY
    {
      this.registry, this.keepHistory := registry, keepHistory;
      history, batchMode, batchedEvents, batchStoppedDuringFlush, emittedCount := [], false, [], false, 0;
      emitted, dispatched, awaiting, returned, lost, abandoned := [], [], [], [], [], [];
      marks, restarts, aborts, overtakes, calls := [], 0, 0, 0, [];
    }

    method Emit(kind: string, payload: nat, fuel: nat) returns (how: How)
      requires Numbered()
      modifies this
      ensures Numbered()
      ensures Outcome(View(), how) == DoEmit(registry, keepHistory, old(View()), kind, payload, fuel)
      decreases fuel, 2, 0
    {
      if fuel == 0 {
        return Raised;
      }
      var event := Event(emittedCount, kind, payload);
      emittedCount := emittedCount + 1;
      emitted := emitted + [event];
      if keepHistory {
        history := history + [event];
      }
      if batchMode {
        batchedEvents := batchedEvents + [event];
        return Fine;
      }
      assert View() == Emitted(old(View()), keepHistory, event);
      how := SendOut(event, fuel - 1);
    }

    method StartBatching()
      modifies this`batchMode, this`batchedEvents, this`batchStoppedDuringFlush
      modifies this`lost, this`marks, this`restarts
      ensures View() == Start(old(View()))
    {
      restarts := restarts + if batchedEvents != [] then 1 else 0;
      lost := lost + batchedEvents;
      marks := marks + [Started];
      batchMode := true;
      batchedEvents := [];
      batchStoppedDuringFlush := false;
    }

    method StopBatching() returns (batched: seq<Event>)
      modifies this`batchMode, this`batchedEvents, this`batchStoppedDuringFlush
      modifies this`returned, this`marks
      ensures View() == Stop(old(View())) && batched == old(batchedEvents)
    {
      batchMode := false;
      batchStoppedDuringFlush := true;
      batched := batchedEvents;
      batchedEvents := [];
      returned := returned + [batched];
      marks := marks + [Stopped];
    }

    method FlushBatches(fuel: nat) returns (how: How)
      requires Numbered()
      modifies this
      ensures Numbered()
      ensures Outcome(View(), how) == Flush(registry, keepHistory, old(View()), fuel)
      decreases fuel, 2, 0
    {
      if fuel == 0 {
        return Raised;
      }
      if !batchMode {
        return Fine;
      }
      var batched := OpenFlush();
      how := SendAll(batched, fuel - 1);
      CloseFlush();
    }

    /** `flush_batch` up to its loop: the batch is taken and batching is off meanwhile. */
    method OpenFlush() returns (batched: seq<Event>)
      modifies this`batchMode, this`batchedEvents, this`batchStoppedDuringFlush, this`awaiting
      ensures batched == old(batchedEvents) && View() == BeginFlush(old(View()))
    {
      batched := batchedEvents;
      batchedEvents := [];
      batchMode := false;
      batchStoppedDuringFlush := false;
      awaiting := awaiting + [batched];
    }

    /** The `finally` of `flush_batch`; what the loop has left is gone. */
    method CloseFlush()
      requires awaiting != []
      modifies this`batchMode, this`awaiting, this`abandoned, this`aborts
      ensures View() == EndFlush(old(View()))
    {
      if !batchStoppedDuringFlush {
        batchMode := true;
      }
      abandoned := abandoned + awaiting[|awaiting| - 1];
      aborts := aborts + if awaiting[|awaiting| - 1] != [] then 1 else 0;
      awaiting := awaiting[..|awaiting| - 1];
    }

    /** The loop of `flush_batch`. */
    method SendAll(batched: seq<Event>, fuel: nat) returns (how: How)
      requires Numbered() && awaiting != [] && Rest(View()) == batched
      modifies this
      ensures Numbered()
      ensures Outcome(View(), how) == DispatchAll(registry, keepHistory, old(View()), batched, fuel)
      decreases fuel, 7
    {
      ghost var result := DispatchAll(registry, keepHistory, View(), batched, fuel);
      for i := 0 to |batched|
        invariant Numbered()
        invariant awaiting != [] && Rest(View()) == batched[i..]
        invariant DispatchAll(registry, keepHistory, View(), batched[i..], fuel) == result
      {
        how := SendNext(batched, i, fuel);
        if how == Fatal {
          return;
        }
      }
      how := Fine;
    }

    /** One turn of that loop: the event leaves the rest of the flush and is dispatched. */
    method SendNext(batched: seq<Event>, i: nat, fuel: nat) returns (how: How)
      requires Numbered() && i < |batched|
      requires awaiting != [] && Rest(View()) == batched[i..]
      modifies this
      ensures Numbered()
      ensures awaiting != [] && Rest(View()) == batched[i + 1..]
      ensures DispatchAll(registry, keepHistory, old(View()), batched[i..], fuel) ==
        if how == Fatal then Outcome(View(), Fatal)
        else DispatchAll(registry, keepHistory, View(), batched[i + 1..], fuel)
      decreases fuel, 6
    {
      assert batched[i..][1..] == batched[i + 1..] && batched[i..][0] == batched[i];
      awaiting := awaiting[..|awaiting| - 1] + [batched[i + 1..]];
      assert View() == StillToGo(old(View()), batched[i + 1..]);
      how := SendOut(batched[i], fuel);
    }

    ghost method NoteSent(payload: Event)
      modifies this`dispatched, this`overtakes
      ensures View() == Sent(old(View()), payload)
    {
      overtakes := overtakes + if OlderWaits(View(), payload) then 1 else 0;
      dispatched := dispatched + [payload];
    }

    /** `_dispatch`: every listener in turn; what a listener raises stops that listener only. */
    method SendOut(payload: Event, fuel: nat) returns (how: How)
      requires Numbered()
      modifies this
      ensures Numbered()
      ensures Outcome(View(), how) == Dispatch(registry, keepHistory, old(View()), payload, fuel)
      decreases fuel, 5, 0
    {
      NoteSent(payload);
      var listeners := Listeners(registry, payload.kind);
      ghost var result := CallAll(registry, keepHistory, View(), payload, listeners, fuel);
      for i := 0 to |listeners|
        invariant Numbered()
        invariant CallAll(registry, keepHistory, View(), payload, listeners[i..], fuel) == result
      {
        assert listeners[i..][1..] == listeners[i + 1..];
        calls := calls + [ListenerCall(fuel, listeners[i], payload)];
        how := RunListener(listeners[i](payload), fuel);
        if how == Fatal {
          return;
        }
      }
      how := Fine;
    }

    /** One call of a listener: its actions up to the end or to the first that raises. */
    method RunListener(actions: seq<Action>, fuel: nat) returns (how: How)
      requires Numbered()
      modifies this
      ensures Numbered()
      ensures Outcome(View(), how) == Perform(registry, keepHistory, old(View()), actions, fuel)
      decreases fuel, 3, 0
    {
      ghost var result := Perform(registry, keepHistory, View(), actions, fuel);
      for i := 0 to |actions|
        invariant Numbered()
        invariant Perform(registry, keepHistory, View(), actions[i..], fuel) == result
      {
        assert actions[i..][1..] == actions[i + 1..];
        how := Fine;
        match actions[i] {
          case Emit(kind, payload) => how := Emit(kind, payload, fuel);
          case StartBatch => StartBatching();
          case StopBatch => var _ := StopBatching();
          case FlushBatch => how := FlushBatches(fuel);
          case Raise => how := Raised;
          case Exit => how := Fatal;
        }
        if how != Fine {
          return;
        }
      }
      how := Fine;
    }
  }

  /** Whatever program drives the emitter, its state stays consistent and is the one specified. */
  method Drive(emitter: EventEmitter, actions: seq<Action>, fuel: nat) returns (how: How)
    requires emitter.Consistent()
    modifies emitter
    ensures emitter.Consistent()
    ensures Outcome(emitter.View(), how) ==
      Perform(emitter.registry, emitter.keepHistory, old(emitter.View()), actions, fuel)
  {
    PerformLeads(emitter.registry, emitter.keepHistory, emitter.View(), actions, fuel);
    how := emitter.RunListener(actions, fuel);
  }
}
