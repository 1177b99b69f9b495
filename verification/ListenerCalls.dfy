/**
 Which listeners the emitter of dblift/api/events.py calls: for every dispatch, flush and listener
 program, however deeply they nest, over the trace of listener calls.
 */
module ListenerCalls {
  import opened EventEmitter

  // ---------------------------------------------------------------- who is called

  predicate Increases(places: seq<nat>) {
    forall i, j :: 0 <= i < j < |places| ==> places[i] < places[j]
  }

  /** The places of the wildcard listeners whose pattern matches, in order and none left out. */
  ghost predicate MatchingPlaces(
    wildcard: seq<(string, Listener)>, matches: (string, string) -> bool, kind: string, places: seq<nat>)
  {
    && Increases(places)
    && (forall n :: n in places <==> 0 <= n < |wildcard| && matches(wildcard[n].0, kind))
  }

  ghost predicate AreAt(wildcard: seq<(string, Listener)>, places: seq<nat>, found: seq<Listener>) {
    |found| == |places| && forall i :: 0 <= i < |places| ==> places[i] < |wildcard| && found[i] == wildcard[places[i]].1
  }

  /** Whom an event of that type is for: each exact listener, then each wildcard one that matches. */
  ghost predicate IsAudience(registry: Registry, kind: string, audience: seq<Listener>) {
    var exact := if kind in registry.exact then registry.exact[kind] else [];
    exists places: seq<nat> ::
      && MatchingPlaces(registry.wildcard, registry.matches, kind, places)
      && |audience| == |exact| + |places| && audience[..|exact|] == exact
      && AreAt(registry.wildcard, places, audience[|exact|..])
  }

  lemma {:induction false} MatchingBack(
    wildcard: seq<(string, Listener)>, matches: (string, string) -> bool, kind: string)
    requires wildcard != []
    ensures var last := wildcard[|wildcard| - 1];
      MatchingWildcards(wildcard, matches, kind) ==
        MatchingWildcards(wildcard[..|wildcard| - 1], matches, kind) +
        if matches(last.0, kind) then [last.1] else []
  {
    if |wildcard| > 1 {
      MatchingBack(wildcard[1..], matches, kind);
      assert wildcard[1..][..|wildcard| - 2] == wildcard[..|wildcard| - 1][1..];
    }
  }

  lemma {:induction false} PlacesExist(
    wildcard: seq<(string, Listener)>, matches: (string, string) -> bool, kind: string) returns (places: seq<nat>)
    ensures MatchingPlaces(wildcard, matches, kind, places)
    ensures AreAt(wildcard, places, MatchingWildcards(wildcard, matches, kind))
  {
    places := [];
    if wildcard != [] {
      var last := |wildcard| - 1;
      MatchingBack(wildcard, matches, kind);
      places := PlacesExist(wildcard[..last], matches, kind);
      if matches(wildcard[last].0, kind) {
        places := places + [last];
      }
    }
  }

  /** The last of increasing places is the largest. */
  lemma FrontHolds(places: seq<nat>, n: nat)
    requires Increases(places) && places != []
    ensures n in places[..|places| - 1] <==> n in places && n != places[|places| - 1]
    ensures n in places ==> n <= places[|places| - 1]
  {
  }

  predicate Within(a: seq<nat>, b: seq<nat>) {
    forall n :: n in a ==> n in b
  }

  lemma FrontWithin(a: seq<nat>, b: seq<nat>)
    requires Increases(a) && Increases(b) && Within(a, b) && a != [] && b != []
    requires a[|a| - 1] == b[|b| - 1]
    ensures Within(a[..|a| - 1], b[..|b| - 1])
  {
    var front, other := a[..|a| - 1], b[..|b| - 1];
    forall n | n in front ensures n in other {
      FrontHolds(a, n);
      FrontHolds(b, n);
    }
  }

  lemma SameLast(a: seq<nat>, b: seq<nat>)
    requires Increases(a) && Increases(b) && Within(a, b) && Within(b, a) && a != []
    ensures b != [] && a[|a| - 1] == b[|b| - 1]
  {
    var last := a[|a| - 1];
    assert last in a;
    FrontHolds(b, last);
    assert b[|b| - 1] in b;
    FrontHolds(a, b[|b| - 1]);
  }

  /** Two increasing lists of the same places are the same list. */
  lemma {:induction false} PlacesUnique(a: seq<nat>, b: seq<nat>)
    requires Increases(a) && Increases(b) && Within(a, b) && Within(b, a)
    ensures a == b
  {
    if a != [] {
      SameLast(a, b);
      FrontWithin(a, b);
      FrontWithin(b, a);
      PlacesUnique(a[..|a| - 1], b[..|b| - 1]);
      assert a == a[..|a| - 1] + [a[|a| - 1]] && b == b[..|b| - 1] + [b[|b| - 1]];
    } else if b != [] {
      SameLast(b, a);
    }
  }

  lemma ListenersAreAudience(registry: Registry, kind: string, audience: seq<Listener>)
    ensures IsAudience(registry, kind, audience) <==> audience == Listeners(registry, kind)
  {
    var exact := if kind in registry.exact then registry.exact[kind] else [];
    var rest := MatchingWildcards(registry.wildcard, registry.matches, kind);
    var places := PlacesExist(registry.wildcard, registry.matches, kind);
    assert Listeners(registry, kind)[|exact|..] == rest;
    if IsAudience(registry, kind, audience) {
      var other: seq<nat> :|
        && MatchingPlaces(registry.wildcard, registry.matches, kind, other)
        && |audience| == |exact| + |other| && audience[..|exact|] == exact
        && AreAt(registry.wildcard, other, audience[|exact|..]);
      PlacesUnique(places, other);
      assert audience[|exact|..] == rest;
      assert audience == exact + rest;
    }
  }

  /** The calls made at one recursion depth. */
  function CallsAt(calls: seq<ListenerCall>, depth: nat): seq<ListenerCall> {
    if calls == [] then []
    else (if calls[0].depth == depth then [calls[0]] else []) + CallsAt(calls[1..], depth)
  }

  lemma CallsAtFirst(call: ListenerCall, rest: seq<ListenerCall>, depth: nat)
    ensures CallsAt([call] + rest, depth) == (if call.depth == depth then [call] else []) + CallsAt(rest, depth)
  {
    assert ([call] + rest)[1..] == rest;
  }

  lemma {:induction false} CallsAtAppend(a: seq<ListenerCall>, b: seq<ListenerCall>, depth: nat)
    ensures CallsAt(a + b, depth) == CallsAt(a, depth) + CallsAt(b, depth)
  {
    if a == [] {
      assert a + b == b;
    } else {
      CallsAtAppend(a[1..], b, depth);
      CallsAtFirst(a[0], a[1..] + b, depth);
      CallsAtFirst(a[0], a[1..], depth);
      assert a + b == [a[0]] + (a[1..] + b) && a == [a[0]] + a[1..];
    }
  }

  lemma {:induction false} NoCallsAt(calls: seq<ListenerCall>, depth: nat)
    requires forall call :: call in calls ==> call.depth < depth
    ensures CallsAt(calls, depth) == []
  {
    if calls != [] {
      assert calls[0] in calls && forall call :: call in calls[1..] ==> call in calls;
      NoCallsAt(calls[1..], depth);
    }
  }

  /** From `s` to `r` listeners were called only at depths below the bound. */
  ghost predicate CallsBelow(s: Bus, r: Bus, bound: nat) {
    s.calls <= r.calls && forall call :: call in r.calls[|s.calls|..] ==> call.depth < bound
  }

  lemma CallsBelowOn(s: Bus, m: Bus, r: Bus, bound: nat)
    requires CallsBelow(s, m, bound) && CallsBelow(m, r, bound)
    ensures CallsBelow(s, r, bound)
  {
    assert r.calls[|s.calls|..] == m.calls[|s.calls|..] + r.calls[|m.calls|..];
  }

  lemma CallsBelowMore(s: Bus, r: Bus, bound: nat, more: nat)
    requires CallsBelow(s, r, bound) && bound <= more
    ensures CallsBelow(s, r, more)
  {
  }

  /** A listener's program and all it causes runs at lower depths than the listener. */
  lemma {:induction false} PerformBelow(registry: Registry, keepHistory: bool, s: Bus, actions: seq<Action>, fuel: nat)
    ensures CallsBelow(s, Perform(registry, keepHistory, s, actions, fuel).bus, fuel)
    decreases fuel, 3, |actions|
  {
    if actions != [] {
      var o1 := Act(registry, keepHistory, s, actions[0], fuel);
      ActBelow(registry, keepHistory, s, actions[0], fuel);
      if o1.how == Fine {
        PerformBelow(registry, keepHistory, o1.bus, actions[1..], fuel);
        CallsBelowOn(s, o1.bus, Perform(registry, keepHistory, o1.bus, actions[1..], fuel).bus, fuel);
      }
    }
  }

  lemma {:induction false} ActBelow(registry: Registry, keepHistory: bool, s: Bus, action: Action, fuel: nat)
    ensures CallsBelow(s, Act(registry, keepHistory, s, action, fuel).bus, fuel)
    decreases fuel, 2, 1
  {
    match action {
      case Emit(kind, payload) => EmitBelow(registry, keepHistory, s, kind, payload, fuel);
      case StartBatch =>
      case StopBatch =>
      case FlushBatch => FlushBelow(registry, keepHistory, s, fuel);
      case Raise =>
      case Exit =>
    }
  }

  lemma {:induction false} EmitBelow(
    registry: Registry, keepHistory: bool, s: Bus, kind: string, payload: nat, fuel: nat)
    ensures CallsBelow(s, DoEmit(registry, keepHistory, s, kind, payload, fuel).bus, fuel)
    decreases fuel, 2, 0
  {
    if fuel > 0 && !s.batchMode {
      var e := Event(|s.emitted|, kind, payload);
      var s1 := Sent(Emitted(s, keepHistory, e), e);
      EmitDispatches(registry, keepHistory, s, e, fuel);
      CallAllBelow(registry, keepHistory, s1, e, Listeners(registry, kind), fuel - 1);
    }
  }

  lemma {:induction false} FlushBelow(registry: Registry, keepHistory: bool, s: Bus, fuel: nat)
    ensures CallsBelow(s, Flush(registry, keepHistory, s, fuel).bus, fuel)
    decreases fuel, 2, 0
  {
    if fuel > 0 && s.batchMode {
      FlushIsLoop(registry, keepHistory, s, fuel);
      DispatchAllBelow(registry, keepHistory, BeginFlush(s), s.batched, fuel - 1);
    }
  }

  lemma {:induction false} CallAllBelow(
    registry: Registry, keepHistory: bool, s: Bus, e: Event, listeners: seq<Listener>, fuel: nat)
    ensures CallsBelow(s, CallAll(registry, keepHistory, s, e, listeners, fuel).bus, fuel + 1)
    decreases fuel, 4, |listeners|
  {
    if listeners != [] {
      var s1 := Noted(s, fuel, listeners[0], e);
      var o1 := Perform(registry, keepHistory, s1, listeners[0](e), fuel);
      PerformBelow(registry, keepHistory, s1, listeners[0](e), fuel);
      CallsBelowMore(s1, o1.bus, fuel, fuel + 1);
      CallsBelowOn(s, s1, o1.bus, fuel + 1);
      if o1.how != Fatal {
        CallAllBelow(registry, keepHistory, o1.bus, e, listeners[1..], fuel);
        CallsBelowOn(s, o1.bus, CallAll(registry, keepHistory, o1.bus, e, listeners[1..], fuel).bus, fuel + 1);
      }
    }
  }

  lemma {:induction false} DispatchAllBelow(
    registry: Registry, keepHistory: bool, s: Bus, left: seq<Event>, fuel: nat)
    requires s.awaiting != [] && Rest(s) == left
    ensures CallsBelow(s, DispatchAll(registry, keepHistory, s, left, fuel).bus, fuel + 1)
    decreases fuel, 6, |left|
  {
    if left != [] {
      var s1 := Sent(StillToGo(s, left[1..]), left[0]);
      CallAllBelow(registry, keepHistory, s1, left[0], Listeners(registry, left[0].kind), fuel);
      var o1 := CallAll(registry, keepHistory, s1, left[0], Listeners(registry, left[0].kind), fuel);
      if o1.how != Fatal {
        DispatchAllBelow(registry, keepHistory, o1.bus, left[1..], fuel);
        CallsBelowOn(s, o1.bus, DispatchAll(registry, keepHistory, o1.bus, left[1..], fuel).bus, fuel + 1);
      }
    }
  }

  /** The emitter once the first `n` listeners of a dispatch are through, whatever they raised. */
  function AfterCalling(
    registry: Registry, keepHistory: bool, s: Bus, e: Event, listeners: seq<Listener>, n: nat, fuel: nat): Bus
    requires n <= |listeners|
    decreases n
  {
    if n == 0 then s
    else
      var s1 := Noted(s, fuel, listeners[0], e);
      AfterCalling(
        registry, keepHistory, Perform(registry, keepHistory, s1, listeners[0](e), fuel).bus, e,
        listeners[1..], n - 1, fuel)
  }

  /** Listener number `n` raises outside `Exception`. */
  predicate LeavesFrom(
    registry: Registry, keepHistory: bool, s: Bus, e: Event, listeners: seq<Listener>, n: nat, fuel: nat)
    requires n < |listeners|
  {
    var before := AfterCalling(registry, keepHistory, s, e, listeners, n, fuel);
    Perform(registry, keepHistory, Noted(before, fuel, listeners[n], e), listeners[n](e), fuel).how == Fatal
  }

  /** Listener number `i` is the first that does, or none does and `i` is their number. */
  ghost predicate FirstToLeave(
    registry: Registry, keepHistory: bool, s: Bus, e: Event, listeners: seq<Listener>, i: nat, fuel: nat)
  {
    && i <= |listeners|
    && (forall n: nat :: n < i ==> !LeavesFrom(registry, keepHistory, s, e, listeners, n, fuel))
    && (i < |listeners| ==> LeavesFrom(registry, keepHistory, s, e, listeners, i, fuel))
  }

  lemma LeavesFromLater(
    registry: Registry, keepHistory: bool, s: Bus, e: Event, listeners: seq<Listener>, n: nat, fuel: nat)
    requires 0 < n < |listeners|
    ensures var o1 := Perform(registry, keepHistory, Noted(s, fuel, listeners[0], e), listeners[0](e), fuel);
      LeavesFrom(registry, keepHistory, s, e, listeners, n, fuel) ==
        LeavesFrom(registry, keepHistory, o1.bus, e, listeners[1..], n - 1, fuel)
  {
    assert listeners[1..][n - 1] == listeners[n];
  }

  lemma FirstToLeaveLater(
    registry: Registry, keepHistory: bool, s: Bus, e: Event, listeners: seq<Listener>, i: nat, fuel: nat)
    requires i > 0 && FirstToLeave(registry, keepHistory, s, e, listeners, i, fuel)
    ensures var o1 := Perform(registry, keepHistory, Noted(s, fuel, listeners[0], e), listeners[0](e), fuel);
      o1.how != Fatal && FirstToLeave(registry, keepHistory, o1.bus, e, listeners[1..], i - 1, fuel)
  {
    var o1 := Perform(registry, keepHistory, Noted(s, fuel, listeners[0], e), listeners[0](e), fuel);
    assert !LeavesFrom(registry, keepHistory, s, e, listeners, 0, fuel);
    forall n: nat | n < i - 1 ensures !LeavesFrom(registry, keepHistory, o1.bus, e, listeners[1..], n, fuel) {
      LeavesFromLater(registry, keepHistory, s, e, listeners, n + 1, fuel);
    }
    if i < |listeners| {
      LeavesFromLater(registry, keepHistory, s, e, listeners, i, fuel);
    }
  }

  /** The first `n` listeners called with the event, each once and in order. */
  function CallsTo(listeners: seq<Listener>, n: nat, e: Event, depth: nat): seq<ListenerCall>
    requires n <= |listeners|
  {
    seq(n, i requires 0 <= i < n => ListenerCall(depth, listeners[i], e))
  }

  /** What one listener adds at the depth of its dispatch: the call of itself. */
  lemma OneCallAt(registry: Registry, keepHistory: bool, s: Bus, e: Event, listener: Listener, fuel: nat)
    ensures var r := Perform(registry, keepHistory, Noted(s, fuel, listener, e), listener(e), fuel).bus;
      s.calls <= r.calls && CallsAt(r.calls[|s.calls|..], fuel) == [ListenerCall(fuel, listener, e)]
  {
    var s1 := Noted(s, fuel, listener, e);
    var r := Perform(registry, keepHistory, s1, listener(e), fuel).bus;
    PerformBelow(registry, keepHistory, s1, listener(e), fuel);
    var own := [ListenerCall(fuel, listener, e)];
    assert r.calls[|s.calls|..] == own + r.calls[|s1.calls|..];
    CallsAtAppend(own, r.calls[|s1.calls|..], fuel);
    NoCallsAt(r.calls[|s1.calls|..], fuel);
    assert own[1..] == [];
  }

  lemma CallsJoin(s: Bus, m: Bus, r: Bus, depth: nat)
    requires s.calls <= m.calls <= r.calls
    ensures CallsAt(r.calls[|s.calls|..], depth) ==
      CallsAt(m.calls[|s.calls|..], depth) + CallsAt(r.calls[|m.calls|..], depth)
  {
    assert r.calls[|s.calls|..] == m.calls[|s.calls|..] + r.calls[|m.calls|..];
    CallsAtAppend(m.calls[|s.calls|..], r.calls[|m.calls|..], depth);
  }

  /** The outcome is that of the first `n` listeners, each called once and in order. */
  ghost predicate CallsUpTo(
    registry: Registry, keepHistory: bool, s: Bus, e: Event, listeners: seq<Listener>, n: nat, fuel: nat, o: Outcome)
  {
    && n <= |listeners| && o.bus == AfterCalling(registry, keepHistory, s, e, listeners, n, fuel)
    && s.calls <= o.bus.calls && CallsAt(o.bus.calls[|s.calls|..], fuel) == CallsTo(listeners, n, e, fuel)
  }

  lemma OneCallUpTo(registry: Registry, keepHistory: bool, s: Bus, e: Event, listeners: seq<Listener>, fuel: nat)
    requires listeners != []
    ensures CallsUpTo(
      registry, keepHistory, s, e, listeners, 1, fuel,
      Perform(registry, keepHistory, Noted(s, fuel, listeners[0], e), listeners[0](e), fuel))
  {
    OneCallAt(registry, keepHistory, s, e, listeners[0], fuel);
    var o1 := Perform(registry, keepHistory, Noted(s, fuel, listeners[0], e), listeners[0](e), fuel);
    assert AfterCalling(registry, keepHistory, o1.bus, e, listeners[1..], 0, fuel) == o1.bus;
    assert AfterCalling(registry, keepHistory, s, e, listeners, 1, fuel) == o1.bus;
  }

  lemma MoreCallsUpTo(
    registry: Registry, keepHistory: bool, s: Bus, e: Event, listeners: seq<Listener>, n: nat, fuel: nat, o: Outcome)
    requires listeners != []
    requires var o1 := Perform(registry, keepHistory, Noted(s, fuel, listeners[0], e), listeners[0](e), fuel);
      CallsUpTo(registry, keepHistory, o1.bus, e, listeners[1..], n, fuel, o)
    ensures CallsUpTo(registry, keepHistory, s, e, listeners, n + 1, fuel, o)
  {
    var o1 := Perform(registry, keepHistory, Noted(s, fuel, listeners[0], e), listeners[0](e), fuel);
    OneCallAt(registry, keepHistory, s, e, listeners[0], fuel);
    CallsJoin(s, o1.bus, o.bus, fuel);
    assert CallsTo(listeners, n + 1, e, fuel) ==
      [ListenerCall(fuel, listeners[0], e)] + CallsTo(listeners[1..], n, e, fuel);
  }

  /**
   Whom a dispatch calls: every listener of the list once and in order, whatever each of them
   raises, or exactly those up to the first that raises outside `Exception`; each runs its program
   on the emitter as the ones before left it.
   */
  lemma {:induction false} CallsInOrder(
    registry: Registry, keepHistory: bool, s: Bus, e: Event, listeners: seq<Listener>, i: nat, fuel: nat)
    requires FirstToLeave(registry, keepHistory, s, e, listeners, i, fuel)
    ensures CallsUpTo(
      registry, keepHistory, s, e, listeners, if i < |listeners| then i + 1 else i, fuel,
      CallAll(registry, keepHistory, s, e, listeners, fuel))
    ensures CallAll(registry, keepHistory, s, e, listeners, fuel).how == if i < |listeners| then Fatal else Fine
    decreases |listeners|
  {
    if listeners != [] {
      var o1 := Perform(registry, keepHistory, Noted(s, fuel, listeners[0], e), listeners[0](e), fuel);
      if i == 0 {
        OneCallUpTo(registry, keepHistory, s, e, listeners, fuel);
        assert CallAll(registry, keepHistory, s, e, listeners, fuel) == o1;
      } else {
        FirstToLeaveLater(registry, keepHistory, s, e, listeners, i, fuel);
        CallsInOrder(registry, keepHistory, o1.bus, e, listeners[1..], i - 1, fuel);
        var n := if i < |listeners| then i else i - 1;
        var o := CallAll(registry, keepHistory, s, e, listeners, fuel);
        MoreCallsUpTo(registry, keepHistory, s, e, listeners, n, fuel, o);
      }
    }
  }

  /** There always is such a number; the search starts at `n`. */
  lemma {:induction false} FindToLeave(
    registry: Registry, keepHistory: bool, s: Bus, e: Event, listeners: seq<Listener>, n: nat, fuel: nat)
    returns (i: nat)
    requires n <= |listeners|
    requires forall k: nat :: k < n ==> !LeavesFrom(registry, keepHistory, s, e, listeners, k, fuel)
    ensures FirstToLeave(registry, keepHistory, s, e, listeners, i, fuel)
    decreases |listeners| - n
  {
    if n == |listeners| || LeavesFrom(registry, keepHistory, s, e, listeners, n, fuel) {
      i := n;
    } else {
      i := FindToLeave(registry, keepHistory, s, e, listeners, n + 1, fuel);
    }
  }

  lemma CallAllGrows(registry: Registry, keepHistory: bool, s: Bus, e: Event, listeners: seq<Listener>, fuel: nat)
    ensures var r := CallAll(registry, keepHistory, s, e, listeners, fuel).bus;
      s.emitted <= r.emitted && s.dispatched <= r.dispatched
  {
    CallAllLeads(registry, keepHistory, s, e, listeners, fuel);
  }

  /** The same for the dispatch of an event, over its audience. */
  lemma DispatchCallsAudience(
    registry: Registry, keepHistory: bool, s: Bus, e: Event, audience: seq<Listener>, i: nat, fuel: nat)
    requires IsAudience(registry, e.kind, audience)
    requires FirstToLeave(registry, keepHistory, Sent(s, e), e, audience, i, fuel)
    ensures i <= |audience|
    ensures var o := Dispatch(registry, keepHistory, s, e, fuel);
      && o.how == (if i < |audience| then Fatal else Fine)
      && s.calls <= o.bus.calls
      && CallsAt(o.bus.calls[|s.calls|..], fuel) ==
           CallsTo(audience, if i < |audience| then i + 1 else i, e, fuel)
  {
    ListenersAreAudience(registry, e.kind, audience);
    CallsInOrder(registry, keepHistory, Sent(s, e), e, audience, i, fuel);
  }

  lemma DispatchSends(registry: Registry, keepHistory: bool, s: Bus, e: Event, fuel: nat)
    ensures var r := Dispatch(registry, keepHistory, s, e, fuel).bus;
      s.emitted <= r.emitted && s.dispatched + [e] <= r.dispatched
  {
    CallAllGrows(registry, keepHistory, Sent(s, e), e, Listeners(registry, e.kind), fuel);
  }

  /** An emitted event that is not buffered is dispatched, first of all. */
  lemma EmitSends(registry: Registry, keepHistory: bool, s: Bus, e: Event, fuel: nat)
    requires fuel > 0 && !s.batchMode && e.id == |s.emitted|
    ensures DoEmit(registry, keepHistory, s, e.kind, e.payload, fuel) ==
      Dispatch(registry, keepHistory, Emitted(s, keepHistory, e), e, fuel - 1)
    ensures var r := DoEmit(registry, keepHistory, s, e.kind, e.payload, fuel).bus;
      s.emitted + [e] <= r.emitted && s.dispatched + [e] <= r.dispatched
  {
    DispatchSends(registry, keepHistory, Emitted(s, keepHistory, e), e, fuel - 1);
  }

  /** While batching it is buffered as the last one, and nobody is called. */
  lemma EmitBuffers(registry: Registry, keepHistory: bool, s: Bus, e: Event, fuel: nat)
    requires fuel > 0 && s.batchMode && e.id == |s.emitted|
    ensures var o := DoEmit(registry, keepHistory, s, e.kind, e.payload, fuel);
      && o.how == Fine && o.bus.emitted == s.emitted + [e] && o.bus.batched == s.batched + [e]
      && o.bus.dispatched == s.dispatched && o.bus.calls == s.calls && o.bus.batchMode
  {
  }

  /** The calls a flush of these events makes: each event's listeners in turn. */
  function FlushCalls(registry: Registry, left: seq<Event>, depth: nat): seq<ListenerCall> {
    if left == [] then []
    else
      var all := Listeners(registry, left[0].kind);
      CallsTo(all, |all|, left[0], depth) + FlushCalls(registry, left[1..], depth)
  }

  /** A flush that no listener leaves calls the whole audience of each of its events, event by event. */
  lemma {:induction false} FlushCallsAudiences(
    registry: Registry, keepHistory: bool, s: Bus, left: seq<Event>, fuel: nat)
    requires s.awaiting != [] && Rest(s) == left
    requires DispatchAll(registry, keepHistory, s, left, fuel).how != Fatal
    ensures var o := DispatchAll(registry, keepHistory, s, left, fuel);
      s.calls <= o.bus.calls && CallsAt(o.bus.calls[|s.calls|..], fuel) == FlushCalls(registry, left, fuel)
    decreases |left|
  {
    if left != [] {
      var e, s1 := left[0], Sent(StillToGo(s, left[1..]), left[0]);
      var all := Listeners(registry, e.kind);
      var o1 := CallAll(registry, keepHistory, s1, e, all, fuel);
      NextOfFlush(registry, keepHistory, s, left, fuel);
      var i := FindToLeave(registry, keepHistory, s1, e, all, 0, fuel);
      CallsInOrder(registry, keepHistory, s1, e, all, i, fuel);
      FlushCallsAudiences(registry, keepHistory, o1.bus, left[1..], fuel);
      CallsJoin(s, o1.bus, DispatchAll(registry, keepHistory, s, left, fuel).bus, fuel);
    }
  }

  lemma NextOfFlush(registry: Registry, keepHistory: bool, s: Bus, left: seq<Event>, fuel: nat)
    requires s.awaiting != [] && Rest(s) == left && left != []
    ensures var s1 := Sent(StillToGo(s, left[1..]), left[0]);
      var o1 := CallAll(registry, keepHistory, s1, left[0], Listeners(registry, left[0].kind), fuel);
      && o1.bus.awaiting != [] && Rest(o1.bus) == left[1..]
      && DispatchAll(registry, keepHistory, s, left, fuel) ==
           if o1.how == Fatal then o1 else DispatchAll(registry, keepHistory, o1.bus, left[1..], fuel)
  {
  }

  // ---------------------------------------------------------------- a listener's program

  /** The emitter once the first `n` calls of a program are over. */
  function AfterDoing(
    registry: Registry, keepHistory: bool, s: Bus, actions: seq<Action>, n: nat, fuel: nat): Bus
    requires n <= |actions|
    decreases n
  {
    if n == 0 then s
    else
      AfterDoing(
        registry, keepHistory, Act(registry, keepHistory, s, actions[0], fuel).bus, actions[1..], n - 1, fuel)
  }

  /** How call number `n` of a program ends. */
  function EndsAs(registry: Registry, keepHistory: bool, s: Bus, actions: seq<Action>, n: nat, fuel: nat): How
    requires n < |actions|
  {
    Act(registry, keepHistory, AfterDoing(registry, keepHistory, s, actions, n, fuel), actions[n], fuel).how
  }

  /** A program runs to its end, or up to the first call that raises, and ends as that call does. */
  lemma {:induction false} ProgramStopsAtRaise(
    registry: Registry, keepHistory: bool, s: Bus, actions: seq<Action>, i: nat, fuel: nat)
    requires i <= |actions|
    requires forall n: nat :: n < i ==> EndsAs(registry, keepHistory, s, actions, n, fuel) == Fine
    requires i < |actions| ==> EndsAs(registry, keepHistory, s, actions, i, fuel) != Fine
    ensures Perform(registry, keepHistory, s, actions, fuel) ==
      if i < |actions| then
        Act(registry, keepHistory, AfterDoing(registry, keepHistory, s, actions, i, fuel), actions[i], fuel)
      else Outcome(AfterDoing(registry, keepHistory, s, actions, i, fuel), Fine)
    decreases i
  {
    if i > 0 {
      var o1 := Act(registry, keepHistory, s, actions[0], fuel);
      assert EndsAs(registry, keepHistory, s, actions, 0, fuel) == Fine;
      forall n: nat | n < |actions| - 1
        ensures EndsAs(registry, keepHistory, o1.bus, actions[1..], n, fuel) ==
          EndsAs(registry, keepHistory, s, actions, n + 1, fuel)
      {
        EndsAsLater(registry, keepHistory, s, actions, n + 1, fuel);
      }
      ProgramStopsAtRaise(registry, keepHistory, o1.bus, actions[1..], i - 1, fuel);
    }
  }

  lemma EndsAsLater(registry: Registry, keepHistory: bool, s: Bus, actions: seq<Action>, n: nat, fuel: nat)
    requires 0 < n < |actions|
    ensures EndsAs(registry, keepHistory, s, actions, n, fuel) ==
      EndsAs(registry, keepHistory, Act(registry, keepHistory, s, actions[0], fuel).bus, actions[1..], n - 1, fuel)
  {
    assert actions[1..][n - 1] == actions[n];
  }
}
