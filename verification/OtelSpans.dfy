/**
 The span stack of dblift/integrations/opentelemetry.py.

 Start events open a span and make it current, end events close the innermost one; the end of
 a migrate or undo first closes script spans whose own end event never came.
 */
module OtelSpans {
  import opened Basics

  datatype Operation = Migration | Script | Validation | Info | Undo | Clean | Baseline | Repair

  datatype Kind = Started(op: Operation) | Completed(op: Operation) | Failed(op: Operation) | Marker | Unrelated

  datatype Event = Event(kind: Kind, operation: string, error: string, failures: nat)

  datatype Status = Unset | Ok | Error(description: string)

  /** `closedBy` is the event whose attributes and outcome the span ended with. */
  datatype Span = Span(name: string, status: Status, closedBy: Option<Event>, ended: nat)

  /** A span, the context token of its attachment, and its name, as kept on the handle's stack. */
  datatype Active = Active(span: nat, token: Option<nat>, name: string)

  /** The handle's stack, the spans started so far, the current span of the context, the markers. */
  datatype State = State(
    stack: seq<Active>, spans: seq<Span>, current: Option<nat>, markers: seq<(nat, Event)>)

  const SCRIPT_NAME := "dblift.script"
  const LEAK_MESSAGE := "leaked script span (missing script end event)"

  /** `_span_name`; what is no known start falls through to the last name. */
  function SpanName(e: Event): string {
    match e.kind
    case Started(Script) => SCRIPT_NAME
    case Started(Migration) => "dblift." + if e.operation != "" then e.operation else "migrate"
    case Started(Undo) => "dblift.undo"
    case Started(Clean) => "dblift.clean"
    case Started(Baseline) => "dblift.baseline"
    case Started(Repair) => "dblift.repair"
    case Started(Validation) => "dblift.validate"
    case _ => "dblift.info"
  }

  predicate Ends(kind: Kind) {
    kind.Completed? || kind.Failed?
  }

  /** Ends that first close leaked script spans. */
  predicate Drains(kind: Kind) {
    Ends(kind) && (kind.op == Migration || kind.op == Undo)
  }

  function OwnStatus(e: Event): Status {
    if e.kind.Failed? || e.failures > 0 || e.error != "" then Error(e.error) else Ok
  }

  function LeakStatus(e: Event): Status {
    Error(if e.error != "" then e.error else LEAK_MESSAGE)
  }

  // ---------------------------------------------------------------- one event

  function Open(s: State, e: Event): State
    requires e.kind.Started?
  {
    var id := |s.spans|;
    s.(spans := s.spans + [Span(SpanName(e), Unset, None, 0)],
       stack := s.stack + [Active(id, s.current, SpanName(e))],
       current := Some(id))
  }

  function CloseSpan(span: Span, e: Event, status: Status): Span {
    span.(status := status, closedBy := Some(e), ended := span.ended + 1)
  }

  /** Pop the innermost span, detach its token, end it. */
  function Pop(s: State, e: Event, status: Status): State
    requires s.stack != []
  {
    var top := s.stack[|s.stack| - 1];
    s.(stack := s.stack[..|s.stack| - 1], current := top.token,
       spans := if top.span < |s.spans| then s.spans[top.span := CloseSpan(s.spans[top.span], e, status)] else s.spans)
  }

  predicate ScriptOnTop(s: State) {
    s.stack != [] && s.stack[|s.stack| - 1].name == SCRIPT_NAME
  }

  function Drain(s: State, e: Event): State
    decreases |s.stack|
  {
    if ScriptOnTop(s) then Drain(Pop(s, e, LeakStatus(e)), e) else s
  }

  /** `_on_event`. Popping an empty stack after a drain raises, and the handler swallows it. */
  function Handle(s: State, e: Event): State {
    if e.kind.Started? then Open(s, e)
    else if Ends(e.kind) then
      if s.stack == [] then s
      else
        var drained := if Drains(e.kind) then Drain(s, e) else s;
        if drained.stack == [] then drained else Pop(drained, e, OwnStatus(e))
    else if e.kind.Marker? && s.stack != [] then
      s.(markers := s.markers + [(s.stack[|s.stack| - 1].span, e)])
    else s
  }

  function Run(s: State, events: seq<Event>): State
    decreases |events|
  {
    if events == [] then s else Run(Handle(s, events[0]), events[1..])
  }

  class OtelHandle {
    var stack: seq<Active>
    /** The tracer's spans and the context variable, which the handle works on. */
    var spans: seq<Span>
    var current: Option<nat>
    var markers: seq<(nat, Event)>

    function View(): State
      reads this
    {
      State(stack, spans, current, markers)
    }

    constructor ()
      ensures View() == State([], [], None, [])
    {
      stack, spans, current, markers := [], [], None, [];
    }

    /** End the popped span and detach its token. */
    method Finish(popped: Active, event: Event, status: Status)
      modifies this`spans, this`current
      ensures current == popped.token
      ensures spans == if popped.span < |old(spans)|
        then old(spans)[popped.span := CloseSpan(old(spans)[popped.span], event, status)] else old(spans)
    {
      current := popped.token;
      if popped.span < |spans| {
        spans := spans[popped.span := CloseSpan(spans[popped.span], event, status)];
      }
    }

    method OnEvent(event: Event)
      modifies this
      ensures View() == Handle(old(View()), event)
    {
      if event.kind.Started? {
        var id := |spans|;
        spans := spans + [Span(SpanName(event), Unset, None, 0)];
        var token := current;
        current := Some(id);
        stack := stack + [Active(id, token, SpanName(event))];
      } else if Ends(event.kind) {
        if stack == [] {
          return;
        }
        if Drains(event.kind) {
          ghost var drained := Drain(View(), event);
          while stack != [] && stack[|stack| - 1].name == SCRIPT_NAME
            invariant Drain(View(), event) == drained && markers == old(markers)
            decreases |stack|
          {
            var child := stack[|stack| - 1];
            stack := stack[..|stack| - 1];
            Finish(child, event, LeakStatus(event));
          }
        }
        if stack == [] {
          return;
        }
        var own := stack[|stack| - 1];
        stack := stack[..|stack| - 1];
        Finish(own, event, OwnStatus(event));
      } else if event.kind.Marker? && stack != [] {
        markers := markers + [(stack[|stack| - 1].span, event)];
      }
    }
  }

  // ---------------------------------------------------------------- every run

  /** What is current with only the innermost `n` spans left out. */
  function CurrentBelow(s: State, n: nat, ambient: Option<nat>): Option<nat>
    requires n <= |s.stack|
  {
    if n == 0 then ambient else Some(s.stack[n - 1].span)
  }

  predicate TokenNests(s: State, i: nat, ambient: Option<nat>)
    requires i < |s.stack|
  {
    s.stack[i].token == CurrentBelow(s, i, ambient)
  }

  /** Each token holds what was current before its span, down to the context found at the start. */
  predicate TokensNest(s: State, ambient: Option<nat>) {
    && (forall i :: 0 <= i < |s.stack| ==> TokenNests(s, i, ambient))
    && s.current == CurrentBelow(s, |s.stack|, ambient)
  }

  predicate OnStack(s: State, id: nat) {
    exists i :: 0 <= i < |s.stack| && s.stack[i].span == id
  }

  /** The stack holds spans in the order they were started. */
  predicate Ordered(s: State) {
    && (forall i :: 0 <= i < |s.stack| ==> s.stack[i].span < |s.spans|)
    && (forall i, j :: 0 <= i < j < |s.stack| ==> s.stack[i].span < s.stack[j].span)
  }

  /** Every span is open and on the stack, or ended once and off it. */
  predicate Accounted(s: State) {
    forall id: nat :: id < |s.spans| ==>
      && s.spans[id].ended == (if OnStack(s, id) then 0 else 1)
      && (s.spans[id].closedBy.Some? <==> s.spans[id].ended == 1)
  }

  predicate Valid(s: State, ambient: Option<nat>) {
    Ordered(s) && Accounted(s) && TokensNest(s, ambient)
  }

  lemma PopKeepsAccounted(s: State, e: Event, status: Status)
    requires Ordered(s) && Accounted(s) && s.stack != []
    ensures Accounted(Pop(s, e, status))
  {
    var r := Pop(s, e, status);
    var n := |s.stack| - 1;
    var top := s.stack[n].span;
    assert forall i :: 0 <= i < n ==> r.stack[i] == s.stack[i] && s.stack[i].span < top;
    forall id: nat | id < |r.spans|
      ensures OnStack(r, id) <==> OnStack(s, id) && id != top
    {
      if OnStack(s, id) && id != top {
        var i :| 0 <= i < |s.stack| && s.stack[i].span == id;
        assert r.stack[i].span == id;
      }
    }
    assert OnStack(s, top);
  }

  lemma PopKeepsNesting(s: State, e: Event, status: Status, ambient: Option<nat>)
    requires TokensNest(s, ambient) && s.stack != []
    ensures TokensNest(Pop(s, e, status), ambient)
  {
    var r := Pop(s, e, status);
    forall i | 0 <= i < |r.stack|
      ensures TokenNests(r, i, ambient)
    {
      assert TokenNests(s, i, ambient);
    }
    assert TokenNests(s, |s.stack| - 1, ambient);
  }

  lemma PopKeepsValid(s: State, e: Event, status: Status, ambient: Option<nat>)
    requires Valid(s, ambient) && s.stack != []
    ensures Valid(Pop(s, e, status), ambient)
  {
    PopKeepsAccounted(s, e, status);
    PopKeepsNesting(s, e, status, ambient);
    var r := Pop(s, e, status);
    assert forall i :: 0 <= i < |r.stack| ==> r.stack[i] == s.stack[i];
  }

  lemma {:induction false} DrainKeepsValid(s: State, e: Event, ambient: Option<nat>)
    requires Valid(s, ambient)
    ensures Valid(Drain(s, e), ambient)
    decreases |s.stack|
  {
    if ScriptOnTop(s) {
      PopKeepsValid(s, e, LeakStatus(e), ambient);
      DrainKeepsValid(Pop(s, e, LeakStatus(e)), e, ambient);
    }
  }

  lemma OpenKeepsAccounted(s: State, e: Event)
    requires Accounted(s) && e.kind.Started?
    ensures Accounted(Open(s, e))
  {
    var r := Open(s, e);
    assert r.stack[|s.stack|].span == |s.spans|;
    forall id: nat | id < |s.spans|
      ensures OnStack(r, id) <==> OnStack(s, id)
    {
      if OnStack(s, id) {
        var i :| 0 <= i < |s.stack| && s.stack[i].span == id;
        assert r.stack[i].span == id;
      }
    }
  }

  lemma OpenKeepsNesting(s: State, e: Event, ambient: Option<nat>)
    requires TokensNest(s, ambient) && e.kind.Started?
    ensures TokensNest(Open(s, e), ambient)
  {
    var r := Open(s, e);
    forall i | 0 <= i < |r.stack|
      ensures TokenNests(r, i, ambient)
    {
      assert i < |s.stack| ==> TokenNests(s, i, ambient);
    }
  }

  lemma OpenKeepsValid(s: State, e: Event, ambient: Option<nat>)
    requires Valid(s, ambient) && e.kind.Started?
    ensures Valid(Open(s, e), ambient)
  {
    OpenKeepsAccounted(s, e);
    OpenKeepsNesting(s, e, ambient);
    assert Ordered(Open(s, e)) by {
      assert forall i :: 0 <= i < |s.stack| ==> Open(s, e).stack[i] == s.stack[i];
    }
  }

  lemma HandleKeepsValid(s: State, e: Event, ambient: Option<nat>)
    requires Valid(s, ambient)
    ensures Valid(Handle(s, e), ambient)
  {
    if e.kind.Started? {
      OpenKeepsValid(s, e, ambient);
    } else if Ends(e.kind) {
      if s.stack != [] {
        var drained := if Drains(e.kind) then Drain(s, e) else s;
        DrainKeepsValid(s, e, ambient);
        if drained.stack != [] {
          PopKeepsValid(drained, e, OwnStatus(e), ambient);
        }
      }
    } else {
      MarkKeepsValid(s, Handle(s, e), ambient);
    }
  }

  lemma MarkKeepsValid(s: State, r: State, ambient: Option<nat>)
    requires Valid(s, ambient) && r == s.(markers := r.markers)
    ensures Valid(r, ambient)
  {
    forall id: nat | id < |r.spans|
      ensures OnStack(r, id) <==> OnStack(s, id)
    {
      if OnStack(s, id) {
        var i :| 0 <= i < |s.stack| && s.stack[i].span == id;
        assert r.stack[i].span == id;
      }
    }
    forall i | 0 <= i < |r.stack|
      ensures TokenNests(r, i, ambient)
    {
      assert TokenNests(s, i, ambient);
    }
  }

  /** Whatever events come: spans are ended exactly once or open on the stack, tokens nest. */
  lemma {:induction false} RunKeepsValid(s: State, events: seq<Event>, ambient: Option<nat>)
    requires Valid(s, ambient)
    ensures Valid(Run(s, events), ambient)
    decreases |events|
  {
    if events != [] {
      HandleKeepsValid(s, events[0], ambient);
      RunKeepsValid(Handle(s, events[0]), events[1..], ambient);
    }
  }

  // ---------------------------------------------------------------- bracketed runs

  /**
   What an engine emits: an operation with its start and end event around a body, a script
   whose end event may be missing, or a marker.
   */
  datatype Item =
    | Whole(start: Event, body: seq<Item>, end: Event)
    | Cut(start: Event, body: seq<Item>)
    | Mark(marker: Event)

  function EventsOf(items: seq<Item>): seq<Event>
    decreases items
  {
    if items == [] then [] else ItemEvents(items[0]) + EventsOf(items[1..])
  }

  function ItemEvents(item: Item): seq<Event>
    decreases item
  {
    match item
    case Whole(start, body, end) => [start] + EventsOf(body) + [end]
    case Cut(start, body) => [start] + EventsOf(body)
    case Mark(marker) => [marker]
  }

  /**
   Well bracketed except for missing script ends. `drains` says that the innermost operation
   around, whose end does come, is a migrate or undo: only there may a script end be missing.
   A migration must not call its operation "script", or its span passes for a script's.
   */
  predicate Bracketed(items: seq<Item>, drains: bool)
    decreases items
  {
    items != [] ==> BracketedItem(items[0], drains) && Bracketed(items[1..], drains)
  }

  predicate BracketedItem(item: Item, drains: bool)
    decreases item
  {
    match item
    case Whole(start, body, end) =>
      && start.kind.Started? && Ends(end.kind) && end.kind.op == start.kind.op
      && !NamedScript(start)
      && Bracketed(body, Drains(end.kind))
    case Cut(start, body) => drains && start.kind == Started(Script) && Bracketed(body, true)
    case Mark(marker) => marker.kind.Marker? || marker.kind.Unrelated?
  }

  lemma LooksLikeScript(e: Event)
    requires e.kind.Started?
    ensures SpanName(e) == SCRIPT_NAME <==>
            e.kind.op == Script || (e.kind.op == Migration && e.operation == "script")
  {
    if e.kind.op == Migration {
      assert SCRIPT_NAME == "dblift." + "script";
      assert ("dblift." + e.operation)[7..] == e.operation;
    }
  }

  /** The spans such a run leaves, in start order; those of cut scripts closed by `closer`, if any. */
  function SpansOf(items: seq<Item>, closer: Option<Event>): seq<Span>
    decreases items
  {
    if items == [] then [] else ItemSpans(items[0], closer) + SpansOf(items[1..], closer)
  }

  function ItemSpans(item: Item, closer: Option<Event>): seq<Span>
    decreases item
  {
    match item
    case Whole(start, body, end) =>
      [Span(SpanName(start), OwnStatus(end), Some(end), 1)] +
      SpansOf(body, if Drains(end.kind) then Some(end) else None)
    case Cut(start, body) => [CutSpan(closer)] + SpansOf(body, closer)
    case Mark(marker) => []
  }

  /** A cut script's span: open, or closed as an error by the operation's end. */
  function CutSpan(closer: Option<Event>): Span {
    match closer
    case None => Span(SCRIPT_NAME, Unset, None, 0)
    case Some(end) => Span(SCRIPT_NAME, LeakStatus(end), Some(end), 1)
  }

  /** The numbers of the spans of cut scripts, when the first span has number `first`. */
  function CutIds(items: seq<Item>, first: nat): seq<nat>
    decreases items
  {
    if items == [] then []
    else ItemCuts(items[0], first) + CutIds(items[1..], first + |ItemSpans(items[0], None)|)
  }

  function ItemCuts(item: Item, first: nat): seq<nat>
    decreases item
  {
    match item
    case Whole(_, _, _) => []
    case Cut(_, body) => [first] + CutIds(body, first + 1)
    case Mark(_) => []
  }

  lemma NoItemCuts(item: Item, first: nat)
    requires BracketedItem(item, false)
    ensures ItemCuts(item, first) == []
  {
  }

  /** No cut scripts where the innermost operation does not drain. */
  lemma {:induction false} NoCutsOutside(items: seq<Item>, first: nat)
    requires Bracketed(items, false)
    ensures CutIds(items, first) == []
    decreases |items|
  {
    if items != [] {
      NoItemCuts(items[0], first);
      NoCutsOutside(items[1..], first + |ItemSpans(items[0], None)|);
    }
  }

  // ---------------------------------------------------------------- what a bracketed run does

  lemma {:induction false} RunAppend(s: State, a: seq<Event>, b: seq<Event>)
    ensures Run(s, a + b) == Run(Run(s, a), b)
    decreases |a|
  {
    if a == [] {
      assert a + b == b;
    } else {
      assert (a + b)[1..] == a[1..] + b;
      RunAppend(Handle(s, a[0]), a[1..], b);
    }
  }

  /** The spans with these numbers closed as leaked by `end`, the innermost first. */
  function CloseCuts(spans: seq<Span>, ids: seq<nat>, end: Event): (r: seq<Span>)
    ensures |r| == |spans|
    decreases |ids|
  {
    if ids == [] then spans
    else
      var id := ids[|ids| - 1];
      var closed := if id < |spans| then spans[id := CloseSpan(spans[id], end, LeakStatus(end))] else spans;
      CloseCuts(closed, ids[..|ids| - 1], end)
  }

  predicate AreScripts(tops: seq<Active>, ids: seq<nat>) {
    |tops| == |ids| && forall i :: 0 <= i < |ids| ==> tops[i].span == ids[i] && tops[i].name == SCRIPT_NAME
  }

  /** `stack` is `below` with the script spans `ids` left open on top. */
  predicate LeftOpen(stack: seq<Active>, below: seq<Active>, ids: seq<nat>) {
    below <= stack && AreScripts(stack[|below|..], ids)
  }

  lemma TopLeftOpen(stack: seq<Active>, below: seq<Active>, ids: seq<nat>)
    requires LeftOpen(stack, below, ids) && ids != []
    ensures stack != [] && stack[|stack| - 1].span == ids[|ids| - 1] && stack[|stack| - 1].name == SCRIPT_NAME
    ensures LeftOpen(stack[..|stack| - 1], below, ids[..|ids| - 1])
  {
    var tops := stack[|below|..];
    assert stack[|stack| - 1] == tops[|ids| - 1];
    assert stack[..|stack| - 1][|below|..] == tops[..|ids| - 1];
  }

  /** Draining closes exactly the open scripts and stops at what lies below them. */
  lemma {:induction false} DrainClosesCuts(s: State, below: seq<Active>, ids: seq<nat>, end: Event)
    requires LeftOpen(s.stack, below, ids) && below != [] && below[|below| - 1].name != SCRIPT_NAME
    ensures Drain(s, end).stack == below
    ensures Drain(s, end).spans == CloseCuts(s.spans, ids, end)
    ensures Drain(s, end).markers == s.markers
    decreases |ids|
  {
    if ids == [] {
      assert s.stack == below;
    } else {
      TopLeftOpen(s.stack, below, ids);
      DrainClosesCuts(Pop(s, end, LeakStatus(end)), below, ids[..|ids| - 1], end);
    }
  }

  lemma LeftOpenAbove(stack: seq<Active>, middle: seq<Active>, below: seq<Active>, inner: seq<nat>, outer: seq<nat>)
    requires LeftOpen(middle, below, outer) && LeftOpen(stack, middle, inner)
    ensures LeftOpen(stack, below, outer + inner)
  {
    assert stack[|below|..] == middle[|below|..] + stack[|middle|..];
  }

  lemma {:induction false} CloseCutsAppend(spans: seq<Span>, a: seq<nat>, b: seq<nat>, end: Event)
    ensures CloseCuts(spans, a + b, end) == CloseCuts(CloseCuts(spans, b, end), a, end)
    decreases |b|
  {
    if b == [] {
      assert a + b == a;
    } else {
      var id := b[|b| - 1];
      assert (a + b)[..|a + b| - 1] == a + b[..|b| - 1];
      var closed := if id < |spans| then spans[id := CloseSpan(spans[id], end, LeakStatus(end))] else spans;
      CloseCutsAppend(closed, a, b[..|b| - 1], end);
    }
  }

  lemma Regroup<T>(a: seq<T>, b: seq<T>, c: seq<T>, d: seq<T>)
    ensures a + (b + c) + d == (a + b) + c + d
    ensures (a + b) + c + d == a + b + (c + d)
  {
  }

  /** Closing the cut scripts of a stretch of spans turns it into the stretch as `end` leaves it. */
  lemma {:induction false} CutsClosed(before: seq<Span>, items: seq<Item>, after: seq<Span>, end: Event)
    ensures CloseCuts(before + SpansOf(items, None) + after, CutIds(items, |before|), end)
         == before + SpansOf(items, Some(end)) + after
    decreases items
  {
    if items != [] {
      var head, rest := ItemSpans(items[0], None), SpansOf(items[1..], None);
      var closedHead, closed := ItemSpans(items[0], Some(end)), SpansOf(items[1..], Some(end));
      var a, b := ItemCuts(items[0], |before|), CutIds(items[1..], |before + head|);
      assert CutIds(items, |before|) == a + b;
      CutsClosed(before + head, items[1..], after, end);
      ItemCutsClosed(before, items[0], closed + after, end);
      CloseInTurn(before, head, rest, closedHead, closed, after, a, b, end);
    }
  }

  lemma CloseInTurn(before: seq<Span>, head: seq<Span>, rest: seq<Span>, closedHead: seq<Span>, closed: seq<Span>,
                    after: seq<Span>, a: seq<nat>, b: seq<nat>, end: Event)
    requires CloseCuts((before + head) + rest + after, b, end) == (before + head) + closed + after
    requires CloseCuts(before + head + (closed + after), a, end) == before + closedHead + (closed + after)
    ensures CloseCuts(before + (head + rest) + after, a + b, end) == before + (closedHead + closed) + after
  {
    CloseCutsAppend(before + (head + rest) + after, a, b, end);
    Regroup(before, head, rest, after);
    Regroup(before, head, closed, after);
    Regroup(before, closedHead, closed, after);
  }

  lemma {:induction false} ItemCutsClosed(before: seq<Span>, item: Item, after: seq<Span>, end: Event)
    ensures CloseCuts(before + ItemSpans(item, None) + after, ItemCuts(item, |before|), end)
         == before + ItemSpans(item, Some(end)) + after
    decreases item
  {
    if item.Cut? {
      var own, inner := [CutSpan(None)], CutIds(item.body, |before| + 1);
      var open, closed := SpansOf(item.body, None), SpansOf(item.body, Some(end));
      Regroup(before, own, open, after);
      CloseCutsAppend((before + own) + open + after, [|before|], inner, end);
      CutsClosed(before + own, item.body, after, end);
      CloseOne(before, closed + after, end);
      Regroup(before, own, closed, after);
      Regroup(before, [CutSpan(Some(end))], closed, after);
    }
  }

  lemma CloseOne(before: seq<Span>, after: seq<Span>, end: Event)
    ensures CloseCuts(before + [CutSpan(None)] + after, [|before|], end) == before + [CutSpan(Some(end))] + after
  {
    var spans, id := before + [CutSpan(None)] + after, |before|;
    assert spans[id] == CutSpan(None);
    assert spans[id := CutSpan(Some(end))] == before + [CutSpan(Some(end))] + after;
    assert [id][..0] == [];
  }

  /** From `s` to `r`: the spans `added` were started, and those numbered `ids` are still open. */
  predicate Leaves(s: State, r: State, added: seq<Span>, ids: seq<nat>) {
    r.spans == s.spans + added && LeftOpen(r.stack, s.stack, ids)
  }

  lemma LeavesBoth(s: State, r: State, last: State, a: seq<Span>, b: seq<Span>, idsA: seq<nat>, idsB: seq<nat>)
    requires Leaves(s, r, a, idsA) && Leaves(r, last, b, idsB)
    ensures Leaves(s, last, a + b, idsA + idsB)
  {
    LeftOpenAbove(last.stack, r.stack, s.stack, idsB, idsA);
  }

  /**
   A bracketed run leaves each span as its own end event says, with the cut scripts still open
   on the stack for the operation around to close.
   */
  lemma {:induction false} RunBracketed(s: State, items: seq<Item>, drains: bool)
    requires Bracketed(items, drains)
    ensures Leaves(s, Run(s, EventsOf(items)), SpansOf(items, None), CutIds(items, |s.spans|))
    decreases items
  {
    if items != [] {
      var item, rest := items[0], items[1..];
      var r := Run(s, ItemEvents(item));
      RunAppend(s, ItemEvents(item), EventsOf(rest));
      RunItem(s, item, drains);
      RunBracketed(r, rest, drains);
      LeavesBoth(s, r, Run(r, EventsOf(rest)), ItemSpans(item, None), SpansOf(rest, None),
                 ItemCuts(item, |s.spans|), CutIds(rest, |r.spans|));
    } else {
      assert s.stack[|s.stack|..] == [];
    }
  }

  lemma {:induction false} RunItem(s: State, item: Item, drains: bool)
    requires BracketedItem(item, drains)
    ensures Leaves(s, Run(s, ItemEvents(item)), ItemSpans(item, None), ItemCuts(item, |s.spans|))
    decreases item
  {
    match item
    case Mark(marker) =>
      assert Run(s, [marker]) == Handle(s, marker);
      assert s.stack[|s.stack|..] == [];
    case Cut(start, body) =>
      var opening := Open(s, start);
      RunOpens(s, start, EventsOf(body));
      RunBracketed(opening, body, true);
      assert opening.stack[|s.stack|..] == [Active(|s.spans|, s.current, SCRIPT_NAME)];
      LeavesBoth(s, opening, Run(opening, EventsOf(body)), [CutSpan(None)], SpansOf(body, None),
                 [|s.spans|], CutIds(body, |s.spans| + 1));
    case Whole(start, body, end) =>
      var opening := Open(s, start);
      RunAppend(s, [start] + EventsOf(body), [end]);
      RunOpens(s, start, EventsOf(body));
      RunBracketed(opening, body, Drains(end.kind));
      var r := Run(opening, EventsOf(body));
      assert Run(r, [end]) == Handle(r, end);
      EndCloses(s, item, r);
      assert s.stack[|s.stack|..] == [];
  }

  lemma RunOpens(s: State, start: Event, events: seq<Event>)
    requires start.kind.Started?
    ensures Run(s, [start] + events) == Run(Open(s, start), events)
  {
    assert ([start] + events)[1..] == events;
  }

  /** The end event closes the cut scripts above the operation's span, then that span. */
  lemma EndCloses(s: State, item: Item, r: State)
    requires item.Whole? && BracketedItem(item, false)
    requires r.spans == s.spans + [Span(SpanName(item.start), Unset, None, 0)] + SpansOf(item.body, None)
    requires LeftOpen(r.stack, Open(s, item.start).stack, CutIds(item.body, |s.spans| + 1))
    ensures Handle(r, item.end).spans == s.spans + ItemSpans(item, None)
    ensures Handle(r, item.end).stack == s.stack
  {
    var end, opening, ids := item.end, Open(s, item.start), CutIds(item.body, |s.spans| + 1);
    var own := [Span(SpanName(item.start), Unset, None, 0)];
    if Drains(end.kind) {
      LooksLikeScript(item.start);
      DrainClosesCuts(r, opening.stack, ids, end);
      var body, closed := SpansOf(item.body, None), SpansOf(item.body, Some(end));
      assert (s.spans + own) + body + [] == r.spans;
      CutsClosed(s.spans + own, item.body, [], end);
      assert (s.spans + own) + closed + [] == s.spans + own + closed;
      OwnCloses(s, item.start, Drain(r, end), closed, end);
    } else {
      NoCutsOutside(item.body, |s.spans| + 1);
      OwnCloses(s, item.start, r, SpansOf(item.body, None), end);
    }
  }

  lemma OwnCloses(s: State, start: Event, r: State, body: seq<Span>, end: Event)
    requires start.kind.Started? && r.stack == Open(s, start).stack
    requires r.spans == s.spans + [Span(SpanName(start), Unset, None, 0)] + body
    ensures Pop(r, end, OwnStatus(end)).stack == s.stack
    ensures Pop(r, end, OwnStatus(end)).spans
         == s.spans + ([Span(SpanName(start), OwnStatus(end), Some(end), 1)] + body)
  {
    assert r.stack[|s.stack|].span == |s.spans|;
    assert r.spans[|s.spans|] == Span(SpanName(start), Unset, None, 0);
  }

  /** A complete run ends every span it started and gives back the stack and the context. */
  lemma CompleteRun(s: State, items: seq<Item>, ambient: Option<nat>)
    requires Valid(s, ambient) && Bracketed(items, false)
    ensures var r := Run(s, EventsOf(items));
      && r.stack == s.stack && r.current == s.current
      && r.spans == s.spans + SpansOf(items, None)
      && forall id: nat :: |s.spans| <= id < |r.spans| ==> r.spans[id].ended == 1
  {
    var r := Run(s, EventsOf(items));
    RunBracketed(s, items, false);
    NoCutsOutside(items, |s.spans|);
    assert r.stack == s.stack + r.stack[|s.stack|..];
    RunKeepsValid(s, EventsOf(items), ambient);
    SameStack(s, r, ambient);
  }

  lemma SameStack(s: State, r: State, ambient: Option<nat>)
    requires Valid(s, ambient) && Valid(r, ambient) && r.stack == s.stack
    ensures r.current == s.current
    ensures forall id: nat :: |s.spans| <= id < |r.spans| ==> r.spans[id].ended == 1
  {
    assert CurrentBelow(r, |r.stack|, ambient) == CurrentBelow(s, |s.stack|, ambient);
    forall id: nat | |s.spans| <= id < |r.spans|
      ensures !OnStack(r, id)
    {
      assert forall i :: 0 <= i < |r.stack| ==> r.stack[i].span < |s.spans|;
    }
  }

  // ---------------------------------------------------------------- when an end closes its own span

  /**
   Starts and ends pair up and the spans that stay open are scripts', but under any operation.
   No event of dblift's own is a migration named "script"; one from a host would pass for a script.
   */
  predicate Paired(items: seq<Item>)
    decreases items
  {
    items != [] ==> PairedItem(items[0]) && Paired(items[1..])
  }

  predicate PairedItem(item: Item)
    decreases item
  {
    match item
    case Whole(start, body, end) =>
      && start.kind.Started? && Ends(end.kind) && end.kind.op == start.kind.op && !NamedScript(start)
      && Paired(body)
    case Cut(start, body) => start.kind == Started(Script) && Paired(body)
    case Mark(marker) => marker.kind.Marker? || marker.kind.Unrelated?
  }

  predicate NamedScript(start: Event) {
    start.kind == Started(Migration) && start.operation == "script"
  }

  /** The list without the scripts at its end; `true` stands for a script. */
  function Drained(open: seq<bool>): (r: seq<bool>)
    ensures r <= open
  {
    if open != [] && open[|open| - 1] then Drained(open[..|open| - 1]) else open
  }

  /**
   What is left open after such events, innermost last, told from the bracketing alone: an end
   that finds something open above its own span closes that instead.
   */
  function LeftOf(items: seq<Item>): seq<bool>
    decreases items
  {
    if items == [] then [] else LeftOfItem(items[0]) + LeftOf(items[1..])
  }

  function LeftOfItem(item: Item): seq<bool>
    decreases item
  {
    match item
    case Whole(start, body, end) => AfterEnd(start.kind == Started(Script), LeftOf(body), Drains(end.kind))
    case Cut(_, body) => [true] + LeftOf(body)
    case Mark(_) => []
  }

  /** What an end leaves of its own span and what is open above it. */
  function AfterEnd(own: bool, above: seq<bool>, drains: bool): seq<bool> {
    var l := if drains then Drained(above) else above;
    if l == [] then [] else [own] + l[..|l| - 1]
  }

  /** The body leaves nothing open that stops the end from reaching its own span. */
  predicate Reaches(body: seq<Item>, end: Event) {
    if Drains(end.kind) then Drained(LeftOf(body)) == [] else LeftOf(body) == []
  }

  /** `stack` is `below` with spans on top that are scripts as `open` says. */
  predicate Adds(stack: seq<Active>, below: seq<Active>, open: seq<bool>) {
    && below <= stack && |stack| == |below| + |open|
    && forall i :: 0 <= i < |open| ==> (stack[|below|..][i].name == SCRIPT_NAME <==> open[i])
  }

  lemma AddsBoth(stack: seq<Active>, middle: seq<Active>, below: seq<Active>, inner: seq<bool>, outer: seq<bool>)
    requires Adds(middle, below, outer) && Adds(stack, middle, inner)
    ensures Adds(stack, below, outer + inner)
  {
    assert stack[|below|..] == middle[|below|..] + stack[|middle|..];
  }

  /** The stack without the script spans at its top: what draining leaves. */
  function Base(stack: seq<Active>): (r: seq<Active>)
    ensures r <= stack
  {
    if stack != [] && stack[|stack| - 1].name == SCRIPT_NAME then Base(stack[..|stack| - 1]) else stack
  }

  lemma {:induction false} DrainLeavesBase(s: State, e: Event)
    ensures Drain(s, e).stack == Base(s.stack)
    decreases |s.stack|
  {
    if ScriptOnTop(s) {
      DrainLeavesBase(Pop(s, e, LeakStatus(e)), e);
    }
  }

  lemma AddsTop(stack: seq<Active>, below: seq<Active>, open: seq<bool>)
    requires Adds(stack, below, open) && open != []
    ensures stack != [] && (stack[|stack| - 1].name == SCRIPT_NAME <==> open[|open| - 1])
    ensures Adds(stack[..|stack| - 1], below, open[..|open| - 1])
  {
    assert stack[|stack| - 1] == stack[|below|..][|open| - 1];
    assert stack[..|stack| - 1][|below|..] == stack[|below|..][..|open| - 1];
  }

  /** Draining takes off the scripts at the end of the list and, when all are scripts, goes on below. */
  lemma {:induction false} BaseAdds(stack: seq<Active>, below: seq<Active>, open: seq<bool>)
    requires Adds(stack, below, open)
    ensures Drained(open) != [] ==> Adds(Base(stack), below, Drained(open))
    ensures Drained(open) == [] ==> Base(stack) == Base(below)
    decreases |open|
  {
    if open == [] {
      assert stack == below;
    } else {
      AddsTop(stack, below, open);
      if open[|open| - 1] {
        BaseAdds(stack[..|stack| - 1], below, open[..|open| - 1]);
      }
    }
  }

  lemma BaseStays(stack: seq<Active>)
    requires stack != [] && stack[|stack| - 1].name != SCRIPT_NAME
    ensures Base(stack) == stack
  {
  }

  /** The stack such a run leaves is the one read off the bracketing. */
  lemma {:induction false} RunAdds(s: State, items: seq<Item>)
    requires Paired(items)
    ensures Adds(Run(s, EventsOf(items)).stack, s.stack, LeftOf(items))
    decreases items
  {
    if items != [] {
      var r := Run(s, ItemEvents(items[0]));
      RunAppend(s, ItemEvents(items[0]), EventsOf(items[1..]));
      ItemAdds(s, items[0]);
      RunAdds(r, items[1..]);
      AddsBoth(Run(r, EventsOf(items[1..])).stack, r.stack, s.stack, LeftOf(items[1..]), LeftOfItem(items[0]));
    }
  }

  lemma {:induction false} ItemAdds(s: State, item: Item)
    requires PairedItem(item)
    ensures Adds(Run(s, ItemEvents(item)).stack, s.stack, LeftOfItem(item))
    decreases item
  {
    match item
    case Mark(marker) =>
      assert Run(s, [marker]) == Handle(s, marker);
    case Cut(start, body) =>
      var opening := Open(s, start);
      RunOpens(s, start, EventsOf(body));
      RunAdds(opening, body);
      OpenAdds(s, start, true);
      AddsBoth(Run(opening, EventsOf(body)).stack, opening.stack, s.stack, LeftOf(body), [true]);
    case Whole(start, body, end) =>
      WholeRuns(s, start, body, end);
      RunAdds(Open(s, start), body);
      LooksLikeScript(start);
      EndAdds(s, start, Run(Open(s, start), EventsOf(body)), LeftOf(body), end);
  }

  lemma OpenAdds(s: State, start: Event, script: bool)
    requires start.kind.Started? && (SpanName(start) == SCRIPT_NAME <==> script)
    ensures Adds(Open(s, start).stack, s.stack, [script])
  {
    assert Open(s, start).stack[|s.stack|..] == [Active(|s.spans|, s.current, SpanName(start))];
  }

  lemma WholeRuns(s: State, start: Event, body: seq<Item>, end: Event)
    requires start.kind.Started?
    ensures Run(s, [start] + EventsOf(body) + [end]) == Handle(Run(Open(s, start), EventsOf(body)), end)
  {
    RunAppend(s, [start] + EventsOf(body), [end]);
    RunOpens(s, start, EventsOf(body));
    assert [end][1..] == [];
  }

  /** What an end takes the innermost span from, after draining if it drains. */
  function EndBase(stack: seq<Active>, end: Event): seq<Active> {
    if Drains(end.kind) then Base(stack) else stack
  }

  lemma HandleStack(q: State, end: Event)
    requires Ends(end.kind)
    ensures var d := EndBase(q.stack, end);
      Handle(q, end).stack == if d == [] then [] else d[..|d| - 1]
  {
    if Drains(end.kind) {
      DrainLeavesBase(q, end);
    }
  }

  /** What an end does to the stack above the span it belongs to. */
  lemma EndAdds(s: State, start: Event, q: State, above: seq<bool>, end: Event)
    requires start.kind.Started? && Ends(end.kind) && end.kind.op == start.kind.op
    requires SpanName(start) == SCRIPT_NAME <==> start.kind.op == Script
    requires Adds(q.stack, Open(s, start).stack, above)
    ensures Adds(Handle(q, end).stack, s.stack, AfterEnd(start.kind == Started(Script), above, Drains(end.kind)))
  {
    var base, l := EndBase(q.stack, end), if Drains(end.kind) then Drained(above) else above;
    EndBaseAdds(s, start, q.stack, above, end);
    TopComesOff(s, start, base, l);
    HandleStack(q, end);
  }

  lemma EndBaseAdds(s: State, start: Event, stack: seq<Active>, above: seq<bool>, end: Event)
    requires start.kind.Started? && Ends(end.kind) && end.kind.op == start.kind.op
    requires SpanName(start) == SCRIPT_NAME <==> start.kind.op == Script
    requires Adds(stack, Open(s, start).stack, above)
    ensures Adds(EndBase(stack, end), Open(s, start).stack, if Drains(end.kind) then Drained(above) else above)
  {
    if Drains(end.kind) {
      DrainedAdds(stack, Open(s, start).stack, above);
    }
  }

  lemma DrainedAdds(stack: seq<Active>, below: seq<Active>, open: seq<bool>)
    requires Adds(stack, below, open) && below != [] && below[|below| - 1].name != SCRIPT_NAME
    ensures Adds(Base(stack), below, Drained(open))
  {
    BaseAdds(stack, below, open);
    if Drained(open) == [] {
      BaseStays(below);
      assert below[|below|..] == [];
    }
  }

  lemma TopComesOff(s: State, start: Event, stack: seq<Active>, open: seq<bool>)
    requires start.kind.Started? && Adds(stack, Open(s, start).stack, open)
    requires SpanName(start) == SCRIPT_NAME <==> start.kind.op == Script
    ensures stack != []
    ensures Adds(stack[..|stack| - 1], s.stack, AfterEnd(start.kind == Started(Script), open, false))
  {
    var opening := Open(s, start).stack;
    if open == [] {
      assert stack == opening && opening[..|opening| - 1] == s.stack;
    } else {
      AddsTop(stack, opening, open);
      OpenAdds(s, start, start.kind == Started(Script));
      AddsBoth(stack[..|stack| - 1], opening, s.stack, open[..|open| - 1], [start.kind == Started(Script)]);
    }
  }

  // ---------------------------------------------------------------- which span an end closes

  /** The spans of the stack from position `n` on are all other than `id`. */
  predicate NotFrom(stack: seq<Active>, n: nat, id: nat) {
    forall i :: n <= i < |stack| ==> stack[i].span != id
  }

  lemma {:induction false} DrainTouchesStack(s: State, e: Event, id: nat)
    requires id < |s.spans| && NotFrom(s.stack, |Base(s.stack)|, id)
    ensures |Drain(s, e).spans| == |s.spans| && Drain(s, e).spans[id] == s.spans[id]
    decreases |s.stack|
  {
    if ScriptOnTop(s) {
      DrainTouchesStack(Pop(s, e, LeakStatus(e)), e, id);
    }
  }

  lemma PopKeepsOrdered(s: State, e: Event, status: Status)
    requires Ordered(s) && s.stack != []
    ensures Ordered(Pop(s, e, status))
    ensures NotFrom(s.stack[..|s.stack| - 1], 0, s.stack[|s.stack| - 1].span)
  {
    var r := Pop(s, e, status);
    assert forall i :: 0 <= i < |r.stack| ==> r.stack[i] == s.stack[i];
  }

  /** Every span drained off is closed as leaked. */
  lemma {:induction false} DrainLeaks(s: State, e: Event, i: nat)
    requires Ordered(s) && |Base(s.stack)| <= i < |s.stack|
    ensures s.stack[i].span < |Drain(s, e).spans|
    ensures var r := Drain(s, e).spans[s.stack[i].span];
      r.closedBy == Some(e) && r.status == LeakStatus(e)
    decreases |s.stack|
  {
    var m := Pop(s, e, LeakStatus(e));
    PopKeepsOrdered(s, e, LeakStatus(e));
    assert m.stack == s.stack[..|s.stack| - 1] && Base(m.stack) == Base(s.stack);
    if i < |s.stack| - 1 {
      assert m.stack[i] == s.stack[i];
      DrainLeaks(m, e, i);
    } else {
      assert NotFrom(m.stack, |Base(m.stack)|, s.stack[i].span);
      DrainTouchesStack(m, e, s.stack[i].span);
    }
  }

  /** A span below what an end takes off stays open. */
  lemma StaysOpen(q: State, end: Event, i: nat, ambient: Option<nat>)
    requires Valid(q, ambient) && Ends(end.kind) && i < |EndBase(q.stack, end)| - 1
    ensures q.stack[i].span < |Handle(q, end).spans| && Handle(q, end).spans[q.stack[i].span].closedBy == None
  {
    var r, id := Handle(q, end), q.stack[i].span;
    HandleStack(q, end);
    HandleKeepsValid(q, end, ambient);
    assert r.stack[i] == EndBase(q.stack, end)[i] == q.stack[i];
    assert r.stack[i].span < |r.spans| && OnStack(r, id);
  }

  /** The span an end takes off last is closed with the status meant for the operation's own. */
  lemma ClosedLast(q: State, end: Event, i: nat, ambient: Option<nat>)
    requires Valid(q, ambient) && Ends(end.kind) && i == |EndBase(q.stack, end)| - 1
    ensures q.stack[i].span < |Handle(q, end).spans|
    ensures var r := Handle(q, end).spans[q.stack[i].span];
      r.closedBy == Some(end) && r.status == OwnStatus(end)
  {
    if Drains(end.kind) {
      DrainLeavesBase(q, end);
      DrainKeepsValid(q, end, ambient);
    }
  }

  /** What is drained off before it is closed as leaked. */
  lemma ClosedAsLeaked(q: State, end: Event, i: nat, ambient: Option<nat>)
    requires Valid(q, ambient) && Ends(end.kind) && |EndBase(q.stack, end)| <= i < |q.stack|
    ensures q.stack[i].span < |Handle(q, end).spans|
    ensures var r := Handle(q, end).spans[q.stack[i].span];
      r.closedBy == Some(end) && r.status == LeakStatus(end)
  {
    DrainLeavesBase(q, end);
    DrainLeaks(q, end, i);
    var d := Drain(q, end);
    if d.stack != [] {
      assert d.stack[|d.stack| - 1] == q.stack[|d.stack| - 1];
    }
  }

  /** Before its end, the operation's own span is open at its place on the stack. */
  lemma BodyRuns(s: State, start: Event, body: seq<Item>, ambient: Option<nat>)
    requires Valid(s, ambient) && start.kind.Started? && Paired(body)
    ensures var q := Run(Open(s, start), EventsOf(body));
      && Valid(q, ambient) && Adds(q.stack, Open(s, start).stack, LeftOf(body))
      && |s.stack| < |q.stack| && q.stack[|s.stack|].span == |s.spans| && s.stack <= q.stack
  {
    var opening := Open(s, start);
    var q := Run(opening, EventsOf(body));
    OpenKeepsValid(s, start, ambient);
    RunKeepsValid(opening, EventsOf(body), ambient);
    RunAdds(opening, body);
    assert q.stack[|s.stack|] == opening.stack[|s.stack|];
    assert s.stack <= opening.stack;
  }

  /**
   The end of an operation closes the operation's own span, with its own status, if and only if
   its body leaves nothing open that the end does not drain, and the operation is not a migration
   that passes for a script, unless it failed with a message, which is then the status either way.
   */
  lemma OwnEndClosesOwn(s: State, start: Event, body: seq<Item>, end: Event, ambient: Option<nat>)
    requires Valid(s, ambient) && start.kind.Started? && Ends(end.kind) && end.kind.op == start.kind.op && Paired(body)
    ensures var r := Run(s, [start] + EventsOf(body) + [end]);
      && |s.spans| < |r.spans|
      && (r.spans[|s.spans|].closedBy == Some(end) && r.spans[|s.spans|].status == OwnStatus(end) <==>
          Reaches(body, end) && (!NamedScript(start) || end.error != ""))
  {
    var q := Run(Open(s, start), EventsOf(body));
    WholeRuns(s, start, body, end);
    BodyRuns(s, start, body, ambient);
    OwnPosition(s, start, q, body, end);
    if !Reaches(body, end) {
      StaysOpen(q, end, |s.stack|, ambient);
    } else if !NamedScript(start) {
      ClosedLast(q, end, |s.stack|, ambient);
    } else {
      ClosedAsLeaked(q, end, |s.stack|, ambient);
      StatusesDiffer(end);
    }
  }

  /** The two statuses an end gives are the same exactly when it carries a message. */
  lemma StatusesDiffer(end: Event)
    requires Ends(end.kind)
    ensures OwnStatus(end) == LeakStatus(end) <==> end.error != ""
  {
  }

  /**
   Whenever a migrate or undo end reaches its own span, it has closed every script its body left
   open as an error, and closes the own span last.
   */
  lemma ReachingEndCloses(s: State, start: Event, body: seq<Item>, end: Event, ambient: Option<nat>, i: nat)
    requires Valid(s, ambient) && start.kind.Started? && Drains(end.kind) && end.kind.op == start.kind.op
    requires Paired(body) && Reaches(body, end) && !NamedScript(start)
    requires |s.stack| < i < |Run(Open(s, start), EventsOf(body)).stack|
    ensures var q := Run(Open(s, start), EventsOf(body));
      var r := Run(s, [start] + EventsOf(body) + [end]);
      && q.stack[i].span < |r.spans|
      && r.spans[q.stack[i].span].closedBy == Some(end) && r.spans[q.stack[i].span].status == LeakStatus(end)
      && r.stack == s.stack && r.current == s.current
  {
    var q := Run(Open(s, start), EventsOf(body));
    WholeRuns(s, start, body, end);
    BodyRuns(s, start, body, ambient);
    OwnPosition(s, start, q, body, end);
    ClosedAsLeaked(q, end, i, ambient);
    HandleStack(q, end);
    HandleKeepsValid(q, end, ambient);
    BaseAtOwn(s, start, q, end);
    var r := Handle(q, end);
    assert CurrentBelow(r, |r.stack|, ambient) == CurrentBelow(s, |s.stack|, ambient);
  }

  lemma BaseAtOwn(s: State, start: Event, q: State, end: Event)
    requires s.stack <= q.stack && |EndBase(q.stack, end)| == |s.stack| + 1
    ensures EndBase(q.stack, end)[..|s.stack|] == s.stack
  {
  }

  /** Where an end's draining stops: above the own span, at it, or, if that passes for a script, below it. */
  lemma OwnPosition(s: State, start: Event, q: State, body: seq<Item>, end: Event)
    requires start.kind.Started? && Ends(end.kind) && end.kind.op == start.kind.op
    requires Adds(q.stack, Open(s, start).stack, LeftOf(body))
    ensures !Reaches(body, end) ==> |EndBase(q.stack, end)| > |s.stack| + 1
    ensures Reaches(body, end) && !NamedScript(start) ==> |EndBase(q.stack, end)| == |s.stack| + 1
    ensures Reaches(body, end) && NamedScript(start) ==> EndBase(q.stack, end) == Base(s.stack)
  {
    var opening := Open(s, start).stack;
    LooksLikeScript(start);
    assert opening[..|opening| - 1] == s.stack;
    if Drains(end.kind) {
      BaseAdds(q.stack, opening, LeftOf(body));
    }
  }

  /**
   The migration that passes for a script: its end closes it as leaked, then every script below
   it, and then, with the status meant for the migration, the innermost other span, if any.
   */
  lemma NamedScriptClosesOuter(s: State, start: Event, body: seq<Item>, end: Event, ambient: Option<nat>)
    requires Valid(s, ambient) && NamedScript(start) && Ends(end.kind) && end.kind.op == Migration
    requires Paired(body) && Reaches(body, end)
    ensures var r, base := Run(s, [start] + EventsOf(body) + [end]), Base(s.stack);
      && |s.spans| < |r.spans|
      && r.spans[|s.spans|].closedBy == Some(end) && r.spans[|s.spans|].status == LeakStatus(end)
      && r.stack == (if base == [] then [] else base[..|base| - 1])
      && (base != [] ==>
          var outer := base[|base| - 1].span;
          outer < |r.spans| && r.spans[outer].closedBy == Some(end) && r.spans[outer].status == OwnStatus(end))
  {
    var q := Run(Open(s, start), EventsOf(body));
    WholeRuns(s, start, body, end);
    BodyRuns(s, start, body, ambient);
    OwnPosition(s, start, q, body, end);
    ClosedAsLeaked(q, end, |s.stack|, ambient);
    HandleStack(q, end);
    var base := Base(s.stack);
    if base != [] {
      assert q.stack[|base| - 1] == base[|base| - 1];
      ClosedLast(q, end, |base| - 1, ambient);
    }
  }

  lemma OneItem(item: Item)
    ensures Paired([item]) <==> PairedItem(item)
    ensures LeftOf([item]) == LeftOfItem(item)
  {
    assert [item][1..] == [];
  }

  /** A validation with a script inside whose end is missing. */
  lemma ValidationLeftOpen(validate: Event, script: Event, validated: Event)
    requires validate.kind == Started(Validation) && validated.kind == Completed(Validation)
    requires script.kind == Started(Script)
    ensures var body := [Whole(validate, [Cut(script, [])], validated)];
      Paired(body) && LeftOf(body) == [false]
  {
    var inner := Cut(script, []);
    OneItem(inner);
    assert LeftOf([inner]) == [true];
    OneItem(Whole(validate, [inner], validated));
  }

  /**
   A script end missing under a validation inside a migrate: the validation's end closes the script,
   the migrate's end the validation, and the migrate's own span stays open.
   */
  lemma ScriptLeftUnderValidation(migrate: Event, validate: Event, script: Event, validated: Event, migrated: Event)
    requires migrate.kind == Started(Migration) && migrated.kind == Completed(Migration)
    requires validate.kind == Started(Validation) && validated.kind == Completed(Validation)
    requires script.kind == Started(Script)
    requires !NamedScript(migrate)
    ensures var body := [Whole(validate, [Cut(script, [])], validated)];
      var r := Run(State([], [], None, []), [migrate] + EventsOf(body) + [migrated]);
      Paired(body) && !Reaches(body, migrated) && 0 < |r.spans| && r.spans[0].closedBy == None
  {
    var s := State([], [], None, []);
    var body := [Whole(validate, [Cut(script, [])], validated)];
    ValidationLeftOpen(validate, script, validated);
    assert Valid(s, None);
    var q := Run(Open(s, migrate), EventsOf(body));
    WholeRuns(s, migrate, body, migrated);
    BodyRuns(s, migrate, body, None);
    OwnPosition(s, migrate, q, body, migrated);
    StaysOpen(q, migrated, 0, None);
  }

  /** Such an event, as a host might emit it: a successful run whose span ends as a leaked error. */
  lemma NamedScriptRun()
    ensures var start := Event(Started(Migration), "script", "", 0);
            var end := Event(Completed(Migration), "script", "", 0);
      Run(State([], [], None, []), [start, end]).spans == [Span(SCRIPT_NAME, Error(LEAK_MESSAGE), Some(end), 1)]
  {
    var start := Event(Started(Migration), "script", "", 0);
    var end := Event(Completed(Migration), "script", "", 0);
    LooksLikeScript(start);
    var s := State([], [], None, []);
    var opening := Open(s, start);
    assert opening.stack[..0] == [];
    assert opening.spans[0 := Span(SCRIPT_NAME, Error(LEAK_MESSAGE), Some(end), 1)]
        == [Span(SCRIPT_NAME, Error(LEAK_MESSAGE), Some(end), 1)];
    assert ScriptOnTop(opening);
    assert Drain(opening, end) == Pop(opening, end, LeakStatus(end));
    assert [start, end][1..] == [end] && [end][1..] == [];
    assert Run(s, [start, end]) == Run(opening, [end]) == Handle(opening, end);
  }

  // ---------------------------------------------------------------- in the words of the events

  /**
   What the own span of an operation says once its end has reached it: it is fine exactly if the end
   is a completed one without failures or message, and in error, with the message, otherwise.
   */
  lemma OwnSpanSays(s: State, start: Event, body: seq<Item>, end: Event, ambient: Option<nat>)
    requires Valid(s, ambient) && start.kind.Started? && end.kind in [Completed(start.kind.op), Failed(start.kind.op)]
    requires Paired(body) && Reaches(body, end) && !NamedScript(start)
    ensures var r := Run(s, [start] + EventsOf(body) + [end]);
      && |s.spans| < |r.spans| && r.spans[|s.spans|].closedBy == Some(end)
      && r.spans[|s.spans|].status ==
           if end.kind.Completed? && end.failures == 0 && end.error == "" then Ok else Error(end.error)
  {
    OwnEndClosesOwn(s, start, body, end, ambient);
  }

  lemma ThreeEvents(s: State, a: Event, b: Event, c: Event)
    ensures Run(s, [a, b, c]) == Handle(Handle(Handle(s, a), b), c)
  {
    assert [a, b, c][1..] == [b, c] && [b, c][1..] == [c] && [c][1..] == [];
    assert Run(s, [a, b, c]) == Run(Handle(s, a), [b, c]);
    assert Run(Handle(s, a), [b, c]) == Run(Handle(Handle(s, a), b), [c]);
  }

  /** The state in which the script runs. */
  lemma ScriptOpens(s: State, start: Event, script: Event)
    requires start.kind.Started? && script.kind == Started(Script)
    ensures var s1 := Open(s, start);
      var s2 := Open(s1, script);
      && Handle(Handle(s, start), script) == s2 && |s2.spans| == |s.spans| + 2
      && s2.stack ==
           s.stack + [Active(|s.spans|, s.current, SpanName(start)), Active(|s.spans| + 1, s1.current, SCRIPT_NAME)]
      && s2.stack[..|s2.stack| - 1] == s1.stack && s1.stack[..|s1.stack| - 1] == s.stack && ScriptOnTop(s2)
  {
  }

  /** Draining closes the script as leaked and stops at the operation. */
  lemma ScriptDrains(s: State, start: Event, script: Event, end: Event)
    requires start.kind in [Started(Migration), Started(Undo)] && script.kind == Started(Script) && !NamedScript(start)
    ensures var s1, s3, n := Open(s, start), Drain(Open(Open(s, start), script), end), |s.spans|;
      && s3.stack == s1.stack && s3.markers == s.markers
      && s3.spans == s1.spans + [Span(SCRIPT_NAME, LeakStatus(end), Some(end), 1)]
  {
    ScriptOpens(s, start, script);
    LooksLikeScript(start);
    var s1, s2 := Open(s, start), Open(Open(s, start), script);
    var s3 := Pop(s2, end, LeakStatus(end));
    assert !ScriptOnTop(s3) && Drain(s2, end) == Drain(s3, end) == s3;
    assert s3.spans == s1.spans + [Span(SCRIPT_NAME, LeakStatus(end), Some(end), 1)];
  }

  lemma LeakedScriptCloses(s: State, start: Event, script: Event, end: Event)
    requires start.kind in [Started(Migration), Started(Undo)] && script.kind == Started(Script) && !NamedScript(start)
    requires end.kind in [Completed(start.kind.op), Failed(start.kind.op)]
    ensures var r, n := Handle(Handle(Handle(s, start), script), end), |s.spans|;
      && |r.spans| == n + 2 && r.spans[n + 1].closedBy == Some(end) && r.markers == s.markers
      && r.spans[n + 1].status ==
           Error(if end.error == "" then "leaked script span (missing script end event)" else end.error)
      && r.spans[n].closedBy == Some(end) && r.stack == s.stack && r.current == s.current
  {
    ScriptOpens(s, start, script);
    ScriptDrains(s, start, script, end);
  }

  lemma ScriptTakesEnd(s: State, start: Event, script: Event, end: Event)
    requires start.kind.Started? && start.kind.op !in [Migration, Undo] && script.kind == Started(Script)
    requires end.kind in [Completed(start.kind.op), Failed(start.kind.op)]
    ensures var r, n := Handle(Handle(Handle(s, start), script), end), |s.spans|;
      && |r.spans| == n + 2 && r.spans[n + 1].closedBy == Some(end) && r.markers == s.markers
      && r.spans[n + 1].status ==
           (if end.kind.Completed? && end.failures == 0 && end.error == "" then Ok else Error(end.error))
      && r.spans[n].closedBy == None && |r.stack| == |s.stack| + 1 && r.current == Some(n)
  {
    ScriptOpens(s, start, script);
  }

  /**
   A script whose end is missing right before the end of its operation: a migrate or undo closes it
   as leaked, with its own message if it has one, and then itself; any other operation's end is taken
   for that of the script, and the operation stays open.
   */
  lemma ScriptEndMissing(s: State, start: Event, script: Event, end: Event)
    requires start.kind.Started? && end.kind in [Completed(start.kind.op), Failed(start.kind.op)]
    requires script.kind == Started(Script) && !NamedScript(start) && start.kind.op != Script
    ensures var r, n := Run(s, [start, script, end]), |s.spans|;
      && |r.spans| == n + 2 && r.spans[n + 1].closedBy == Some(end) && r.markers == s.markers
      && if start.kind.op in [Migration, Undo] then
           && r.spans[n + 1].status ==
                Error(if end.error == "" then "leaked script span (missing script end event)" else end.error)
           && r.spans[n].closedBy == Some(end) && r.stack == s.stack && r.current == s.current
         else
           && r.spans[n + 1].status ==
                (if end.kind.Completed? && end.failures == 0 && end.error == "" then Ok else Error(end.error))
           && r.spans[n].closedBy == None && |r.stack| == |s.stack| + 1 && r.current == Some(n)
  {
    ThreeEvents(s, start, script, end);
    if start.kind.op in [Migration, Undo] {
      LeakedScriptCloses(s, start, script, end);
    } else {
      ScriptTakesEnd(s, start, script, end);
    }
  }

  /** A marker goes to the span that is current, and to none if no span is open; it changes nothing else. */
  lemma MarkerGoesToCurrent(s: State, e: Event, ambient: Option<nat>)
    requires Valid(s, ambient) && e.kind == Marker
    ensures var r := Handle(s, e);
      && r.stack == s.stack && r.spans == s.spans && r.current == s.current
      && r.markers == if s.stack == [] then s.markers else s.markers + [(s.current.value, e)]
  {
  }

  /** The names of the spans. */
  lemma SpanIsNamed(s: State, e: Event)
    requires e.kind.Started?
    ensures var r := Handle(s, e);
      && |r.spans| == |s.spans| + 1
      && r.spans[|s.spans|].name == "dblift." +
           match e.kind.op
           case Migration => if e.operation == "" then "migrate" else e.operation
           case Script => "script"
           case Validation => "validate"
           case Info => "info"
           case Undo => "undo"
           case Clean => "clean"
           case Baseline => "baseline"
           case Repair => "repair"
  {
  }
}
