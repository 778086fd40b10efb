/** What every step of the event loop keeps, and conservation of events over every run. */
module LoopInvariants {
  import opened EventLoop

  // ---------------------------------------------------------------- the invariant

  /** The events in the loop's own queues. */
  function Inside(s: Loop): multiset<EventId> {
    multiset(s.queue) + multiset(s.swap)
  }

  /** Every place an event can wait in. */
  function Held(s: Loop): multiset<EventId> {
    multiset(s.heap.channel) + Inside(s)
  }

  ghost predicate Inv(s: Loop) {
    && (forall id <- Held(s) :: id < |s.heap.events| && Held(s)[id] == 1)
    && (s.mode.Idle? ==> s.swap == [])
    && (forall id <- s.workers :: id < |s.heap.events|)
    && (forall id :: 0 <= id < |s.heap.events| ==> EventInv(s.heap.events[id], id in s.workers))
    && (!s.mode.Halted? ==> forall id :: 0 <= id < |s.heap.events| ==> id in Held(s) || !s.heap.events[id].Continues())
  }

  /**
   The goroutine of an HTTP request runs exactly in PROGRESS, a ZeroMQ one in PROGRESS and never before it; a
   Redis message and a reload event go from INITIALIZE to COMPLETE at once, and a reload event is answered exactly
   when it is complete.
   */
  predicate EventInv(e: Event, working: bool) {
    match e.body
    case Http(phase) => working <==> phase == Progress
    case Zmq(phase, inbox) => (phase == Initialize ==> !working && inbox == []) && (phase == Progress ==> working)
    case PubSub(phase) => !working && (phase == Initialize || phase == Complete)
    case Reload(phase, _, answer) => !working && if answer.Some? then phase == Complete else phase == Initialize
    case _ => !working
  }

  // ---------------------------------------------------------------- what Lua calls can do to the heap

  /** An event as a call that made it may leave it: fresh, or already stopped again. */
  predicate Posted(e: Event) {
    match e.body
    case Timer(_, delay, period) => delay == 0 || period == 0
    case Zmq(phase, inbox) => (phase == Initialize || phase == Complete) && inbox == []
    case Reload(_, _, _) => false
    case _ => e.body.phase == Initialize
  }

  /** From `h` to `k` every event but `id` was at most stopped, and what was posted is at the channel's end. */
  predicate Touched(h: Heap, k: Heap, id: EventId) {
    && |h.events| <= |k.events|
    && k.channel == h.channel + Ids(|h.events|, |k.events| - |h.events|)
    && (forall i :: 0 <= i < |h.events| && i != id ==>
          k.events[i] == h.events[i] || k.events[i] == h.events[i].Stopped())
    && (forall i :: |h.events| <= i < |k.events| ==> Posted(k.events[i]))
  }

  lemma TouchedTransitive(h: Heap, j: Heap, k: Heap, id: EventId)
    requires Touched(h, j, id) && Touched(j, k, id) && id < |h.events|
    ensures Touched(h, k, id)
  {
    assert Ids(|h.events|, |k.events| - |h.events|) ==
           Ids(|h.events|, |j.events| - |h.events|) + Ids(|j.events|, |k.events| - |j.events|);
    forall i | 0 <= i < |h.events| && i != id
      ensures k.events[i] == h.events[i] || k.events[i] == h.events[i].Stopped()
    {
      assert h.events[i].Stopped().Stopped() == h.events[i].Stopped();
      assert j.events[i] == h.events[i] || j.events[i] == h.events[i].Stopped();
      assert k.events[i] == j.events[i] || k.events[i] == j.events[i].Stopped();
    }
    forall i | |h.events| <= i < |k.events|
      ensures Posted(k.events[i])
    {
      if i < |j.events| {
        assert k.events[i] == j.events[i] || k.events[i] == j.events[i].Stopped();
      }
    }
  }

  lemma CallTouches(h: Heap, out: Outcome, id: EventId)
    requires Plausible(out)
    ensures Touched(h, Call(h, out), id)
  {
    var k := Call(h, out);
    forall i | |h.events| <= i < |k.events|
      ensures Posted(k.events[i])
    {
      assert out.posts[i - |h.events|].Fresh();
    }
  }

  lemma SetBodyTouches(h: Heap, id: EventId, body: Body)
    requires id < |h.events|
    ensures Touched(h, SetBody(h, id, body), id)
  {
  }

  lemma {:induction false} HandOutTouches(h: Heap, id: EventId, outs: seq<Outcome>)
    requires id < |h.events| && h.events[id].body.Zmq?
    requires |outs| <= |h.events[id].body.inbox|
    requires forall out <- outs :: Plausible(out)
    ensures Touched(h, HandOut(h, id, outs).heap, id)
    decreases |outs|
  {
    if outs != [] {
      var z := h.events[id].body;
      var popped := SetBody(h, id, z.(inbox := z.inbox[1..]));
      var called := Call(popped, outs[0]);
      CallTouches(popped, outs[0], id);
      TouchedTransitive(h, popped, called, id);
      if !outs[0].ret.Raised? {
        HandOutTouches(called, id, outs[1..]);
        TouchedTransitive(h, called, HandOut(called, id, outs[1..]).heap, id);
      }
    }
  }

  /** Changing one event is within the frame of that event. */
  lemma TouchedThenSet(h: Heap, j: Heap, id: EventId, body: Body)
    requires Touched(h, j, id) && id < |h.events|
    ensures Touched(h, SetBody(j, id, body), id)
  {
    SetBodyTouches(j, id, body);
    TouchedTransitive(h, j, SetBody(j, id, body), id);
  }

  lemma UpdateTimerTouches(h: Heap, id: EventId, elapsed: Duration, outs: seq<Outcome>)
    requires id < |h.events| && h.events[id].body.Timer?
    requires Shaped(outs, Calls(h.events[id], elapsed))
    ensures Touched(h, UpdateTimer(h, id, elapsed, outs).heap, id)
  {
    var t := h.events[id].body;
    var ticked := SetBody(h, id, t.(delay := t.delay - elapsed));
    SetBodyTouches(h, id, t.(delay := t.delay - elapsed));
    if t.delay - elapsed <= 0 {
      assert outs != [] && Plausible(outs[0]);
      hide Touched, Shaped, Calls, Plausible;
      FiredTimerTouches(h, ticked, id, outs[0]);
    }
  }

  lemma FiredTimerTouches(h: Heap, ticked: Heap, id: EventId, out: Outcome)
    requires Touched(h, ticked, id) && id < |h.events| && Plausible(out)
    ensures var called := Call(ticked, out);
            && id < |called.events| && Touched(h, called, id)
            && forall body :: Touched(h, SetBody(called, id, body), id)
  {
    var called := Call(ticked, out);
    CallTouches(ticked, out, id);
    hide Call, Plausible;
    TouchedTransitive(h, ticked, called, id);
    assert id < |called.events|;
    hide Touched;
    forall body
      ensures Touched(h, SetBody(called, id, body), id)
    {
      TouchedThenSet(h, called, id, body);
    }
  }

  lemma FireOnceTouches(h: Heap, id: EventId, out: Outcome)
    requires id < |h.events| && !h.events[id].body.Timer?
    requires Plausible(out)
    ensures Touched(h, FireOnce(h, id, out), id)
  {
    CallTouches(h, out, id);
  }

  lemma UpdateTouches(h: Heap, id: EventId, elapsed: Duration, outs: seq<Outcome>)
    requires id < |h.events|
    requires Shaped(outs, Calls(h.events[id], elapsed))
    ensures Touched(h, Update(h, id, elapsed, outs).heap, id)
  {
    var e := h.events[id];
    if e.body.Timer? {
      UpdateTimerTouches(h, id, elapsed, outs);
    } else if e.body.Zmq? {
      HandOutTouches(h, id, if e.body.phase == Progress then outs else []);
    } else if Calls(e, elapsed) == 1 {
      FireOnceTouches(h, id, outs[0]);
    }
  }

  /** Handing out keeps a ZeroMQ event in its phase unless a script stops it. */
  lemma {:induction false} HandOutSelf(h: Heap, id: EventId, outs: seq<Outcome>)
    requires id < |h.events| && h.events[id].body.Zmq?
    requires |outs| <= |h.events[id].body.inbox|
    ensures var k := HandOut(h, id, outs).heap;
            && id < |k.events| && k.events[id].body.Zmq?
            && k.events[id].body.phase in {h.events[id].body.phase, Complete}
    decreases |outs|
  {
    if outs != [] {
      var z := h.events[id].body;
      var called := Call(SetBody(h, id, z.(inbox := z.inbox[1..])), outs[0]);
      assert called.events[id].body.phase in {z.phase, Complete};
      if !outs[0].ret.Raised? {
        HandOutSelf(called, id, outs[1..]);
      }
    }
  }

  lemma UpdateSelf(h: Heap, id: EventId, elapsed: Duration, outs: seq<Outcome>, working: bool)
    requires id < |h.events| && h.events[id].Valid()
    requires Shaped(outs, Calls(h.events[id], elapsed))
    requires EventInv(h.events[id], working)
    ensures var k := Update(h, id, elapsed, outs).heap;
            id < |k.events| && EventInv(k.events[id], working || id in Spawned(h.events[id], id))
  {
    if h.events[id].body.Zmq? && h.events[id].body.phase == Progress {
      HandOutSelf(h, id, outs);
    }
    UpdateKeepsIdentity(h, id, elapsed, outs);
  }

  // ---------------------------------------------------------------- preservation

  lemma StoppedKeepsEventInv(e: Event, working: bool)
    requires EventInv(e, working)
    ensures EventInv(e.Stopped(), working)
    ensures e.Stopped().Continues() ==> e.Continues()
  {
  }

  lemma NewHeld(s: Loop, k: Heap, id: EventId)
    requires Inv(s) && Touched(s.heap, k, id)
    ensures var bag := multiset(k.channel);
            forall i :: bag[i] == multiset(s.heap.channel)[i] + if |s.heap.events| <= i < |k.events| then 1 else 0
  {
    var news := Ids(|s.heap.events|, |k.events| - |s.heap.events|);
    IdsBag(|s.heap.events|, |k.events| - |s.heap.events|);
    assert multiset(k.channel) == multiset(s.heap.channel) + multiset(news);
  }

  lemma NewIsSent(s: Loop, k: Heap, id: EventId, i: EventId)
    requires Inv(s) && Touched(s.heap, k, id) && |s.heap.events| <= i < |k.events|
    ensures multiset(k.channel)[i] == 1
  {
    NewHeld(s, k, id);
    hide Touched;
    assert i !in Held(s);
    assert multiset(s.heap.channel)[i] == 0;
  }

  lemma {:induction false} IdsBag(from: nat, count: nat)
    ensures forall i :: multiset(Ids(from, count))[i] == if from <= i < from + count then 1 else 0
  {
    if count > 0 {
      IdsBag(from, count - 1);
      assert Ids(from, count) == Ids(from, count - 1) + [from + count - 1];
    }
  }

  /** Posting and stopping events outside the loop. */
  lemma OutsideKeepsInv(s: Loop, t: Loop)
    requires Inv(s) && t == s.(heap := t.heap)
    requires Touched(s.heap, t.heap, |t.heap.events|)
    ensures Inv(t)
  {
    NewHeld(s, t.heap, |t.heap.events|);
    assert Inside(t) == Inside(s);
    forall i | 0 <= i < |t.heap.events|
      ensures EventInv(t.heap.events[i], i in t.workers)
      ensures !t.mode.Halted? ==> i in Held(t) || !t.heap.events[i].Continues()
    {
      if i < |s.heap.events| {
        StoppedKeepsEventInv(s.heap.events[i], i in s.workers);
        assert Held(t)[i] == Held(s)[i];
      } else {
        assert Posted(t.heap.events[i]);
        NewIsSent(s, t.heap, |t.heap.events|, i);
      }
    }
    forall i | i in Held(t)
      ensures i < |t.heap.events| && Held(t)[i] == 1
    {
      if i >= |s.heap.events| {
        assert i !in Held(s);
        assert Inside(s)[i] == 0 && multiset(s.heap.channel)[i] == 0;
      } else {
        assert Held(t)[i] == Held(s)[i];
      }
    }
  }

  lemma ScriptKeepsInv(s: Loop, out: Outcome)
    requires Inv(s) && Plausible(out)
    ensures Inv(s.(heap := Call(s.heap, out)))
  {
    var k := Call(s.heap, out);
    CallTouches(s.heap, out, |k.events|);
    hide Call, Inv;
    OutsideKeepsInv(s, s.(heap := k));
  }

  /** From `s` to `t` event `id` may change and move; what waits and runs for the others stays. */
  ghost predicate Moved(s: Loop, t: Loop, id: EventId) {
    && Touched(s.heap, t.heap, id) && id < |s.heap.events|
    && t.workers - {id} == s.workers - {id}
    && (forall i :: i != id ==> Inside(t)[i] == Inside(s)[i])
  }

  lemma MovedKeepsHeld(s: Loop, t: Loop, id: EventId, i: EventId)
    requires Inv(s) && Moved(s, t, id) && i != id
    ensures i < |s.heap.events| ==> Held(t)[i] == Held(s)[i]
    ensures |s.heap.events| <= i < |t.heap.events| ==> Held(t)[i] == 1
    ensures i >= |t.heap.events| ==> Held(t)[i] == 0
  {
    NewHeld(s, t.heap, id);
    hide Touched;
    if i >= |s.heap.events| {
      assert i !in Held(s);
      assert Inside(s)[i] == 0 && multiset(s.heap.channel)[i] == 0;
    }
  }

  lemma MovedKeepsEvent(s: Loop, t: Loop, id: EventId, i: EventId)
    requires Inv(s) && Moved(s, t, id) && i != id && i < |t.heap.events|
    requires !t.mode.Halted? ==> !s.mode.Halted?
    ensures EventInv(t.heap.events[i], i in t.workers)
    ensures !t.mode.Halted? ==> i in Held(t) || !t.heap.events[i].Continues()
  {
    MovedKeepsHeld(s, t, id, i);
    assert i in t.workers <==> i in t.workers - {id};
    assert i in s.workers <==> i in s.workers - {id};
    hide Held;
    if i < |s.heap.events| {
      StoppedKeepsEventInv(s.heap.events[i], i in s.workers);
    } else {
      assert Posted(t.heap.events[i]);
    }
  }

  lemma HeapStepKeepsInv(s: Loop, t: Loop, id: EventId)
    requires Inv(s) && Touched(s.heap, t.heap, id) && id < |s.heap.events|
    requires t.mode.Idle? ==> t.swap == []
    requires t.workers - {id} == s.workers - {id}
    requires forall i :: i != id ==> Inside(t)[i] == Inside(s)[i]
    requires Held(t)[id] <= 1
    requires EventInv(t.heap.events[id], id in t.workers)
    requires !t.mode.Halted? ==> !s.mode.Halted? && (id in Held(t) || !t.heap.events[id].Continues())
    ensures Inv(t)
  {
    assert Moved(s, t, id);
    forall i | i in t.workers
      ensures i < |t.heap.events|
    {
      assert i != id ==> i in s.workers - {id};
    }
    hide Moved, Held, Inside, EventInv;
    forall i: EventId | i in Held(t)
      ensures i < |t.heap.events| && Held(t)[i] == 1
    {
      if i != id {
        MovedKeepsHeld(s, t, id, i);
        assert i < |s.heap.events| ==> i in Held(s);
      }
    }
    forall i | 0 <= i < |t.heap.events|
      ensures EventInv(t.heap.events[i], i in t.workers)
      ensures !t.mode.Halted? ==> i in Held(t) || !t.heap.events[i].Continues()
    {
      if i != id {
        MovedKeepsEvent(s, t, id, i);
      }
    }
  }

  /** What one turn of the inner loop does to a popped event that is valid, whatever its kind. */
  ghost predicate Drained(s: Loop, t: Loop) {
    && s.mode.Draining? && s.queue != [] && s.queue[0] < |s.heap.events|
    && var id := s.queue[0];
    && Touched(s.heap, t.heap, id)
    && Later(s.heap.events[id], t.heap.events[id])
    && EventInv(t.heap.events[id], id in t.workers)
    && t.queue == s.queue[1..]
    && t.workers - {id} == s.workers - {id}
    && (t.mode == s.mode || t.mode == Halted)
    && t.swap == if t.mode == s.mode && t.heap.events[id].Continues() then s.swap + [id] else s.swap
  }

  lemma DrainDrains(s: Loop, outs: seq<Outcome>)
    requires Inv(s) && Enabled(s, Drain(outs)) && s.heap.events[s.queue[0]].Valid()
    ensures Drained(s, DrainStep(s, outs))
  {
    var id := s.queue[0];
    UpdateTouches(s.heap, id, s.mode.elapsed, outs);
    UpdateSelf(s.heap, id, s.mode.elapsed, outs, id in s.workers);
    UpdateKeepsIdentity(s.heap, id, s.mode.elapsed, outs);
  }

  lemma DrainedKeepsInv(s: Loop, t: Loop)
    requires Inv(s) && Drained(s, t)
    ensures Inv(t)
  {
    var id, rest := s.queue[0], s.queue[1..];
    assert s.queue == [id] + rest;
    assert multiset(s.queue) == multiset{id} + multiset(rest);
    assert id in Held(s);
    NewHeld(s, t.heap, id);
    assert Held(s)[id] == 1;
    HeapStepKeepsInv(s, t, id);
  }

  /** Events may move between the places they wait in. */
  lemma MovedKeepsInv(s: Loop, t: Loop)
    requires Inv(s) && t.heap.events == s.heap.events && t.workers == s.workers
    requires t.mode.Idle? ==> t.swap == []
    requires !t.mode.Halted? ==> !s.mode.Halted?
    requires forall id :: Held(t)[id] == Held(s)[id] ||
                          (Held(t)[id] == 0 && id < |s.heap.events| && !s.heap.events[id].Continues())
    ensures Inv(t)
  {
    forall id | id in Held(t)
      ensures id < |t.heap.events| && Held(t)[id] == 1
    {
      assert id in Held(s);
    }
  }

  lemma SkipKeepsInv(s: Loop)
    requires Inv(s) && s.mode.Draining? && s.queue != []
    requires s.queue[0] < |s.heap.events| && !s.heap.events[s.queue[0]].Valid()
    ensures Inv(s.(queue := s.queue[1..]))
  {
    var id, rest := s.queue[0], s.queue[1..];
    var t := s.(queue := rest);
    assert s.queue == [id] + rest;
    assert multiset(s.queue) == multiset{id} + multiset(rest);
    assert Held(s) == Held(t) + multiset{id};
    assert id in Held(s);
    MovedKeepsInv(s, t);
  }

  lemma ReceiveKeepsInv(s: Loop)
    requires Inv(s) && Enabled(s, Receive)
    ensures Inv(Step(s, Receive))
  {
    var ch, t := s.heap.channel, Step(s, Receive);
    assert ch == [ch[0]] + ch[1..];
    assert multiset(ch) == multiset([ch[0]]) + multiset(ch[1..]);
    hide Inv, Step;
    assert Held(t) == Held(s);
    MovedKeepsInv(s, t);
  }

  lemma MoveStepKeepsInv(s: Loop, l: Label)
    requires Inv(s) && Enabled(s, l) && (l.Begin? || l.End? || l.Quit? || l.Cancel?)
    ensures Inv(Step(s, l))
  {
    assert Held(Step(s, l)) == Held(s);
    hide Inv;
    MovedKeepsInv(s, Step(s, l));
  }

  lemma OrderKeepsInv(s: Loop, hotfix: bool)
    requires Inv(s)
    ensures Inv(Step(s, Order(hotfix)))
  {
    var id: EventId := |s.heap.events|;
    var t := Step(s, Order(hotfix));
    assert id !in Held(s);
    assert multiset(t.heap.channel) == multiset(s.heap.channel) + multiset([id]);
    assert Held(t) == Held(s) + multiset([id]);
  }

  /** What the goroutine of event `id` leaves behind. */
  ghost predicate Worked(s: Loop, t: Loop, id: EventId) {
    && id < |s.heap.events| && id < |t.heap.events|
    && Touched(s.heap, t.heap, id) && t.heap.channel == s.heap.channel && t.workers - {id} == s.workers - {id}
    && t.queue == s.queue && t.swap == s.swap && t.mode == s.mode
    && EventInv(t.heap.events[id], id in t.workers)
    && (t.heap.events[id].Continues() ==> s.heap.events[id].Continues())
  }

  lemma SetByWorker(s: Loop, t: Loop, id: EventId, body: Body, ends: bool)
    requires id < |s.heap.events|
    requires t == s.(heap := SetBody(s.heap, id, body), workers := if ends then s.workers - {id} else s.workers)
    requires EventInv(s.heap.events[id].(body := body), id in t.workers)
    requires s.heap.events[id].(body := body).Continues() ==> s.heap.events[id].Continues()
    ensures Worked(s, t, id)
  {
    SetBodyTouches(s.heap, id, body);
    hide Touched, EventInv;
  }

  lemma WorkerStep(s: Loop, l: Label)
    requires Inv(s) && Enabled(s, l) && (l.Respond? || l.Frame? || l.Hangup?)
    ensures Worked(s, Step(s, l), l.id)
  {
    var e := s.heap.events[l.id];
    assert EventInv(e, true);
    hide Inv, Update, Worked;
    match l
    case Respond(id) => SetByWorker(s, Step(s, l), id, Http(Finalize), true);
    case Hangup(id) => SetByWorker(s, Step(s, l), id, Completed(e.body), true);
    case Frame(id, packet) =>
      var body := if packet.Some? then e.body.(inbox := e.body.inbox + [packet.value]) else e.body;
      assert e.(body := e.body) == e;
      assert SetBody(s.heap, id, e.body) == s.heap;
      SetByWorker(s, Step(s, l), id, body, false);
  }

  lemma WorkerStepKeepsInv(s: Loop, l: Label)
    requires Inv(s) && Enabled(s, l) && (l.Respond? || l.Frame? || l.Hangup?)
    ensures Inv(Step(s, l))
  {
    WorkerStep(s, l);
    hide Step, Touched, EventInv;
    var t := Step(s, l);
    assert Held(t) == Held(s);
    HeapStepKeepsInv(s, t, l.id);
  }

  lemma StepKeepsInv(s: Loop, l: Label)
    requires Inv(s) && Enabled(s, l)
    ensures Inv(Step(s, l))
  {
    match l
    case Drain(outs) =>
      if s.heap.events[s.queue[0]].Valid() {
        DrainDrains(s, outs);
        DrainedKeepsInv(s, DrainStep(s, outs));
      } else {
        SkipKeepsInv(s);
      }
    case Script(out) => ScriptKeepsInv(s, out);
    case Order(hotfix) => OrderKeepsInv(s, hotfix);
    case Respond(_) => WorkerStepKeepsInv(s, l);
    case Frame(_, _) => WorkerStepKeepsInv(s, l);
    case Hangup(_) => WorkerStepKeepsInv(s, l);
    case Receive => ReceiveKeepsInv(s);
    case _ => MoveStepKeepsInv(s, l);
  }

  lemma {:induction false} RunKeepsInv(s: Loop, ls: seq<Label>)
    requires Inv(s) && Legal(s, ls)
    ensures Inv(Run(s, ls))
    decreases |ls|
  {
    if ls != [] {
      StepKeepsInv(s, ls[0]);
      RunKeepsInv(Step(s, ls[0]), ls[1..]);
    }
  }
}
