/** What ends the loop, and what the result of one call decides for the rest of the run. */
module LoopEnds {
  import opened EventLoop
  import opened LoopInvariants
  import opened LoopRuns

  // ---------------------------------------------------------------- errors

  predicate Raises(outs: seq<Outcome>) {
    exists out <- outs :: out.ret.Raised?
  }

  lemma {:induction false} HandOutOkIff(h: Heap, id: EventId, outs: seq<Outcome>)
    requires id < |h.events| && h.events[id].body.Zmq? && |outs| <= |h.events[id].body.inbox|
    requires forall i :: 0 <= i < |outs| - 1 ==> !outs[i].ret.Raised?
    ensures HandOut(h, id, outs).ok <==> !Raises(outs)
    decreases |outs|
  {
    if outs != [] && !outs[0].ret.Raised? {
      var z := h.events[id].body;
      HandOutOkIff(Call(SetBody(h, id, z.(inbox := z.inbox[1..])), outs[0]), id, outs[1..]);
      assert outs == [outs[0]] + outs[1..];
    }
  }

  /** Update returns an error exactly if a call did, but for reload events, whose errors go to the watcher. */
  lemma UpdateOkIff(h: Heap, id: EventId, elapsed: Duration, outs: seq<Outcome>)
    requires id < |h.events| && Shaped(outs, Calls(h.events[id], elapsed))
    ensures Update(h, id, elapsed, outs).ok <==> h.events[id].body.Reload? || !Raises(outs)
  {
    if h.events[id].body.Zmq? && h.events[id].body.phase == Progress {
      HandOutOkIff(h, id, outs);
    } else {
      assert outs == [] || outs == [outs[0]];
      hide Call, FireOnce;
    }
  }

  /** A turn ends the loop exactly if a call of an event that is no reload event raises an error. */
  lemma RaiseHalts(s: Loop, outs: seq<Outcome>)
    requires Enabled(s, Drain(outs)) && s.heap.events[s.queue[0]].Valid()
    ensures Step(s, Drain(outs)).mode.Halted? <==> !s.heap.events[s.queue[0]].body.Reload? && Raises(outs)
  {
    UpdateOkIff(s.heap, s.queue[0], s.mode.elapsed, outs);
    hide Update;
  }

  /** After an error nothing more is received, updated or called, whatever else goes on. */
  lemma NothingAfterRaise(s: Loop, outs: seq<Outcome>, ls: seq<Label>)
    requires Enabled(s, Drain(outs)) && s.heap.events[s.queue[0]].Valid()
    requires !s.heap.events[s.queue[0]].body.Reload? && Raises(outs)
    requires Legal(Step(s, Drain(outs)), ls)
    ensures Run(Step(s, Drain(outs)), ls).mode.Halted? && Trace(Step(s, Drain(outs)), ls) == []
  {
    RaiseHalts(s, outs);
    NothingAfterHalt(Step(s, Drain(outs)), ls);
  }

  /** The loop ends by an error of a call, or between ticks once its context is cancelled, and in no other way. */
  lemma HaltsIff(s: Loop, l: Label)
    requires Enabled(s, l) && !s.mode.Halted?
    ensures Step(s, l).mode.Halted? <==>
            || (l.Quit? && s.cancelled)
            || (l.Drain? && s.heap.events[s.queue[0]].Valid()
                && !s.heap.events[s.queue[0]].body.Reload? && Raises(l.outs))
  {
    if l.Drain? && s.heap.events[s.queue[0]].Valid() {
      RaiseHalts(s, l.outs);
    }
    hide Update;
  }

  // ---------------------------------------------------------------- exit

  /** The context is cancelled by the Update of an exit event or from outside; the tick under way goes on. */
  lemma CancelledIff(s: Loop, l: Label)
    requires Enabled(s, l)
    ensures Step(s, l).cancelled <==>
            || s.cancelled || l.Cancel?
            || (l.Drain? && s.heap.events[s.queue[0]].Valid() && s.heap.events[s.queue[0]].body.Exit?)
    ensures l.Drain? && s.heap.events[s.queue[0]].body.Exit? ==> Step(s, l).mode == s.mode
  {
    hide HandOut, FireOnce, UpdateTimer;
  }

  /** Once cancelled, for ever; and between ticks the loop may then end. */
  lemma {:induction false} CancelledForever(s: Loop, ls: seq<Label>)
    requires Legal(s, ls) && s.cancelled
    ensures Run(s, ls).cancelled && (Run(s, ls).mode.Idle? ==> Enabled(Run(s, ls), Quit))
    decreases |ls|
  {
    if ls != [] {
      CancelledIff(s, ls[0]);
      hide Step;
      CancelledForever(Step(s, ls[0]), ls[1..]);
    }
  }

  // ---------------------------------------------------------------- stopping

  /** The results of the calls made in a step. */
  function Outs(l: Label): seq<Outcome> {
    match l
    case Script(out) => [out]
    case Drain(outs) => outs
    case _ => []
  }

  predicate Stoppable(e: Event) {
    e.body.Timer? || e.body.Zmq?
  }

  predicate Stops(outs: seq<Outcome>, id: EventId) {
    exists out <- outs :: id in out.stops
  }

  lemma CallStops(h: Heap, out: Outcome, id: EventId)
    requires id < |h.events| && Stoppable(h.events[id]) && id in out.stops
    ensures var k := Call(h, out); id < |k.events| && Stoppable(k.events[id]) && !k.events[id].Valid()
  {
  }

  lemma {:induction false} HandOutStops(h: Heap, head: EventId, outs: seq<Outcome>, id: EventId)
    requires head < |h.events| && h.events[head].body.Zmq? && |outs| <= |h.events[head].body.inbox|
    requires forall i :: 0 <= i < |outs| - 1 ==> !outs[i].ret.Raised?
    requires id < |h.events| && Stoppable(h.events[id]) && Stops(outs, id)
    ensures var k := HandOut(h, head, outs).heap; id < |k.events| && !k.events[id].Valid()
    decreases |outs|
  {
    var z := h.events[head].body;
    var popped := SetBody(h, head, z.(inbox := z.inbox[1..]));
    var called := Call(popped, outs[0]);
    if !outs[0].ret.Raised? {
      HandOutKeepsIdentity(called, head, outs[1..]);
      assert outs == [outs[0]] + outs[1..];
    }
    if id in outs[0].stops {
      CallStops(popped, outs[0], id);
    } else {
      CallKeepsIdentity(popped, outs[0]);
      assert Later(popped.events[id], called.events[id]);
      HandOutStops(called, head, outs[1..], id);
    }
  }

  lemma UpdateStops(h: Heap, head: EventId, elapsed: Duration, outs: seq<Outcome>, id: EventId)
    requires head < |h.events| && Shaped(outs, Calls(h.events[head], elapsed))
    requires id < |h.events| && Stoppable(h.events[id]) && Stops(outs, id)
    ensures var k := Update(h, head, elapsed, outs).heap; id < |k.events| && !k.events[id].Valid()
  {
    if h.events[head].body.Zmq? && h.events[head].body.phase == Progress {
      HandOutStops(h, head, outs, id);
      hide HandOut, Call;
    } else {
      assert outs == [outs[0]];
      var e := h.events[head];
      var before := if e.body.Timer? then SetBody(h, head, e.body.(delay := e.body.delay - elapsed)) else h;
      CallStops(before, outs[0], id);
      hide Call;
    }
  }

  /** A timer or socket that any call of a step stops is invalid after that step, its own call or not. */
  lemma StopIsObeyed(s: Loop, l: Label, id: EventId)
    requires Enabled(s, l) && id < |s.heap.events| && Stoppable(s.heap.events[id]) && Stops(Outs(l), id)
    ensures id < |Step(s, l).heap.events| && !Step(s, l).heap.events[id].Valid()
  {
    if l.Script? {
      CallStops(s.heap, l.out, id);
    } else {
      UpdateStops(s.heap, s.queue[0], s.mode.elapsed, l.outs, id);
      hide Update;
    }
  }

  /** So its function is never called again, in any continuation of the run. */
  lemma StoppedByCallNeverRuns(s: Loop, l: Label, ls: seq<Label>, id: EventId)
    requires Inv(s) && Enabled(s, l) && id < |s.heap.events| && Stoppable(s.heap.events[id]) && Stops(Outs(l), id)
    requires Legal(Step(s, l), ls)
    ensures forall e <- Trace(Step(s, l), ls) :: e.id == id ==> e.Received? || e.Skipped?
  {
    StopIsObeyed(s, l, id);
    StepKeepsInv(s, l);
    hide Step;
    StoppedNeverRuns(Step(s, l), ls, id);
  }

  // ---------------------------------------------------------------- what a timer's callback decides

  lemma TimerUpdate(h: Heap, id: EventId, elapsed: Duration, outs: seq<Outcome>)
    requires id < |h.events| && h.events[id].body.Timer? && h.events[id].Valid()
    requires Shaped(outs, Calls(h.events[id], elapsed))
    ensures var t, r := h.events[id].body, Update(h, id, elapsed, outs);
            && id < |r.heap.events| && r.heap.events[id].body.Timer?
            && if t.delay > elapsed then
                 && outs == [] && r.trace == [] && r.heap.events[id].Continues()
                 && r.heap.events[id].body == t.(delay := t.delay - elapsed)
               else
                 && |outs| == 1 && r.trace == [Fired(id)]
                 && (outs[0].ret.No? ==> !r.heap.events[id].Valid())
                 && (outs[0].ret.Yes? ==> r.heap.events[id].body.delay == t.period)
                 && (outs[0].ret.Yes? ==> r.heap.events[id].Valid() == (id !in outs[0].stops))
  {
  }

  /**
   A timer is called when its delay has gone by and not before.  If its function returns true it waits a period
   and goes on, unless it has none or has been stopped meanwhile; if it returns anything else it is dropped.
   */
  lemma CallbackDecides(s: Loop, outs: seq<Outcome>)
    requires Enabled(s, Drain(outs))
    requires s.heap.events[s.queue[0]].body.Timer? && s.heap.events[s.queue[0]].Valid()
    ensures var id, t, tr := s.queue[0], Step(s, Drain(outs)), Emit(s, Drain(outs));
            var before := s.heap.events[id].body;
            && id < |t.heap.events| && t.heap.events[id].body.Timer?
            && if before.delay > s.mode.elapsed then
                 && tr == [Updated(id), Kept(id)]
                 && t.heap.events[id].body == before.(delay := before.delay - s.mode.elapsed)
               else
                 && |outs| == 1
                 && match outs[0].ret
                    case Raised => tr == [Updated(id), Fired(id), Failed(id)]
                    case No => tr == [Updated(id), Fired(id), Dropped(id)] && !t.heap.events[id].Valid()
                    case Yes =>
                      && t.heap.events[id].body.delay == before.period
                      && tr == [Updated(id), Fired(id),
                                if before.period > 0 && id !in outs[0].stops then Kept(id) else Dropped(id)]
  {
    TimerUpdate(s.heap, s.queue[0], s.mode.elapsed, outs);
    UpdateOkIff(s.heap, s.queue[0], s.mode.elapsed, outs);
    hide Update;
  }

  /** A timer whose function does not return true is never heard of again. */
  lemma RefusedIsGone(s: Loop, outs: seq<Outcome>, ls: seq<Label>)
    requires Inv(s) && Enabled(s, Drain(outs)) && Legal(Step(s, Drain(outs)), ls)
    requires s.heap.events[s.queue[0]].body.Timer? && s.heap.events[s.queue[0]].Valid()
    requires outs != [] && outs[0].ret.No?
    ensures forall e <- Trace(Step(s, Drain(outs)), ls) :: e.id != s.queue[0]
  {
    var id, t := s.queue[0], Step(s, Drain(outs));
    CallbackDecides(s, outs);
    StepKeepsInv(s, Drain(outs));
    StepConserves(s, Drain(outs), id);
    DroppedCount(Emit(s, Drain(outs)), id);
    HeldOnce(s, id);
    hide Step, Emit, Enabled, Inv;
    GoneForever(t, ls, id);
  }

  lemma DroppedCount(tr: seq<Entry>, id: EventId)
    requires tr == [Updated(id), Fired(id), Dropped(id)]
    ensures Departures(tr, id) == 1 && Count(tr, Received(id)) == 0
  {
  }

  lemma HeldOnce(s: Loop, id: EventId)
    requires Inv(s) && s.queue != [] && s.queue[0] == id
    ensures Held(s)[id] == 1 && multiset(s.heap.channel)[id] == 0
  {
    assert id in Inside(s);
  }

  // ---------------------------------------------------------------- the channel

  /** The events a trace says have been received, in order. */
  function Receptions(tr: seq<Entry>): seq<EventId> {
    if tr == [] then [] else (if tr[0].Received? then [tr[0].id] else []) + Receptions(tr[1..])
  }

  lemma {:induction false} ReceptionsAdd(a: seq<Entry>, b: seq<Entry>)
    ensures Receptions(a + b) == Receptions(a) + Receptions(b)
  {
    if a == [] {
      assert a + b == b;
    } else {
      assert (a + b)[0] == a[0] && (a + b)[1..] == a[1..] + b;
      ReceptionsAdd(a[1..], b);
    }
  }

  lemma {:induction false} NoReceptions(tr: seq<Entry>)
    requires forall e <- tr :: !e.Received?
    ensures Receptions(tr) == []
  {
    if tr != [] {
      NoReceptions(tr[1..]);
    }
  }

  function News(s: Loop, t: Loop): seq<EventId>
    requires |s.heap.events| <= |t.heap.events|
  {
    Ids(|s.heap.events|, |t.heap.events| - |s.heap.events|)
  }

  lemma StepSends(s: Loop, l: Label)
    requires Inv(s) && Enabled(s, l)
    ensures |s.heap.events| <= |Step(s, l).heap.events|
    ensures Receptions(Emit(s, l)) + Step(s, l).heap.channel == s.heap.channel + News(s, Step(s, l))
  {
    StepKeepsIdentity(s, l);
    StepTouchesChannel(s, l);
    if l.Receive? {
      assert Receptions([Received(s.heap.channel[0])]) == [s.heap.channel[0]] + Receptions([]);
    } else {
      NoReceptionIn(s, l);
      NoReceptions(Emit(s, l));
    }
  }

  lemma NoReceptionIn(s: Loop, l: Label)
    requires Enabled(s, l) && !l.Receive?
    ensures forall e <- Emit(s, l) :: !e.Received?
  {
    if l.Drain? && s.heap.events[s.queue[0]].Valid() {
      DrainEmits(s, l.outs);
    }
    hide Update;
  }

  lemma StepTouchesChannel(s: Loop, l: Label)
    requires Inv(s) && Enabled(s, l)
    ensures |s.heap.events| <= |Step(s, l).heap.events|
    ensures Step(s, l).heap.channel ==
            (if l.Receive? then s.heap.channel[1..] else s.heap.channel) + News(s, Step(s, l))
  {
    hide Update;
    if l.Drain? {
      if s.heap.events[s.queue[0]].Valid() {
        DrainDrains(s, l.outs);
      }
    } else if l.Script? {
      CallTouches(s.heap, l.out, |s.heap.events|);
    } else if l.Order? {
      assert Ids(|s.heap.events|, 1) == [|s.heap.events|];
    }
  }

  lemma IdsJoin(from: nat, m: nat, n: nat)
    ensures Ids(from, m) + Ids(from + m, n) == Ids(from, m + n)
  {
  }

  /** Over every run, events are received in the order in which they were made and sent, and none is lost. */
  lemma {:induction false} ReceivedInOrder(s: Loop, ls: seq<Label>)
    requires Inv(s) && Legal(s, ls)
    ensures |s.heap.events| <= |Run(s, ls).heap.events|
    ensures Receptions(Trace(s, ls)) + Run(s, ls).heap.channel == s.heap.channel + News(s, Run(s, ls))
    decreases |ls|
  {
    hide Step, Emit, Enabled, Inv, Receptions;
    if ls == [] {
      NoReceptions([]);
      assert News(s, s) == [];
    } else {
      var t, u := Step(s, ls[0]), Run(s, ls);
      StepKeepsInv(s, ls[0]);
      StepSends(s, ls[0]);
      ReceivedInOrder(t, ls[1..]);
      var a, b := Emit(s, ls[0]), Trace(t, ls[1..]);
      ReceptionsAdd(a, b);
      IdsJoin(|s.heap.events|, |t.heap.events| - |s.heap.events|, |u.heap.events| - |t.heap.events|);
      assert (Receptions(a) + Receptions(b)) + u.heap.channel == Receptions(a) + (Receptions(b) + u.heap.channel);
      assert Receptions(a) + (t.heap.channel + News(t, u)) == (Receptions(a) + t.heap.channel) + News(t, u);
      assert (s.heap.channel + News(s, t)) + News(t, u) == s.heap.channel + (News(s, t) + News(t, u));
    }
  }

  /** What a call posts is sent in the order of its posts, each as posted unless the same call stopped it. */
  lemma CallSends(h: Heap, out: Outcome)
    ensures var k, n := Call(h, out), |h.events|;
            && |k.events| == n + |out.posts| && k.channel == h.channel + Ids(n, |out.posts|)
            && forall i :: 0 <= i < |out.posts| ==>
                 k.events[n + i] == if n + i in out.stops then out.posts[i].Stopped() else out.posts[i]
  {
    var k, n, all := Call(h, out), |h.events|, h.events + out.posts;
    assert k.events == StopAll(all, out.stops);
    hide Call;
    forall i | 0 <= i < |out.posts|
      ensures k.events[n + i] == if n + i in out.stops then out.posts[i].Stopped() else out.posts[i]
    {
      var j := n + i;
      assert all[j] == out.posts[i];
      assert k.events[j] == if j in out.stops then all[j].Stopped() else all[j];
    }
  }
}
