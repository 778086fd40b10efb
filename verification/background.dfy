/**
 Events that hand work between the loop and other goroutines: HTTP requests and Redis messages, which call Lua
 once, reload events, which answer once, and ZeroMQ sockets, which queue packets.
 */
module Background {
  import opened Framing
  import opened EventLoop
  import opened LoopInvariants
  import opened LoopRuns
  import opened LoopEnds
  import Timers

  // ---------------------------------------------------------------- events that call Lua once

  predicate Finished(s: Loop, id: EventId) {
    id < |s.heap.events| && s.heap.events[id].OneShot() && s.heap.events[id].body.phase == Complete
  }

  function One(b: bool): nat {
    if b then 1 else 0
  }

  predicate FiresOnFinish(s: Loop, t: Loop, tr: seq<Entry>, id: EventId) {
    && Count(tr, Fired(id)) + One(Finished(s, id)) == One(Finished(t, id))
    && (id < |t.heap.events| && t.heap.events[id].body.Http? ==> Count(tr, Released(id)) == Count(tr, Fired(id)))
  }

  lemma UpdateOneShot(h: Heap, id: EventId, elapsed: Duration, outs: seq<Outcome>)
    requires id < |h.events| && h.events[id].OneShot() && h.events[id].Valid()
    requires Shaped(outs, Calls(h.events[id], elapsed))
    ensures var r := Update(h, id, elapsed, outs);
            && id < |r.heap.events| && r.heap.events[id].OneShot()
            && (r.heap.events[id].body.phase == Complete <==> outs != [])
            && Count(r.trace, Fired(id)) == One(outs != [])
            && Count(r.trace, Released(id)) == One(outs != [] && h.events[id].body.Http?)
  {
    if outs != [] {
      FireOnceKeepsIdentity(h, id, outs[0]);
      hide FireOnce, Call;
    }
    var tr := Update(h, id, elapsed, outs).trace;
    hide Shaped;
    assert multiset([Fired(id), Released(id)]) == multiset{Fired(id), Released(id)};
    assert tr == [] || tr == [Fired(id)] || tr == [Fired(id), Released(id)];
  }

  lemma CountOf(tr: seq<Entry>, inner: seq<Entry>, id: EventId, last: Entry)
    requires tr == [Updated(id)] + inner + [last] && last in {Kept(id), Dropped(id), Failed(id)}
    ensures forall e :: Inner(e, id) ==> Count(tr, e) == Count(inner, e)
  {
    assert multiset(tr) == multiset([Updated(id)]) + multiset(inner) + multiset([last]);
  }

  lemma HeadFires(s: Loop, outs: seq<Outcome>)
    requires Inv(s) && Enabled(s, Drain(outs))
    requires s.heap.events[s.queue[0]].OneShot() && s.heap.events[s.queue[0]].Valid()
    ensures FiresOnFinish(s, DrainStep(s, outs), Emit(s, Drain(outs)), s.queue[0])
  {
    var id, t := s.queue[0], DrainStep(s, outs);
    hide Inv, Emit;
    UpdateOneShot(s.heap, id, s.mode.elapsed, outs);
    HeadCounts(s, outs);
    hide Update;
    var r := Update(s.heap, id, s.mode.elapsed, outs);
    assert t.heap == r.heap;
    hide DrainStep;
  }

  lemma HeadCounts(s: Loop, outs: seq<Outcome>)
    requires Enabled(s, Drain(outs)) && s.heap.events[s.queue[0]].Valid()
    ensures var id, tr := s.queue[0], Emit(s, Drain(outs));
            var inner := Update(s.heap, id, s.mode.elapsed, outs).trace;
            Count(tr, Fired(id)) == Count(inner, Fired(id)) && Count(tr, Released(id)) == Count(inner, Released(id))
  {
    hide Update;
    var id, tr := s.queue[0], Emit(s, Drain(outs));
    UpdateKeepsIdentity(s.heap, id, s.mode.elapsed, outs);
    CountOf(tr, Update(s.heap, id, s.mode.elapsed, outs).trace, id, tr[|tr| - 1]);
    assert Inner(Fired(id), id) && Inner(Released(id), id);
  }

  /** Steps other than its own Update do not finish a one-shot event. */
  lemma OtherStepKeepsOneShot(s: Loop, l: Label, id: EventId)
    requires Inv(s) && Enabled(s, l) && NotItsUpdate(s, l, id)
    requires id < |Step(s, l).heap.events| && Step(s, l).heap.events[id].OneShot()
    ensures Finished(Step(s, l), id) == Finished(s, id)
  {
    StepKeepsOthers(s, l);
    SubjectStep(s, l);
    hide Update, Step;
    if l.Respond? && l.id == id {
      assert s.heap.events[id].body.phase == Progress;
    }
  }

  lemma StepFires(s: Loop, l: Label, id: EventId)
    requires Inv(s) && Enabled(s, l)
    requires id < |Step(s, l).heap.events| && Step(s, l).heap.events[id].OneShot()
    ensures FiresOnFinish(s, Step(s, l), Emit(s, l), id)
  {
    hide Update;
    if l.Drain? && s.queue[0] == id && s.heap.events[id].Valid() {
      StepKeepsIdentity(s, l);
      HeadFires(s, l.outs);
    } else {
      OtherStepKeepsOneShot(s, l, id);
      OtherStepIsSilent(s, l, id);
    }
  }

  /**
   An HTTP request or a Redis message calls Lua exactly when it completes, so at most once in any run; a request
   releases its context exactly then too.
   */
  lemma {:induction false} OneShotFiresExactlyOnCompletion(s: Loop, ls: seq<Label>, id: EventId)
    requires Inv(s) && Legal(s, ls)
    requires id < |Run(s, ls).heap.events| && Run(s, ls).heap.events[id].OneShot()
    ensures FiresOnFinish(s, Run(s, ls), Trace(s, ls), id)
    ensures Count(Trace(s, ls), Fired(id)) <= 1
    decreases |ls|
  {
    hide Update, Step, Emit, Enabled;
    if ls != [] {
      var t := Step(s, ls[0]);
      StepKeepsInv(s, ls[0]);
      RunKeepsIdentity(t, ls[1..]);
      OneShotFiresExactlyOnCompletion(t, ls[1..], id);
      var a, b := Emit(s, ls[0]), Trace(t, ls[1..]);
      CountAdds(a, b, Fired(id));
      CountAdds(a, b, Released(id));
      if id < |t.heap.events| {
        assert Later(t.heap.events[id], Run(t, ls[1..]).heap.events[id]);
        StepFires(s, ls[0], id);
      } else {
        StepKeepsIdentity(s, ls[0]);
        UnmadeIsSilent(s, ls[0], id);
      }
    }
  }

  lemma UnmadeIsSilent(s: Loop, l: Label, id: EventId)
    requires Inv(s) && Enabled(s, l) && id >= |s.heap.events|
    ensures Count(Emit(s, l), Fired(id)) == 0 && Count(Emit(s, l), Released(id)) == 0
  {
    EmitIsHeld(s, l);
    hide Update, Step, Emit, Enabled;
  }

  // ---------------------------------------------------------------- events whose time has come

  /** Steps other than its own Update leave a ready event, and any reload event, as it is. */
  lemma OtherStepKeepsBody(s: Loop, l: Label, id: EventId)
    requires Inv(s) && Enabled(s, l) && NotItsUpdate(s, l, id) && id < |s.heap.events|
    requires s.heap.events[id].Ready() || s.heap.events[id].body.Reload?
    ensures id < |Step(s, l).heap.events| && Step(s, l).heap.events[id].body == s.heap.events[id].body
  {
    assert EventInv(s.heap.events[id], id in s.workers);
    StepKeepsOthers(s, l);
    SubjectStep(s, l);
    hide Update, Step, Inv;
  }

  /** The Update of a ready event completes it. */
  lemma ReadyUpdate(h: Heap, id: EventId, elapsed: Duration, outs: seq<Outcome>)
    requires id < |h.events| && h.events[id].Ready() && Shaped(outs, Calls(h.events[id], elapsed))
    ensures var r := Update(h, id, elapsed, outs);
            && outs != [] && id < |r.heap.events|
            && r.heap.events[id].body == match h.events[id].body
                                         case Reload(_, hotfix, _) => Replied(hotfix, outs[0])
                                         case body => Completed(body)
  {
    FireOnceKeepsIdentity(h, id, outs[0]);
    hide FireOnce, Call;
  }

  predicate Done(s: Loop, id: EventId) {
    id < |s.heap.events| && !s.heap.events[id].body.Timer? && s.heap.events[id].body.phase == Complete
  }

  /** The tick under way will come to a ready event. */
  predicate Due(s: Loop, id: EventId) {
    s.mode.Draining? && id in s.queue && id < |s.heap.events| && s.heap.events[id].Ready()
  }

  lemma DueStep(s: Loop, l: Label, id: EventId)
    requires Inv(s) && Enabled(s, l) && !l.Begin? && !l.Receive? && !l.Quit? && Due(s, id)
    ensures var t := Step(s, l); Due(t, id) || Done(t, id) || t.mode.Halted?
  {
    if l.Drain? && s.queue[0] == id {
      ReadyUpdate(s.heap, id, s.mode.elapsed, l.outs);
      hide Update;
    } else {
      OtherStepKeepsBody(s, l, id);
      DueStaysQueued(s, l, id);
      hide Step, Enabled, Inv;
    }
  }

  lemma DueStaysQueued(s: Loop, l: Label, id: EventId)
    requires Enabled(s, l) && !l.Begin? && !l.Receive? && !l.Quit? && Due(s, id)
    requires l.Drain? ==> s.queue[0] != id
    ensures id in Step(s, l).queue && (Step(s, l).mode.Draining? || Step(s, l).mode.Halted?)
  {
    hide Update;
    if l.Drain? {
      assert s.queue == [s.queue[0]] + s.queue[1..];
    }
  }

  lemma DoneForever(s: Loop, ls: seq<Label>, id: EventId)
    requires Inv(s) && Legal(s, ls) && Done(s, id)
    ensures Done(Run(s, ls), id)
  {
    RunKeepsIdentity(s, ls);
    hide Run;
    assert Later(s.heap.events[id], Run(s, ls).heap.events[id]);
  }

  /** A tick that ends has completed every ready event it found in the queue. */
  lemma {:induction false} TickFinishes(s: Loop, ls: seq<Label>, id: EventId)
    requires Inv(s) && Legal(s, ls) && WithinTick(ls) && Due(s, id) && Run(s, ls).mode.Idle?
    ensures Done(Run(s, ls), id)
    decreases |ls|
  {
    hide Update, Step, Enabled, Inv, Due, Done;
    assert ls != [] by { DueIsDraining(s, id); }
    var t := Step(s, ls[0]);
    DueStep(s, ls[0], id);
    StepKeepsInv(s, ls[0]);
    if t.mode.Halted? {
      NothingAfterHalt(t, ls[1..]);
    } else if Due(t, id) {
      TickFinishes(t, ls[1..], id);
    } else {
      DoneForever(t, ls[1..], id);
    }
  }

  lemma DueIsDraining(s: Loop, id: EventId)
    requires Due(s, id)
    ensures s.mode.Draining?
  {
  }

  /**
   A tick that finds a request in FINALIZE, or a message not yet handed on, calls its function exactly once before
   it ends; for a request it releases the context exactly once as well.
   */
  lemma TickCallsOnce(s: Loop, ls: seq<Label>, id: EventId)
    requires Inv(s) && Legal(s, ls) && WithinTick(ls) && Due(s, id) && s.heap.events[id].OneShot()
    requires Run(s, ls).mode.Idle?
    ensures Count(Trace(s, ls), Fired(id)) == 1
    ensures s.heap.events[id].body.Http? ==> Count(Trace(s, ls), Released(id)) == 1
  {
    TickFinishes(s, ls, id);
    RunKeepsIdentity(s, ls);
    assert Later(s.heap.events[id], Run(s, ls).heap.events[id]);
    OneShotFiresExactlyOnCompletion(s, ls, id);
    hide Run, Trace, Legal;
  }

  // ---------------------------------------------------------------- reload events

  predicate Answered(s: Loop, id: EventId) {
    id < |s.heap.events| && s.heap.events[id].body.Reload? && s.heap.events[id].body.answer.Some?
  }

  /** From `s` to `t` a reload event calls Lua at most once, and only if it answers; an answer stays. */
  predicate AnswersOnce(s: Loop, t: Loop, tr: seq<Entry>, id: EventId) {
    && Count(tr, Fired(id)) + One(Answered(s, id)) <= One(Answered(t, id))
    && (Answered(s, id) ==> Answered(t, id) && t.heap.events[id].body == s.heap.events[id].body)
    && (Answered(t, id) && t.heap.events[id].body.hotfix && t.heap.events[id].body.answer.value ==>
          Count(tr, Fired(id)) + One(Answered(s, id)) == 1)
  }

  lemma ReloadCounts(h: Heap, id: EventId, elapsed: Duration, outs: seq<Outcome>)
    requires id < |h.events| && h.events[id].body.Reload? && h.events[id].Ready()
    requires Shaped(outs, Calls(h.events[id], elapsed))
    ensures outs != [] && Count(Update(h, id, elapsed, outs).trace, Fired(id)) == One(outs[0].called)
  {
    hide FireOnce, Call;
    var tr := Update(h, id, elapsed, outs).trace;
    assert tr == [] || tr == [Fired(id)];
  }

  lemma StepAnswersOnce(s: Loop, l: Label, id: EventId)
    requires Inv(s) && Enabled(s, l) && id < |s.heap.events| && s.heap.events[id].body.Reload?
    ensures AnswersOnce(s, Step(s, l), Emit(s, l), id)
  {
    assert EventInv(s.heap.events[id], id in s.workers);
    if NotItsUpdate(s, l, id) {
      OtherStepIsSilent(s, l, id);
      OtherStepKeepsBody(s, l, id);
      hide Step, Emit, Inv, Enabled;
    } else {
      ReadyUpdate(s.heap, id, s.mode.elapsed, l.outs);
      ReloadCounts(s.heap, id, s.mode.elapsed, l.outs);
      HeadCounts(s, l.outs);
      hide Update, Inv, Emit;
    }
  }

  /**
   In any run a reload event answers at most once and for good, calls Lua at most once and never without
   answering, and a hotfix that succeeds has called it exactly once.
   */
  lemma {:induction false} ReloadAnswersOnce(s: Loop, ls: seq<Label>, id: EventId)
    requires Inv(s) && Legal(s, ls) && id < |s.heap.events| && s.heap.events[id].body.Reload?
    ensures AnswersOnce(s, Run(s, ls), Trace(s, ls), id)
    ensures Count(Trace(s, ls), Fired(id)) <= 1
    ensures Answered(Run(s, ls), id) <==> Done(Run(s, ls), id)
    decreases |ls|
  {
    hide Update, Step, Emit, Enabled;
    if ls == [] {
      assert EventInv(s.heap.events[id], id in s.workers);
    } else {
      var t := Step(s, ls[0]);
      StepKeepsInv(s, ls[0]);
      StepKeepsIdentity(s, ls[0]);
      assert Later(s.heap.events[id], t.heap.events[id]);
      RunKeepsIdentity(t, ls[1..]);
      assert Later(t.heap.events[id], Run(t, ls[1..]).heap.events[id]);
      StepAnswersOnce(s, ls[0], id);
      ReloadAnswersOnce(t, ls[1..], id);
      CountAdds(Emit(s, ls[0]), Trace(t, ls[1..]), Fired(id));
    }
  }

  // ---------------------------------------------------------------- who moves an event on

  /**
   The phases of a request: its first Update starts it, only its goroutine's end takes it on from there, and only the
   Update after that completes it; no other step changes it.
   */
  lemma RequestProtocol(s: Loop, l: Label, id: EventId)
    requires Inv(s) && Enabled(s, l) && id < |s.heap.events| && s.heap.events[id].body.Http?
    ensures var t, own := Step(s, l), !NotItsUpdate(s, l, id);
            && id < |t.heap.events|
            && t.heap.events[id].body ==
               Http(match s.heap.events[id].body.phase
                    case Initialize => if own then Progress else Initialize
                    case Progress => if l == Respond(id) then Finalize else Progress
                    case Finalize => if own then Complete else Finalize
                    case Complete => Complete)
            && (id in t.workers <==> t.heap.events[id].body.phase == Progress)
  {
    StepKeepsInv(s, l);
    assert EventInv(s.heap.events[id], id in s.workers);
    if NotItsUpdate(s, l, id) {
      OtherRequest(s, l, id);
      hide Step, Enabled;
    } else {
      OwnRequest(s.heap, id, s.mode.elapsed, l.outs);
      hide Update;
    }
    assert EventInv(Step(s, l).heap.events[id], id in Step(s, l).workers);
    hide Inv;
  }

  lemma OtherRequest(s: Loop, l: Label, id: EventId)
    requires Inv(s) && Enabled(s, l) && id < |s.heap.events| && s.heap.events[id].body.Http? && NotItsUpdate(s, l, id)
    ensures var t := Step(s, l);
            && id < |t.heap.events|
            && t.heap.events[id].body == if l == Respond(id) then Http(Finalize) else s.heap.events[id].body
    ensures l == Respond(id) ==> s.heap.events[id].body.phase == Progress
  {
    assert EventInv(s.heap.events[id], id in s.workers);
    StepKeepsOthers(s, l);
    SubjectStep(s, l);
    hide Update, Step, Inv;
  }

  lemma OwnRequest(h: Heap, id: EventId, elapsed: Duration, outs: seq<Outcome>)
    requires id < |h.events| && h.events[id].body.Http? && Shaped(outs, Calls(h.events[id], elapsed))
    ensures var k := Update(h, id, elapsed, outs).heap;
            && id < |k.events|
            && k.events[id].body == match h.events[id].body.phase
                                    case Initialize => Http(Progress)
                                    case Finalize => Http(Complete)
                                    case phase => Http(phase)
  {
    if h.events[id].body.phase == Finalize {
      FireOnceKeepsIdentity(h, id, outs[0]);
    }
    hide FireOnce, Call;
  }

  /**
   The phases of a socket: its first Update starts its receiver, and it ends when the receiver does or when any call
   stops it, in whatever step that is.
   */
  lemma SocketProtocol(s: Loop, l: Label, id: EventId)
    requires Inv(s) && Enabled(s, l) && id < |s.heap.events| && s.heap.events[id].body.Zmq?
    ensures var t, own, phase := Step(s, l), !NotItsUpdate(s, l, id), s.heap.events[id].body.phase;
            && id < |t.heap.events| && t.heap.events[id].body.Zmq?
            && t.heap.events[id].body.phase ==
               (if phase == Complete || l == Hangup(id) || Stops(Outs(l), id) then Complete
                else if phase == Initialize && own then Progress
                else phase)
  {
    StepKeepsIdentity(s, l);
    assert Later(s.heap.events[id], Step(s, l).heap.events[id]);
    assert EventInv(s.heap.events[id], id in s.workers);
    if Stops(Outs(l), id) {
      StopIsObeyed(s, l, id);
      hide Step;
    } else if l.Drain? {
      assert forall out <- l.outs :: id !in out.stops;
      if s.queue[0] != id && s.heap.events[s.queue[0]].Valid() {
        Timers.UpdateLeavesAlone(s.heap, s.queue[0], s.mode.elapsed, l.outs, id);
      } else if s.heap.events[id].Valid() && s.queue[0] == id {
        OwnSocket(s.heap, id, s.mode.elapsed, l.outs);
      }
      hide Update;
    } else {
      assert l.Script? ==> id !in l.out.stops;
    }
  }

  lemma OwnSocket(h: Heap, id: EventId, elapsed: Duration, outs: seq<Outcome>)
    requires id < |h.events| && h.events[id].body.Zmq? && Shaped(outs, Calls(h.events[id], elapsed))
    requires forall out <- outs :: id !in out.stops
    ensures var k, phase := Update(h, id, elapsed, outs).heap, h.events[id].body.phase;
            && id < |k.events| && k.events[id].body.Zmq?
            && k.events[id].body.phase == if phase == Initialize then Progress else phase
  {
    if h.events[id].body.phase == Progress {
      HandOutKeepsPhase(h, id, outs);
      hide HandOut;
    }
  }

  lemma {:induction false} HandOutKeepsPhase(h: Heap, id: EventId, outs: seq<Outcome>)
    requires id < |h.events| && h.events[id].body.Zmq? && |outs| <= |h.events[id].body.inbox|
    requires forall out <- outs :: id !in out.stops
    ensures var k := HandOut(h, id, outs).heap;
            id < |k.events| && k.events[id].body.Zmq? && k.events[id].body.phase == h.events[id].body.phase
    decreases |outs|
  {
    if outs != [] && !outs[0].ret.Raised? {
      var z := h.events[id].body;
      HandOutKeepsPhase(Call(SetBody(h, id, z.(inbox := z.inbox[1..])), outs[0]), id, outs[1..]);
    }
  }

  // ---------------------------------------------------------------- ZeroMQ

  function HandedBy(e: Entry, id: EventId): seq<Packet> {
    if e.Handed? && e.id == id then [e.packet] else []
  }

  /** The packets handed to Lua for one event, in order. */
  function HandedTo(tr: seq<Entry>, id: EventId): seq<Packet> {
    if tr == [] then [] else HandedBy(tr[0], id) + HandedTo(tr[1..], id)
  }

  /** The well-formed packets the event's goroutine received, in order. */
  function Arrived(ls: seq<Label>, id: EventId): seq<Packet> {
    if ls == [] then []
    else
      (if ls[0].Frame? && ls[0].id == id && ls[0].packet.Some? then [ls[0].packet.value] else []) + Arrived(ls[1..], id)
  }

  lemma {:induction false} HandedAdds(a: seq<Entry>, b: seq<Entry>, id: EventId)
    ensures HandedTo(a + b, id) == HandedTo(a, id) + HandedTo(b, id)
  {
    hide HandedBy;
    if a == [] {
      assert a + b == b;
    } else {
      assert (a + b)[0] == a[0] && (a + b)[1..] == a[1..] + b;
      HandedAdds(a[1..], b, id);
    }
  }

  lemma {:induction false} HandedNone(tr: seq<Entry>, id: EventId)
    requires forall e <- tr :: !e.Handed? || e.id != id
    ensures HandedTo(tr, id) == []
  {
    if tr != [] {
      HandedNone(tr[1..], id);
    }
  }

  function Inbox(s: Loop, id: EventId): seq<Packet> {
    if id < |s.heap.events| && s.heap.events[id].body.Zmq? then s.heap.events[id].body.inbox else []
  }

  /** Handing out takes packets from the front, without loss; a call that stops the event does not end it. */
  lemma {:induction false} HandOutInOrder(h: Heap, id: EventId, outs: seq<Outcome>)
    requires id < |h.events| && h.events[id].body.Zmq?
    requires |outs| <= |h.events[id].body.inbox|
    ensures var r := HandOut(h, id, outs);
            && id < |r.heap.events| && r.heap.events[id].body.Zmq?
            && HandedTo(r.trace, id) + r.heap.events[id].body.inbox == h.events[id].body.inbox
            && (r.ok ==> |r.heap.events[id].body.inbox| == |h.events[id].body.inbox| - |outs|)
    decreases |outs|
  {
    if outs != [] {
      var z := h.events[id].body;
      var called := Call(SetBody(h, id, z.(inbox := z.inbox[1..])), outs[0]);
      assert called.events[id].body.inbox == z.inbox[1..];
      assert z.inbox == [z.inbox[0]] + z.inbox[1..];
      if outs[0].ret.Raised? {
        assert HandedTo([Handed(id, z.inbox[0])], id) == [z.inbox[0]];
      } else {
        var rest := HandOut(called, id, outs[1..]);
        HandOutInOrder(called, id, outs[1..]);
        assert ([Handed(id, z.inbox[0])] + rest.trace)[1..] == rest.trace;
      }
    }
  }

  lemma UpdateZmq(h: Heap, id: EventId, elapsed: Duration, outs: seq<Outcome>)
    requires id < |h.events| && h.events[id].body.Zmq? && h.events[id].Valid()
    requires h.events[id].body.phase == Initialize ==> h.events[id].body.inbox == []
    requires Shaped(outs, Calls(h.events[id], elapsed))
    ensures var r := Update(h, id, elapsed, outs);
            && id < |r.heap.events| && r.heap.events[id].body.Zmq?
            && HandedTo(r.trace, id) + r.heap.events[id].body.inbox == h.events[id].body.inbox
            && (r.ok && h.events[id].body.phase == Progress ==> r.heap.events[id].body.inbox == [])
  {
    if h.events[id].body.phase == Progress {
      HandOutInOrder(h, id, outs);
      if |outs| < |h.events[id].body.inbox| {
        HandOutOkIff(h, id, outs);
        assert outs[|outs| - 1] in outs;
      }
    }
  }

  /** One Update in PROGRESS without an error leaves the queue empty, even if a call stops the event. */
  lemma ProgressUpdateEmptiesInbox(s: Loop, outs: seq<Outcome>)
    requires Inv(s) && Enabled(s, Drain(outs))
    requires s.heap.events[s.queue[0]].body.Zmq? && s.heap.events[s.queue[0]].body.phase == Progress
    requires !DrainStep(s, outs).mode.Halted?
    ensures Inbox(DrainStep(s, outs), s.queue[0]) == []
    ensures HandedTo(Emit(s, Drain(outs)), s.queue[0]) == Inbox(s, s.queue[0])
  {
    HeadHandsOut(s, outs);
    UpdateZmq(s.heap, s.queue[0], s.mode.elapsed, outs);
    hide Update;
  }

  lemma HeadHandsOut(s: Loop, outs: seq<Outcome>)
    requires Inv(s) && Enabled(s, Drain(outs))
    requires s.heap.events[s.queue[0]].body.Zmq? && s.heap.events[s.queue[0]].Valid()
    ensures HandedTo(Emit(s, Drain(outs)), s.queue[0]) + Inbox(DrainStep(s, outs), s.queue[0]) == Inbox(s, s.queue[0])
  {
    var id := s.queue[0];
    UpdateZmq(s.heap, id, s.mode.elapsed, outs);
    UpdateKeepsIdentity(s.heap, id, s.mode.elapsed, outs);
    hide Update;
    var r := Update(s.heap, id, s.mode.elapsed, outs);
    var tr := Emit(s, Drain(outs));
    HandedBetween(tr, r.trace, id, tr[|tr| - 1]);
  }

  lemma HandedBetween(tr: seq<Entry>, inner: seq<Entry>, id: EventId, last: Entry)
    requires tr == [Updated(id)] + inner + [last] && !last.Handed?
    ensures HandedTo(tr, id) == HandedTo(inner, id)
  {
    assert tr == [Updated(id)] + (inner + [last]);
    assert tr[1..] == inner + [last];
    HandedAdds(inner, [last], id);
    HandedNone([last], id);
  }

  lemma OtherStepKeepsInbox(s: Loop, l: Label, id: EventId)
    requires Inv(s) && Enabled(s, l) && id < |s.heap.events| && s.heap.events[id].body.Zmq?
    requires NotItsUpdate(s, l, id)
    ensures Inbox(Step(s, l), id) == Inbox(s, id) + Arrived([l], id)
  {
    hide Update, Inv;
    StepKeepsOthers(s, l);
    SubjectStep(s, l);
    hide Step, Enabled;
    assert Arrived([l][1..], id) == [];
    var e, f := s.heap.events[id], Step(s, l).heap.events[id];
    if id != Subject(s, l) {
      assert f == e || f == e.Stopped();
    }
  }

  lemma StepHandsInOrder(s: Loop, l: Label, id: EventId)
    requires Inv(s) && Enabled(s, l) && id < |s.heap.events| && s.heap.events[id].body.Zmq?
    ensures HandedTo(Emit(s, l), id) + Inbox(Step(s, l), id) == Inbox(s, id) + Arrived([l], id)
  {
    hide Update, Emit, Inbox;
    if l.Drain? && s.queue[0] == id && s.heap.events[id].Valid() {
      HeadHandsOut(s, l.outs);
      assert Arrived([l], id) == [];
    } else {
      OtherStepKeepsInbox(s, l, id);
      OtherStepIsSilent(s, l, id);
      HandedNone(Emit(s, l), id);
    }
  }

  /**
   Over every interleaving of the receiving goroutine with ticks, the packets handed to Lua followed by those
   still queued are those queued before followed by the well-formed packets received since.
   */
  lemma {:induction false} PacketsInOrderOnce(s: Loop, ls: seq<Label>, id: EventId)
    requires Inv(s) && Legal(s, ls) && id < |s.heap.events| && s.heap.events[id].body.Zmq?
    ensures HandedTo(Trace(s, ls), id) + Inbox(Run(s, ls), id) == Inbox(s, id) + Arrived(ls, id)
    decreases |ls|
  {
    hide Update, Step, Emit, Enabled, Inbox;
    if ls != [] {
      var t := Step(s, ls[0]);
      var a, b := Emit(s, ls[0]), Trace(t, ls[1..]);
      StepKeepsInv(s, ls[0]);
      StepKeepsIdentity(s, ls[0]);
      assert Later(s.heap.events[id], t.heap.events[id]);
      StepHandsInOrder(s, ls[0], id);
      PacketsInOrderOnce(t, ls[1..], id);
      HandedAdds(a, b, id);
      ArrivedSplits(ls, id);
      HandedOver(HandedTo(a, id), HandedTo(b, id), Inbox(Run(t, ls[1..]), id),
              Inbox(t, id), Arrived(ls[1..], id), Inbox(s, id), Arrived([ls[0]], id));
    }
  }

  lemma ArrivedSplits(ls: seq<Label>, id: EventId)
    requires ls != []
    ensures Arrived(ls, id) == Arrived([ls[0]], id) + Arrived(ls[1..], id)
  {
    assert Arrived([ls[0]][1..], id) == [];
  }

  lemma HandedOver<T>(a: seq<T>, b: seq<T>, u: seq<T>, t: seq<T>, y: seq<T>, s: seq<T>, x: seq<T>)
    requires b + u == t + y && a + t == s + x
    ensures (a + b) + u == s + (x + y)
  {
    assert (a + b) + u == a + (b + u) == (a + t) + y == (s + x) + y;
  }

  // ---------------------------------------------------------------- from peer to callback

  /** The receiver of a socket reads these requests, and queues what Deserialize makes of them. */
  predicate Reads(ls: seq<Label>, id: EventId, gob: Gob, requests: seq<Request>) {
    if ls == [] then
      requests == []
    else if ls[0].Frame? && ls[0].id == id then
      requests != [] && ls[0].packet == Parsed(gob, requests[0]) && Reads(ls[1..], id, gob, requests[1..])
    else
      Reads(ls[1..], id, gob, requests)
  }

  lemma {:induction false} ReadsArrive(ls: seq<Label>, id: EventId, gob: Gob, requests: seq<Request>)
    requires Reads(ls, id, gob, requests)
    ensures Arrived(ls, id) == WellFormed(gob, requests)
  {
    if ls != [] {
      ReadsArrive(ls[1..], id, gob, if ls[0].Frame? && ls[0].id == id then requests[1..] else requests);
    }
  }

  /**
   Whatever else happens, the packets handed to Lua and those still queued are those queued before and one for each
   request read since whose last frame can be decoded, in the order they came, with that payload and the first of
   several frames as sender; a malformed request adds nothing.
   */
  lemma WellFormedPacketsArrive(s: Loop, ls: seq<Label>, id: EventId, gob: Gob, requests: seq<Request>)
    requires Inv(s) && Legal(s, ls) && id < |s.heap.events| && s.heap.events[id].body.Zmq?
    requires Reads(ls, id, gob, requests)
    ensures var all, ks := HandedTo(Trace(s, ls), id) + Inbox(Run(s, ls), id), Decodable(gob, requests, 0);
            && Inbox(s, id) <= all && OneEach(gob, requests, ks, all[|Inbox(s, id)|..])
            && (forall i, j :: 0 <= i < j < |ks| ==> ks[i] < ks[j])
            && (forall r :: r in ks <==> 0 <= r < |requests| && gob.decode(requests[r][|requests[r]| - 1]).Some?)
  {
    PacketsInOrderOnce(s, ls, id);
    ReadsArrive(ls, id, gob, requests);
    WellFormedByDecoding(gob, requests, 0);
    DecodableMeans(gob, requests, 0);
    assert requests[0..] == requests;
    hide Run, Trace, Legal, Inbox, HandedTo, Reads, Decodable, OneEach;
  }

  /** If each request is the frames of a packet, those are the packets: sender and payload as they were sent. */
  lemma SentPacketsArrive(s: Loop, ls: seq<Label>, id: EventId, gob: Gob, requests: seq<Request>, sent: seq<Packet>)
    requires Inv(s) && Legal(s, ls) && id < |s.heap.events| && s.heap.events[id].body.Zmq?
    requires gob.Lawful() && Carry(gob, requests, sent) && Reads(ls, id, gob, requests)
    ensures HandedTo(Trace(s, ls), id) + Inbox(Run(s, ls), id) == Inbox(s, id) + sent
  {
    PacketsInOrderOnce(s, ls, id);
    ReadsArrive(ls, id, gob, requests);
    CarriedPackets(gob, requests, sent);
  }
}
