/** Theorems about every run of the event loop, under every interleaving and every behaviour of Lua code. */
module LoopRuns {
  import opened EventLoop
  import opened LoopInvariants

  // ---------------------------------------------------------------- what a step emits

  /** How often an entry occurs in a trace. */
  function Count(tr: seq<Entry>, e: Entry): nat {
    multiset(tr)[e]
  }

  /** How often an event left the loop. */
  function Departures(tr: seq<Entry>, id: EventId): nat {
    Count(tr, Skipped(id)) + Count(tr, Dropped(id)) + Count(tr, Failed(id))
  }

  /** The entries made inside Update. */
  predicate Inner(e: Entry, id: EventId) {
    e == Fired(id) || e == Released(id) || (e.Handed? && e.id == id)
  }

  lemma {:induction false} HandOutTrace(h: Heap, id: EventId, outs: seq<Outcome>)
    requires id < |h.events| && h.events[id].body.Zmq?
    requires |outs| <= |h.events[id].body.inbox|
    ensures forall e <- HandOut(h, id, outs).trace :: e.Handed? && e.id == id
    decreases |outs|
  {
    if outs != [] && !outs[0].ret.Raised? {
      var z := h.events[id].body;
      HandOutTrace(Call(SetBody(h, id, z.(inbox := z.inbox[1..])), outs[0]), id, outs[1..]);
    }
  }

  lemma UpdateTrace(h: Heap, id: EventId, elapsed: Duration, outs: seq<Outcome>)
    requires id < |h.events|
    requires Shaped(outs, Calls(h.events[id], elapsed))
    ensures forall e <- Update(h, id, elapsed, outs).trace :: Inner(e, id)
  {
    if h.events[id].body.Zmq? && h.events[id].body.phase == Progress {
      HandOutTrace(h, id, outs);
    }
  }

  /** One turn of the inner loop speaks only of the event it popped, and says once how it ended. */
  lemma DrainEmits(s: Loop, outs: seq<Outcome>)
    requires Enabled(s, Drain(outs)) && s.heap.events[s.queue[0]].Valid()
    ensures var id, t, tr := s.queue[0], DrainStep(s, outs), Emit(s, Drain(outs));
            && |tr| >= 2 && tr[0] == Updated(id)
            && (forall i :: 0 < i < |tr| - 1 ==> Inner(tr[i], id))
            && id < |t.heap.events|
            && tr[|tr| - 1] == if t.mode.Halted? then Failed(id)
                               else if t.heap.events[id].Continues() then Kept(id) else Dropped(id)
  {
    var id := s.queue[0];
    UpdateTrace(s.heap, id, s.mode.elapsed, outs);
    UpdateKeepsIdentity(s.heap, id, s.mode.elapsed, outs);
    var r := Update(s.heap, id, s.mode.elapsed, outs);
    var tr := Emit(s, Drain(outs));
    forall i | 0 < i < |tr| - 1
      ensures Inner(tr[i], id)
    {
      assert tr[i] == r.trace[i - 1];
    }
  }

  /** Counting in a trace that starts with `a`, ends with `z` and has only inner entries between. */
  lemma CountEnds(tr: seq<Entry>, id: EventId, e: Entry)
    requires |tr| >= 2 && (forall i :: 0 < i < |tr| - 1 ==> Inner(tr[i], id)) && !Inner(e, id)
    ensures Count(tr, e) == (if tr[0] == e then 1 else 0) + (if tr[|tr| - 1] == e then 1 else 0)
  {
    var mid := tr[1..|tr| - 1];
    assert tr == [tr[0]] + mid + [tr[|tr| - 1]];
    assert e !in mid;
    assert multiset(tr) == multiset([tr[0]]) + multiset(mid) + multiset([tr[|tr| - 1]]);
  }

  // ---------------------------------------------------------------- conservation

  predicate Conserved(s: Loop, t: Loop, tr: seq<Entry>, id: EventId) {
    && Held(t)[id] + Departures(tr, id) == Held(s)[id] + (if |s.heap.events| <= id < |t.heap.events| then 1 else 0)
    && Inside(t)[id] + Departures(tr, id) == Inside(s)[id] + Count(tr, Received(id))
  }

  lemma DrainConserves(s: Loop, t: Loop, tr: seq<Entry>, id: EventId)
    requires Inv(s) && Drained(s, t)
    requires |tr| >= 2 && tr[0] == Updated(s.queue[0]) && (forall i :: 0 < i < |tr| - 1 ==> Inner(tr[i], s.queue[0]))
    requires tr[|tr| - 1] == if t.mode.Halted? then Failed(s.queue[0])
                             else if t.heap.events[s.queue[0]].Continues() then Kept(s.queue[0])
                             else Dropped(s.queue[0])
    ensures Conserved(s, t, tr, id)
  {
    var head := s.queue[0];
    CountEnds(tr, head, Skipped(id));
    CountEnds(tr, head, Dropped(id));
    CountEnds(tr, head, Failed(id));
    CountEnds(tr, head, Received(id));
    assert s.queue == [head] + t.queue;
    assert multiset(s.queue) == multiset([head]) + multiset(t.queue);
    NewHeld(s, t.heap, head);
  }

  lemma DrainStepConserves(s: Loop, outs: seq<Outcome>, id: EventId)
    requires Inv(s) && Enabled(s, Drain(outs))
    ensures Conserved(s, DrainStep(s, outs), Emit(s, Drain(outs)), id)
  {
    hide Update;
    var head := s.queue[0];
    if s.heap.events[head].Valid() {
      DrainDrains(s, outs);
      DrainEmits(s, outs);
      hide DrainStep, Emit;
      DrainConserves(s, DrainStep(s, outs), Emit(s, Drain(outs)), id);
    } else {
      SkipConserves(s, id);
    }
  }

  lemma SkipConserves(s: Loop, id: EventId)
    requires s.queue != []
    ensures Conserved(s, s.(queue := s.queue[1..]), [Skipped(s.queue[0])], id)
  {
    assert s.queue == [s.queue[0]] + s.queue[1..];
    assert multiset(s.queue) == multiset([s.queue[0]]) + multiset(s.queue[1..]);
  }

  lemma PostConserves(s: Loop, t: Loop, id: EventId)
    requires Inv(s) && Touched(s.heap, t.heap, id) && t.queue == s.queue && t.swap == s.swap
    ensures Conserved(s, t, [], id)
  {
    NewHeld(s, t.heap, id);
  }

  lemma PostStepConserves(s: Loop, l: Label, id: EventId)
    requires Inv(s) && Enabled(s, l) && (l.Script? || l.Order?)
    ensures Conserved(s, Step(s, l), [], id)
  {
    if l.Script? {
      CallTouches(s.heap, l.out, id);
      PostConserves(s, Step(s, l), id);
    } else {
      var n: EventId := |s.heap.events|;
      assert multiset(Step(s, l).heap.channel) == multiset(s.heap.channel) + multiset([n]);
    }
  }

  lemma ReceiveConserves(s: Loop, id: EventId)
    requires Inv(s) && Enabled(s, Receive)
    ensures Conserved(s, Step(s, Receive), Emit(s, Receive), id)
  {
    var ch := s.heap.channel;
    assert ch == [ch[0]] + ch[1..];
    assert multiset(ch) == multiset([ch[0]]) + multiset(ch[1..]);
    assert Inside(Step(s, Receive)) == Inside(s) + multiset([ch[0]]);
  }

  lemma QuietStepConserves(s: Loop, l: Label, id: EventId)
    requires Inv(s) && Enabled(s, l) && !l.Script? && !l.Order? && !l.Drain? && !l.Receive?
    ensures Conserved(s, Step(s, l), [], id)
  {
    assert Inside(Step(s, l)) == Inside(s);
    assert Step(s, l).heap.channel == s.heap.channel;
    assert |Step(s, l).heap.events| == |s.heap.events|;
  }

  lemma StepConserves(s: Loop, l: Label, id: EventId)
    requires Inv(s) && Enabled(s, l)
    ensures Conserved(s, Step(s, l), Emit(s, l), id)
  {
    if l.Drain? {
      DrainStepConserves(s, l.outs, id);
    } else if l.Script? || l.Order? {
      PostStepConserves(s, l, id);
    } else if l.Receive? {
      ReceiveConserves(s, id);
    } else {
      QuietStepConserves(s, l, id);
    }
  }

  /** Counts add up along a run. */
  lemma CountAdds(a: seq<Entry>, b: seq<Entry>, e: Entry)
    ensures Count(a + b, e) == Count(a, e) + Count(b, e)
  {
    assert multiset(a + b) == multiset(a) + multiset(b);
  }

  lemma DeparturesAdd(a: seq<Entry>, b: seq<Entry>, id: EventId)
    ensures Departures(a + b, id) == Departures(a, id) + Departures(b, id)
  {
    CountAdds(a, b, Skipped(id));
    CountAdds(a, b, Dropped(id));
    CountAdds(a, b, Failed(id));
  }

  /**
   Conservation: what is taken from the channel is in the loop's queues exactly once until it leaves,
   and every event ever made is waiting in exactly one place or has left exactly once.
   */
  lemma {:induction false} Conservation(s: Loop, ls: seq<Label>, id: EventId)
    requires Inv(s) && Legal(s, ls)
    ensures Conserved(s, Run(s, ls), Trace(s, ls), id)
    decreases |ls|
  {
    if ls != [] {
      var t := Step(s, ls[0]);
      StepConserves(s, ls[0], id);
      StepKeepsInv(s, ls[0]);
      StepKeepsIdentity(s, ls[0]);
      Conservation(t, ls[1..], id);
      RunKeepsIdentity(t, ls[1..]);
      var a, b := Emit(s, ls[0]), Trace(t, ls[1..]);
      DeparturesAdd(a, b, id);
      CountAdds(a, b, Received(id));
    }
  }

  // ---------------------------------------------------------------- one event over time

  lemma QuietStepKeepsIdentity(s: Loop, l: Label, i: EventId)
    requires Inv(s) && Enabled(s, l) && i < |s.heap.events|
    requires !l.Drain? || !s.heap.events[s.queue[0]].Valid()
    ensures i < |Step(s, l).heap.events| && Later(s.heap.events[i], Step(s, l).heap.events[i])
  {
    StepKeepsOthers(s, l);
    SubjectStep(s, l);
    hide Update, Step;
    LaterSelf(s.heap.events[i]);
    if i == Subject(s, l) && l.Respond? {
      assert s.heap.events[i].body.phase == Progress;
    }
  }

  lemma StepKeepsIdentity(s: Loop, l: Label)
    requires Inv(s) && Enabled(s, l)
    ensures AllLater(s.heap, Step(s, l).heap)
  {
    if l.Drain? && s.heap.events[s.queue[0]].Valid() {
      UpdateKeepsIdentity(s.heap, s.queue[0], s.mode.elapsed, l.outs);
      hide Update, Later;
    } else {
      StepKeepsOthers(s, l);
      hide Update, Later, Step;
      forall i | 0 <= i < |s.heap.events|
        ensures Later(s.heap.events[i], Step(s, l).heap.events[i])
      {
        QuietStepKeepsIdentity(s, l, i);
      }
    }
  }

  lemma {:induction false} RunKeepsIdentity(s: Loop, ls: seq<Label>)
    requires Inv(s) && Legal(s, ls)
    ensures AllLater(s.heap, Run(s, ls).heap)
    decreases |ls|
  {
    if ls != [] {
      var t := Step(s, ls[0]);
      StepKeepsIdentity(s, ls[0]);
      StepKeepsInv(s, ls[0]);
      RunKeepsIdentity(t, ls[1..]);
      var u := Run(t, ls[1..]);
      forall i | 0 <= i < |s.heap.events|
        ensures Later(s.heap.events[i], u.heap.events[i])
      {
        assert Later(s.heap.events[i], t.heap.events[i]) && Later(t.heap.events[i], u.heap.events[i]);
      }
    }
  }

  /** The one event a step may do more to than stop it; a number no event has if there is none. */
  function Subject(s: Loop, l: Label): EventId
    requires Enabled(s, l)
  {
    match l
    case Drain(_) => s.queue[0]
    case Respond(id) => id
    case Frame(id, _) => id
    case Hangup(id) => id
    case _ => |s.heap.events|
  }

  predicate Newborn(e: Event) {
    Posted(e) || (e.body.Reload? && e.body.phase == Initialize && e.body.answer.None?)
  }

  /** From `h` to `k` every event but `id` was at most stopped, and new ones have not been updated. */
  predicate OthersKept(h: Heap, k: Heap, id: EventId) {
    && |h.events| <= |k.events|
    && (forall i :: 0 <= i < |h.events| && i != id ==>
          k.events[i] == h.events[i] || k.events[i] == h.events[i].Stopped())
    && (forall i :: |h.events| <= i < |k.events| ==> Newborn(k.events[i]))
  }

  lemma StepKeepsOthers(s: Loop, l: Label)
    requires Inv(s) && Enabled(s, l)
    ensures OthersKept(s.heap, Step(s, l).heap, Subject(s, l))
  {
    hide Update;
    if l.Drain? {
      if s.heap.events[s.queue[0]].Valid() {
        DrainDrains(s, l.outs);
      }
    } else if l.Script? {
      CallTouches(s.heap, l.out, |s.heap.events|);
    }
  }

  /** What the steps other than Update do to the one event they are about. */
  lemma SubjectStep(s: Loop, l: Label)
    requires Inv(s) && Enabled(s, l)
    ensures var id, k := Subject(s, l), Step(s, l).heap;
            match l {
              case Drain(_) => s.heap.events[id].Valid() || k == s.heap
              case Respond(_) => k.events[id] == s.heap.events[id].(body := Http(Finalize))
              case Frame(_, p) =>
                && k.events[id].body.Zmq? && k.events[id].body.phase == s.heap.events[id].body.phase
                && k.events[id].body.inbox == s.heap.events[id].body.inbox + (if p.Some? then [p.value] else [])
              case Hangup(_) => k.events[id] == s.heap.events[id].(body := Zmq(Complete, s.heap.events[id].body.inbox))
              case _ => true
            }
  {
    hide Update;
  }

  lemma DrainSpeaksOfHead(s: Loop, outs: seq<Outcome>, id: EventId)
    requires Enabled(s, Drain(outs))
    requires s.queue[0] != id || !s.heap.events[id].Valid()
    ensures forall e <- Emit(s, Drain(outs)) :: !Inner(e, id)
  {
    hide Update;
    if s.heap.events[s.queue[0]].Valid() {
      DrainEmits(s, outs);
    }
  }

  lemma OutsideStepIsSilent(s: Loop, l: Label)
    requires Enabled(s, l) && !l.Drain?
    ensures forall e <- Emit(s, l) :: e.Received?
  {
    hide Update;
  }

  /** The step is not a turn of the inner loop that updates event `id`. */
  predicate NotItsUpdate(s: Loop, l: Label, id: EventId)
    requires Enabled(s, l)
  {
    l.Drain? ==> s.queue[0] != id || !s.heap.events[id].Valid()
  }

  lemma OtherStepIsSilent(s: Loop, l: Label, id: EventId)
    requires Enabled(s, l) && NotItsUpdate(s, l, id)
    ensures forall e <- Emit(s, l) :: !Inner(e, id)
    ensures Count(Emit(s, l), Fired(id)) == 0 && Count(Emit(s, l), Released(id)) == 0
  {
    if l.Drain? {
      DrainSpeaksOfHead(s, l.outs, id);
    } else {
      OutsideStepIsSilent(s, l);
    }
    hide Update, Emit;
    var tr := Emit(s, l);
    assert forall e <- tr :: !Inner(e, id);
    assert Inner(Fired(id), id) && Inner(Released(id), id);
  }

  // ---------------------------------------------------------------- events that left, events that were stopped

  lemma EmitIsHeld(s: Loop, l: Label)
    requires Enabled(s, l)
    ensures forall e <- Emit(s, l) :: e.id in Held(s)
  {
    hide Update;
    if l.Drain? {
      assert s.queue[0] in Inside(s);
      if s.heap.events[s.queue[0]].Valid() {
        DrainEmits(s, l.outs);
        hide Emit;
      }
    }
  }

  /** An event that is nowhere in the loop never comes back, and nothing is ever done with it. */
  lemma {:induction false} GoneForever(s: Loop, ls: seq<Label>, id: EventId)
    requires Inv(s) && Legal(s, ls) && id < |s.heap.events| && id !in Held(s)
    ensures id !in Held(Run(s, ls))
    ensures forall e <- Trace(s, ls) :: e.id != id
    decreases |ls|
  {
    hide Update;
    if ls != [] {
      EmitIsHeld(s, ls[0]);
      StepConserves(s, ls[0], id);
      StepKeepsInv(s, ls[0]);
      StepKeepsIdentity(s, ls[0]);
      GoneForever(Step(s, ls[0]), ls[1..], id);
    }
  }

  lemma StoppedIsSkipped(s: Loop, l: Label, id: EventId)
    requires Enabled(s, l) && id < |s.heap.events| && !s.heap.events[id].Valid()
    ensures forall e <- Emit(s, l) :: e.id == id ==> e.Received? || e.Skipped?
  {
    hide Update;
    if !l.Drain? {
      OutsideStepIsSilent(s, l);
    } else if s.heap.events[s.queue[0]].Valid() {
      DrainEmits(s, l.outs);
    }
  }

  lemma StoppedStep(s: Loop, l: Label, id: EventId)
    requires Inv(s) && Enabled(s, l) && id < |s.heap.events| && !s.heap.events[id].Valid()
    ensures id < |Step(s, l).heap.events| && !Step(s, l).heap.events[id].Valid()
    ensures forall e <- Emit(s, l) :: e.id == id ==> e.Received? || e.Skipped?
  {
    hide Update, Step, Emit, Inv;
    StepKeepsIdentity(s, l);
    StoppedIsSkipped(s, l, id);
  }

  /** Stopping is for ever: whatever follows, an event that is not valid is only received or skipped. */
  lemma {:induction false} StoppedNeverRuns(s: Loop, ls: seq<Label>, id: EventId)
    requires Inv(s) && Legal(s, ls) && id < |s.heap.events| && !s.heap.events[id].Valid()
    ensures id < |Run(s, ls).heap.events| && !Run(s, ls).heap.events[id].Valid()
    ensures forall e <- Trace(s, ls) :: e.id == id ==> e.Received? || e.Skipped?
    decreases |ls|
  {
    if ls != [] {
      StoppedStep(s, ls[0], id);
      StepKeepsInv(s, ls[0]);
      StepKeepsIdentity(s, ls[0]);
      StoppedNeverRuns(Step(s, ls[0]), ls[1..], id);
    }
  }

  /** A stopped event the loop has received, on its way out. */
  ghost predicate Leaving(s: Loop, id: EventId) {
    && id < |s.heap.events| && !s.heap.events[id].Valid()
    && id !in s.heap.channel && (s.mode.Draining? ==> id !in s.swap)
  }

  lemma LeavingStep(s: Loop, l: Label, id: EventId)
    requires Inv(s) && Enabled(s, l) && Leaving(s, id)
    ensures Leaving(Step(s, l), id)
    ensures l.End? ==> id !in Held(Step(s, l))
  {
    hide Update;
    StoppedStep(s, l, id);
    StepKeepsIdentity(s, l);
    if l.Drain? {
      if s.heap.events[s.queue[0]].Valid() {
        DrainDrains(s, l.outs);
      }
    } else if l.Script? {
      CallTouches(s.heap, l.out, id);
    }
  }

  /** A stopped event that the loop has received is out of it after the next completed tick. */
  lemma {:induction false} StoppedLeavesByNextTick(s: Loop, ls: seq<Label>, id: EventId)
    requires Inv(s) && Legal(s, ls) && Leaving(s, id)
    requires End in ls
    ensures id !in Held(Run(s, ls))
    decreases |ls|
  {
    var t := Step(s, ls[0]);
    LeavingStep(s, ls[0], id);
    StepKeepsInv(s, ls[0]);
    if ls[0].End? {
      GoneForever(t, ls[1..], id);
    } else {
      StoppedLeavesByNextTick(t, ls[1..], id);
    }
  }

  function Ends(ls: seq<Label>): nat {
    multiset(ls)[End]
  }

  lemma EndsFirst(ls: seq<Label>)
    requires ls != []
    ensures Ends(ls) == Ends(ls[1..]) + if ls[0].End? then 1 else 0
    ensures Ends(ls[1..]) > 0 ==> End in ls[1..]
  {
    assert ls == [ls[0]] + ls[1..];
  }

  /** One stopped after it had been kept in the same tick is skipped in the next; either way it is soon out. */
  lemma {:induction false} StoppedLeavesSoon(s: Loop, ls: seq<Label>, id: EventId)
    requires Inv(s) && Legal(s, ls) && id < |s.heap.events| && !s.heap.events[id].Valid() && id !in s.heap.channel
    requires Ends(ls) >= 2
    ensures id !in Held(Run(s, ls))
    decreases |ls|
  {
    hide Update, Step, Enabled, Inv, Held;
    EndsFirst(ls);
    var t := Step(s, ls[0]);
    StoppedStep(s, ls[0], id);
    StepKeepsInv(s, ls[0]);
    NotSentAgain(s, ls[0], id);
    if ls[0].End? {
      StoppedLeavesByNextTick(t, ls[1..], id);
    } else {
      StoppedLeavesSoon(t, ls[1..], id);
    }
  }

  lemma NotSentAgain(s: Loop, l: Label, id: EventId)
    requires Inv(s) && Enabled(s, l) && id < |s.heap.events| && id !in s.heap.channel
    ensures id !in Step(s, l).heap.channel
    ensures l.End? ==> !Step(s, l).mode.Draining?
  {
    hide Update;
    if l.Drain? {
      if s.heap.events[s.queue[0]].Valid() {
        DrainDrains(s, l.outs);
      }
    } else if l.Script? {
      CallTouches(s.heap, l.out, id);
    }
  }

  // ---------------------------------------------------------------- a tick works on a snapshot

  function PoppedBy(e: Entry): seq<EventId> {
    if e.Skipped? || e.Updated? then [e.id] else []
  }

  /** The events popped by the inner loop, in order. */
  function Popped(tr: seq<Entry>): seq<EventId> {
    if tr == [] then [] else PoppedBy(tr[0]) + Popped(tr[1..])
  }

  lemma {:induction false} PoppedAdds(a: seq<Entry>, b: seq<Entry>)
    ensures Popped(a + b) == Popped(a) + Popped(b)
  {
    hide PoppedBy;
    if a == [] {
      assert a + b == b;
    } else {
      assert (a + b)[0] == a[0] && (a + b)[1..] == a[1..] + b;
      PoppedAdds(a[1..], b);
    }
  }

  lemma {:induction false} PoppedNone(tr: seq<Entry>)
    requires forall e <- tr :: !e.Skipped? && !e.Updated?
    ensures Popped(tr) == []
  {
    if tr != [] {
      PoppedNone(tr[1..]);
    }
  }

  lemma DrainPops(s: Loop, outs: seq<Outcome>)
    requires Enabled(s, Drain(outs))
    ensures Popped(Emit(s, Drain(outs))) == [s.queue[0]]
  {
    var tr := Emit(s, Drain(outs));
    if s.heap.events[s.queue[0]].Valid() {
      DrainEmits(s, outs);
      forall e | e in tr[1..]
        ensures !e.Skipped? && !e.Updated?
      {
      }
      PoppedNone(tr[1..]);
    }
  }

  /** Steps that can happen between the start of a tick and the next turn of the select loop. */
  predicate WithinTick(ls: seq<Label>) {
    forall l <- ls :: !l.Begin? && !l.Receive? && !l.Quit?
  }

  /** What the tick has still to pop. */
  function Unpopped(s: Loop): seq<EventId> {
    if s.mode.Idle? then [] else s.queue
  }

  lemma StepPopsQueue(s: Loop, l: Label)
    requires Enabled(s, l) && !l.Begin? && !l.Receive? && !l.Quit?
    ensures Popped(Emit(s, l)) + Unpopped(Step(s, l)) == Unpopped(s)
  {
    hide Update;
    if l.Drain? {
      DrainPops(s, l.outs);
      assert s.queue == [s.queue[0]] + s.queue[1..];
      assert Step(s, l).queue == s.queue[1..];
    } else {
      assert Emit(s, l) == [];
      assert Unpopped(Step(s, l)) == Unpopped(s);
    }
  }

  lemma {:induction false} TickPopsQueue(s: Loop, ls: seq<Label>)
    requires Legal(s, ls) && WithinTick(ls)
    ensures Popped(Trace(s, ls)) + Unpopped(Run(s, ls)) == Unpopped(s)
    decreases |ls|
  {
    hide Step, Emit, Enabled, Popped, Unpopped;
    if ls == [] {
      PoppedNone([]);
    } else {
      var l, t := ls[0], Step(s, ls[0]);
      StepPopsQueue(s, l);
      TickPopsQueue(t, ls[1..]);
      var a, b := Emit(s, l), Trace(t, ls[1..]);
      PoppedAdds(a, b);
      assert Popped(a + b) + Unpopped(Run(s, ls)) == Popped(a) + (Popped(b) + Unpopped(Run(s, ls)));
    }
  }

  /**
   A tick updates a snapshot: it pops, in non-decreasing priority and each at most once, events that were in
   the queue when it began, and it pops all of them unless an Update fails.
   */
  lemma TickIsSnapshot(s: Loop, order: seq<EventId>, elapsed: Duration, ls: seq<Label>)
    requires Inv(s) && Enabled(s, Begin(order, elapsed))
    requires Legal(Step(s, Begin(order, elapsed)), ls) && WithinTick(ls)
    ensures var begun := Step(s, Begin(order, elapsed));
            var popped, t := Popped(Trace(begun, ls)), Run(begun, ls);
            && popped <= order
            && (forall i :: 0 <= i < |popped| ==> popped[i] in s.queue && popped[i] < |t.heap.events|)
            && (forall i, j :: 0 <= i < j < |popped| ==> popped[i] != popped[j])
            && (forall i, j :: 0 <= i < j < |popped| ==>
                  t.heap.events[popped[i]].priority <= t.heap.events[popped[j]].priority)
            && (t.mode.Idle? ==> multiset(popped) == multiset(s.queue))
  {
    BeginStep(s, order, elapsed);
    hide Step, Update, Legal, Run, Trace, Popped, WithinTick, Inv;
    var begun := Step(s, Begin(order, elapsed));
    var popped, t := Popped(Trace(begun, ls)), Run(begun, ls);
    TickPopsQueue(begun, ls);
    StepKeepsInv(s, Begin(order, elapsed));
    RunKeepsIdentity(begun, ls);
    SortIsDistinct(s, begun, order);
    PrefixOfSorted(s.heap, t.heap, order, popped, Unpopped(t));
  }

  lemma BeginStep(s: Loop, order: seq<EventId>, elapsed: Duration)
    requires Enabled(s, Begin(order, elapsed))
    ensures Step(s, Begin(order, elapsed)) == s.(queue := order, mode := Draining(elapsed))
  {
  }

  lemma PrefixOfSorted(h: Heap, k: Heap, order: seq<EventId>, popped: seq<EventId>, rest: seq<EventId>)
    requires SortedByPriority(h.events, order) && AllLater(h, k) && popped + rest == order
    ensures |popped| <= |order| && popped <= order && (rest == [] ==> popped == order)
    ensures forall i :: 0 <= i < |popped| ==> popped[i] == order[i] && popped[i] < |k.events|
    ensures forall i, j :: 0 <= i < j < |popped| ==> k.events[popped[i]].priority <= k.events[popped[j]].priority
  {
    forall i | 0 <= i < |popped|
      ensures popped[i] == order[i] && popped[i] < |k.events| && Later(h.events[order[i]], k.events[order[i]])
    {
      assert (popped + rest)[i] == popped[i];
    }
  }

  lemma SortIsDistinct(s: Loop, begun: Loop, order: seq<EventId>)
    requires Inv(s) && Inv(begun) && begun.queue == order && multiset(order) == multiset(s.queue)
    ensures forall i, j :: 0 <= i < j < |order| ==> order[i] != order[j]
    ensures forall i :: 0 <= i < |order| ==> order[i] in s.queue
  {
    forall i, j | 0 <= i < j < |order|
      ensures order[i] != order[j]
    {
      OnceInBag(order, i, j);
      assert order[i] in Inside(begun);
      assert Held(begun)[order[i]] == 1;
    }
    forall i | 0 <= i < |order|
      ensures order[i] in s.queue
    {
      assert order[i] in multiset(order);
    }
  }

  lemma OnceInBag(ids: seq<EventId>, i: nat, j: nat)
    requires i < j < |ids|
    ensures ids[i] == ids[j] ==> multiset(ids)[ids[i]] >= 2
  {
    assert ids == ids[..i] + [ids[i]] + ids[i + 1..j] + [ids[j]] + ids[j + 1..];
  }

  /** Nothing is updated, received or called once an Update has failed or the loop has quit. */
  lemma {:induction false} NothingAfterHalt(s: Loop, ls: seq<Label>)
    requires s.mode.Halted? && Legal(s, ls)
    ensures Run(s, ls).mode.Halted? && Trace(s, ls) == []
    decreases |ls|
  {
    if ls != [] {
      NothingAfterHalt(Step(s, ls[0]), ls[1..]);
    }
  }
}
