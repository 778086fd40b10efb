/**
 The cooperative scheduler of runtime.go as a transition system.

 A `Loop` is what `Runtime.process` owns: the event objects made so far, the channel other
 goroutines send on, the two queues, and the goroutines that events have started.  One
 `Label` is one step of the select loop or of a goroutine running beside it; every
 interleaving of the program is a sequence of labels.  What Lua code does when it is called
 is not known, so every call is answered by an arbitrary `Outcome`.
 */
module EventLoop {
  import opened Framing

  /** Index of an event object in the order the objects were made. */
  type EventId = nat

  type Duration = int

  /** EVENT_STATE_INITIALIZE .. EVENT_STATE_COMPLETE */
  datatype Phase = Initialize | Progress | Finalize | Complete {
    function Rank(): nat {
      match this
      case Initialize => 0
      case Progress => 1
      case Finalize => 2
      case Complete => 3
    }
  }

  /** The concrete event types behind the Event interface. */
  datatype Body =
    | Timer(valid: bool, delay: Duration, period: Duration)
    | Exit(phase: Phase)
    | Http(phase: Phase)
    | PubSub(phase: Phase)
    | Zmq(phase: Phase, inbox: seq<Packet>)
    | Reload(phase: Phase, hotfix: bool, answer: Option<bool>)

  /** `priority` is what Priority() returns; EventType makes it 1. */
  datatype Event = Event(priority: int, body: Body) {
    predicate Valid() {
      match body
      case Timer(valid, _, _) => valid
      case _ => body.phase != Complete
    }

    predicate Continues() {
      match body
      case Timer(valid, delay, _) => valid && delay > 0
      case _ => body.phase != Complete
    }

    /** What a script can do to an event it holds: timers and ZeroMQ events have a stop function. */
    function Stopped(): Event {
      match body
      case Timer(_, _, _) => this.(body := body.(valid := false))
      case Zmq(_, inbox) => this.(body := Zmq(Complete, inbox))
      case _ => this
    }

    /** As the library functions build an event before sending it; reload events come from the watcher only. */
    predicate Fresh() {
      match body
      case Timer(valid, delay, period) => valid && (delay == 0 || period == 0)
      case Zmq(phase, inbox) => phase == Initialize && inbox == []
      case Reload(_, _, _) => false
      case _ => body.phase == Initialize
    }

    /** The event calls Lua once, in the Update that completes it. */
    predicate OneShot() {
      body.Http? || body.PubSub?
    }

    /** The next Update completes the event. */
    predicate Ready() {
      match body
      case Http(phase) => phase == Finalize
      case PubSub(phase) => phase == Initialize
      case Reload(phase, _, _) => phase == Initialize
      case _ => false
    }
  }

  /** How a protected Lua call ends: first result `true`, any other result, or an error. */
  datatype Verdict = Yes | No | Raised

  /**
   Everything one Lua call may do to events: stop some, post some, and end.  A reload event may end before it gets to
   its call, because the file cannot be read or does not compile, or because there is nothing to call; then `called`
   is false and `ret` says only whether that is an error.
   */
  datatype Outcome = Outcome(stops: set<EventId>, posts: seq<Event>, ret: Verdict, called: bool)

  /** The part of the state that Lua code can reach. */
  datatype Heap = Heap(events: seq<Event>, channel: seq<EventId>)

  datatype Mode = Idle | Draining(elapsed: Duration) | Halted

  datatype Loop = Loop(heap: Heap, queue: seq<EventId>, swap: seq<EventId>, mode: Mode,
                       workers: set<EventId>, cancelled: bool)

  /** What can be observed of a run. */
  datatype Entry =
    | Received(id: EventId)
    | Skipped(id: EventId)
    | Updated(id: EventId)
    | Fired(id: EventId)
    | Released(id: EventId)
    | Handed(id: EventId, packet: Packet)
    | Kept(id: EventId)
    | Dropped(id: EventId)
    | Failed(id: EventId)

  datatype Label =
    | Receive                                          // case e = <-r.EventQueue
    | Begin(order: seq<EventId>, elapsed: Duration)    // the 66 ms timer fires; queue sorted
    | Drain(outs: seq<Outcome>)                        // one turn of the inner loop
    | End                                              // inner loop done, queues swapped
    | Quit                                             // <-r.ctx.Done()
    | Script(out: Outcome)                             // Lua run outside the loop, or a goroutine posting
    | Order(hotfix: bool)                              // the file watcher posts a reload event
    | Respond(id: EventId)                             // an HTTP goroutine finishes
    | Frame(id: EventId, packet: Option<Packet>)       // a ZeroMQ goroutine deserialises a request
    | Hangup(id: EventId)                              // a ZeroMQ goroutine's channel is closed
    | Cancel                                           // Shutdown, or a Startup that failed

  const START := Loop(Heap([], []), [], [], Idle, {}, false)

  // ---------------------------------------------------------------- Lua calls

  function Ids(from: nat, count: nat): (ids: seq<EventId>)
    ensures |ids| == count && forall i :: 0 <= i < count ==> ids[i] == from + i
  {
    seq(count, i => from + i)
  }

  function StopAll(events: seq<Event>, stops: set<EventId>): (stopped: seq<Event>)
    ensures |stopped| == |events|
    ensures forall i :: 0 <= i < |events| ==> stopped[i] == if i in stops then events[i].Stopped() else events[i]
  {
    seq(|events|, i requires 0 <= i < |events| => if i in stops then events[i].Stopped() else events[i])
  }

  function Call(h: Heap, out: Outcome): Heap {
    Heap(StopAll(h.events + out.posts, out.stops), h.channel + Ids(|h.events|, |out.posts|))
  }

  predicate Plausible(out: Outcome) {
    && (forall e <- out.posts :: e.Fresh())
    && (!out.called ==> out.stops == {} && out.posts == [])
  }

  /** What a reload event answers; hotfix succeeds only by running the file. */
  predicate Succeeds(hotfix: bool, out: Outcome) {
    !out.ret.Raised? && (hotfix ==> out.called)
  }

  /** A reload event after the Update that performs it. */
  function Replied(hotfix: bool, out: Outcome): Body {
    Reload(Complete, hotfix, Some(Succeeds(hotfix, out)))
  }

  /** The outcomes of `calls` successive protected calls, cut short by the first error. */
  predicate Shaped(outs: seq<Outcome>, calls: nat) {
    && |outs| <= calls
    && (forall out <- outs :: Plausible(out))
    && (forall i :: 0 <= i < |outs| - 1 ==> !outs[i].ret.Raised?)
    && (|outs| == calls || (outs != [] && outs[|outs| - 1].ret.Raised?))
  }

  // ---------------------------------------------------------------- Update

  /** What Update leaves behind: the heap, whether it returned nil, and what it did on the way. */
  datatype Report = Report(heap: Heap, ok: bool, trace: seq<Entry>)

  function SetBody(h: Heap, id: EventId, body: Body): Heap
    requires id < |h.events|
  {
    h.(events := h.events[id := h.events[id].(body := body)])
  }

  /** Number of Lua calls Update comes to when none of them fails; a reload event may end before its one. */
  function Calls(e: Event, elapsed: Duration): nat {
    match e.body
    case Timer(_, delay, _) => if delay - elapsed > 0 then 0 else 1
    case Exit(_) => 0
    case Http(phase) => if phase == Finalize then 1 else 0
    case PubSub(phase) => if phase == Initialize then 1 else 0
    case Zmq(phase, inbox) => if phase == Progress then |inbox| else 0
    case Reload(phase, _, _) => if phase == Initialize then 1 else 0
  }

  function UpdateTimer(h: Heap, id: EventId, elapsed: Duration, outs: seq<Outcome>): Report
    requires id < |h.events| && h.events[id].body.Timer?
    requires Shaped(outs, Calls(h.events[id], elapsed))
  {
    var t := h.events[id].body;
    var ticked := SetBody(h, id, t.(delay := t.delay - elapsed));
    if t.delay - elapsed > 0 then
      Report(ticked, true, [])
    else
      var called := Call(ticked, outs[0]);
      var mine := called.events[id].body;
      match outs[0].ret
      case Raised => Report(called, false, [Fired(id)])
      case Yes => Report(SetBody(called, id, mine.(delay := mine.period)), true, [Fired(id)])
      case No => Report(SetBody(called, id, mine.(valid := false)), true, [Fired(id)])
  }

  /** StateEvent.Update: one phase on. */
  function UpdateState(phase: Phase): Phase {
    match phase
    case Initialize => Progress
    case Progress => Finalize
    case Finalize => Complete
    case Complete => Complete
  }

  /** Store(COMPLETE) on the StateEvent of an event. */
  function Completed(body: Body): Body
    requires !body.Timer?
  {
    match body
    case Exit(_) => Exit(Complete)
    case Http(_) => Http(Complete)
    case PubSub(_) => PubSub(Complete)
    case Zmq(_, inbox) => Zmq(Complete, inbox)
    case Reload(_, hotfix, answer) => Reload(Complete, hotfix, answer)
  }

  /** The call of an event that calls Lua once; `defer e.Store(COMPLETE)` runs whether or not it fails. */
  function FireOnce(h: Heap, id: EventId, out: Outcome): Heap
    requires id < |h.events| && !h.events[id].body.Timer?
  {
    var called := Call(h, out);
    SetBody(called, id, Completed(called.events[id].body))
  }

  /** Hands packets from the front of the inbox to Lua, one call each, until an error or none is left. */
  function HandOut(h: Heap, id: EventId, outs: seq<Outcome>): Report
    requires id < |h.events| && h.events[id].body.Zmq?
    requires |outs| <= |h.events[id].body.inbox|
    decreases |outs|
  {
    if outs == [] then
      Report(h, true, [])
    else
      var z := h.events[id].body;
      var called := Call(SetBody(h, id, z.(inbox := z.inbox[1..])), outs[0]);
      if outs[0].ret.Raised? then
        Report(called, false, [Handed(id, z.inbox[0])])
      else
        var rest := HandOut(called, id, outs[1..]);
        Report(rest.heap, rest.ok, [Handed(id, z.inbox[0])] + rest.trace)
  }

  function Update(h: Heap, id: EventId, elapsed: Duration, outs: seq<Outcome>): Report
    requires id < |h.events|
    requires Shaped(outs, Calls(h.events[id], elapsed))
  {
    var e := h.events[id];
    match e.body
    case Timer(_, _, _) => UpdateTimer(h, id, elapsed, outs)
    case Exit(phase) => Report(SetBody(h, id, Exit(UpdateState(phase))), true, [])
    case Http(phase) =>
      if phase == Initialize then
        Report(SetBody(h, id, Http(Progress)), true, [])
      else if phase == Finalize then
        Report(FireOnce(h, id, outs[0]), !outs[0].ret.Raised?, [Fired(id), Released(id)])
      else
        Report(h, true, [])
    case PubSub(phase) =>
      if phase == Initialize then
        Report(FireOnce(h, id, outs[0]), !outs[0].ret.Raised?, [Fired(id)])
      else
        Report(h, true, [])
    case Zmq(phase, _) =>
      if phase == Initialize then
        Report(SetBody(h, id, Zmq(Progress, [])), true, [])
      else if phase == Progress then
        HandOut(h, id, outs)
      else
        Report(h, true, [])
    case Reload(phase, hotfix, _) =>
      if phase == Initialize then
        // The result goes to the watcher; Update itself reports no error.
        var done := FireOnce(h, id, outs[0]);
        Report(SetBody(done, id, Replied(hotfix, outs[0])), true,
               if outs[0].called then [Fired(id)] else [])
      else
        Report(h, true, [])
  }

  /** The goroutine an Update starts, if any. */
  function Spawned(e: Event, id: EventId): set<EventId> {
    match e.body
    case Http(phase) => if phase == Initialize then {id} else {}
    case Zmq(phase, _) => if phase == Initialize then {id} else {}
    case _ => {}
  }

  // ---------------------------------------------------------------- steps

  predicate SortedByPriority(events: seq<Event>, ids: seq<EventId>) {
    && (forall i :: 0 <= i < |ids| ==> ids[i] < |events|)
    && forall i, j :: 0 <= i < j < |ids| ==> events[ids[i]].priority <= events[ids[j]].priority
  }

  predicate Enabled(s: Loop, l: Label) {
    match l
    case Receive => s.mode.Idle? && s.heap.channel != []
    case Begin(order, elapsed) =>
      s.mode.Idle? && elapsed >= 0 && multiset(order) == multiset(s.queue) && SortedByPriority(s.heap.events, order)
    case Drain(outs) =>
      && s.mode.Draining? && s.queue != [] && s.queue[0] < |s.heap.events|
      && var e := s.heap.events[s.queue[0]];
      && if e.Valid() then Shaped(outs, Calls(e, s.mode.elapsed)) else outs == []
    case End => s.mode.Draining? && s.queue == []
    case Quit => s.mode.Idle? && s.cancelled
    case Script(out) => Plausible(out)
    case Order(_) => true
    case Cancel => true
    case Respond(id) => id in s.workers && id < |s.heap.events| && s.heap.events[id].body.Http?
    case Frame(id, _) => id in s.workers && id < |s.heap.events| && s.heap.events[id].body.Zmq?
    case Hangup(id) => id in s.workers && id < |s.heap.events| && s.heap.events[id].body.Zmq?
  }

  function DrainStep(s: Loop, outs: seq<Outcome>): Loop
    requires Enabled(s, Drain(outs))
  {
    var id, rest := s.queue[0], s.queue[1..];
    var e := s.heap.events[id];
    if !e.Valid() then
      s.(queue := rest)
    else
      var r := Update(s.heap, id, s.mode.elapsed, outs);
      UpdateKeepsIdentity(s.heap, id, s.mode.elapsed, outs);
      s.(heap := r.heap,
         queue := rest,
         swap := if r.ok && r.heap.events[id].Continues() then s.swap + [id] else s.swap,
         mode := if r.ok then s.mode else Halted,
         workers := s.workers + Spawned(e, id),
         cancelled := s.cancelled || e.body.Exit?)
  }

  function Step(s: Loop, l: Label): Loop
    requires Enabled(s, l)
  {
    match l
    case Receive => s.(heap := s.heap.(channel := s.heap.channel[1..]), queue := s.queue + [s.heap.channel[0]])
    case Begin(order, elapsed) => s.(queue := order, mode := Draining(elapsed))
    case Drain(outs) => DrainStep(s, outs)
    case End => s.(queue := s.swap, swap := s.queue, mode := Idle)
    case Quit => s.(mode := Halted)
    case Cancel => s.(cancelled := true)
    case Script(out) => s.(heap := Call(s.heap, out))
    case Order(hotfix) =>
      s.(heap := Heap(s.heap.events + [Event(1, Reload(Initialize, hotfix, None))],
                      s.heap.channel + [|s.heap.events|]))
    case Respond(id) => s.(heap := SetBody(s.heap, id, Http(Finalize)), workers := s.workers - {id})
    case Frame(id, packet) =>
      (match packet
       case Some(p) =>
         var z := s.heap.events[id].body;
         s.(heap := SetBody(s.heap, id, z.(inbox := z.inbox + [p])))
       case None => s)
    case Hangup(id) =>
      s.(heap := SetBody(s.heap, id, Completed(s.heap.events[id].body)), workers := s.workers - {id})
  }

  function Emit(s: Loop, l: Label): seq<Entry>
    requires Enabled(s, l)
  {
    match l
    case Receive => [Received(s.heap.channel[0])]
    case Drain(outs) =>
      var id := s.queue[0];
      if !s.heap.events[id].Valid() then
        [Skipped(id)]
      else
        var r := Update(s.heap, id, s.mode.elapsed, outs);
        UpdateKeepsIdentity(s.heap, id, s.mode.elapsed, outs);
        [Updated(id)] + r.trace +
        [if !r.ok then Failed(id) else if r.heap.events[id].Continues() then Kept(id) else Dropped(id)]
    case _ => []
  }

  // ---------------------------------------------------------------- runs

  predicate Legal(s: Loop, ls: seq<Label>)
    decreases |ls|
  {
    ls != [] ==> Enabled(s, ls[0]) && Legal(Step(s, ls[0]), ls[1..])
  }

  function Run(s: Loop, ls: seq<Label>): Loop
    requires Legal(s, ls)
    decreases |ls|
  {
    if ls == [] then s else Run(Step(s, ls[0]), ls[1..])
  }

  function Trace(s: Loop, ls: seq<Label>): seq<Entry>
    requires Legal(s, ls)
    decreases |ls|
  {
    if ls == [] then [] else Emit(s, ls[0]) + Trace(Step(s, ls[0]), ls[1..])
  }

  // ---------------------------------------------------------------- what every step does to one event

  /** `f` is `e` at the same time or later: same kind and priority, validity never regained, phase never back. */
  predicate Later(e: Event, f: Event) {
    && f.priority == e.priority
    && match e.body {
         case Timer(valid, _, period) => f.body.Timer? && f.body.period == period && (f.body.valid ==> valid)
         case Exit(phase) => f.body.Exit? && phase.Rank() <= f.body.phase.Rank()
         case Http(phase) => f.body.Http? && phase.Rank() <= f.body.phase.Rank()
         case PubSub(phase) => f.body.PubSub? && phase.Rank() <= f.body.phase.Rank()
         case Zmq(phase, _) => f.body.Zmq? && phase.Rank() <= f.body.phase.Rank()
         case Reload(phase, hotfix, answer) =>
           && f.body.Reload? && f.body.hotfix == hotfix && phase.Rank() <= f.body.phase.Rank()
           && (answer.Some? ==> f.body.answer.Some?)
       }
  }

  predicate AllLater(h: Heap, k: Heap) {
    |h.events| <= |k.events| && forall i :: 0 <= i < |h.events| ==> Later(h.events[i], k.events[i])
  }

  lemma LaterSelf(e: Event)
    ensures Later(e, e) && Later(e, e.Stopped())
  {
  }

  lemma CallKeepsIdentity(h: Heap, out: Outcome)
    ensures AllLater(h, Call(h, out))
  {
    var k := Call(h, out);
    hide Later;
    forall i | 0 <= i < |h.events|
      ensures Later(h.events[i], k.events[i])
    {
      LaterSelf(h.events[i]);
    }
  }

  lemma LaterTransitive(h: Heap, j: Heap, k: Heap)
    requires AllLater(h, j) && AllLater(j, k)
    ensures AllLater(h, k)
  {
    forall i | 0 <= i < |h.events|
      ensures Later(h.events[i], k.events[i])
    {
      assert Later(h.events[i], j.events[i]) && Later(j.events[i], k.events[i]);
    }
  }

  lemma SetBodyKeepsIdentity(h: Heap, id: EventId, body: Body)
    requires id < |h.events| && Later(h.events[id], h.events[id].(body := body))
    ensures AllLater(h, SetBody(h, id, body))
  {
    hide Later;
    forall i | 0 <= i < |h.events|
      ensures Later(h.events[i], SetBody(h, id, body).events[i])
    {
      LaterSelf(h.events[i]);
    }
  }

  lemma {:induction false} HandOutKeepsIdentity(h: Heap, id: EventId, outs: seq<Outcome>)
    requires id < |h.events| && h.events[id].body.Zmq?
    requires |outs| <= |h.events[id].body.inbox|
    ensures AllLater(h, HandOut(h, id, outs).heap)
    decreases |outs|
  {
    if outs == [] {
      SetBodyKeepsIdentity(h, id, h.events[id].body);
      assert SetBody(h, id, h.events[id].body) == h;
    } else {
      var z := h.events[id].body;
      var popped := SetBody(h, id, z.(inbox := z.inbox[1..]));
      var called := Call(popped, outs[0]);
      SetBodyKeepsIdentity(h, id, z.(inbox := z.inbox[1..]));
      CallKeepsIdentity(popped, outs[0]);
      LaterTransitive(h, popped, called);
      if !outs[0].ret.Raised? {
        HandOutKeepsIdentity(called, id, outs[1..]);
        LaterTransitive(h, called, HandOut(called, id, outs[1..]).heap);
      }
    }
  }

  lemma UpdateTimerKeepsIdentity(h: Heap, id: EventId, elapsed: Duration, outs: seq<Outcome>)
    requires id < |h.events| && h.events[id].body.Timer?
    requires Shaped(outs, Calls(h.events[id], elapsed))
    ensures AllLater(h, UpdateTimer(h, id, elapsed, outs).heap)
  {
    var t := h.events[id].body;
    var ticked := SetBody(h, id, t.(delay := t.delay - elapsed));
    SetBodyKeepsIdentity(h, id, t.(delay := t.delay - elapsed));
    if t.delay - elapsed <= 0 {
      var called := Call(ticked, outs[0]);
      CallKeepsIdentity(ticked, outs[0]);
      LaterTransitive(h, ticked, called);
      var mine := called.events[id].body;
      if outs[0].ret.Yes? {
        SetBodyKeepsIdentity(called, id, mine.(delay := mine.period));
        LaterTransitive(h, called, SetBody(called, id, mine.(delay := mine.period)));
      } else if outs[0].ret.No? {
        SetBodyKeepsIdentity(called, id, mine.(valid := false));
        LaterTransitive(h, called, SetBody(called, id, mine.(valid := false)));
      }
    }
  }

  lemma FireOnceKeepsIdentity(h: Heap, id: EventId, out: Outcome)
    requires id < |h.events| && !h.events[id].body.Timer?
    ensures AllLater(h, FireOnce(h, id, out))
    ensures FireOnce(h, id, out).events[id].body == Completed(h.events[id].body)
  {
    var called := Call(h, out);
    CallKeepsIdentity(h, out);
    SetBodyKeepsIdentity(called, id, Completed(called.events[id].body));
    LaterTransitive(h, called, SetBody(called, id, Completed(called.events[id].body)));
  }

  lemma UpdateKeepsIdentity(h: Heap, id: EventId, elapsed: Duration, outs: seq<Outcome>)
    requires id < |h.events|
    requires Shaped(outs, Calls(h.events[id], elapsed))
    ensures AllLater(h, Update(h, id, elapsed, outs).heap)
  {
    var e, k := h.events[id], Update(h, id, elapsed, outs).heap;
    if e.body.Timer? {
      UpdateTimerKeepsIdentity(h, id, elapsed, outs);
    } else if e.body.Zmq? && e.body.phase == Progress {
      HandOutKeepsIdentity(h, id, outs);
    } else if Calls(e, elapsed) == 1 {
      var done := FireOnce(h, id, outs[0]);
      FireOnceKeepsIdentity(h, id, outs[0]);
      SetBodyKeepsIdentity(done, id, k.events[id].body);
      LaterTransitive(h, done, SetBody(done, id, k.events[id].body));
    } else {
      SetBodyKeepsIdentity(h, id, k.events[id].body);
    }
  }
}
