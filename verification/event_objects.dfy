/**
 The event objects of runtime_event_timer.go, runtime_event_state.go and the files that embed them, and the part
 of a runtime that Lua code reaches: the objects made so far and the channel they are sent on.  `Vm.heap` is the
 value of the `EventLoop` model; every method ties the objects to it.
 */
module EventObjects {
  import opened Framing
  import opened EventLoop

  /** TimerEvent, with the fields of localTimerEvent that change. */
  class TimerEvent {
    const priority: int
    const period: Duration
    var value: bool
    var delay: Duration

    constructor (priority: int, valid: bool, delay: Duration, period: Duration)
      ensures this.priority == priority && this.period == period && this.value == valid && this.delay == delay
    {
      this.priority, this.period := priority, period;
      value, this.delay := valid, delay;
    }

    function Valid(): bool
      reads this
    {
      value
    }

    function Continue(): bool
      reads this
    {
      value && delay > 0
    }

    method Stop()
      modifies this
      ensures !value && delay == old(delay)
    {
      value := false;
    }
  }

  datatype Kind = ExitEvent | HttpEvent | PubSubEvent | ZmqEvent | ReloadEvent(hotfix: bool)

  /** StateEvent, with fields of the types that embed it: the queue of localZmqEvent, the answer of a reload event. */
  class StateEvent {
    const priority: int
    const kind: Kind
    var value: Phase
    var inbox: seq<Packet>
    var answer: Option<bool>

    constructor (priority: int, kind: Kind, value: Phase, inbox: seq<Packet>, answer: Option<bool>)
      ensures this.priority == priority && this.kind == kind
      ensures this.value == value && this.inbox == inbox && this.answer == answer
    {
      this.priority, this.kind := priority, kind;
      this.value, this.inbox, this.answer := value, inbox, answer;
    }

    function Valid(): bool
      reads this
    {
      value != Complete
    }

    function Continue(): bool
      reads this
    {
      value != Complete
    }

    method Store(value: Phase)
      modifies this`value
      ensures this.value == value
    {
      this.value := value;
    }

    /** StateEvent.Update */
    method Advance()
      modifies this`value
      ensures value == UpdateState(old(value))
    {
      match value
      case Initialize => Store(Progress);
      case Progress => Store(Finalize);
      case Finalize => Store(Complete);
      case Complete =>
    }

    ghost function Body(): Body
      reads this
    {
      match kind
      case ExitEvent => Exit(value)
      case HttpEvent => Http(value)
      case PubSubEvent => PubSub(value)
      case ZmqEvent => Zmq(value, inbox)
      case ReloadEvent(hotfix) => Reload(value, hotfix, answer)
    }
  }

  /** A value of the Event interface. */
  datatype EventRef = NoEvent | OfTimer(timer: TimerEvent) | OfState(state: StateEvent) {
    ghost function Footprint(): set<object> {
      match this
      case NoEvent => {}
      case OfTimer(t) => {t}
      case OfState(s) => {s}
    }

    /** The object now holds what the model says of it. */
    ghost predicate Shows(e: Event)
      reads Footprint()
    {
      match this
      case NoEvent => false
      case OfTimer(t) => e == Event(t.priority, Timer(t.value, t.delay, t.period))
      case OfState(s) => e == Event(s.priority, s.Body())
    }

    function Priority(): int {
      match this
      case NoEvent => 0
      case OfTimer(t) => t.priority
      case OfState(s) => s.priority
    }

    function Valid(): (r: bool)
      reads Footprint()
      ensures forall e :: Shows(e) ==> r == e.Valid()
    {
      match this
      case NoEvent => false
      case OfTimer(t) => t.Valid()
      case OfState(s) => s.Valid()
    }

    function Continue(): (r: bool)
      reads Footprint()
      ensures forall e :: Shows(e) ==> r == e.Continues()
    {
      match this
      case NoEvent => false
      case OfTimer(t) => t.Continue()
      case OfState(s) => s.Continue()
    }
  }

  method NewEvent(e: Event) returns (r: EventRef)
    ensures r.Shows(e) && fresh(r.Footprint())
  {
    match e.body {
      case Timer(valid, delay, period) =>
        var t := new TimerEvent(e.priority, valid, delay, period);
        r := OfTimer(t);
      case Exit(phase) =>
        var s := new StateEvent(e.priority, ExitEvent, phase, [], None);
        r := OfState(s);
      case Http(phase) =>
        var s := new StateEvent(e.priority, HttpEvent, phase, [], None);
        r := OfState(s);
      case PubSub(phase) =>
        var s := new StateEvent(e.priority, PubSubEvent, phase, [], None);
        r := OfState(s);
      case Zmq(phase, inbox) =>
        var s := new StateEvent(e.priority, ZmqEvent, phase, inbox, None);
        r := OfState(s);
      case Reload(phase, hotfix, answer) =>
        var s := new StateEvent(e.priority, ReloadEvent(hotfix), phase, [], answer);
        r := OfState(s);
    }
  }

  /** The references in a queue are to the objects with these numbers. */
  ghost predicate Refer(refs: seq<EventRef>, made: seq<EventRef>, ids: seq<EventId>) {
    |refs| == |ids| && forall i :: 0 <= i < |ids| ==> ids[i] < |made| && refs[i] == made[ids[i]]
  }

  class Vm {
    var made: seq<EventRef>
    var channel: seq<EventRef>
    ghost var heap: Heap
    ghost var log: seq<Entry>      // what the Updates have done, as the model's traces say it
    ghost var Repr: set<object>

    ghost predicate Valid()
      reads this, Repr
    {
      && this in Repr
      && |made| == |heap.events|
      && (forall i :: 0 <= i < |made| ==> made[i].Footprint() <= Repr && made[i].Shows(heap.events[i]))
      && (forall i, j :: 0 <= i < j < |made| ==> made[i] != made[j])
      && Refer(channel, made, heap.channel)
    }

    constructor ()
      ensures Valid() && fresh(Repr) && heap == Heap([], []) && log == []
    {
      made, channel := [], [];
      heap, log := Heap([], []), [];
      Repr := {this};
    }

    /** Valid, but for what one object holds. */
    ghost predicate ValidBut(id: EventId)
      reads this, Repr
    {
      && this in Repr
      && |made| == |heap.events|
      && (forall i :: 0 <= i < |made| ==> made[i].Footprint() <= Repr && (i != id ==> made[i].Shows(heap.events[i])))
      && (forall i, j :: 0 <= i < j < |made| ==> made[i] != made[j])
      && Refer(channel, made, heap.channel)
    }

    /** The model catches up with the one object that has changed. */
    ghost method Record(id: EventId, e: Event)
      requires ValidBut(id) && id < |made| && made[id].Shows(e)
      modifies this`heap
      ensures Valid() && heap == old(heap).(events := old(heap).events[id := e])
    {
      heap := heap.(events := heap.events[id := e]);
    }

    /** The front of the channel is taken off. */
    method Take() returns (e: EventRef)
      requires Valid() && heap.channel != []
      modifies this
      ensures Valid() && Repr == old(Repr) && made == old(made)
      ensures old(heap.channel) != [] && heap == Heap(old(heap.events), old(heap.channel)[1..])
      ensures log == old(log) + [Received(old(heap.channel)[0])]
      ensures old(heap.channel)[0] < |made| && made[old(heap.channel)[0]] == e
    {
      e := channel[0];
      channel := channel[1..];
      log := log + [Received(heap.channel[0])];
      heap := Heap(heap.events, heap.channel[1..]);
    }

    /** A new event object is sent on the channel. */
    method Post(e: Event)
      requires Valid()
      modifies this
      ensures Valid() && old(Repr) <= Repr && fresh(Repr - old(Repr))
      ensures |made| == |old(made)| + 1 && old(made) <= made && log == old(log)
      ensures heap == Heap(old(heap).events + [e], old(heap).channel + [|old(heap).events|])
    {
      var r := NewEvent(e);
      heap := Heap(heap.events + [e], heap.channel + [|made|]);
      made, channel := made + [r], channel + [r];
      Repr := Repr + r.Footprint();
    }

    /** The stop function of an event's Lua table, if it has one. */
    method Stop(id: EventId)
      requires Valid() && id < |made|
      modifies Repr
      ensures Valid() && Repr == old(Repr) && made == old(made) && channel == old(channel) && log == old(log)
      ensures heap == old(heap).(events := old(heap).events[id := old(heap).events[id].Stopped()])
    {
      var e := made[id];
      if e.OfTimer? {
        e.timer.Stop();
      } else if e.state.kind == ZmqEvent {
        e.state.Store(Complete);
      }
      Record(id, heap.events[id].Stopped());
    }

    /** A protected Lua call: any events are posted and any are stopped, and it ends in any way. */
    method CallLua(ghost call: seq<Entry>) returns (out: Outcome)
      requires Valid()
      modifies Repr
      ensures log == old(log) + call
      ensures Valid() && old(Repr) <= Repr && fresh(Repr - old(Repr)) && old(made) <= made
      ensures Plausible(out) && out.called && heap == Call(old(heap), out)
    {
      log := log + call;
      out := *;
      if !Plausible(out) || !out.called {
        out := Outcome({}, [], Yes, true);
      }
      ghost var before, posts := heap, out.posts;
      for i := 0 to |out.posts|
        invariant Valid() && old(Repr) <= Repr && fresh(Repr - old(Repr)) && old(made) <= made
        invariant log == old(log) + call
        invariant heap.events == before.events + posts[..i] && heap.channel == before.channel + Ids(|before.events|, i)
      {
        Post(out.posts[i]);
      }
      ghost var posted := heap.events;
      assert posted == before.events + posts;
      for i := 0 to |made|
        invariant Valid() && old(Repr) <= Repr && fresh(Repr - old(Repr)) && old(made) <= made
        invariant log == old(log) + call && |made| == |posted| == |heap.events|
        invariant heap.channel == before.channel + Ids(|before.events|, |posts|)
        invariant forall j :: 0 <= j < |posted| ==>
                    heap.events[j] == if j < i && j in out.stops then posted[j].Stopped() else posted[j]
      {
        if i in out.stops {
          Stop(i);
        }
      }
      assert heap.events == StopAll(posted, out.stops);
    }

    /** An Update that began with this log has done what the model reports. */
    ghost predicate Did(r: Report, ok: bool, before: seq<Entry>)
      reads this
    {
      heap == r.heap && ok == r.ok && log == before + r.trace
    }

    /** localTimerEvent.Update from the call on. */
    method Fire(e: TimerEvent, ghost id: EventId) returns (ok: bool, ret: Outcome)
      requires Valid() && id < |made| && made[id] == OfTimer(e)
      modifies Repr
      ensures Valid() && old(Repr) <= Repr && fresh(Repr - old(Repr)) && old(made) <= made
      ensures Plausible(ret) && ok == !ret.ret.Raised? && log == old(log) + [Fired(id)]
      ensures var called := Call(old(heap), ret);
              && id < |called.events| && called.events[id].body.Timer?
              && var mine := called.events[id].body;
              && heap == match ret.ret
                         case Raised => called
                         case Yes => SetBody(called, id, mine.(delay := mine.period))
                         case No => SetBody(called, id, mine.(valid := false))
    {
      assert OfTimer(e).Shows(heap.events[id]);
      ret := CallLua([Fired(id)]);
      ghost var mine := heap.events[id].body;
      assert OfTimer(e).Shows(heap.events[id]);
      if ret.ret.Raised? {
        return false, ret;
      }
      if ret.ret.Yes? {
        e.delay := e.period;
        Record(id, heap.events[id].(body := mine.(delay := mine.period)));
      } else {
        e.value := false;
        Record(id, heap.events[id].(body := mine.(valid := false)));
      }
      ok := true;
    }

    /** localTimerEvent.Update */
    method UpdateTimer(e: TimerEvent, ghost id: EventId, elapsed: Duration) returns (ok: bool, ghost outs: seq<Outcome>)
      requires Valid() && id < |made| && made[id] == OfTimer(e)
      modifies Repr
      ensures Valid() && old(Repr) <= Repr && fresh(Repr - old(Repr)) && old(made) <= made
      ensures Shaped(outs, Calls(old(heap).events[id], elapsed))
      ensures Did(Update(old(heap), id, elapsed, outs), ok, old(log))
    {
      var t := heap.events[id].body;
      e.delay := e.delay - elapsed;
      Record(id, heap.events[id].(body := t.(delay := t.delay - elapsed)));
      if e.delay > 0 {
        return true, [];
      }
      var ret;
      ok, ret := Fire(e, id);
      outs := [ret];
    }

    /** localExitEvent.Update, but for the cancel function that the runtime calls. */
    method UpdateExit(e: StateEvent, ghost id: EventId)
      requires Valid() && id < |made| && made[id] == OfState(e) && e.kind == ExitEvent
      modifies Repr
      ensures Valid() && old(Repr) == Repr && old(made) == made
      ensures Did(Update(old(heap), id, 0, []), true, old(log))
    {
      e.Advance();
      Record(id, heap.events[id].(body := Exit(UpdateState(heap.events[id].body.phase))));
    }

    /** localHTTPRequestEvent.Update: it starts the request, or hands the response over. */
    method UpdateHttp(e: StateEvent, ghost id: EventId) returns (ok: bool, ghost outs: seq<Outcome>)
      requires Valid() && id < |made| && made[id] == OfState(e) && e.kind == HttpEvent
      modifies Repr
      ensures Valid() && old(Repr) <= Repr && fresh(Repr - old(Repr)) && old(made) <= made
      ensures Shaped(outs, Calls(old(heap).events[id], 0))
      ensures Did(Update(old(heap), id, 0, outs), ok, old(log))
      ensures ok <==> forall out <- outs :: !out.ret.Raised?
    {
      ok, outs := true, [];
      if e.value == Initialize {
        e.Store(Progress);
        Record(id, heap.events[id].(body := Http(Progress)));
      } else if e.value == Finalize {
        var ret := CallLua([Fired(id)]);
        ok, outs := !ret.ret.Raised?, [ret];
        log := log + [Released(id)];
        e.Store(Complete);
        Record(id, heap.events[id].(body := Http(Complete)));
      }
    }

    /** pubSubEvent.Update */
    method UpdatePubSub(e: StateEvent, ghost id: EventId) returns (ok: bool, ghost outs: seq<Outcome>)
      requires Valid() && id < |made| && made[id] == OfState(e) && e.kind == PubSubEvent
      modifies Repr
      ensures Valid() && old(Repr) <= Repr && fresh(Repr - old(Repr)) && old(made) <= made
      ensures Shaped(outs, Calls(old(heap).events[id], 0))
      ensures Did(Update(old(heap), id, 0, outs), ok, old(log))
      ensures ok <==> forall out <- outs :: !out.ret.Raised?
    {
      ok, outs := true, [];
      if e.value == Initialize {
        var ret := CallLua([Fired(id)]);
        ok, outs := !ret.ret.Raised?, [ret];
        e.Store(Complete);
        Record(id, heap.events[id].(body := PubSub(Complete)));
      }
    }

    /**
     localHotfixEvent.Update and localPatchEvent.Update: an error goes to the watcher, not to the loop.  The file
     may not load, and a patch has nothing to call if the module has not been evaluated in this runtime.
     */
    method UpdateReload(e: StateEvent, ghost id: EventId) returns (ghost outs: seq<Outcome>)
      requires Valid() && id < |made| && made[id] == OfState(e) && e.kind.ReloadEvent?
      modifies Repr
      ensures Valid() && old(Repr) <= Repr && fresh(Repr - old(Repr)) && old(made) <= made
      ensures Shaped(outs, Calls(old(heap).events[id], 0))
      ensures Did(Update(old(heap), id, 0, outs), true, old(log))
      ensures e.answer == if old(e.value) == Initialize
                          then Some(!outs[0].ret.Raised? && (outs[0].called || !e.kind.hotfix)) else old(e.answer)
    {
      outs := [];
      if e.value == Initialize {
        ghost var out;
        var ok;
        ok, out := PerformReload(e, id);
        outs := [out];
        e.answer := Some(ok);
        e.Store(Complete);
        Record(id, heap.events[id].(body := Reload(Complete, e.kind.hotfix, Some(ok))));
      }
    }

    /** module.hotfix(l) or module.patch(l), as far as events can tell. */
    method PerformReload(e: StateEvent, ghost id: EventId) returns (ok: bool, ghost out: Outcome)
      requires Valid() && id < |made| && made[id] == OfState(e) && e.kind.ReloadEvent?
      modifies Repr
      ensures Valid() && old(Repr) <= Repr && fresh(Repr - old(Repr)) && old(made) <= made
      ensures Plausible(out) && ok == Succeeds(e.kind.hotfix, out)
      ensures ok <==> !out.ret.Raised? && (out.called || !e.kind.hotfix)
      ensures heap == Call(old(heap), out) && log == old(log) + if out.called then [Fired(id)] else []
    {
      var loads: bool, evaluated: bool := *, *;
      if loads && (e.kind.hotfix || evaluated) {
        var ret := CallLua([Fired(id)]);
        ok, out := !ret.ret.Raised?, ret;
      } else {
        ok := loads;
        out := Outcome({}, [], if ok then Yes else Raised, false);
        CallNothing(heap, out);
        assert log + [] == log;
      }
    }

    /** One packet off the front of the queue of a ZeroMQ event, and a call with it. */
    method HandOutNext(e: StateEvent, ghost id: EventId) returns (out: Outcome)
      requires Valid() && id < |made| && made[id] == OfState(e) && e.kind == ZmqEvent && e.inbox != []
      modifies Repr
      ensures Valid() && old(Repr) <= Repr && fresh(Repr - old(Repr)) && old(made) <= made
      ensures Plausible(out) && e.inbox == old(e.inbox[1..]) && log == old(log) + [Handed(id, old(e.inbox[0]))]
      ensures var z := old(heap).events[id].body;
              z.Zmq? && heap == Call(SetBody(old(heap), id, z.(inbox := z.inbox[1..])), out)
    {
      var packet := e.inbox[0];
      e.inbox := e.inbox[1..];
      Record(id, heap.events[id].(body := Zmq(e.value, e.inbox)));
      ghost var popped := heap;
      out := CallLua([Handed(id, packet)]);
      assert heap.events[id].body.inbox == popped.events[id].body.inbox;
    }

    /** The loop of localZmqEvent.Update. */
    method HandOutAll(e: StateEvent, ghost id: EventId) returns (ok: bool, ghost outs: seq<Outcome>)
      requires Valid() && id < |made| && made[id] == OfState(e) && e.kind == ZmqEvent
      modifies Repr
      ensures Valid() && old(Repr) <= Repr && fresh(Repr - old(Repr)) && old(made) <= made
      ensures Shaped(outs, |old(e.inbox)|)
      ensures Did(HandOut(old(heap), id, outs), ok, old(log))
    {
      hide HandOut, Shaped, Plausible;
      outs := [];
      ghost var before := heap;
      assert before.events[id].body == Zmq(e.value, e.inbox);
      HandOutOk(before, id, []);
      HandOutNone(before, id);
      while |e.inbox| > 0
        invariant Valid() && old(Repr) <= Repr && fresh(Repr - old(Repr)) && old(made) <= made
        invariant |outs| + |e.inbox| == |before.events[id].body.inbox|
        invariant forall out <- outs :: Plausible(out) && !out.ret.Raised?
        invariant Did(HandOut(before, id, outs), true, old(log))
        decreases |e.inbox|
      {
        ghost var packet := e.inbox[0];
        assert heap.events[id].body == Zmq(e.value, e.inbox);
        var ret := HandOutNext(e, id);
        HandOutOneMore(before, id, outs, ret);
        outs := outs + [ret];
        if ret.ret.Raised? {
          ShapedAll(outs, |before.events[id].body.inbox|);
          return false, outs;
        }
      }
      ShapedAll(outs, |before.events[id].body.inbox|);
      ok := true;
    }

    /** localZmqEvent.Update: it starts the receiver, or hands out every packet that is waiting. */
    method UpdateZmq(e: StateEvent, ghost id: EventId) returns (ok: bool, ghost outs: seq<Outcome>)
      requires Valid() && id < |made| && made[id] == OfState(e) && e.kind == ZmqEvent
      modifies Repr
      ensures Valid() && old(Repr) <= Repr && fresh(Repr - old(Repr)) && old(made) <= made
      ensures Shaped(outs, Calls(old(heap).events[id], 0))
      ensures Did(Update(old(heap), id, 0, outs), ok, old(log))
    {
      ok, outs := true, [];
      if e.value == Initialize {
        e.value, e.inbox := Progress, [];
        Record(id, heap.events[id].(body := Zmq(Progress, [])));
      } else if e.value == Progress {
        ok, outs := HandOutAll(e, id);
      }
    }

    /**
     e.Update(elapsed) for an event of any type; `starts` says that it has started a goroutine, and `exits` that it
     has called the runtime's cancel function.
     */
    method UpdateEvent(e: EventRef, ghost id: EventId, elapsed: Duration)
        returns (ok: bool, starts: bool, exits: bool, ghost outs: seq<Outcome>)
      requires Valid() && id < |made| && made[id] == e
      modifies Repr
      ensures Valid() && old(Repr) <= Repr && fresh(Repr - old(Repr)) && old(made) <= made
      ensures Shaped(outs, Calls(old(heap).events[id], elapsed))
      ensures Did(Update(old(heap), id, elapsed, outs), ok, old(log))
      ensures exits == old(heap).events[id].body.Exit?
      ensures starts == (Spawned(old(heap).events[id], id) != {}) && (starts ==> e.OfState?)
    {
      ok, exits, outs := true, false, [];
      starts := e.OfState? && (e.state.kind == HttpEvent || e.state.kind == ZmqEvent) && e.state.value == Initialize;
      match e {
        case OfTimer(t) => ok, outs := UpdateTimer(t, id, elapsed);
        case OfState(s) =>
          match s.kind {
            case ExitEvent =>
              UpdateExit(s, id);
              exits := true;
            case HttpEvent => ok, outs := UpdateHttp(s, id);
            case PubSubEvent => ok, outs := UpdatePubSub(s, id);
            case ZmqEvent => ok, outs := UpdateZmq(s, id);
            case ReloadEvent(_) => outs := UpdateReload(s, id);
          }
      }
    }

    /** The deferred store of a request goroutine. */
    method Respond(e: StateEvent, ghost id: EventId)
      requires Valid() && id < |made| && made[id] == OfState(e) && e.kind == HttpEvent
      modifies Repr
      ensures Valid() && Repr == old(Repr) && made == old(made) && log == old(log)
      ensures heap == SetBody(old(heap), id, Http(Finalize))
    {
      e.Store(Finalize);
      Record(id, heap.events[id].(body := Http(Finalize)));
    }

    /** The receiver of a ZeroMQ event queues a packet. */
    method Frame(e: StateEvent, ghost id: EventId, packet: Packet)
      requires Valid() && id < |made| && made[id] == OfState(e) && e.kind == ZmqEvent
      modifies Repr
      ensures Valid() && Repr == old(Repr) && made == old(made) && log == old(log)
      ensures var z := old(heap).events[id].body;
              heap == SetBody(old(heap), id, z.(inbox := z.inbox + [packet]))
    {
      e.inbox := e.inbox + [packet];
      Record(id, heap.events[id].(body := Zmq(e.value, e.inbox)));
    }

    /** The deferred store of a ZeroMQ receiver. */
    method Hangup(e: StateEvent, ghost id: EventId)
      requires Valid() && id < |made| && made[id] == OfState(e) && e.kind == ZmqEvent
      modifies Repr
      ensures Valid() && Repr == old(Repr) && made == old(made) && log == old(log)
      ensures heap == SetBody(old(heap), id, Completed(old(heap).events[id].body))
    {
      e.Store(Complete);
      Record(id, heap.events[id].(body := Zmq(Complete, e.inbox)));
    }
  }

  lemma CallNothing(h: Heap, out: Outcome)
    requires out.stops == {} && out.posts == []
    ensures Call(h, out) == h
  {
    assert h.events + [] == h.events;
    assert StopAll(h.events, {}) == h.events;
    assert h.channel + Ids(|h.events|, 0) == h.channel;
  }

  lemma {:induction false} HandOutOk(h: Heap, id: EventId, outs: seq<Outcome>)
    requires id < |h.events| && h.events[id].body.Zmq? && |outs| <= |h.events[id].body.inbox|
    requires forall out <- outs :: !out.ret.Raised?
    ensures HandOut(h, id, outs).ok
    ensures id < |HandOut(h, id, outs).heap.events| && HandOut(h, id, outs).heap.events[id].body.Zmq?
    ensures HandOut(h, id, outs).heap.events[id].body.inbox == h.events[id].body.inbox[|outs|..]
    decreases |outs|
  {
    if outs != [] {
      var z := h.events[id].body;
      var called := Call(SetBody(h, id, z.(inbox := z.inbox[1..])), outs[0]);
      HandOutOk(called, id, outs[1..]);
      assert z.inbox[1..][|outs| - 1..] == z.inbox[|outs|..];
    }
  }

  lemma ShapedAll(outs: seq<Outcome>, calls: nat)
    requires |outs| <= calls && (forall out <- outs :: Plausible(out))
    requires forall i :: 0 <= i < |outs| - 1 ==> !outs[i].ret.Raised?
    requires |outs| < calls ==> outs != [] && outs[|outs| - 1].ret.Raised?
    ensures Shaped(outs, calls)
  {
  }

  lemma HandOutNone(h: Heap, id: EventId)
    requires id < |h.events| && h.events[id].body.Zmq?
    ensures HandOut(h, id, []) == Report(h, true, [])
  {
  }

  /** The packets handed out one after the other, and then one more. */
  lemma {:induction false} HandOutOneMore(h: Heap, id: EventId, outs: seq<Outcome>, out: Outcome)
    requires id < |h.events| && h.events[id].body.Zmq? && |outs| < |h.events[id].body.inbox|
    requires forall out <- outs :: !out.ret.Raised?
    ensures HandOut(h, id, outs).ok
    ensures var k := HandOut(h, id, outs).heap;
            && id < |k.events| && k.events[id].body.Zmq? && k.events[id].body.inbox == h.events[id].body.inbox[|outs|..]
            && HandOut(h, id, outs + [out]).heap
                 == Call(SetBody(k, id, k.events[id].body.(inbox := k.events[id].body.inbox[1..])), out)
            && HandOut(h, id, outs + [out]).ok == !out.ret.Raised?
            && HandOut(h, id, outs + [out]).trace ==
               HandOut(h, id, outs).trace + [Handed(id, k.events[id].body.inbox[0])]
    decreases |outs|
  {
    HandOutOk(h, id, outs);
    if outs != [] {
      var z := h.events[id].body;
      var called := Call(SetBody(h, id, z.(inbox := z.inbox[1..])), outs[0]);
      HandOutOneMore(called, id, outs[1..], out);
      assert (outs + [out])[1..] == outs[1..] + [out];
    }
  }
}
