/**
 `Runtime.process` of runtime.go on the objects: two slices that are re-sliced at the front, appended to and swapped,
 and a loop over them.  `Runtime.model` is the value of the `EventLoop` model; every method is one of its steps,
 or a run of them.
 */
module RuntimeProcess {
  import opened Framing
  import opened EventLoop
  import opened LoopInvariants
  import opened EventObjects
  import opened Slices

  // ---------------------------------------------------------------- EventSequence

  function Rank(s: Slice<EventRef>, i: nat): int
    requires s.Ok() && i < s.len
    reads s.arr
  {
    s.arr[s.off + i].Priority()
  }

  function Less(s: Slice<EventRef>, i: nat, j: nat): bool
    requires s.Ok() && i < s.len && j < s.len
    reads s.arr
  {
    Rank(s, i) < Rank(s, j)
  }

  /** Swaps two elements; `ids` are the numbers of the events in the slice. */
  method Swap(s: Slice<EventRef>, i: nat, j: nat, ghost made: seq<EventRef>, ghost ids: seq<EventId>)
      returns (ghost swapped: seq<EventId>)
    requires s.Ok() && i < s.len && j < s.len && Refer(s.Elems(), made, ids)
    modifies s.arr
    ensures forall k :: 0 <= k < s.len ==>
              Rank(s, k) == old(Rank(s, if k == i then j else if k == j then i else k))
    ensures Refer(s.Elems(), made, swapped) && multiset(swapped) == multiset(ids)
  {
    ghost var refs := s.Elems();
    s.arr[s.off + i], s.arr[s.off + j] := s.arr[s.off + j], s.arr[s.off + i];
    swapped := ids[i := ids[j]][j := ids[i]];
    SwapBag(ids, i, j);
    assert s.Elems() == refs[i := refs[j]][j := refs[i]];
  }

  lemma SwapBag(ids: seq<EventId>, i: nat, j: nat)
    requires i < |ids| && j < |ids|
    ensures multiset(ids[i := ids[j]][j := ids[i]]) == multiset(ids)
  {
  }

  /** sort.Sort(s); all that is promised is some order by priority. */
  method Sort(s: Slice<EventRef>, ghost made: seq<EventRef>, ghost ids: seq<EventId>)
      returns (ghost order: seq<EventId>)
    requires s.Ok() && Refer(s.Elems(), made, ids)
    modifies s.arr
    ensures Refer(s.Elems(), made, order) && multiset(order) == multiset(ids)
    ensures forall i, j :: 0 <= i < j < s.len ==> Rank(s, i) <= Rank(s, j)
  {
    order := ids;
    var i := 1;
    while i < s.len
      invariant Refer(s.Elems(), made, order) && multiset(order) == multiset(ids)
      invariant 1 <= i
      invariant forall k, l :: 0 <= k < l < i && l < s.len ==>
                  Rank(s, k) <= Rank(s, l)
    {
      var j := i;
      while j > 0 && Less(s, j, j - 1)
        invariant Refer(s.Elems(), made, order) && multiset(order) == multiset(ids)
        invariant 0 <= j <= i
        invariant forall k, l :: 0 <= k < l <= i && l != j ==>
                    Rank(s, k) <= Rank(s, l)
      {
        order := Swap(s, j, j - 1, made, order);
        j := j - 1;
      }
      i := i + 1;
    }
  }

  // ---------------------------------------------------------------- runs, label by label

  /** The run of these labels leads from `s` to `t` and emits `tr`. */
  ghost predicate Leads(s: Loop, ls: seq<Label>, t: Loop, tr: seq<Entry>) {
    Legal(s, ls) && Run(s, ls) == t && Trace(s, ls) == tr
  }

  lemma {:induction false} LeadsOn(s: Loop, ls: seq<Label>, t: Loop, tr: seq<Entry>, l: Label)
    requires Leads(s, ls, t, tr) && Enabled(t, l)
    ensures Leads(s, ls + [l], Step(t, l), tr + Emit(t, l))
    decreases |ls|
  {
    hide Step, Emit, Enabled;
    if ls == [] {
      assert [l][1..] == [];
      assert ls + [l] == [l];
      assert Legal(Step(s, l), []);
      assert Trace(Step(s, l), []) == [] && Run(Step(s, l), []) == Step(s, l);
      assert Trace(s, [l]) == Emit(s, l) + [] == [] + Emit(s, l);
    } else {
      LeadsOn(Step(s, ls[0]), ls[1..], t, Trace(Step(s, ls[0]), ls[1..]), l);
      assert (ls + [l])[1..] == ls[1..] + [l];
      assert (ls + [l])[0] == ls[0];
    }
  }

  lemma LeadsNowhere(s: Loop)
    ensures Leads(s, [], s, [])
  {
  }

  lemma LeadsKeepsInv(s: Loop, ls: seq<Label>, t: Loop, tr: seq<Entry>)
    requires Leads(s, ls, t, tr)
    ensures Legal(s, ls) && Run(s, ls) == t && Trace(s, ls) == tr && (Inv(s) ==> Inv(t))
  {
    hide Inv, Enabled, Step, Emit;
    if Inv(s) {
      RunKeepsInv(s, ls);
    }
  }

  // ---------------------------------------------------------------- Runtime

  /** A step of what runs beside the loop leaves the queues alone. */
  lemma OutsideStep(s: Loop, l: Label)
    requires Enabled(s, l) && (l.Script? || l.Order? || l.Respond? || l.Frame? || l.Hangup? || l.Cancel?)
    ensures Step(s, l).queue == s.queue && Step(s, l).mode == s.mode && Emit(s, l) == []
  {
  }

  lemma OrderEnabled(s: Loop, hotfix: bool)
    ensures Enabled(s, Order(hotfix))
  {
  }

  lemma CancelEnabled(s: Loop)
    ensures Enabled(s, Cancel)
  {
  }

  lemma BeginStep(s: Loop, order: seq<EventId>, elapsed: Duration)
    requires Enabled(s, Begin(order, elapsed))
    ensures Step(s, Begin(order, elapsed)).mode == Draining(elapsed) && Emit(s, Begin(order, elapsed)) == []
  {
  }

  lemma QuitStep(s: Loop)
    requires Enabled(s, Quit)
    ensures Emit(s, Quit) == []
  {
  }

  lemma EndStep(s: Loop)
    requires Enabled(s, End)
    ensures Emit(s, End) == []
  {
  }

  /** Every goroutine is that of an event in `ids`. */
  ghost predicate Employed(workers: set<StateEvent>, made: seq<EventRef>, ids: set<EventId>) {
    forall w <- workers :: exists id :: id in ids && id < |made| && made[id] == OfState(w)
  }

  /** Every event in `ids` has a goroutine. */
  ghost predicate Staffed(workers: set<StateEvent>, made: seq<EventRef>, ids: set<EventId>) {
    forall id <- ids :: id < |made| && made[id].OfState? && made[id].state in workers
  }

  lemma ReferMore(refs: seq<EventRef>, made: seq<EventRef>, more: seq<EventRef>, ids: seq<EventId>)
    requires Refer(refs, made, ids) && made <= more
    ensures Refer(refs, more, ids)
  {
  }

  lemma EmployMore(workers: set<StateEvent>, made: seq<EventRef>, more: seq<EventRef>, ids: set<EventId>,
                   id: EventId, w: StateEvent)
    requires Employed(workers, made, ids) && made <= more && id < |made| && made[id] == OfState(w)
    ensures Employed(workers + {w}, more, ids + {id})
  {
    EmployKept(workers, made, more, ids);
    assert more[id] == made[id];
  }

  lemma EmployKept(workers: set<StateEvent>, made: seq<EventRef>, more: seq<EventRef>, ids: set<EventId>)
    requires Employed(workers, made, ids) && made <= more
    ensures Employed(workers, more, ids)
  {
    forall w <- workers
      ensures exists i :: i in ids && i < |more| && more[i] == OfState(w)
    {
      var i :| i in ids && i < |made| && made[i] == OfState(w);
      assert more[i] == made[i];
    }
  }

  lemma StaffMore(workers: set<StateEvent>, made: seq<EventRef>, more: seq<EventRef>, ids: set<EventId>,
                  id: EventId, w: StateEvent)
    requires Staffed(workers, made, ids) && made <= more && id < |made| && made[id] == OfState(w)
    ensures Staffed(workers + {w}, more, ids + {id})
  {
  }

  lemma StaffKept(workers: set<StateEvent>, made: seq<EventRef>, more: seq<EventRef>, ids: set<EventId>)
    requires Staffed(workers, made, ids) && made <= more
    ensures Staffed(workers, more, ids)
  {
  }

  lemma EmployLess(workers: set<StateEvent>, made: seq<EventRef>, ids: set<EventId>, id: EventId, w: StateEvent)
    requires Employed(workers, made, ids) && id < |made| && made[id] == OfState(w)
    ensures Employed(workers - {w}, made, ids - {id})
  {
    forall v <- workers - {w}
      ensures exists i :: i in ids - {id} && i < |made| && made[i] == OfState(v)
    {
      var i :| i in ids && i < |made| && made[i] == OfState(v);
      assert i in ids - {id};
    }
  }

  lemma StaffLess(workers: set<StateEvent>, made: seq<EventRef>, ids: set<EventId>, id: EventId, w: StateEvent)
    requires Staffed(workers, made, ids) && id < |made| && made[id] == OfState(w)
    requires forall i :: 0 <= i < |made| && i != id ==> made[i] != made[id]
    ensures Staffed(workers - {w}, made, ids - {id})
  {
  }

  /** A turn of the inner loop that passes over an event. */
  lemma DrainSkips(s: Loop, id: EventId)
    requires s.mode.Draining? && s.queue != [] && s.queue[0] == id && id < |s.heap.events|
    requires !s.heap.events[id].Valid()
    ensures Enabled(s, Drain([])) && Step(s, Drain([])) == s.(queue := s.queue[1..])
    ensures Emit(s, Drain([])) == [Skipped(id)]
  {
  }

  /** The runtime after an Update that did `r`; `keep` says whether the event goes on. */
  function Turned(s: Loop, id: EventId, r: Report, keep: bool): Loop
    requires id < |s.heap.events|
  {
    Loop(r.heap, s.queue, if keep then s.swap + [id] else s.swap, if r.ok then s.mode else Halted,
         s.workers + Spawned(s.heap.events[id], id), s.cancelled || s.heap.events[id].body.Exit?)
  }

  function Told(id: EventId, r: Report, keep: bool): seq<Entry> {
    [Updated(id)] + r.trace + [if !r.ok then Failed(id) else if keep then Kept(id) else Dropped(id)]
  }

  /** `r` is what an Update of the event with these outcomes does, and `keep` whether the event goes on after it. */
  ghost predicate Serves(s: Loop, id: EventId, elapsed: Duration, outs: seq<Outcome>, r: Report, keep: bool) {
    && id < |s.heap.events| && Shaped(outs, Calls(s.heap.events[id], elapsed))
    && r == Update(s.heap, id, elapsed, outs)
    && id < |r.heap.events| && keep == (r.ok && r.heap.events[id].Continues())
  }

  /** A turn of the inner loop that updates an event, by what its Update did. */
  lemma DrainUpdates(s: Loop, id: EventId, elapsed: Duration, outs: seq<Outcome>, r: Report, keep: bool)
    requires s.mode == Draining(elapsed) && s.queue != [] && s.queue[0] == id && id < |s.heap.events|
    requires s.heap.events[id].Valid() && Serves(s, id, elapsed, outs, r, keep)
    ensures Enabled(s, Drain(outs))
    ensures Step(s, Drain(outs)) == Turned(s.(queue := s.queue[1..]), id, r, keep)
    ensures Emit(s, Drain(outs)) == Told(id, r, keep)
  {
    hide Update;
  }

  class Runtime {
    const vm: Vm
    var eventQueue: Slice<EventRef>
    var eventSwapQueue: Slice<EventRef>
    var cancelled: bool
    var workers: set<StateEvent>
    ghost var model: Loop
    ghost var Repr: set<object>

    ghost predicate Valid()
      reads this, Repr
    {
      && this in Repr && vm in Repr && vm.Repr <= Repr && this !in vm.Repr && vm.Valid()
      && eventQueue.arr in Repr && eventQueue.arr !in vm.Repr
      && eventSwapQueue.arr in Repr && eventSwapQueue.arr !in vm.Repr
      && eventQueue.arr != eventSwapQueue.arr
      && eventQueue.Ok() && Refer(eventQueue.Elems(), vm.made, model.queue)
      && eventSwapQueue.Ok() && Refer(eventSwapQueue.Elems(), vm.made, model.swap)
      && model.heap == vm.heap && model.cancelled == cancelled
      && Employed(workers, vm.made, model.workers) && Staffed(workers, vm.made, model.workers)
    }

    constructor ()
      ensures Valid() && fresh(Repr) && model == START && vm.log == [] && Inv(model)
    {
      vm := new Vm();
      var queue: Slice<EventRef> := Make(32);
      var swapQueue: Slice<EventRef> := Make(32);
      eventQueue, eventSwapQueue := queue, swapQueue;
      cancelled, workers := false, {};
      model := START;
      new;
      Repr := {this, eventQueue.arr, eventSwapQueue.arr} + vm.Repr;
    }

    /** case e = <-r.EventQueue */
    method Receive()
      requires Valid() && model.mode.Idle? && model.heap.channel != []
      modifies Repr
      ensures Valid() && old(Repr) <= Repr && fresh(Repr - old(Repr))
      ensures Enabled(old(model), EventLoop.Receive) && model == Step(old(model), EventLoop.Receive) && model.mode.Idle?
      ensures vm.log == old(vm.log) + Emit(old(model), EventLoop.Receive)
    {
      hide Vm.Valid, Employed, Staffed;
      var e := vm.Take();
      eventQueue := Append(eventQueue, e);
      Repr := Repr + {eventQueue.arr};
      model := Step(model, EventLoop.Receive);
    }

    /** The tick begins: sort.Sort(eventQueue). */
    method BeginTick(elapsed: Duration) returns (ghost order: seq<EventId>)
      requires Valid() && model.mode.Idle? && elapsed >= 0
      modifies Repr
      ensures Valid() && old(Repr) <= Repr && fresh(Repr - old(Repr))
      ensures Enabled(old(model), Begin(order, elapsed)) && model == Step(old(model), Begin(order, elapsed))
      ensures vm.log == old(vm.log)
    {
      ghost var s := model;
      order := Sort(eventQueue, vm.made, model.queue);
      forall i, j | 0 <= i < j < |order|
        ensures s.heap.events[order[i]].priority <= s.heap.events[order[j]].priority
      {
        assert Rank(eventQueue, i) <= Rank(eventQueue, j);
        assert vm.made[order[i]] == eventQueue.Elems()[i] && vm.made[order[j]] == eventQueue.Elems()[j];
        assert vm.made[order[i]].Shows(s.heap.events[order[i]]) && vm.made[order[j]].Shows(s.heap.events[order[j]]);
      }
      model := Step(model, Begin(order, elapsed));
    }

    ghost method Note(entry: Entry)
      requires Valid()
      modifies vm`log
      ensures Valid() && vm.log == old(vm.log) + [entry]
    {
      vm.log := vm.log + [entry];
    }

    /** e, eventQueue = eventQueue[0], eventQueue[1:] */
    method Pop() returns (e: EventRef, ghost id: EventId)
      requires Valid() && eventQueue.len > 0
      modifies this
      ensures Valid() && Repr == old(Repr)
      ensures old(model.queue) != [] && model == old(model).(queue := old(model.queue)[1..])
      ensures id == old(model.queue)[0] && id < |vm.made| && id < |model.heap.events| && vm.made[id] == e
      ensures e.Valid() == model.heap.events[id].Valid()
    {
      id := model.queue[0];
      e := eventQueue.arr[eventQueue.off];
      assert e == eventQueue.Elems()[0] == vm.made[id];
      assert e.Shows(vm.heap.events[id]);
      eventQueue := eventQueue.Tail();
      model := model.(queue := model.queue[1..]);
    }

    /** eventSwapQueue = append(eventSwapQueue, e) */
    method Keep(e: EventRef, ghost id: EventId)
      requires Valid() && id < |vm.made| && vm.made[id] == e
      modifies this, eventSwapQueue.arr
      ensures Valid() && old(Repr) <= Repr && fresh(Repr - old(Repr))
      ensures vm.heap == old(vm.heap) && vm.log == old(vm.log)
      ensures model == old(model).(swap := old(model).swap + [id])
    {
      eventSwapQueue := Append(eventSwapQueue, e);
      Repr := Repr + {eventSwapQueue.arr};
      model := model.(swap := model.swap + [id]);
    }

    /** e.Update(elapsed, r.vm), with the call of the cancel function. */
    method Perform(e: EventRef, ghost id: EventId, elapsed: Duration)
        returns (ok: bool, starts: bool, ghost outs: seq<Outcome>)
      requires Valid() && id < |vm.made| && vm.made[id] == e && id < |model.heap.events|
      modifies Repr
      ensures Valid() && old(Repr) <= Repr && fresh(Repr - old(Repr)) && id < |vm.made| && vm.made[id] == e
      ensures Shaped(outs, Calls(old(model).heap.events[id], elapsed))
      ensures starts == (Spawned(old(model).heap.events[id], id) != {}) && (starts ==> e.OfState?)
      ensures var event, r := old(model).heap.events[id], Update(old(model).heap, id, elapsed, outs);
              && model == old(model).(heap := r.heap, cancelled := old(model).cancelled || event.body.Exit?)
              && ok == r.ok && vm.log == old(vm.log) + r.trace
    {
      hide Vm.Valid, EventRef.Shows, Update, Shaped, Calls, Spawned, Refer, Employed, Staffed;
      ghost var s, made := model, vm.made;
      var exits;
      ok, starts, exits, outs := vm.UpdateEvent(e, id, elapsed);
      Repr := Repr + vm.Repr;
      model := model.(heap := vm.heap, cancelled := s.cancelled || s.heap.events[id].body.Exit?);
      cancelled := cancelled || exits;
      ReferMore(eventQueue.Elems(), made, vm.made, model.queue);
      ReferMore(eventSwapQueue.Elems(), made, vm.made, model.swap);
      EmployKept(workers, made, vm.made, s.workers);
      StaffKept(workers, made, vm.made, s.workers);
    }

    /** e.Update(elapsed, r.vm), with what it does to the rest of the runtime. */
    method Serve(e: EventRef, ghost id: EventId, elapsed: Duration) returns (ok: bool, ghost outs: seq<Outcome>)
      requires Valid() && id < |vm.made| && vm.made[id] == e && id < |model.heap.events|
      modifies Repr
      ensures Valid() && old(Repr) <= Repr && fresh(Repr - old(Repr)) && id < |vm.made| && vm.made[id] == e
      ensures Shaped(outs, Calls(old(model).heap.events[id], elapsed))
      ensures var event, r := old(model).heap.events[id], Update(old(model).heap, id, elapsed, outs);
              && model == old(model).(heap := r.heap, workers := old(model).workers + Spawned(event, id),
                                      cancelled := old(model).cancelled || event.body.Exit?)
              && ok == r.ok && vm.log == old(vm.log) + r.trace
    {
      hide Vm.Valid, Update, Shaped, Calls, Refer, Employed, Staffed;
      ghost var s := model;
      var starts;
      ok, starts, outs := Perform(e, id, elapsed);
      if starts {
        EmployMore(workers, vm.made, vm.made, s.workers, id, e.state);
        StaffMore(workers, vm.made, vm.made, s.workers, id, e.state);
        workers := workers + {e.state};
        model := model.(workers := s.workers + {id});
      }
    }

    /** After an Update: an error ends the loop; an event that goes on waits in the other queue. */
    method Settle(e: EventRef, ghost id: EventId, ok: bool) returns (ghost keep: bool)
      requires Valid() && id < |vm.made| && vm.made[id] == e
      modifies Repr
      ensures Valid() && old(Repr) <= Repr && fresh(Repr - old(Repr))
      ensures id < |old(model).heap.events| && keep == (ok && old(model).heap.events[id].Continues())
      ensures model == old(model).(swap := if keep then old(model).swap + [id] else old(model).swap,
                                   mode := if ok then old(model).mode else Halted)
      ensures vm.log == old(vm.log) + [if !ok then Failed(id) else if keep then Kept(id) else Dropped(id)]
    {
      assert e.Shows(model.heap.events[id]);
      keep := ok && e.Continue();
      if !ok {
        model := model.(mode := Halted);
        Note(Failed(id));
      } else if e.Continue() {
        Keep(e, id);
        Note(Kept(id));
      } else {
        Note(Dropped(id));
      }
    }

    /** A valid event is updated, and kept or not. */
    method UpdateNext(e: EventRef, ghost id: EventId, elapsed: Duration)
        returns (ok: bool, ghost outs: seq<Outcome>, ghost r: Report, ghost keep: bool)
      requires Valid() && id < |vm.made| && vm.made[id] == e && id < |model.heap.events|
      modifies Repr
      ensures Valid() && old(Repr) <= Repr && fresh(Repr - old(Repr))
      ensures Serves(old(model), id, elapsed, outs, r, keep) && ok == r.ok
      ensures model == Turned(old(model), id, r, keep) && vm.log == old(vm.log) + Told(id, r, keep)
    {
      hide Vm.Valid, Update, Shaped, Calls, Refer, Employed, Staffed;
      Note(Updated(id));
      ok, outs := Serve(e, id, elapsed);
      r := Update(old(model).heap, id, elapsed, outs);
      assert fresh(Repr - old(Repr));
      keep := Settle(e, id, ok);
    }

    /** One turn of the inner loop; false if the event returned an error. */
    method DrainNext(elapsed: Duration) returns (ok: bool, ghost outs: seq<Outcome>)
      requires Valid() && model.mode == Draining(elapsed) && eventQueue.len > 0
      modifies Repr
      ensures Valid() && old(Repr) <= Repr && fresh(Repr - old(Repr))
      ensures Enabled(old(model), Drain(outs)) && model == Step(old(model), Drain(outs))
      ensures vm.log == old(vm.log) + Emit(old(model), Drain(outs))
      ensures model.mode == if ok then Draining(elapsed) else Halted
      ensures |model.queue| < |old(model).queue|
    {
      assert this in Repr;
      hide Valid, Vm.Valid, Step, Emit, Enabled, Serves, Told;
      ghost var s := model;
      var e, id := Pop();
      if e.Valid() {
        ghost var r, keep;
        ok, outs, r, keep := UpdateNext(e, id, elapsed);
        assert Serves(s, id, elapsed, outs, r, keep);
        DrainUpdates(s, id, elapsed, outs, r, keep);
      } else {
        Note(Skipped(id));
        DrainSkips(s, id);
        ok, outs := true, [];
      }
    }

    /** eventQueue, eventSwapQueue = eventSwapQueue, eventQueue */
    method EndTick()
      requires Valid() && model.mode.Draining? && eventQueue.len == 0
      modifies this
      ensures Valid() && Repr == old(Repr) && vm.log == old(vm.log)
      ensures Enabled(old(model), End) && model == Step(old(model), End) && model.mode.Idle?
    {
      eventQueue, eventSwapQueue := eventSwapQueue, eventQueue;
      model := Step(model, End);
    }

    // -------------------------------------------------------------- what runs beside the loop

    /** Lua code run by Startup, or a goroutine that posts events. */
    method Script() returns (ghost l: Label)
      requires Valid()
      modifies Repr
      ensures eventQueue == old(eventQueue)
      ensures Valid() && old(Repr) <= Repr && fresh(Repr - old(Repr)) && vm.log == old(vm.log)
      ensures l.Script? && Enabled(old(model), l) && model == Step(old(model), l)
    {
      hide Vm.Valid, Plausible, Call, Refer, Employed, Staffed;
      ghost var made := vm.made;
      var out := vm.CallLua([]);
      l := Label.Script(out);
      Repr := Repr + vm.Repr;
      model := model.(heap := vm.heap);
      ReferMore(eventQueue.Elems(), made, vm.made, model.queue);
      ReferMore(eventSwapQueue.Elems(), made, vm.made, model.swap);
      EmployKept(workers, made, vm.made, model.workers);
      StaffKept(workers, made, vm.made, model.workers);
    }

    /** The watcher sends a reload event. */
    method Order(hotfix: bool)
      requires Valid()
      modifies Repr
      ensures eventQueue == old(eventQueue)
      ensures Valid() && old(Repr) <= Repr && fresh(Repr - old(Repr)) && vm.log == old(vm.log)
      ensures model == Step(old(model), Label.Order(hotfix))
    {
      hide Vm.Valid, Refer, Employed, Staffed;
      ghost var made := vm.made;
      vm.Post(Event(1, Reload(Initialize, hotfix, None)));
      Repr := Repr + vm.Repr;
      model := model.(heap := vm.heap);
      ReferMore(eventQueue.Elems(), made, vm.made, model.queue);
      ReferMore(eventSwapQueue.Elems(), made, vm.made, model.swap);
      EmployKept(workers, made, vm.made, model.workers);
      StaffKept(workers, made, vm.made, model.workers);
    }

    /** The goroutine of a request ends. */
    method Respond(e: StateEvent, ghost id: EventId)
      requires Valid() && e in workers && id in model.workers && id < |vm.made| && vm.made[id] == OfState(e)
      requires e.kind == HttpEvent
      modifies Repr
      ensures eventQueue == old(eventQueue)
      ensures Valid() && Repr == old(Repr) && vm.log == old(vm.log)
      ensures Enabled(old(model), Label.Respond(id)) && model == Step(old(model), Label.Respond(id))
    {
      Distinct(id);
      hide Vm.Valid, Refer, Employed, Staffed;
      assert OfState(e).Shows(model.heap.events[id]);
      ghost var s := model;
      vm.Respond(e, id);
      EmployLess(workers, vm.made, s.workers, id, e);
      StaffLess(workers, vm.made, s.workers, id, e);
      workers := workers - {e};
      model := s.(heap := vm.heap, workers := s.workers - {id});
    }

    /** The goroutine of a ZeroMQ event receives a request. */
    method Frame(e: StateEvent, ghost id: EventId, packet: Option<Packet>)
      requires Valid() && id in model.workers && id < |vm.made| && vm.made[id] == OfState(e)
      requires e.kind == ZmqEvent
      modifies Repr
      ensures eventQueue == old(eventQueue)
      ensures Valid() && Repr == old(Repr) && vm.log == old(vm.log)
      ensures Enabled(old(model), Label.Frame(id, packet)) && model == Step(old(model), Label.Frame(id, packet))
    {
      Distinct(id);
      hide Vm.Valid, Refer, Employed, Staffed;
      assert OfState(e).Shows(model.heap.events[id]);
      if packet.Some? {
        vm.Frame(e, id, packet.value);
        model := model.(heap := vm.heap);
      }
    }

    /** The goroutine of a ZeroMQ event ends. */
    method Hangup(e: StateEvent, ghost id: EventId)
      requires Valid() && e in workers && id in model.workers && id < |vm.made| && vm.made[id] == OfState(e)
      requires e.kind == ZmqEvent
      modifies Repr
      ensures eventQueue == old(eventQueue)
      ensures Valid() && Repr == old(Repr) && vm.log == old(vm.log)
      ensures Enabled(old(model), Label.Hangup(id)) && model == Step(old(model), Label.Hangup(id))
    {
      Distinct(id);
      hide Vm.Valid, Refer, Employed, Staffed;
      assert OfState(e).Shows(model.heap.events[id]);
      ghost var s := model;
      vm.Hangup(e, id);
      EmployLess(workers, vm.made, s.workers, id, e);
      StaffLess(workers, vm.made, s.workers, id, e);
      workers := workers - {e};
      model := s.(heap := vm.heap, workers := s.workers - {id});
    }

    lemma Distinct(id: EventId)
      requires Valid() && id < |vm.made|
      ensures id < |model.heap.events| && vm.made[id].Shows(model.heap.events[id])
      ensures forall i :: 0 <= i < |vm.made| && i != id ==> vm.made[i] != vm.made[id]
    {
    }

    /** Runtime.Shutdown, or the deferred cancel of a Startup that failed. */
    method Shutdown()
      requires Valid()
      modifies this`cancelled, this`model
      ensures eventQueue == old(eventQueue)
      ensures Valid() && Repr == old(Repr) && vm.log == old(vm.log)
      ensures model == Step(old(model), Cancel)
    {
      cancelled := true;
      model := model.(cancelled := true);
    }

    /** One step of anything that runs beside the loop, or none. */
    method Outside() returns (ghost l: Option<Label>)
      requires Valid()
      modifies Repr
      ensures eventQueue == old(eventQueue)
      ensures Valid() && old(Repr) <= Repr && fresh(Repr - old(Repr)) && vm.log == old(vm.log)
      ensures l == None ==> model == old(model)
      ensures l.Some? ==> Enabled(old(model), l.value) && model == Step(old(model), l.value)
      ensures l.Some? ==>
                || l.value.Script? || l.value.Order? || l.value.Respond?
                || l.value.Frame? || l.value.Hangup? || l.value.Cancel?
    {
      hide Enabled, Step;
      var choice: nat := *;
      l := None;
      if choice == 0 {
        ghost var script := Script();
        l := Some(script);
      } else if choice == 1 {
        var hotfix: bool := *;
        OrderEnabled(model, hotfix);
        Order(hotfix);
        l := Some(Label.Order(hotfix));
      } else if choice == 2 {
        CancelEnabled(model);
        Shutdown();
        l := Some(Cancel);
      } else if workers != {} {
        var e :| e in workers;
        ghost var id :| id in model.workers && id < |vm.made| && vm.made[id] == OfState(e);
        if e.kind == HttpEvent {
          Respond(e, id);
          l := Some(Label.Respond(id));
        } else if e.kind == ZmqEvent && choice == 3 {
          Hangup(e, id);
          l := Some(Label.Hangup(id));
        } else if e.kind == ZmqEvent {
          var packet: Option<Packet> := *;
          Frame(e, id, packet);
          l := Some(Label.Frame(id, packet));
        }
      }
    }

    /** Any number of such steps, after a run that has led here. */
    method Background(ghost s: Loop, ghost ls: seq<Label>, ghost tr: seq<Entry>) returns (ghost ms: seq<Label>)
      requires Valid() && Leads(s, ls, model, tr)
      modifies Repr
      ensures eventQueue == old(eventQueue)
      ensures Valid() && old(Repr) <= Repr && fresh(Repr - old(Repr)) && vm.log == old(vm.log)
      ensures Leads(s, ms, model, tr) && model.queue == old(model).queue && model.mode == old(model).mode
    {
      hide Enabled, Step, Emit, Leads, Valid;
      ms := ls;
      var steps: int := *;
      while steps > 0
        invariant Valid() && old(Repr) <= Repr && fresh(Repr - old(Repr)) && vm.log == old(vm.log)
        invariant eventQueue == old(eventQueue)
        invariant Leads(s, ms, model, tr) && model.queue == old(model).queue && model.mode == old(model).mode
      {
        ghost var t := model;
        ghost var l := Outside();
        if l.Some? {
          OutsideStep(t, l.value);
          LeadsOn(s, ms, t, tr, l.value);
          assert tr + [] == tr;
          ms := ms + [l.value];
        }
        steps := steps - 1;
      }
    }

    /** The inner loop. */
    method DrainAll(elapsed: Duration, ghost s: Loop, ghost before: seq<Label>, ghost told: seq<Entry>)
        returns (ok: bool, ghost ls: seq<Label>, ghost tr: seq<Entry>)
      requires Valid() && model.mode == Draining(elapsed) && Leads(s, before, model, told)
      modifies Repr
      ensures Valid() && old(Repr) <= Repr && fresh(Repr - old(Repr))
      ensures Leads(s, ls, model, tr) && told <= tr && vm.log == old(vm.log) + tr[|told|..]
      ensures if ok then model.mode == Draining(elapsed) && eventQueue.len == 0 else model.mode == Halted
    {
      hide Enabled, Step, Emit, Leads, Valid;
      ok, ls, tr := true, before, told;
      while ok && eventQueue.len > 0
        invariant Valid() && old(Repr) <= Repr && fresh(Repr - old(Repr))
        invariant Leads(s, ls, model, tr) && told <= tr && vm.log == old(vm.log) + tr[|told|..]
        invariant model.mode == if ok then Draining(elapsed) else Halted
        decreases |model.queue|
      {
        ls := Background(s, ls, tr);
        ghost var t := model;
        ghost var outs;
        ok, outs := DrainNext(elapsed);
        LeadsOn(s, ls, t, tr, Drain(outs));
        ls, tr := ls + [Drain(outs)], tr + Emit(t, Drain(outs));
      }
    }

    /** One tick: everything that was queued is updated, unless an event returns an error. */
    method Tick(elapsed: Duration, ghost s: Loop, ghost before: seq<Label>, ghost told: seq<Entry>)
        returns (ok: bool, ghost ls: seq<Label>, ghost tr: seq<Entry>)
      requires Valid() && model.mode.Idle? && elapsed >= 0 && Leads(s, before, model, told)
      modifies Repr
      ensures Valid() && old(Repr) <= Repr && fresh(Repr - old(Repr))
      ensures Leads(s, ls, model, tr) && told <= tr && vm.log == old(vm.log) + tr[|told|..]
      ensures model.mode == if ok then Idle else Halted
    {
      hide Enabled, Step, Emit, Leads, Valid;
      ghost var t := model;
      ghost var order := BeginTick(elapsed);
      BeginStep(t, order, elapsed);
      LeadsOn(s, before, t, told, Begin(order, elapsed));
      assert told + [] == told;
      ok, ls, tr := DrainAll(elapsed, s, before + [Begin(order, elapsed)], told);
      if ok {
        t := model;
        EndTick();
        EndStep(t);
        LeadsOn(s, ls, t, tr, End);
        assert tr + [] == tr;
        ls := ls + [End];
      }
    }

    /** select: at most `turns` rounds of the outer loop, each any of the cases that are ready. */
    method Process(turns: nat) returns (ghost ls: seq<Label>)
      requires Valid() && model.mode.Idle?
      modifies Repr
      ensures Valid() && old(Repr) <= Repr && fresh(Repr - old(Repr))
      ensures Legal(old(model), ls) && model == Run(old(model), ls)
      ensures vm.log == old(vm.log) + Trace(old(model), ls)
      ensures old(Inv(model)) ==> Inv(model)
    {
      ghost var s := model;
      ghost var tr: seq<Entry> := [];
      var turn, running := 0, true;
      ls := [];
      hide Inv, Enabled, Step, Emit, Legal, Run, Trace, Leads, Valid;
      LeadsNowhere(s);
      while turn < turns && running
        invariant Valid() && old(Repr) <= Repr && fresh(Repr - old(Repr))
        invariant Leads(s, ls, model, tr) && vm.log == old(vm.log) + tr
        invariant running ==> model.mode.Idle?
      {
        running, ls, tr := Select(s, ls, tr);
        turn := turn + 1;
      }
      LeadsKeepsInv(s, ls, model, tr);
    }

    /** One round of the outer loop; false if it ends the loop. */
    method Select(ghost s: Loop, ghost before: seq<Label>, ghost told: seq<Entry>)
        returns (running: bool, ghost ls: seq<Label>, ghost tr: seq<Entry>)
      requires Valid() && model.mode.Idle? && Leads(s, before, model, told)
      modifies Repr
      ensures Valid() && old(Repr) <= Repr && fresh(Repr - old(Repr))
      ensures Leads(s, ls, model, tr) && told <= tr && vm.log == old(vm.log) + tr[|told|..]
      ensures running ==> model.mode.Idle?
    {
      hide Enabled, Step, Emit, Leads;
      tr := told;
      ls := Background(s, before, told);
      ghost var t := model;
      var elapsed: nat, choice: nat := *, *;
      if cancelled && choice == 0 {
        Stop();
        QuitStep(t);
        LeadsOn(s, ls, t, tr, Quit);
        assert tr + [] == tr;
        ls := ls + [Quit];
        running := false;
      } else if |vm.channel| > 0 && choice == 1 {
        Receive();
        LeadsOn(s, ls, t, tr, EventLoop.Receive);
        ls, tr := ls + [EventLoop.Receive], tr + Emit(t, EventLoop.Receive);
        running := true;
      } else {
        running, ls, tr := Tick(elapsed, s, ls, told);
      }
    }

    /** case <-r.ctx.Done() */
    method Stop()
      requires Valid() && model.mode.Idle? && cancelled
      modifies this`model
      ensures Valid() && Enabled(old(model), Quit) && model == Step(old(model), Quit)
    {
      model := model.(mode := Halted);
    }
  }
}
