/** When the functions given to event.delay and event.loop are called, over whole runs of the event loop. */
module Timers {
  import opened EventLoop
  import opened LoopInvariants
  import opened LoopRuns

  // ---------------------------------------------------------------- a timer alone with the clock

  /** A timer left alone: its Delay, the calls made so far, and whether the loop still holds it. */
  datatype Life = Life(delay: Duration, fires: nat, alive: bool)

  /** A timer made with the given Delay and Period after ticks of the given lengths. */
  function Follow(delay: Duration, period: Duration, es: seq<Duration>): Life {
    if es == [] then
      Life(delay, 0, true)
    else
      var life := Follow(delay, period, es[..|es| - 1]);
      var left := life.delay - es[|es| - 1];
      if !life.alive then life
      else if left > 0 then life.(delay := left)
      else Life(period, life.fires + 1, period > 0)
  }

  function Sum(es: seq<Duration>): Duration {
    if es == [] then 0 else Sum(es[..|es| - 1]) + es[|es| - 1]
  }

  /** Between two calls at least a period and less than a period and one tick go by. */
  lemma {:induction false} FollowCadence(period: Duration, longest: Duration, es: seq<Duration>)
    requires period > 0 && es != [] && forall i :: 0 <= i < |es| ==> 0 <= es[i] <= longest
    ensures var life, s := Follow(0, period, es), Sum(es[1..]);
            && life.alive && life.fires >= 1 && 0 < life.delay <= period
            && (life.fires - 1) * period + (period - life.delay) <= s
            && s <= (life.fires - 1) * (period + longest) + (period - life.delay)
    decreases |es|
  {
    var before, e := es[..|es| - 1], es[|es| - 1];
    if |es| > 1 {
      FollowCadence(period, longest, before);
      assert es[1..][..|es| - 2] == before[1..];
      assert es[1..][|es| - 2] == e;
      var k := Follow(0, period, before).fires;
      OneMore(k, period);
      OneMore(k, period + longest);
    } else {
      assert before == [] && es[1..] == [];
      OneMore(1, period);
      OneMore(1, period + longest);
    }
  }

  lemma OneMore(k: int, d: int)
    ensures k * d == (k - 1) * d + d
  {
  }

  /** A timer without a period is called once, at the end of the first tick by which its delay has gone by. */
  lemma {:induction false} FollowDelay(delay: Duration, es: seq<Duration>)
    requires forall i :: 0 <= i < |es| ==> 0 <= es[i]
    ensures var life := Follow(delay, 0, es);
            && (life.alive ==> life.delay == delay - Sum(es) && life.fires == 0)
            && (life.alive <==> es == [] || Sum(es) < delay)
            && (!life.alive ==> life.fires == 1)
            && Sum(es) >= 0
    decreases |es|
  {
    if es != [] {
      FollowDelay(delay, es[..|es| - 1]);
    }
  }

  // ---------------------------------------------------------------- Lua code that leaves the timer alone

  /** No call in this step stops the timer or fails in its callback, and a loop callback returns true. */
  predicate LeftAlone(s: Loop, l: Label, id: EventId)
    requires Enabled(s, l)
  {
    match l
    case Drain(outs) =>
      && (forall out <- outs :: id !in out.stops)
      && (s.queue[0] == id && s.heap.events[id].body.Timer? ==>
            forall out <- outs :: !out.ret.Raised? && (s.heap.events[id].body.period > 0 ==> out.ret.Yes?))
      && !DrainStep(s, outs).mode.Halted?
    case Script(out) => id !in out.stops
    case Quit => false
    case _ => true
  }

  predicate Undisturbed(s: Loop, ls: seq<Label>, id: EventId)
    requires Legal(s, ls)
    decreases |ls|
  {
    ls != [] ==> LeftAlone(s, ls[0], id) && Undisturbed(Step(s, ls[0]), ls[1..], id)
  }

  /** The lengths of the ticks in a run. */
  function Clock(ls: seq<Label>): seq<Duration> {
    if ls == [] then [] else (if ls[0].Begin? then [ls[0].elapsed] else []) + Clock(ls[1..])
  }

  // ---------------------------------------------------------------- the loop gives every timer every tick once

  /** The timer still waits for the tick that is under way. */
  predicate Awaiting(s: Loop, id: EventId) {
    s.mode.Draining? && id in s.queue
  }

  /** In `s`, after ticks `es`, the timer is where the clock alone would have it, and was called `fires` times. */
  ghost predicate Tracks(s: Loop, id: EventId, delay: Duration, period: Duration, es: seq<Duration>, fires: nat) {
    && id < |s.heap.events| && s.heap.events[id].body.Timer?
    && (Awaiting(s, id) ==> es != [] && es[|es| - 1] == s.mode.elapsed)
    && var life := Follow(delay, period, if Awaiting(s, id) then es[..|es| - 1] else es);
    && fires == life.fires
    && (life.alive ==> id in Inside(s) && s.heap.events[id].body == Timer(true, life.delay, period))
    && (!life.alive ==> id !in Held(s))
  }

  lemma {:induction false} HandOutLeavesAlone(h: Heap, head: EventId, outs: seq<Outcome>, id: EventId)
    requires head < |h.events| && h.events[head].body.Zmq? && |outs| <= |h.events[head].body.inbox|
    requires id < |h.events| && id != head && forall out <- outs :: id !in out.stops
    ensures var k := HandOut(h, head, outs).heap; id < |k.events| && k.events[id] == h.events[id]
    decreases |outs|
  {
    if outs != [] && !outs[0].ret.Raised? {
      var z := h.events[head].body;
      var called := Call(SetBody(h, head, z.(inbox := z.inbox[1..])), outs[0]);
      assert called.events[id] == h.events[id];
      HandOutLeavesAlone(called, head, outs[1..], id);
    }
  }

  lemma UpdateLeavesAlone(h: Heap, head: EventId, elapsed: Duration, outs: seq<Outcome>, id: EventId)
    requires head < |h.events| && Shaped(outs, Calls(h.events[head], elapsed))
    requires id < |h.events| && id != head && forall out <- outs :: id !in out.stops
    ensures var k := Update(h, head, elapsed, outs).heap; id < |k.events| && k.events[id] == h.events[id]
  {
    if h.events[head].body.Zmq? && h.events[head].body.phase == Progress {
      HandOutLeavesAlone(h, head, outs, id);
    }
  }

  /** One Update of a timer whose callback does not disturb it. */
  lemma TimerTurn(h: Heap, id: EventId, elapsed: Duration, outs: seq<Outcome>)
    requires id < |h.events| && h.events[id].body.Timer? && h.events[id].body.valid
    requires Shaped(outs, Calls(h.events[id], elapsed))
    requires forall out <- outs :: id !in out.stops && !out.ret.Raised?
    requires h.events[id].body.period > 0 ==> forall out <- outs :: out.ret.Yes?
    ensures var t, r := h.events[id].body, Update(h, id, elapsed, outs);
            && r.ok && id < |r.heap.events|
            && if t.delay - elapsed > 0 then
                 r.heap.events[id].body == t.(delay := t.delay - elapsed) && r.trace == []
               else
                 && r.trace == [Fired(id)] && r.heap.events[id].body.Timer?
                 && r.heap.events[id].Continues() == (t.period > 0)
                 && (t.period > 0 ==> r.heap.events[id].body == t.(delay := t.period))
  {
  }

  // ---------------------------------------------------------------- one step

  lemma CountFired(tr: seq<Entry>, inner: seq<Entry>, id: EventId, last: Entry)
    requires tr == [Updated(id)] + inner + [last] && !last.Fired?
    requires inner == [] || inner == [Fired(id)]
    ensures Count(tr, Fired(id)) == |inner|
  {
    assert multiset(tr) == multiset([Updated(id)]) + multiset(inner) + multiset([last]);
  }

  /** A turn in which the loop updates the timer, seen from outside. */
  lemma OwnTurn(s: Loop, outs: seq<Outcome>, id: EventId)
    requires Inv(s) && Enabled(s, Drain(outs)) && LeftAlone(s, Drain(outs), id)
    requires s.queue[0] == id && s.heap.events[id].body.Timer? && s.heap.events[id].body.valid
    ensures var u, t, fired := s.heap.events[id].body, DrainStep(s, outs), Count(Emit(s, Drain(outs)), Fired(id));
            && id < |t.heap.events| && t.heap.events[id].body.Timer? && t.mode == s.mode
            && if u.delay - s.mode.elapsed > 0 then
                 && fired == 0 && t.heap.events[id].body == u.(delay := u.delay - s.mode.elapsed)
                 && t.heap.events[id].Continues()
               else
                 && fired == 1 && t.heap.events[id].Continues() == (u.period > 0)
                 && (u.period > 0 ==> t.heap.events[id].body == u.(delay := u.period))
  {
    TimerTurn(s.heap, id, s.mode.elapsed, outs);
    UpdateKeepsIdentity(s.heap, id, s.mode.elapsed, outs);
    DrainEmits(s, outs);
    hide Update;
    var tr := Emit(s, Drain(outs));
    CountFired(tr, Update(s.heap, id, s.mode.elapsed, outs).trace, id, tr[|tr| - 1]);
  }

  /** After its turn the timer is in the swap queue if it goes on, and gone if not. */
  lemma OwnTurnPlace(s: Loop, outs: seq<Outcome>, id: EventId)
    requires Inv(s) && Enabled(s, Drain(outs)) && s.queue[0] == id && s.heap.events[id].Valid()
    requires !DrainStep(s, outs).mode.Halted?
    ensures var t := DrainStep(s, outs);
            && id < |t.heap.events| && id !in t.queue
            && if t.heap.events[id].Continues() then id in Inside(t) else id !in Held(t)
  {
    hide Update;
    DrainStepConserves(s, outs, id);
    DrainEmits(s, outs);
    DrainDrains(s, outs);
    hide DrainStep, Emit, Inv;
    var t, tr := DrainStep(s, outs), Emit(s, Drain(outs));
    assert s.queue == [id] + t.queue;
    assert multiset(s.queue) == multiset([id]) + multiset(t.queue);
    assert id in Inside(s);
    assert Held(s)[id] == 1 by { AtMostOnce(s, id); }
    assert t.heap.events[id].Continues() ==> t.swap[|t.swap| - 1] == id;
    assert !t.heap.events[id].Continues() ==> tr[|tr| - 1] == Dropped(id);
  }

  lemma AtMostOnce(s: Loop, id: EventId)
    requires Inv(s)
    ensures Held(s)[id] <= 1
  {
    assert id in Held(s) ==> Held(s)[id] == 1;
  }

  lemma TracksHeld(s: Loop, id: EventId, delay: Duration, period: Duration, es: seq<Duration>, fires: nat)
    requires Tracks(s, id, delay, period, es, fires) && id in Inside(s)
    ensures Follow(delay, period, if Awaiting(s, id) then es[..|es| - 1] else es).alive
    ensures s.heap.events[id].Valid()
  {
    assert id in Held(s);
  }

  lemma LeftAloneRuns(s: Loop, outs: seq<Outcome>, id: EventId)
    requires Enabled(s, Drain(outs)) && LeftAlone(s, Drain(outs), id)
    ensures !DrainStep(s, outs).mode.Halted?
  {
  }

  lemma OwnTurnTracks(s: Loop, outs: seq<Outcome>, id: EventId,
                      delay: Duration, period: Duration, es: seq<Duration>, fires: nat)
    requires Inv(s) && Enabled(s, Drain(outs)) && LeftAlone(s, Drain(outs), id)
    requires Tracks(s, id, delay, period, es, fires) && s.queue[0] == id
    ensures Tracks(DrainStep(s, outs), id, delay, period, es, fires + Count(Emit(s, Drain(outs)), Fired(id)))
  {
    hide Update, DrainStep, Emit, Inv, LeftAlone, Held;
    assert id in Inside(s);
    TracksHeld(s, id, delay, period, es, fires);
    LeftAloneRuns(s, outs, id);
    OwnTurn(s, outs, id);
    OwnTurnPlace(s, outs, id);
    assert !Awaiting(DrainStep(s, outs), id);
  }

  /** A step that is not the timer's own turn leaves it as it is. */
  lemma OtherStepLeavesTimer(s: Loop, l: Label, id: EventId)
    requires Inv(s) && Enabled(s, l) && LeftAlone(s, l, id)
    requires id < |s.heap.events| && s.heap.events[id].body.Timer?
    requires l.Drain? ==> s.queue[0] != id
    ensures id < |Step(s, l).heap.events| && Step(s, l).heap.events[id] == s.heap.events[id]
  {
    if l.Drain? && s.heap.events[s.queue[0]].Valid() {
      UpdateLeavesAlone(s.heap, s.queue[0], s.mode.elapsed, l.outs, id);
    }
    hide Update;
  }

  /** What a step that is not an event's own turn may do to its place in the loop. */
  predicate SamePlace(s: Loop, l: Label, t: Loop, id: EventId) {
    && (id in Inside(s) ==> id in Inside(t))
    && (id !in Held(s) ==> id !in Held(t))
    && (if l.Begin? then !Awaiting(s, id) && (Awaiting(t, id) <==> id in Inside(s))
        else Awaiting(t, id) == Awaiting(s, id))
    && (Awaiting(t, id) && !l.Begin? ==> t.mode == s.mode)
    && (l.Begin? ==> t.mode == Draining(l.elapsed))
  }

  lemma OtherTurnPlace(s: Loop, outs: seq<Outcome>, id: EventId)
    requires Enabled(s, Drain(outs)) && s.queue[0] != id
    requires !DrainStep(s, outs).mode.Halted?
    ensures var t := DrainStep(s, outs);
            && (id in Inside(s) ==> id in Inside(t))
            && t.mode == s.mode && Awaiting(t, id) == Awaiting(s, id)
  {
    hide Update;
    var t := DrainStep(s, outs);
    assert t.queue == s.queue[1..] && t.mode == s.mode && s.swap <= t.swap;
    hide DrainStep, Enabled;
    assert s.queue == [s.queue[0]] + t.queue;
    assert id in s.queue <==> id in t.queue;
    if id in s.swap {
      var i :| 0 <= i < |s.swap| && s.swap[i] == id;
      assert t.swap[i] == id;
    }
  }

  lemma BeginPlace(s: Loop, l: Label, id: EventId)
    requires Inv(s) && Enabled(s, l) && l.Begin?
    ensures SamePlace(s, l, s.(queue := l.order, mode := Draining(l.elapsed)), id)
  {
    assert id in s.queue <==> id in multiset(s.queue);
    assert id in l.order <==> id in multiset(l.order);
  }

  lemma StaysOut(s: Loop, l: Label, id: EventId)
    requires Inv(s) && Enabled(s, l) && id < |s.heap.events| && id !in Held(s)
    ensures id !in Held(Step(s, l))
  {
    hide Update, Inv;
    StepConserves(s, l, id);
    StepKeepsIdentity(s, l);
  }

  lemma QueueStepPlace(s: Loop, l: Label, id: EventId)
    requires Enabled(s, l) && !l.Drain? && !l.Quit? && !l.Begin?
    ensures var t := Step(s, l);
            && (id in Inside(s) ==> id in Inside(t))
            && (t.mode.Draining? ==> t.mode == s.mode && t.queue == s.queue)
            && (s.mode.Draining? ==> Awaiting(t, id) == Awaiting(s, id))
  {
    hide Update, SetBody, Call;
    match l
    case Receive =>
    case End =>
    case _ =>
  }

  lemma OtherStepPlace(s: Loop, l: Label, id: EventId)
    requires Inv(s) && Enabled(s, l) && LeftAlone(s, l, id) && id < |s.heap.events|
    requires l.Drain? ==> s.queue[0] != id
    ensures SamePlace(s, l, Step(s, l), id)
  {
    hide Update;
    if id !in Held(s) {
      StaysOut(s, l, id);
    }
    if l.Drain? {
      OtherTurnPlace(s, l.outs, id);
    } else if l.Begin? {
      BeginPlace(s, l, id);
    } else {
      QueueStepPlace(s, l, id);
    }
  }

  lemma OtherStepTracks(s: Loop, l: Label, id: EventId,
                        delay: Duration, period: Duration, es: seq<Duration>, fires: nat)
    requires Inv(s) && Enabled(s, l) && LeftAlone(s, l, id)
    requires l.Drain? ==> s.queue[0] != id
    requires Tracks(s, id, delay, period, es, fires)
    ensures Tracks(Step(s, l), id, delay, period, es + Clock([l]), fires + Count(Emit(s, l), Fired(id)))
  {
    hide Update, Step, Emit, Inv, LeftAlone, Enabled, Awaiting, Inside, Held;
    OtherStepLeavesTimer(s, l, id);
    OtherStepPlace(s, l, id);
    OtherStepIsSilent(s, l, id);
    assert Clock([l][1..]) == [];
    var now := es + Clock([l]);
    if l.Begin? {
      assert now == es + [l.elapsed];
      assert now[..|now| - 1] == es;
    } else {
      assert now == es;
    }
  }

  lemma StepTracks(s: Loop, l: Label, id: EventId, delay: Duration, period: Duration, es: seq<Duration>, fires: nat)
    requires Inv(s) && Enabled(s, l) && LeftAlone(s, l, id)
    requires Tracks(s, id, delay, period, es, fires)
    ensures Tracks(Step(s, l), id, delay, period, es + Clock([l]), fires + Count(Emit(s, l), Fired(id)))
    ensures Inv(Step(s, l))
  {
    hide Update, Inv, Tracks, Emit;
    StepKeepsInv(s, l);
    if l.Drain? && s.queue[0] == id {
      OwnTurnTracks(s, l.outs, id, delay, period, es, fires);
      assert Step(s, l) == DrainStep(s, l.outs);
      hide Step, DrainStep, Enabled;
      assert es + Clock([l]) == es;
    } else {
      OtherStepTracks(s, l, id, delay, period, es, fires);
    }
  }

  /**
   The loop gives a timer that nothing disturbs each tick exactly once: over any run, through any other
   events, it is called just when the clock alone says, and is held by the loop just as long.
   */
  lemma {:induction false} TimerFollowsClock(s: Loop, ls: seq<Label>, id: EventId,
                                             delay: Duration, period: Duration, es: seq<Duration>, fires: nat)
    requires Inv(s) && Legal(s, ls) && Undisturbed(s, ls, id)
    requires Tracks(s, id, delay, period, es, fires)
    ensures Tracks(Run(s, ls), id, delay, period, es + Clock(ls), fires + Count(Trace(s, ls), Fired(id)))
    decreases |ls|
  {
    hide Update, Step, Emit, Enabled, Inv, LeftAlone, Tracks;
    if ls == [] {
      assert es + Clock(ls) == es;
    } else {
      var l, t := ls[0], Step(s, ls[0]);
      StepTracks(s, l, id, delay, period, es, fires);
      TimerFollowsClock(t, ls[1..], id, delay, period, es + Clock([l]), fires + Count(Emit(s, l), Fired(id)));
      CountAdds(Emit(s, l), Trace(t, ls[1..]), Fired(id));
      assert Clock([l][1..]) == [];
      assert es + Clock([l]) + Clock(ls[1..]) == es + Clock(ls);
    }
  }

  // ---------------------------------------------------------------- the promises of event.loop and event.delay

  /** A timer as it was sent, waiting in the queue of a loop between ticks. */
  ghost predicate Queued(s: Loop, id: EventId, delay: Duration, period: Duration) {
    && Inv(s) && s.mode.Idle? && id in s.queue && id < |s.heap.events|
    && s.heap.events[id].body == Timer(true, delay, period)
  }

  lemma {:induction false} ClockIsPositive(s: Loop, ls: seq<Label>)
    requires Legal(s, ls)
    ensures forall i :: 0 <= i < |Clock(ls)| ==> Clock(ls)[i] >= 0
    decreases |ls|
  {
    hide Update, Step;
    if ls != [] {
      ClockIsPositive(Step(s, ls[0]), ls[1..]);
    }
  }

  lemma QueuedTracks(s: Loop, id: EventId, delay: Duration, period: Duration)
    requires Queued(s, id, delay, period)
    ensures Tracks(s, id, delay, period, [], 0)
  {
    assert id in Inside(s);
    assert id in Held(s);
  }

  lemma QueuedFollows(s: Loop, ls: seq<Label>, id: EventId, delay: Duration, period: Duration)
    requires Queued(s, id, delay, period) && Legal(s, ls) && Undisturbed(s, ls, id) && Run(s, ls).mode.Idle?
    ensures var life := Follow(delay, period, Clock(ls));
            && Count(Trace(s, ls), Fired(id)) == life.fires
            && (life.alive <==> id in Inside(Run(s, ls)))
  {
    hide Update, Step, Enabled, Emit, Inv;
    QueuedTracks(s, id, delay, period);
    TimerFollowsClock(s, ls, id, delay, period, [], 0);
    assert [] + Clock(ls) == Clock(ls);
  }

  /**
   A loop timer whose callback returns true and that nobody stops is called in the first tick, and after that
   never earlier than a period and never later than a period and one tick after the call before: over ticks
   e1 .. en no longer than `longest`, k calls satisfy (k-1)*P <= e2 + .. + en < (k-1)*(P + longest) + P.
   */
  lemma LoopCadence(s: Loop, ls: seq<Label>, id: EventId, period: Duration, longest: Duration)
    requires Queued(s, id, 0, period) && period > 0
    requires Legal(s, ls) && Undisturbed(s, ls, id) && Run(s, ls).mode.Idle?
    requires Clock(ls) != [] && forall i :: 0 <= i < |Clock(ls)| ==> Clock(ls)[i] <= longest
    ensures var k, later := Count(Trace(s, ls), Fired(id)), Sum(Clock(ls)[1..]);
            && k >= 1
            && (k - 1) * period <= later < (k - 1) * (period + longest) + period
            && id in Run(s, ls).queue
  {
    hide Update, Step, Enabled, Emit, Undisturbed;
    ClockIsPositive(s, ls);
    QueuedFollows(s, ls, id, 0, period);
    FollowCadence(period, longest, Clock(ls));
    RunKeepsInv(s, ls);
    assert id in Inside(Run(s, ls));
  }

  /**
   A delay timer is called exactly once, in the first tick by which the summed lengths of the ticks since it
   was queued have reached its delay, and stays in the queue until then; its callback's result does not matter.
   */
  lemma DelayFiresOnTime(s: Loop, ls: seq<Label>, id: EventId, delay: Duration)
    requires Queued(s, id, delay, 0)
    requires Legal(s, ls) && Undisturbed(s, ls, id) && Run(s, ls).mode.Idle?
    ensures var due := Clock(ls) != [] && Sum(Clock(ls)) >= delay;
            && Count(Trace(s, ls), Fired(id)) == (if due then 1 else 0)
            && (id in Run(s, ls).queue <==> !due)
  {
    hide Update, Step, Enabled, Emit, Undisturbed;
    ClockIsPositive(s, ls);
    QueuedFollows(s, ls, id, delay, 0);
    FollowDelay(delay, Clock(ls));
    RunKeepsInv(s, ls);
    assert id in Inside(Run(s, ls)) <==> id in Run(s, ls).queue;
  }

  // ---------------------------------------------------------------- without a period, at most one call

  /** Whatever its callback does, an Update that calls a timer without a period is its last. */
  lemma PeriodlessTurnEnds(h: Heap, id: EventId, elapsed: Duration, outs: seq<Outcome>)
    requires id < |h.events| && h.events[id].body.Timer? && h.events[id].body.period <= 0
    requires Shaped(outs, Calls(h.events[id], elapsed))
    ensures var r := Update(h, id, elapsed, outs);
            && id < |r.heap.events|
            && if outs == [] then r.trace == [] else r.trace == [Fired(id)] && (!r.ok || !r.heap.events[id].Continues())
  {
  }

  lemma PeriodlessStep(s: Loop, outs: seq<Outcome>, id: EventId)
    requires Inv(s) && Enabled(s, Drain(outs)) && s.queue[0] == id
    requires s.heap.events[id].Valid() && s.heap.events[id].body.Timer? && s.heap.events[id].body.period <= 0
    ensures var t, fired := DrainStep(s, outs), Count(Emit(s, Drain(outs)), Fired(id));
            && fired <= 1
            && (fired == 1 ==> t.mode.Halted? || (id < |t.heap.events| && id !in Held(t)))
  {
    PeriodlessTurnEnds(s.heap, id, s.mode.elapsed, outs);
    DrainEmits(s, outs);
    UpdateKeepsIdentity(s.heap, id, s.mode.elapsed, outs);
    hide Update;
    var tr := Emit(s, Drain(outs));
    CountFired(tr, Update(s.heap, id, s.mode.elapsed, outs).trace, id, tr[|tr| - 1]);
    if !DrainStep(s, outs).mode.Halted? && Count(tr, Fired(id)) == 1 {
      OwnTurnPlace(s, outs, id);
    }
  }

  /** In every run, disturbed or not, a timer without a positive period is called at most once. */
  lemma {:induction false} PeriodlessFiresAtMostOnce(s: Loop, ls: seq<Label>, id: EventId)
    requires Inv(s) && Legal(s, ls) && id < |s.heap.events|
    requires s.heap.events[id].body.Timer? && s.heap.events[id].body.period <= 0
    ensures Count(Trace(s, ls), Fired(id)) <= 1
    decreases |ls|
  {
    hide Update, Step, Emit, Enabled, Inv;
    if ls != [] {
      var l, t := ls[0], Step(s, ls[0]);
      var a, b := Emit(s, l), Trace(t, ls[1..]);
      CountAdds(a, b, Fired(id));
      StepKeepsInv(s, l);
      StepKeepsIdentity(s, l);
      assert Later(s.heap.events[id], t.heap.events[id]);
      PeriodlessFiresAtMostOnce(t, ls[1..], id);
      PeriodlessFirst(s, l, ls[1..], id);
    }
  }

  lemma PeriodlessFirst(s: Loop, l: Label, ls: seq<Label>, id: EventId)
    requires Inv(s) && Enabled(s, l) && Inv(Step(s, l)) && Legal(Step(s, l), ls) && id < |s.heap.events|
    requires s.heap.events[id].body.Timer? && s.heap.events[id].body.period <= 0
    ensures Count(Emit(s, l), Fired(id)) <= 1
    ensures Count(Emit(s, l), Fired(id)) == 1 ==> Count(Trace(Step(s, l), ls), Fired(id)) == 0
  {
    hide Update, Inv, Emit;
    var t := Step(s, l);
    if l.Drain? && s.queue[0] == id && s.heap.events[id].Valid() {
      PeriodlessStep(s, l.outs, id);
      if Count(Emit(s, l), Fired(id)) == 1 {
        if t.mode.Halted? {
          NothingAfterHalt(t, ls);
        } else {
          GoneForever(t, ls, id);
        }
      }
    } else {
      OtherStepIsSilent(s, l, id);
    }
  }
}
