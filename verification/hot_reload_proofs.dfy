/** What the hot-reload protocol guarantees in every run of watcher, runtimes and newly created runtimes. */
module HotReloadProofs {
  import opened Framing
  import opened EventLoop
  import opened LoopInvariants
  import opened LoopRuns
  import opened HotReload

  // ---------------------------------------------------------------- the global invariant

  function Pool(s: System): multiset<RuntimeId> {
    multiset(s.ring) +
    (if s.watcher.Running? && s.watcher.round.stage.Holding? then multiset{s.watcher.round.stage.r} else multiset{})
  }

  /** Every runtime is in the ring once, or in the watcher's hands. */
  ghost predicate PoolInv(s: System) {
    forall i :: Pool(s)[i] == if 0 <= i < |s.loops| then 1 else 0
  }

  ghost predicate LoopsInv(s: System) {
    |s.given| == |s.loops| && forall i :: 0 <= i < |s.loops| ==> Inv(s.loops[i])
  }

  /** The reload event `id` of runtime `i` has not been answered. */
  predicate Unanswered(s: System, i: RuntimeId, id: EventId) {
    && i < |s.loops| && id < |s.loops[i].heap.events|
    && s.loops[i].heap.events[id].body.Reload? && s.loops[i].heap.events[id].body.answer.None?
  }

  /** At most one reload event of the whole system is unanswered, and it is the one the watcher waits for. */
  ghost predicate AnswersInv(s: System) {
    && (forall i, id :: Unanswered(s, i, id) ==> s.watcher.Running? && s.watcher.round.stage == Waiting(i, id))
    && (s.watcher.Running? && s.watcher.round.stage.Waiting? ==>
          var w := s.watcher.round.stage;
          && w.r < |s.loops| && w.id < |s.loops[w.r].heap.events|
          && var e := s.loops[w.r].heap.events[w.id].body;
          && e.Reload? && e.hotfix == (s.watcher.round.completes == 0))
  }

  /** How many runtimes the round has sent back to the ring. */
  function Returned(r: Round): int {
    if r.stage.Holding? then |r.popped| - 1 else |r.popped|
  }

  function Everyone(r: Round): nat {
    |r.start| + |r.early| + |r.late|
  }

  /** The order in which a round visits the ring while runtimes join at its tail. */
  ghost predicate OrderInv(r: Round, ring: seq<RuntimeId>) {
    && |r.popped| == (if r.stage.Choosing? then r.completes else r.completes + 1)
    && (!r.stage.Choosing? ==> r.popped[|r.popped| - 1] == r.stage.r)
    && (if r.stage.Choosing? then r.completes == 0 || r.completes < |ring| else |r.popped| <= Everyone(r))
    && |ring| + (if r.stage.Holding? then 1 else 0) == Everyone(r)
    && Returned(r) <= |ring|
    && r.start <= r.popped + ring
    && (r.late == [] ==> Straight(r, ring))
    && (r.late != [] ==> Behind(r, ring))
  }

  /** The runtimes taken and those in the ring are the ones of the start, the early ones, and those sent back. */
  predicate Straight(r: Round, ring: seq<RuntimeId>)
    requires 0 <= Returned(r)
  {
    r.popped + ring == r.start + r.early + r.popped[..Returned(r)]
  }

  /** The newest latecomer has not been taken and stands among those sent back. */
  predicate Behind(r: Round, ring: seq<RuntimeId>)
    requires r.late != [] && Returned(r) <= |ring|
  {
    && Returned(r) >= 1
    && r.late[|r.late| - 1] !in r.popped
    && r.late[|r.late| - 1] in ring[|ring| - Returned(r)..]
  }

  /** How many runtimes have performed the round's events with success. */
  function Performed(s: System): nat
    requires s.watcher.Running?
  {
    var r := s.watcher.round;
    var w := r.stage;
    if w.Waiting? && w.r < |s.loops| && w.id < |s.loops[w.r].heap.events| &&
       s.loops[w.r].heap.events[w.id].body.Reload? && s.loops[w.r].heap.events[w.id].body.answer == Some(true)
    then r.completes + 1 else r.completes
  }

  /** How many runtimes have performed the round's events, with success or not. */
  function Replies(s: System): nat
    requires s.watcher.Running?
  {
    var r := s.watcher.round;
    var w := r.stage;
    if w.Waiting? && w.r < |s.loops| && w.id < |s.loops[w.r].heap.events| &&
       s.loops[w.r].heap.events[w.id].body.Reload? && s.loops[w.r].heap.events[w.id].body.answer.Some?
    then r.completes + 1 else r.completes
  }

  /** The call of this performance was made, if it was a hotfix, and raised no error, and the content loaded. */
  predicate Sound(h: Hearing) {
    !h.out.ret.Raised? && (h.hotfix ==> h.out.called) && h.loaded
  }

  /**
   The runtimes taken have performed the round's events in turn, the first a hotfix and the others patches; those that
   count as successes raised no error; and the module is what the hotfix found on disk, marked as the watcher found it.
   */
  predicate HeardInv(s: System)
    requires s.watcher.Running?
  {
    var r := s.watcher.round;
    && |r.heard| == Replies(s) <= |r.popped|
    && (forall j :: 0 <= j < |r.heard| ==> r.heard[j].i == r.popped[j] && r.heard[j].hotfix == (j == 0))
    && (forall j :: 0 <= j < Performed(s) ==> Sound(r.heard[j]))
    && (Performed(s) > 0 ==> r.heard[0].disk == r.file.content)
    && (r.file.hotfixDisabled <==> "---@disable-hotfix" <= r.noticed)
  }

  predicate HasContent(s: System, i: RuntimeId, name: Name, content: Content) {
    i < |s.given| && name in s.given[i] && s.given[i][name] == content
  }

  /**
   Who has been given what: the module's content to those that performed, nothing since the round began to those not
   visited, and nothing at all to those of them created since.
   */
  ghost predicate ContentInv(s: System) {
    s.watcher.Running? ==>
      var r := s.watcher.round;
      && |r.before| <= |s.given|
      && (forall i :: 0 <= i < |r.start| ==> r.start[i] < |r.before|)
      && (forall j :: 0 <= j < |r.popped| ==> r.popped[j] < |s.given|)
      && Performed(s) <= |r.popped|
      && (forall j :: 0 <= j < Performed(s) ==> HasContent(s, r.popped[j], r.name, r.file.content))
      && HeardInv(s)
      && (forall i :: 0 <= i < |r.before| && i !in r.popped ==> s.given[i] == r.before[i])
      && (forall i :: |r.before| <= i < |s.given| && i !in r.popped ==> s.given[i] == map[])
      && (forall k :: 0 <= k < |r.late| ==> |r.before| <= r.late[k] < |s.given|)
  }

  ghost predicate SystemInv(s: System) {
    && LoopsInv(s) && PoolInv(s) && AnswersInv(s) && ContentInv(s)
    && (s.watcher.Running? ==> OrderInv(s.watcher.round, s.ring))
  }

  // ---------------------------------------------------------------- reload events inside a loop

  /** Only its own Update changes a reload event, and only the watcher makes one. */
  lemma WorkOnReloads(s: Loop, l: Label, id: EventId)
    requires Inv(s) && Enabled(s, l) && !l.Order?
    requires id < |Step(s, l).heap.events| && Step(s, l).heap.events[id].body.Reload?
    ensures id < |s.heap.events| && s.heap.events[id].body.Reload?
    ensures Step(s, l).heap.events[id].body ==
            if Performs(s, l, id) then Replied(s.heap.events[id].body.hotfix, l.outs[0])
            else s.heap.events[id].body
  {
    NewEventsArePosted(s, l);
    hide Step, Update, Inv;
    var t := Step(s, l);
    assert id < |s.heap.events| || Posted(t.heap.events[id]);
    StepKeepsIdentity(s, l);
    assert Later(s.heap.events[id], t.heap.events[id]);
    if l.Drain? && s.queue[0] == id {
      OwnReload(s, l.outs);
    } else {
      StepKeepsOthers(s, l);
      SubjectStep(s, l);
    }
  }

  lemma NewEventsArePosted(s: Loop, l: Label)
    requires Inv(s) && Enabled(s, l) && !l.Order?
    ensures forall i :: |s.heap.events| <= i < |Step(s, l).heap.events| ==> Posted(Step(s, l).heap.events[i])
  {
    hide Update;
    if l.Drain? {
      if s.heap.events[s.queue[0]].Valid() {
        DrainDrains(s, l.outs);
        hide DrainStep;
      }
    } else if l.Script? {
      CallTouches(s.heap, l.out, |s.heap.events|);
    }
  }

  lemma OwnReload(s: Loop, outs: seq<Outcome>)
    requires Inv(s) && Enabled(s, Drain(outs)) && s.heap.events[s.queue[0]].body.Reload?
    ensures var id, t := s.queue[0], DrainStep(s, outs);
            && id < |t.heap.events|
            && t.heap.events[id].body ==
               if s.heap.events[id].body.phase == Initialize
               then Replied(s.heap.events[id].body.hotfix, outs[0])
               else s.heap.events[id].body
  {
    var id := s.queue[0];
    if s.heap.events[id].Valid() {
      ReloadUpdate(s.heap, id, s.mode.elapsed, outs);
      hide Update;
    }
  }

  lemma ReloadUpdate(h: Heap, id: EventId, elapsed: Duration, outs: seq<Outcome>)
    requires id < |h.events| && h.events[id].body.Reload? && Shaped(outs, Calls(h.events[id], elapsed))
    ensures var r := Update(h, id, elapsed, outs);
            && r.ok && id < |r.heap.events|
            && r.heap.events[id].body ==
               if h.events[id].body.phase == Initialize
               then Replied(h.events[id].body.hotfix, outs[0])
               else h.events[id].body
  {
  }

  // ---------------------------------------------------------------- the order of the ring

  lemma TakeKeepsOrder(r: Round, ring: seq<RuntimeId>)
    requires OrderInv(r, ring) && r.stage.Choosing? && ring != [] && Distinct(ring)
    ensures OrderInv(r.(stage := Holding(ring[0]), popped := r.popped + [ring[0]]), ring[1..])
  {
    hide Behind, Straight, Distinct;
    TakeKeepsStraight(r, ring);
    if r.late != [] {
      TakeKeepsBehind(r, ring);
    }
  }

  lemma TakeKeepsStraight(r: Round, ring: seq<RuntimeId>)
    requires r.stage.Choosing? && ring != []
    ensures (r.popped + [ring[0]]) + ring[1..] == r.popped + ring
    ensures Straight(r, ring) ==> Straight(r.(stage := Holding(ring[0]), popped := r.popped + [ring[0]]), ring[1..])
  {
    var t := r.(stage := Holding(ring[0]), popped := r.popped + [ring[0]]);
    assert t.popped + ring[1..] == r.popped + ring;
    assert t.popped[..Returned(t)] == r.popped == r.popped[..Returned(r)];
  }

  lemma TakeKeepsBehind(r: Round, ring: seq<RuntimeId>)
    requires OrderInv(r, ring) && r.stage.Choosing? && ring != [] && Distinct(ring) && r.late != []
    ensures Behind(r.(stage := Holding(ring[0]), popped := r.popped + [ring[0]]), ring[1..])
  {
    LastIsNotFirst(r, ring);
    var n := |r.popped|;
    assert ring[|ring| - n..] == ring[1..][|ring| - 1 - n..];
  }

  /** The newest latecomer is behind every runtime the round can still take. */
  lemma LastIsNotFirst(r: Round, ring: seq<RuntimeId>)
    requires OrderInv(r, ring) && r.stage.Choosing? && ring != [] && r.late != [] && Distinct(ring)
    ensures r.late[|r.late| - 1] != ring[0]
  {
    assert |ring| - Returned(r) > 0;
    var x := r.late[|r.late| - 1];
    var k :| 0 <= k < Returned(r) && ring[|ring| - Returned(r)..][k] == x;
    assert ring[|ring| - Returned(r) + k] == x;
  }

  lemma PutBackKeepsOrder(r: Round, ring: seq<RuntimeId>)
    requires OrderInv(r, ring) && r.stage.Holding?
    ensures OrderInv(r.(stage := Sending(r.stage.r)), ring + [r.stage.r])
  {
    var t, back := r.(stage := Sending(r.stage.r)), ring + [r.stage.r];
    assert t.popped + back == r.popped + ring + [r.stage.r];
    assert t.popped[..Returned(t)] == r.popped[..Returned(r)] + [r.stage.r];
    if r.late != [] {
      assert back[|back| - Returned(t)..] == ring[|ring| - Returned(r)..] + [r.stage.r];
    } else {
      assert r.popped + ring + [r.stage.r] == r.start + r.early + (r.popped[..Returned(r)] + [r.stage.r]);
    }
  }

  lemma EarlyJoinKeepsOrder(r: Round, ring: seq<RuntimeId>, i: RuntimeId)
    requires OrderInv(r, ring) && Returned(r) == 0
    ensures OrderInv(r.(early := r.early + [i]), ring + [i])
  {
    assert r.late == [];
    var line := r.popped + ring;
    assert r.popped[..0] == [];
    assert line == r.start + r.early;
    assert r.popped + (ring + [i]) == line + [i];
    assert r.start + (r.early + [i]) + [] == line + [i];
  }

  lemma NewestIsLast(ring: seq<RuntimeId>, i: RuntimeId, k: nat)
    requires 0 < k <= |ring|
    ensures i in (ring + [i])[|ring| + 1 - k..]
  {
    assert (ring + [i])[|ring| + 1 - k..][k - 1] == i;
  }

  lemma LateJoinKeepsOrder(r: Round, ring: seq<RuntimeId>, i: RuntimeId)
    requires OrderInv(r, ring) && Returned(r) > 0 && i !in r.popped
    ensures OrderInv(r.(late := r.late + [i]), ring + [i])
  {
    var longer, t := ring + [i], r.(late := r.late + [i]);
    NewestIsLast(ring, i, Returned(r));
    assert r.popped + longer == (r.popped + ring) + [i];
    assert r.start <= (r.popped + ring) + [i];
    assert t.late[|t.late| - 1] == i && |longer| == |ring| + 1 && Returned(t) == Returned(r);
    var tail := longer[|longer| - Returned(t)..];
    assert i in tail;
  }

  lemma JoinKeepsOrder(r: Round, ring: seq<RuntimeId>, i: RuntimeId)
    requires OrderInv(r, ring) && i !in r.popped
    ensures OrderInv(if Returned(r) == 0 then r.(early := r.early + [i]) else r.(late := r.late + [i]), ring + [i])
  {
    if Returned(r) == 0 {
      EarlyJoinKeepsOrder(r, ring, i);
    } else {
      LateJoinKeepsOrder(r, ring, i);
    }
    hide OrderInv;
  }

  lemma AdvanceKeepsOrder(r: Round, ring: seq<RuntimeId>)
    requires OrderInv(r, ring) && r.stage.Waiting? && r.completes + 1 < |ring|
    ensures OrderInv(r.(completes := r.completes + 1, stage := Choosing), ring)
  {
  }

  lemma CutPrefix<T>(s: seq<T>, a: seq<T>, b: seq<T>)
    requires s <= a + b && |s| <= |a|
    ensures s <= a
  {
    assert forall i :: 0 <= i < |s| ==> s[i] == (a + b)[i] == a[i];
  }

  lemma CutEqual<T>(a: seq<T>, b: seq<T>, c: seq<T>, d: seq<T>)
    requires a + b == c + d && |a| == |c|
    ensures a == c && b == d
  {
    assert (a + b)[..|a|] == a && (c + d)[..|c|] == c;
    assert (a + b)[|a|..] == b && (c + d)[|c|..] == d;
  }

  /** When the round ends it has taken as many runtimes as there are in the ring. */
  lemma EndOfRound(r: Round, ring: seq<RuntimeId>)
    requires OrderInv(r, ring) && r.stage.Waiting? && r.completes + 1 >= |ring|
    ensures |r.popped| == |ring| == Everyone(r)
    ensures r.start <= r.popped
    ensures r.late == [] ==> r.popped == r.start + r.early == ring
  {
    CutPrefix(r.start, r.popped, ring);
    if r.late == [] {
      CutEqual(r.popped, ring, r.start + r.early, r.popped[..Returned(r)]);
      assert r.popped[..Returned(r)] == r.popped;
    }
  }

  // ---------------------------------------------------------------- the pool

  lemma RingIsDistinct(s: System)
    requires PoolInv(s)
    ensures Distinct(s.ring) && forall i :: 0 <= i < |s.ring| ==> s.ring[i] < |s.loops|
  {
    forall i, j | 0 <= i < j < |s.ring|
      ensures s.ring[i] != s.ring[j]
    {
      OnceInBag(s.ring, i, j);
      assert Pool(s)[s.ring[i]] <= 1;
    }
    forall i | 0 <= i < |s.ring|
      ensures s.ring[i] < |s.loops|
    {
      assert s.ring[i] in multiset(s.ring);
      assert Pool(s)[s.ring[i]] >= 1;
    }
  }

  predicate Handling(w: Watcher) {
    w.Running? && w.round.stage.Holding?
  }

  lemma SamePool(s: System, t: System)
    requires PoolInv(s) && |t.loops| == |s.loops| && t.ring == s.ring && !Handling(s.watcher) && !Handling(t.watcher)
    ensures PoolInv(t)
  {
    assert Pool(t) == Pool(s);
  }

  lemma JoinKeepsPool(s: System)
    requires PoolInv(s)
    ensures PoolInv(Next(s, Join))
  {
    hide Step, Enabled;
    var t, n: RuntimeId := Next(s, Join), |s.loops|;
    assert multiset(t.ring) == multiset(s.ring) + multiset([n]);
    assert Pool(t) == Pool(s) + multiset([n]);
  }

  lemma TakeKeepsPool(s: System)
    requires PoolInv(s) && CanMove(s, Take)
    ensures PoolInv(Next(s, Take))
  {
    hide Step, Enabled;
    var t := Next(s, Take);
    assert s.ring == [s.ring[0]] + t.ring;
    assert multiset(s.ring) == multiset([s.ring[0]]) + multiset(t.ring);
    assert Pool(t) == Pool(s);
  }

  lemma PutBackKeepsPool(s: System)
    requires PoolInv(s) && CanMove(s, PutBack)
    ensures PoolInv(Next(s, PutBack))
  {
    hide Step, Enabled;
    assert Pool(Next(s, PutBack)) == Pool(s);
  }

  // ---------------------------------------------------------------- moves of the watcher and of new runtimes

  /** Neither what runtimes were given nor the round's progress changes, and a new runtime has been given nothing. */
  predicate SameRound(s: System, t: System) {
    && |s.given| <= |t.given| && (forall i :: 0 <= i < |s.given| ==> t.given[i] == s.given[i])
    && (forall i :: |s.given| <= i < |t.given| ==> t.given[i] == map[])
    && s.watcher.Running? && t.watcher.Running?
    && var r, u := s.watcher.round, t.watcher.round;
    && u.name == r.name && u.file == r.file && u.heard == r.heard && u.before == r.before && u.start == r.start
    && u.noticed == r.noticed && Replies(t) == Replies(s)
    && r.popped <= u.popped && Performed(t) == Performed(s)
    && (forall j :: |r.popped| <= j < |u.popped| ==> u.popped[j] < |t.given|)
    && r.late <= u.late && (forall k :: |r.late| <= k < |u.late| ==> |s.given| <= u.late[k] < |t.given|)
  }

  lemma SameRoundKeepsHeard(s: System, t: System)
    requires SameRound(s, t) && HeardInv(s)
    ensures HeardInv(t)
  {
    hide Performed, Replies;
    var r, u := s.watcher.round, t.watcher.round;
    assert forall j :: 0 <= j < |r.popped| ==> u.popped[j] == r.popped[j];
  }

  lemma SameRoundKeepsContent(s: System, t: System)
    requires ContentInv(s) && SameRound(s, t)
    ensures ContentInv(t)
  {
    var r, u := s.watcher.round, t.watcher.round;
    SameRoundKeepsHeard(s, t);
    hide HeardInv;
    forall j | 0 <= j < Performed(t)
      ensures HasContent(t, u.popped[j], u.name, u.file.content)
    {
      assert HasContent(s, r.popped[j], r.name, r.file.content);
    }
    forall i | 0 <= i < |t.given| && i !in u.popped
      ensures t.given[i] == if i < |u.before| then u.before[i] else map[]
    {
      assert i !in r.popped;
    }
    forall k | 0 <= k < |u.late|
      ensures |u.before| <= u.late[k] < |t.given|
    {
      assert k < |r.late| ==> u.late[k] == r.late[k];
    }
    forall j | 0 <= j < |u.popped|
      ensures u.popped[j] < |t.given|
    {
      assert j < |r.popped| ==> u.popped[j] == r.popped[j];
    }
  }

  lemma JoinKeepsAnswers(s: System)
    requires AnswersInv(s) && LoopsInv(s)
    ensures AnswersInv(Next(s, Join)) && LoopsInv(Next(s, Join))
  {
    assert Inv(START);
    hide Step, Enabled, Inv;
    var t := Next(s, Join);
    assert forall i, id :: Unanswered(t, i, id) ==> Unanswered(s, i, id);
  }

  lemma JoinKeepsRound(s: System)
    requires s.watcher.Running? && OrderInv(s.watcher.round, s.ring) && ContentInv(s) && LoopsInv(s) && AnswersInv(s)
    ensures ContentInv(Next(s, Join))
    ensures OrderInv(Next(s, Join).watcher.round, Next(s, Join).ring)
  {
    hide Step, Enabled, Inv;
    var t := Next(s, Join);
    var r := s.watcher.round;
    assert |s.loops| !in r.popped;
    SameRoundKeepsContent(s, t);
    JoinKeepsOrder(r, s.ring, |s.loops|);
    assert (Returned(r) == 0) == (r.popped == [] || (r.stage.Holding? && |r.popped| == 1));
  }

  lemma JoinKeepsInv(s: System)
    requires SystemInv(s)
    ensures SystemInv(Next(s, Join))
  {
    JoinKeepsPool(s);
    JoinKeepsAnswers(s);
    if s.watcher.Running? {
      JoinKeepsRound(s);
    }
    hide Step, Enabled, PoolInv, OrderInv, AnswersInv, LoopsInv;
  }

  /** Rotating the ring changes no loop, and nothing that was given. */
  lemma RotationKeepsRound(s: System, m: Move)
    requires PoolInv(s) && LoopsInv(s) && AnswersInv(s) && CanMove(s, m) && (m.Take? || m.PutBack?)
    ensures SameRound(s, Next(s, m)) && LoopsInv(Next(s, m)) && AnswersInv(Next(s, m))
  {
    RingIsDistinct(s);
    hide Step, Enabled, PoolInv, Inv;
    assert forall i, id :: Unanswered(Next(s, m), i, id) <==> Unanswered(s, i, id);
  }

  lemma TakeKeepsInv(s: System)
    requires SystemInv(s) && CanMove(s, Take)
    ensures SystemInv(Next(s, Take))
  {
    var t := Next(s, Take);
    TakeKeepsPool(s);
    RingIsDistinct(s);
    RotationKeepsRound(s, Take);
    hide Step, Enabled, PoolInv, Pool, LoopsInv, AnswersInv, ContentInv, SameRound;
    TakeKeepsOrder(s.watcher.round, s.ring);
    hide OrderInv;
    SameRoundKeepsContent(s, t);
  }

  lemma PutBackKeepsInv(s: System)
    requires SystemInv(s) && CanMove(s, PutBack)
    ensures SystemInv(Next(s, PutBack))
  {
    var t := Next(s, PutBack);
    PutBackKeepsPool(s);
    RotationKeepsRound(s, PutBack);
    hide Step, Enabled, PoolInv, Pool, LoopsInv, AnswersInv, ContentInv, SameRound;
    PutBackKeepsOrder(s.watcher.round, s.ring);
    hide OrderInv;
    SameRoundKeepsContent(s, t);
  }

  lemma FreshRound(s: System, t: System, name: Name, content: Content, file: Module)
    requires SystemInv(s) && s.watcher.Resting? && file == Module(Marked(content), content)
    requires t == s.(watcher := Running(Round(name, content, file, 0, Choosing, s.ring, [], [], [], [], s.given)))
    ensures ContentInv(t) && OrderInv(t.watcher.round, t.ring)
  {
    RingIsDistinct(s);
    var nobody: seq<RuntimeId> := [];
    assert nobody + s.ring == s.ring == s.ring + nobody + nobody[..0];
  }

  lemma NoticeKeepsInv(s: System, m: Move)
    requires SystemInv(s) && CanMove(s, m) && m.Notice?
    ensures SystemInv(Next(s, m))
  {
    var t := Next(s, m);
    SamePool(s, t);
    if t != s {
      FreshRound(s, t, m.name, m.content, Module(Marked(m.content), m.content));
    }
    hide Step, Enabled, PoolInv, Pool, Inv, OrderInv, ContentInv;
    assert forall i, id :: Unanswered(t, i, id) <==> Unanswered(s, i, id);
  }

  lemma PostKeepsAnswers(s: System)
    requires LoopsInv(s) && AnswersInv(s) && CanMove(s, Post)
    ensures AnswersInv(Next(s, Post)) && LoopsInv(Next(s, Post))
  {
    var t, r := Next(s, Post), s.watcher.round.stage.r;
    var a, b := s.loops[r], t.loops[r];
    assert Enabled(a, Order(s.watcher.round.completes == 0));
    StepKeepsInv(a, Order(s.watcher.round.completes == 0));
    assert b.heap.events == a.heap.events + [Event(1, Reload(Initialize, s.watcher.round.completes == 0, None))];
    hide Step, Enabled, Inv;
    forall i, id | Unanswered(t, i, id)
      ensures i == r && id == |a.heap.events|
    {
      assert Unanswered(s, i, id) || (i == r && id == |a.heap.events|);
    }
  }

  lemma PostKeepsPerformed(s: System)
    requires LoopsInv(s) && AnswersInv(s) && CanMove(s, Post)
    ensures Next(s, Post).watcher.Running?
    ensures Performed(Next(s, Post)) == Performed(s) && Replies(Next(s, Post)) == Replies(s)
  {
    assert Enabled(s.loops[s.watcher.round.stage.r], Order(s.watcher.round.completes == 0));
    hide LoopsInv, AnswersInv, Inv;
  }

  lemma PostKeepsRound(s: System)
    requires LoopsInv(s) && AnswersInv(s) && CanMove(s, Post)
    ensures SameRound(s, Next(s, Post))
  {
    PostKeepsPerformed(s);
    hide Step, Enabled, LoopsInv, AnswersInv, Performed, Replies;
  }

  lemma PostKeepsOrder(r: Round, ring: seq<RuntimeId>, id: EventId)
    requires OrderInv(r, ring) && r.stage.Sending?
    ensures OrderInv(r.(stage := Waiting(r.stage.r, id)), ring)
  {
  }

  lemma PostKeepsInv(s: System)
    requires SystemInv(s) && CanMove(s, Post)
    ensures SystemInv(Next(s, Post))
  {
    var t, r := Next(s, Post), s.watcher.round;
    PostKeepsAnswers(s);
    PostKeepsRound(s);
    PostKeepsOrder(r, s.ring, |s.loops[r.stage.r].heap.events|);
    SamePool(s, t);
    hide Step, Enabled, PoolInv, Pool, AnswersInv, LoopsInv, OrderInv, ContentInv, SameRound;
    SameRoundKeepsContent(s, t);
  }

  lemma AnswerKeepsRound(s: System)
    requires LoopsInv(s) && CanMove(s, Answer) && Next(s, Answer).watcher.Running?
    ensures SameRound(s, Next(s, Answer))
    ensures Next(s, Answer).watcher.round ==
            s.watcher.round.(completes := s.watcher.round.completes + 1, stage := Choosing)
    ensures s.watcher.round.completes + 1 < |s.ring| && s.watcher.round.stage.Waiting?
  {
    hide Step, Enabled, LoopsInv;
  }

  lemma AnswerKeepsAnswers(s: System)
    requires LoopsInv(s) && AnswersInv(s) && CanMove(s, Answer)
    ensures LoopsInv(Next(s, Answer)) && AnswersInv(Next(s, Answer))
    ensures Next(s, Answer).loops == s.loops && Next(s, Answer).ring == s.ring && !Handling(Next(s, Answer).watcher)
  {
    hide Step, Enabled, Inv;
    assert forall i, id :: Unanswered(Next(s, Answer), i, id) <==> Unanswered(s, i, id);
  }

  lemma AnswerKeepsInv(s: System)
    requires SystemInv(s) && CanMove(s, Answer)
    ensures SystemInv(Next(s, Answer))
  {
    var t := Next(s, Answer);
    AnswerKeepsAnswers(s);
    assert s.watcher.round.stage.Waiting?;
    hide Next, CanMove, PoolInv, Pool, LoopsInv, AnswersInv;
    SamePool(s, t);
    if t.watcher.Running? {
      AnswerKeepsRound(s);
      AdvanceKeepsOrder(s.watcher.round, s.ring);
      hide OrderInv, SameRound;
      SameRoundKeepsContent(s, t);
    }
  }

  // ---------------------------------------------------------------- a runtime takes a step

  /** The step of runtime `i` is the Update that performs a reload event. */
  predicate Performing(s: System, i: RuntimeId, l: Label)
    requires i < |s.loops| && Enabled(s.loops[i], l)
  {
    l.Drain? && Performs(s.loops[i], l, s.loops[i].queue[0])
  }

  /** The event being performed is the one the watcher waits for. */
  lemma PerformsTheWaited(s: System, i: RuntimeId, l: Label)
    requires LoopsInv(s) && AnswersInv(s) && i < |s.loops| && Enabled(s.loops[i], l) && Performing(s, i, l)
    ensures s.watcher.Running? && s.watcher.round.stage == Waiting(i, s.loops[i].queue[0])
    ensures s.loops[i].heap.events[s.loops[i].queue[0]].body.hotfix == (s.watcher.round.completes == 0)
    ensures l.outs != []
  {
    hide Step, Update;
    var id := s.loops[i].queue[0];
    assert EventInv(s.loops[i].heap.events[id], id in s.loops[i].workers);
    assert Unanswered(s, i, id);
  }

  /** A runtime's step changes its own loop, and of the watcher at most the module and what it has heard. */
  lemma WorkShape(s: System, m: Move)
    requires m.Work? && CanMove(s, m)
    ensures var t := Next(s, m);
            && t.loops == s.loops[m.i := Step(s.loops[m.i], m.l)] && t.ring == s.ring && t.cache == s.cache
            && |t.loops| == |s.loops| && |t.given| == |s.given| && t.watcher.Running? == s.watcher.Running?
            && (s.watcher.Running? ==>
                  t.watcher.round == s.watcher.round.(file := t.watcher.round.file, heard := t.watcher.round.heard))
  {
    hide Step, Enabled;
  }

  lemma StepAnswersOnly(a: Loop, l: Label)
    requires Inv(a) && Enabled(a, l) && !l.Order?
    ensures Inv(Step(a, l)) && AllLater(a.heap, Step(a, l).heap)
    ensures AnswersOnly(a, Step(a, l))
  {
    hide Step, Update, Inv, Enabled, Later;
    var b := Step(a, l);
    StepKeepsInv(a, l);
    StepKeepsIdentity(a, l);
    forall id | 0 <= id < |b.heap.events| && b.heap.events[id].body.Reload? && b.heap.events[id].body.answer.None?
      ensures id < |a.heap.events| && a.heap.events[id].body.Reload? && a.heap.events[id].body.answer.None?
    {
      WorkOnReloads(a, l, id);
    }
  }

  /** Unanswered reload events of `b` were unanswered in `a`. */
  ghost predicate AnswersOnly(a: Loop, b: Loop) {
    forall id :: 0 <= id < |b.heap.events| && b.heap.events[id].body.Reload? && b.heap.events[id].body.answer.None? ==>
      id < |a.heap.events| && a.heap.events[id].body.Reload? && a.heap.events[id].body.answer.None?
  }

  lemma AnsweringKeepsAnswers(s: System, t: System, i: RuntimeId, b: Loop)
    requires AnswersInv(s) && i < |s.loops| && t.loops == s.loops[i := b]
    requires AnswersOnly(s.loops[i], b) && AllLater(s.loops[i].heap, b.heap)
    requires t.watcher.Running? == s.watcher.Running?
    requires s.watcher.Running? ==>
               t.watcher.round.stage == s.watcher.round.stage && t.watcher.round.completes == s.watcher.round.completes
    ensures AnswersInv(t)
  {
    forall j, id | Unanswered(t, j, id)
      ensures Unanswered(s, j, id)
    {
    }
    if s.watcher.Running? && s.watcher.round.stage.Waiting? && s.watcher.round.stage.r == i {
      var id := s.watcher.round.stage.id;
      assert Later(s.loops[i].heap.events[id], b.heap.events[id]);
    }
  }

  lemma WorkKeepsAnswers(s: System, m: Move)
    requires LoopsInv(s) && AnswersInv(s) && m.Work? && CanMove(s, m)
    ensures AnswersInv(Next(s, m)) && LoopsInv(Next(s, m))
  {
    WorkShape(s, m);
    hide Step, Update, Inv, Enabled, Next, AnswersInv, AllLater, AnswersOnly;
    StepAnswersOnly(s.loops[m.i], m.l);
    AnsweringKeepsAnswers(s, Next(s, m), m.i, Step(s.loops[m.i], m.l));
  }

  lemma IdleWorkKeepsContent(s: System, m: Move)
    requires LoopsInv(s) && AnswersInv(s) && ContentInv(s) && m.Work? && CanMove(s, m) && !Performing(s, m.i, m.l)
    ensures ContentInv(Next(s, m))
  {
    var t := Next(s, m);
    if s.watcher.Running? {
      IdleWorkKeepsPerformed(s, m);
      hide Step, Enabled, Performed, Replies;
      SameRoundKeepsContent(s, t);
    }
  }

  lemma IdleWorkKeepsPerformed(s: System, m: Move)
    requires LoopsInv(s) && AnswersInv(s) && s.watcher.Running? && m.Work? && CanMove(s, m) && !Performing(s, m.i, m.l)
    ensures Next(s, m) == s.(loops := s.loops[m.i := Step(s.loops[m.i], m.l)])
    ensures Performed(Next(s, m)) == Performed(s) && Replies(Next(s, m)) == Replies(s)
  {
    hide Update, Inv;
    var w, a := s.watcher.round.stage, s.loops[m.i];
    if w.Waiting? && w.r == m.i {
      StepKeepsIdentity(a, m.l);
      assert Later(a.heap.events[w.id], Step(a, m.l).heap.events[w.id]);
      WorkOnReloads(a, m.l, w.id);
      hide Step, Enabled;
    }
  }

  lemma BusyWorkPerforms(s: System, m: Move)
    requires LoopsInv(s) && AnswersInv(s) && m.Work? && CanMove(s, m) && Performing(s, m.i, m.l)
    ensures s.watcher.Running? && s.watcher.round.stage.Waiting? && s.watcher.round.stage.r == m.i && m.l.outs != []
    ensures var first := s.watcher.round.completes == 0;
            var ok := Succeeds(first, m.l.outs[0]);
            && Next(s, m) ==
               Perform(s.(loops := s.loops[m.i := Step(s.loops[m.i], m.l)]), m.i, first, m.l.outs[0], m.disk, m.loaded)
            && Performed(s) == s.watcher.round.completes == Replies(s)
            && Replies(Next(s, m)) == s.watcher.round.completes + 1
            && Performed(Next(s, m)) == s.watcher.round.completes + (if ok then 1 else 0)
            && (ok ==> m.loaded)
  {
    var a, id := s.loops[m.i], s.loops[m.i].queue[0];
    assert EventInv(a.heap.events[id], id in a.workers);
    hide Update, Inv;
    PerformsTheWaited(s, m.i, m.l);
    StepKeepsIdentity(a, m.l);
    assert Later(a.heap.events[id], Step(a, m.l).heap.events[id]);
    WorkOnReloads(a, m.l, id);
    hide Step, Enabled;
  }

  lemma PerformKeepsHeard(s: System, t: System, u: System, i: RuntimeId, out: Outcome, disk: Content, loaded: bool)
    requires s.watcher.Running? && HeardInv(s) && i < |t.given| && t.watcher == s.watcher
    requires var r := s.watcher.round;
             var ok := Succeeds(r.completes == 0, out);
             && (ok ==> loaded) && Replies(s) == r.completes == Performed(s)
             && r.completes < |r.popped| && r.popped[r.completes] == i
             && u == Perform(t, i, r.completes == 0, out, disk, loaded)
             && Replies(u) == r.completes + 1 && Performed(u) == r.completes + (if ok then 1 else 0)
    ensures HeardInv(u)
  {
    hide Performed, Replies;
  }

  /** Performing an event gives the module to the runtime taken last, and to no other. */
  lemma PerformKeepsContent(s: System, t: System, u: System, i: RuntimeId, out: Outcome, disk: Content, loaded: bool)
    requires ContentInv(s) && s.watcher.Running? && i < |s.given|
    requires t.given == s.given && t.watcher == s.watcher
    requires var r := s.watcher.round;
             var ok := Succeeds(r.completes == 0, out);
             && u.watcher.Running? && (ok ==> loaded) && Replies(s) == r.completes && Replies(u) == r.completes + 1
             && r.completes < |r.popped| && r.popped[r.completes] == i && Performed(s) == r.completes
             && u == Perform(t, i, r.completes == 0, out, disk, loaded)
             && Performed(u) == r.completes + (if ok then 1 else 0)
    ensures ContentInv(u)
  {
    hide Performed, Replies;
    var r, v := s.watcher.round, u.watcher.round;
    PerformKeepsHeard(s, t, u, i, out, disk, loaded);
    hide HeardInv;
    forall j | 0 <= j < Performed(u)
      ensures HasContent(u, v.popped[j], v.name, v.file.content)
    {
      if j < r.completes {
        assert HasContent(s, r.popped[j], r.name, r.file.content);
      }
    }
  }

  lemma PerformingHead(s: System, m: Move)
    requires LoopsInv(s) && m.Work? && CanMove(s, m)
    ensures m.i < |s.loops| == |s.given| && Enabled(s.loops[m.i], m.l)
  {
  }

  lemma BusyWorkKeepsContent(s: System, m: Move)
    requires LoopsInv(s) && AnswersInv(s) && ContentInv(s) && m.Work? && CanMove(s, m) && Performing(s, m.i, m.l)
    requires s.watcher.Running? && OrderInv(s.watcher.round, s.ring)
    ensures ContentInv(Next(s, m))
  {
    BusyWorkPerforms(s, m);
    PerformingHead(s, m);
    hide Step, Update, Inv, Enabled, Next, CanMove, Performing, Performed, Replies, ContentInv, AnswersInv, LoopsInv;
    var t := s.(loops := s.loops[m.i := Step(s.loops[m.i], m.l)]);
    PerformKeepsContent(s, t, Next(s, m), m.i, m.l.outs[0], m.disk, m.loaded);
  }

  lemma WorkKeepsContent(s: System, m: Move)
    requires SystemInv(s) && m.Work? && CanMove(s, m)
    ensures ContentInv(Next(s, m))
  {
    hide Step, Update, Inv, Enabled, Next, LoopsInv, AnswersInv, ContentInv, PoolInv, OrderInv;
    if Performing(s, m.i, m.l) {
      BusyWorkPerforms(s, m);
      BusyWorkKeepsContent(s, m);
    } else {
      IdleWorkKeepsContent(s, m);
    }
  }

  /** The order of the ring does not depend on what runtimes do or on the module's content. */
  lemma SameOrder(s: System, t: System)
    requires PoolInv(s) && t.ring == s.ring && |t.loops| == |s.loops|
    requires t.watcher.Running? == s.watcher.Running?
    requires s.watcher.Running? ==>
               && OrderInv(s.watcher.round, s.ring)
               && t.watcher.round == s.watcher.round.(file := t.watcher.round.file, heard := t.watcher.round.heard)
    ensures PoolInv(t) && (t.watcher.Running? ==> OrderInv(t.watcher.round, t.ring))
  {
    assert Pool(t) == Pool(s);
  }

  lemma WorkKeepsInv(s: System, m: Move)
    requires SystemInv(s) && m.Work? && CanMove(s, m)
    ensures SystemInv(Next(s, m))
  {
    hide Step, Update, Inv, Enabled, Next, CanMove, LoopsInv, AnswersInv, ContentInv, PoolInv, OrderInv;
    WorkKeepsAnswers(s, m);
    WorkKeepsContent(s, m);
    WorkShape(s, m);
    SameOrder(s, Next(s, m));
  }

  /** Every move of watcher, runtimes and new runtimes keeps the global invariant. */
  lemma MoveKeepsInv(s: System, m: Move)
    requires SystemInv(s) && CanMove(s, m)
    ensures SystemInv(Next(s, m))
  {
    hide SystemInv, Next, CanMove;
    match m
    case Join => JoinKeepsInv(s);
    case Work(_, _, _, _) => WorkKeepsInv(s, m);
    case Notice(_, _, _) => NoticeKeepsInv(s, m);
    case Take => TakeKeepsInv(s);
    case PutBack => PutBackKeepsInv(s);
    case Post => PostKeepsInv(s);
    case Answer => AnswerKeepsInv(s);
  }

  lemma BootInv(cache: map<Name, Module>)
    ensures SystemInv(Boot(cache))
  {
  }

  lemma {:induction false} HistoryKeepsInv(s: System, ms: seq<Move>)
    requires SystemInv(s) && Possible(s, ms)
    ensures SystemInv(After(s, ms))
    decreases |ms|
  {
    hide SystemInv, Next, CanMove;
    if ms != [] {
      MoveKeepsInv(s, ms[0]);
      HistoryKeepsInv(Next(s, ms[0]), ms[1..]);
    }
  }

  // ---------------------------------------------------------------- what a round guarantees

  /** At most one reload event is unanswered in the whole system, at any time of any run. */
  lemma AtMostOneUnanswered(cache: map<Name, Module>, ms: seq<Move>,
                            i: RuntimeId, a: EventId, j: RuntimeId, b: EventId)
    requires Possible(Boot(cache), ms)
    requires Unanswered(After(Boot(cache), ms), i, a) && Unanswered(After(Boot(cache), ms), j, b)
    ensures i == j && a == b
  {
    BootInv(cache);
    HistoryKeepsInv(Boot(cache), ms);
    hide Next, CanMove;
  }

  /** The watcher hears that the last event of a round succeeded and adds the module to the cache. */
  predicate Commits(s: System, m: Move)
    requires CanMove(s, m)
  {
    && m.Answer? && s.loops[s.watcher.round.stage.r].heap.events[s.watcher.round.stage.id].body.answer.value
    && s.watcher.round.completes + 1 >= |s.ring|
  }

  lemma CommitStep(s: System, m: Move)
    requires CanMove(s, m) && Commits(s, m)
    ensures Performed(s) == s.watcher.round.completes + 1
    ensures Next(s, m) == s.(watcher := Resting, cache := Add(s.cache, s.watcher.round.name, s.watcher.round.file))
  {
    hide Step, Enabled;
  }

  /** Nothing else touches the cache: no failed round, and no round that is still going on. */
  lemma OnlyCommitsChangeCache(s: System, m: Move)
    requires CanMove(s, m) && Next(s, m).cache != s.cache
    ensures Commits(s, m)
  {
    hide Step, Enabled;
    if m.Work? {
      WorkShape(s, m);
    }
  }

  /** Every runtime taken has performed its event without an error, the first as a hotfix that found `content`. */
  predicate SoundRound(r: Round, content: Content) {
    && r.popped != [] && |r.heard| == |r.popped| && r.heard[0].disk == content
    && forall j :: 0 <= j < |r.heard| ==>
         r.heard[j].i == r.popped[j] && r.heard[j].hotfix == (j == 0) && Sound(r.heard[j])
  }

  /** What a commit finds, by the invariant. */
  lemma CommittedContent(s: System, m: Move)
    requires SystemInv(s) && CanMove(s, m) && Commits(s, m)
    ensures var r, t := s.watcher.round, Next(s, m);
            && r.name in t.cache && r.start <= r.popped && SoundRound(r, t.cache[r.name].content)
            && (forall i :: 0 <= i < |r.start| ==> HasContent(t, r.start[i], r.name, t.cache[r.name].content))
            && (r.name in s.cache ==> t.cache[r.name].hotfixDisabled == s.cache[r.name].hotfixDisabled)
            && (forall n :: n in s.cache && n != r.name ==> n in t.cache && t.cache[n] == s.cache[n])
  {
    CommitStep(s, m);
    var r, t := s.watcher.round, Next(s, m);
    hide Step, Enabled, Inv, AnswersInv, PoolInv, Next, CanMove, Commits;
    EndOfRound(r, s.ring);
    assert Performed(s) == |r.popped|;
    forall i | 0 <= i < |r.start|
      ensures HasContent(t, r.start[i], r.name, t.cache[r.name].content)
    {
      assert r.start[i] == r.popped[i];
      assert HasContent(s, r.popped[i], r.name, r.file.content);
    }
  }

  /**
   Whenever the cache changes, in any history, a round has just ended well: every runtime it took has performed its
   event without an error, the first as a hotfix; the module goes in with the bytes that hotfix read, every runtime
   that was in the ring when the round began, however many joined since, has been given exactly these bytes, a known
   module keeps its disable flag, and no other module changes.
   */
  lemma CommitMeansEveryoneHasIt(cache: map<Name, Module>, ms: seq<Move>, m: Move)
    requires Possible(Boot(cache), ms) && CanMove(After(Boot(cache), ms), m)
    requires Next(After(Boot(cache), ms), m).cache != After(Boot(cache), ms).cache
    ensures var s, t := After(Boot(cache), ms), Next(After(Boot(cache), ms), m);
            && s.watcher.Running? && t.watcher.Resting?
            && var r := s.watcher.round;
            && r.name in t.cache && r.start <= r.popped && SoundRound(r, t.cache[r.name].content)
            && (forall i :: 0 <= i < |r.start| ==> HasContent(t, r.start[i], r.name, t.cache[r.name].content))
            && (r.name in s.cache ==> t.cache[r.name].hotfixDisabled == s.cache[r.name].hotfixDisabled)
            && (forall n :: n in s.cache && n != r.name ==> n in t.cache && t.cache[n] == s.cache[n])
  {
    var s := After(Boot(cache), ms);
    BootInv(cache);
    HistoryKeepsInv(Boot(cache), ms);
    OnlyCommitsChangeCache(s, m);
    CommitStep(s, m);
    CommittedContent(s, m);
    hide SystemInv, Next, After, Possible;
  }

  /**
   While no runtime joins, the runtimes given the module are the first of the ring's starting order, as many as
   have answered or performed, and the runtimes not yet taken are as they were.
   */
  lemma FixedPoolGoesInOrder(s: System)
    requires SystemInv(s) && s.watcher.Running? && s.watcher.round.early == [] && s.watcher.round.late == []
    ensures var r := s.watcher.round;
            && |r.popped| <= |r.start| && r.popped == r.start[..|r.popped|]
            && (forall j :: 0 <= j < Performed(s) ==> HasContent(s, r.start[j], r.name, r.file.content))
            && (forall j :: |r.popped| <= j < |r.start| ==> s.given[r.start[j]] == r.before[r.start[j]])
            && s.ring == r.start[|r.popped|..] + r.start[..Returned(r)]
  {
    var r := s.watcher.round;
    FixedOrder(r, s.ring);
    RoundVisitsOnce(s);
    hide OrderInv, PoolInv, LoopsInv, AnswersInv;
    forall j | 0 <= j < Performed(s)
      ensures HasContent(s, r.start[j], r.name, r.file.content)
    {
      assert HasContent(s, r.popped[j], r.name, r.file.content);
    }
    forall j | |r.popped| <= j < |r.start|
      ensures s.given[r.start[j]] == r.before[r.start[j]]
    {
      assert r.start[j] !in r.popped;
    }
  }

  lemma FixedOrder(r: Round, ring: seq<RuntimeId>)
    requires OrderInv(r, ring) && r.early == [] && r.late == []
    ensures |r.popped| <= |r.start| && r.popped == r.start[..|r.popped|]
    ensures ring == r.start[|r.popped|..] + r.start[..Returned(r)]
  {
    assert r.popped + ring == r.start + r.popped[..Returned(r)];
    var n := |r.popped|;
    assert r.start == r.start[..n] + r.start[n..];
    assert r.popped + ring == r.start[..n] + (r.start[n..] + r.popped[..Returned(r)]);
    CutEqual(r.popped, ring, r.start[..n], r.start[n..] + r.popped[..Returned(r)]);
    assert r.popped[..Returned(r)] == r.start[..Returned(r)];
  }

  /** The runtimes still to be taken in a fixed pool have not been taken before. */
  lemma RoundVisitsOnce(s: System)
    requires SystemInv(s) && s.watcher.Running? && s.watcher.round.early == [] && s.watcher.round.late == []
    ensures var r := s.watcher.round; forall j :: |r.popped| <= j < |r.start| ==> r.start[j] !in r.popped
  {
    hide ContentInv, AnswersInv, LoopsInv;
    var r := s.watcher.round;
    FixedOrder(r, s.ring);
    RingIsDistinct(s);
    HandledIsOutside(s);
    assert Returned(r) <= |s.ring|;
    hide SystemInv, PoolInv, OrderInv;
    forall i, j | 0 <= i < |r.popped| <= j < |r.start|
      ensures r.start[i] != r.start[j]
    {
      assert s.ring[j - |r.popped|] == r.start[j];
      if i < Returned(r) {
        assert s.ring[|r.start| - |r.popped| + i] == r.start[i];
      }
    }
  }

  lemma HandledIsOutside(s: System)
    requires SystemInv(s) && s.watcher.Running?
    ensures var r := s.watcher.round;
            forall i :: Returned(r) <= i < |r.popped| ==> forall j :: 0 <= j < |s.ring| ==> s.ring[j] != r.popped[i]
  {
    var r := s.watcher.round;
    if r.stage.Holding? {
      assert Pool(s)[r.stage.r] <= 1;
      assert multiset(s.ring)[r.stage.r] == 0;
      assert r.stage.r !in s.ring;
    }
  }

  /**
   After a commit every runtime in the ring has been given the module exactly if none joined after the round had sent
   its first runtime back; then each was visited once and the ring is in its starting order again.
   */
  lemma CommitCoversRingIff(s: System, m: Move)
    requires SystemInv(s) && CanMove(s, m) && Commits(s, m)
    ensures var r, t := s.watcher.round, Next(s, m);
            && r.name in t.cache
            && ((forall i :: 0 <= i < |t.ring| ==> HasContent(t, t.ring[i], r.name, t.cache[r.name].content))
                <==> r.late == [])
            && (r.late == [] ==> r.popped == t.ring == r.start + r.early && Distinct(r.popped))
  {
    var r, t := s.watcher.round, Next(s, m);
    CommitStep(s, m);
    RingIsDistinct(s);
    assert r.stage.Waiting? && r.completes + 1 >= |s.ring|;
    hide Step, Enabled, Inv, LoopsInv, AnswersInv, PoolInv, OrderInv, Next, CanMove, Commits, Performed, Distinct;
    EndOfRound(r, s.ring);
    if r.late == [] {
      forall i | 0 <= i < |t.ring|
        ensures HasContent(t, t.ring[i], r.name, r.file.content)
      {
        assert HasContent(s, r.popped[i], r.name, r.file.content);
      }
    } else {
      LateHasNothing(s);
    }
  }

  lemma LateHasNothing(s: System)
    requires s.watcher.Running? && ContentInv(s)
    requires var r := s.watcher.round;
             OrderInv(r, s.ring) && |r.popped| == |s.ring| && !r.stage.Holding? && r.late != []
    ensures exists i :: 0 <= i < |s.ring| && s.ring[i] < |s.given| && s.given[s.ring[i]] == map[]
  {
    var r, ring := s.watcher.round, s.ring;
    var x := r.late[|r.late| - 1];
    assert ring[|ring| - Returned(r)..] == ring;
    assert x in ring && x !in r.popped;
    hide OrderInv, Performed;
    var i :| 0 <= i < |ring| && ring[i] == x;
  }

  // ---------------------------------------------------------------- a runtime that joins late

  /** A hotfix or patch event that succeeds and does nothing else. */
  const QUIET := Outcome({}, [], Yes, true)

  /** Runtime 0 performs a hotfix, or a patch, without an error. */
  const FIXED := Hearing(0, true, QUIET, "new", true)
  const PATCHED := Hearing(0, false, QUIET, "new", true)

  /** Runtime 0 between ticks after it has performed `n` reload events, the first of them a hotfix. */
  function Served(n: nat): Loop {
    Loop(Heap(seq(n, i => Event(1, Reload(Complete, i == 0, Some(true)))), []), [], [], Idle, {}, false)
  }

  /** What runtime 0 does from receiving an event to having answered it and ended the tick. */
  function Serve(n: nat, disk: Content): seq<Move> {
    [Work(0, Receive, disk, true), Work(0, Begin([n], 66), disk, true),
     Work(0, Drain([QUIET]), disk, true), Work(0, End, disk, true)]
  }

  lemma ServeBegins(n: nat) returns (s1: Loop, s2: Loop)
    ensures var s0 := Step(Served(n), Order(n == 0)); Enabled(s0, Receive) && Step(s0, Receive) == s1
    ensures Enabled(s1, Begin([n], 66)) && Step(s1, Begin([n], 66)) == s2
    ensures s2 == Loop(Heap(Served(n).heap.events + [Event(1, Reload(Initialize, n == 0, None))], []), [n], [],
                       Draining(66), {}, false)
  {
    hide Update;
    var e := Event(1, Reload(Initialize, n == 0, None));
    var s0 := Step(Served(n), Order(n == 0));
    assert s0 == Loop(Heap(Served(n).heap.events + [e], [n]), [], [], Idle, {}, false);
    s1 := Loop(Heap(Served(n).heap.events + [e], []), [n], [], Idle, {}, false);
    assert Step(s0, Receive) == s1;
    s2 := s1.(mode := Draining(66));
  }

  lemma ServeOne(n: nat) returns (s1: Loop, s2: Loop, s3: Loop)
    ensures var s0 := Step(Served(n), Order(n == 0)); Enabled(s0, Receive) && Step(s0, Receive) == s1
    ensures Enabled(s1, Begin([n], 66)) && Step(s1, Begin([n], 66)) == s2
    ensures Enabled(s2, Drain([QUIET])) && Step(s2, Drain([QUIET])) == s3
    ensures Performs(s2, Drain([QUIET]), n) && s2.queue[0] == n && s2.heap.events[n].body.hotfix == (n == 0)
    ensures Enabled(s3, End) && Step(s3, End) == Served(n + 1)
  {
    s1, s2 := ServeBegins(n);
    hide Step, Served;
    s3 := ServeEnds(n, s2);
  }

  lemma ServeEnds(n: nat, s2: Loop) returns (s3: Loop)
    requires s2 == Loop(Heap(Served(n).heap.events + [Event(1, Reload(Initialize, n == 0, None))], []), [n], [],
                        Draining(66), {}, false)
    ensures Enabled(s2, Drain([QUIET])) && Step(s2, Drain([QUIET])) == s3
    ensures Performs(s2, Drain([QUIET]), n) && s2.queue[0] == n && s2.heap.events[n].body.hotfix == (n == 0)
    ensures Enabled(s3, End) && Step(s3, End) == Served(n + 1)
  {
    assert |Served(n).heap.events| == n;
    assert s2.heap.events[n] == Event(1, Reload(Initialize, n == 0, None));
    assert Call(s2.heap, QUIET) == s2.heap;
    s3 := s2.(heap := Served(n + 1).heap, queue := []);
    assert DrainStep(s2, [QUIET]).heap.events == s3.heap.events;
  }

  lemma Chain(s: System, m: Move, ms: seq<Move>)
    requires CanMove(s, m) && Possible(Next(s, m), ms)
    ensures Possible(s, [m] + ms) && After(s, [m] + ms) == After(Next(s, m), ms)
  {
    assert ([m] + ms)[1..] == ms;
    hide Next, CanMove;
  }

  lemma {:induction false} Append(s: System, a: seq<Move>, b: seq<Move>)
    requires Possible(s, a) && Possible(After(s, a), b)
    ensures Possible(s, a + b) && After(s, a + b) == After(After(s, a), b)
    decreases |a|
  {
    hide Next, CanMove;
    if a == [] {
      assert a + b == b;
    } else {
      assert (a + b)[0] == a[0] && (a + b)[1..] == a[1..] + b;
      Append(Next(s, a[0]), a[1..], b);
    }
  }

  /** Runtime 0 performs the event it was sent and ends its tick. */
  lemma ServeMoves(s: System, n: nat, disk: Content)
    requires s.loops != [] && s.given != [] && s.watcher.Running?
    requires s.loops[0] == Step(Served(n), Order(n == 0))
    ensures Possible(s, Serve(n, disk))
    ensures After(s, Serve(n, disk)) == Perform(s, 0, n == 0, QUIET, disk, true).(loops := s.loops[0 := Served(n + 1)])
  {
    var l1, l2, l3 := ServeOne(n);
    hide Step, Enabled;
    var m1, m2 := Work(0, Receive, disk, true), Work(0, Begin([n], 66), disk, true);
    var m3, m4 := Work(0, Drain([QUIET]), disk, true), Work(0, End, disk, true);
    var s1 := s.(loops := s.loops[0 := l1]);
    var s2 := s.(loops := s.loops[0 := l2]);
    var s3 := Perform(s2, 0, n == 0, QUIET, disk, true).(loops := s.loops[0 := l3]);
    var s4 := s3.(loops := s.loops[0 := Served(n + 1)]);
    assert CanMove(s, m1) && Next(s, m1) == s1;
    assert CanMove(s1, m2) && Next(s1, m2) == s2;
    assert CanMove(s2, m3) && Next(s2, m3) == s3;
    assert CanMove(s3, m4) && Next(s3, m4) == s4;
    hide Next, CanMove, Perform;
    Chain(s3, m4, []);
    Chain(s2, m3, [m4]);
    Chain(s1, m2, [m3, m4]);
    Chain(s, m1, [m2, m3, m4]);
    assert Serve(n, disk) == [m1] + [m2, m3, m4];
  }

  /**
   A runtime created after the watcher has sent the first runtime back is passed over: the round commits after
   visiting runtime 0 twice, and runtime 1, which is in the ring, has been given nothing.
   */
  lemma LateRuntimeIsPassedOver() returns (ms: seq<Move>)
    ensures Possible(Boot(map[]), ms)
    ensures var t := After(Boot(map[]), ms);
            && t.ring == [1, 0] && t.watcher == Resting
            && t.cache == map["m" := Module(false, "new")]
            && t.given == [map["m" := "new"], map[]]
  {
    hide Next, CanMove, Step, Enabled, Possible, After, Serve, Served;
    var opening := [Join, Notice(false, "m", "new"), Take, PutBack, Join, Post];
    var middle := [Answer, Take, PutBack, Post];
    var s1 := LateOpening(opening);
    var s2 := LateServe(s1, 0);
    Append(Boot(map[]), opening, Serve(0, "new"));
    assert [] + [FIXED] == [FIXED] && [FIXED] + [PATCHED] == [FIXED, PATCHED];
    var s3 := LateMiddle(s2, middle);
    Append(Boot(map[]), opening + Serve(0, "new"), middle);
    var s4 := LateServe(s3, 1);
    Append(Boot(map[]), opening + Serve(0, "new") + middle, Serve(1, "new"));
    assert s4.given == [map["m" := "new"], map[]] by {
      assert map["m" := "new"]["m" := "new"] == map["m" := "new"];
    }
    LateEnding(s4);
    Append(Boot(map[]), opening + Serve(0, "new") + middle + Serve(1, "new"), [Answer]);
    ms := opening + Serve(0, "new") + middle + Serve(1, "new") + [Answer];
  }

  lemma LateServe(s: System, n: nat) returns (t: System)
    requires n < 2 && |s.loops| == 2 && |s.given| == 2 && s.watcher.Running?
    requires s.watcher.round.name == "m" && (n == 1 ==> s.watcher.round.file.content == "new")
    requires s.loops[0] == Step(Served(n), Order(n == 0))
    ensures Possible(s, Serve(n, "new")) && After(s, Serve(n, "new")) == t
    ensures var r := s.watcher.round;
            t == s.(loops := [Served(n + 1), s.loops[1]], given := [s.given[0]["m" := "new"], s.given[1]],
                    watcher := Running(if n == 0 then r.(file := r.file.(content := "new"), heard := r.heard + [FIXED])
                                       else r.(heard := r.heard + [PATCHED])))
  {
    ServeMoves(s, n, "new");
    LatePerform(s, n == 0);
    hide Step, Enabled, Next, CanMove, Possible, After, Serve, Served, Perform;
    t := After(s, Serve(n, "new"));
    assert s.loops[0 := Served(n + 1)] == [Served(n + 1), s.loops[1]];
  }

  lemma LatePerform(s: System, first: bool)
    requires |s.given| == 2 && s.watcher.Running?
    requires s.watcher.round.name == "m" && (!first ==> s.watcher.round.file.content == "new")
    ensures var r := s.watcher.round;
            Perform(s, 0, first, QUIET, "new", true) ==
            s.(given := [s.given[0]["m" := "new"], s.given[1]],
               watcher := Running(if first then r.(file := r.file.(content := "new"), heard := r.heard + [FIXED])
                                  else r.(heard := r.heard + [PATCHED])))
  {
    assert s.given[0 := s.given[0]["m" := "new"]] == [s.given[0]["m" := "new"], s.given[1]];
  }

  /** The round of the example as it begins, with one runtime in the ring. */
  const FIRST := Round("m", "new", Module(false, "new"), 0, Choosing, [0], [], [], [], [], [map[]])

  lemma LateOpening(ms: seq<Move>) returns (t: System)
    requires ms == [Join, Notice(false, "m", "new"), Take, PutBack, Join, Post]
    ensures Possible(Boot(map[]), ms) && After(Boot(map[]), ms) == t
    ensures t == System([Step(Served(0), Order(true)), START], [map[], map[]], [0, 1],
                        Running(FIRST.(stage := Waiting(0, 0), popped := [0], late := [1])), map[])
  {
    hide Step, Enabled;
    assert !Marked("new") by { assert DISABLE_MARKER[0] == '-'; }
    var s1 := System([START], [map[]], [0], Resting, map[]);
    var s2 := s1.(watcher := Running(FIRST));
    assert CanMove(Boot(map[]), Join) && Next(Boot(map[]), Join) == s1;
    assert CanMove(s1, ms[1]) && Next(s1, ms[1]) == s2;
    hide Next, CanMove;
    t := LateRound(s2);
    Chain(s1, ms[1], [Take, PutBack, Join, Post]);
    Chain(Boot(map[]), Join, [ms[1], Take, PutBack, Join, Post]);
    assert ms == [Join] + [ms[1], Take, PutBack, Join, Post];
  }

  lemma LateRound(s: System) returns (t: System)
    requires s == System([START], [map[]], [0], Running(FIRST), map[])
    ensures Possible(s, [Take, PutBack, Join, Post]) && After(s, [Take, PutBack, Join, Post]) == t
    ensures t == System([Step(Served(0), Order(true)), START], [map[], map[]], [0, 1],
                        Running(FIRST.(stage := Waiting(0, 0), popped := [0], late := [1])), map[])
  {
    hide Step, Enabled;
    var s3 := s.(ring := [], watcher := Running(FIRST.(stage := Holding(0), popped := [0])));
    var s4 := s.(watcher := Running(FIRST.(stage := Sending(0), popped := [0])));
    assert FIRST.popped + [0] == [0] && s.ring[1..] == [] && s3.ring + [0] == s4.ring;
    assert CanMove(s, Take) && Next(s, Take) == s3;
    assert CanMove(s3, PutBack) && Next(s3, PutBack) == s4;
    hide Next, CanMove;
    t := LateJoin(s4);
    Chain(s3, PutBack, [Join, Post]);
    Chain(s, Take, [PutBack, Join, Post]);
    assert [Take, PutBack, Join, Post] == [Take] + [PutBack, Join, Post];
    assert [PutBack, Join, Post] == [PutBack] + [Join, Post];
  }

  lemma LateJoin(s: System) returns (t: System)
    requires s == System([START], [map[]], [0], Running(FIRST.(stage := Sending(0), popped := [0])), map[])
    ensures Possible(s, [Join, Post]) && After(s, [Join, Post]) == t
    ensures t == System([Step(Served(0), Order(true)), START], [map[], map[]], [0, 1],
                        Running(FIRST.(stage := Waiting(0, 0), popped := [0], late := [1])), map[])
  {
    hide Step;
    var r := FIRST.(stage := Sending(0), popped := [0], late := [1]);
    var u := System([START, START], [map[], map[]], [0, 1], Running(r), map[]);
    assert s.loops + [START] == u.loops && s.given + [map[]] == u.given && s.ring + [1] == u.ring;
    assert s.watcher.round.late + [1] == [1];
    assert CanMove(s, Join) && Next(s, Join) == u;
    assert Served(0) == START;
    assert u.loops[0 := Step(START, Order(true))] == [Step(Served(0), Order(true)), START];
    t := Next(u, Post);
    hide Next, CanMove;
    Chain(u, Post, []);
    Chain(s, Join, [Post]);
    assert [Join, Post] == [Join] + [Post];
  }

  lemma LateMiddle(s: System, ms: seq<Move>) returns (t: System)
    requires ms == [Answer, Take, PutBack, Post]
    requires s == System([Served(1), START], [map["m" := "new"], map[]], [0, 1],
                         Running(FIRST.(stage := Waiting(0, 0), popped := [0], late := [1], heard := [FIXED])),
                         map[])
    ensures Possible(s, ms) && After(s, ms) == t
    ensures t == s.(loops := [Step(Served(1), Order(false)), START], ring := [1, 0],
                    watcher := Running(s.watcher.round.(completes := 1, stage := Waiting(0, 1), popped := [0, 0])))
  {
    hide Step, Enabled;
    var r := s.watcher.round.(completes := 1);
    var s1 := s.(watcher := Running(r.(stage := Choosing)));
    var s2 := s.(ring := [1], watcher := Running(r.(stage := Holding(0), popped := [0, 0])));
    var s3 := s.(ring := [1, 0], watcher := Running(r.(stage := Sending(0), popped := [0, 0])));
    assert [0] + [0] == [0, 0] && [1] + [0] == [1, 0] && [0, 1][1..] == [1];
    assert CanMove(s, Answer) && Next(s, Answer) == s1;
    assert CanMove(s1, Take) && Next(s1, Take) == s2;
    assert CanMove(s2, PutBack) && Next(s2, PutBack) == s3;
    t := Next(s3, Post);
    hide Next, CanMove;
    Chain(s3, Post, []);
    Chain(s2, PutBack, [Post]);
    Chain(s1, Take, [PutBack, Post]);
    Chain(s, Answer, [Take, PutBack, Post]);
    assert ms == [Answer] + [Take, PutBack, Post];
  }

  lemma LateEnding(s: System)
    requires s == System([Served(2), START], [map["m" := "new"], map[]], [1, 0],
                         Running(FIRST.(completes := 1, stage := Waiting(0, 1), popped := [0, 0], late := [1],
                                        heard := [FIXED, PATCHED])),
                         map[])
    ensures Possible(s, [Answer])
    ensures After(s, [Answer]) == s.(watcher := Resting, cache := map["m" := Module(false, "new")])
  {
    hide Step, Enabled;
    assert Next(s, Answer) == s.(watcher := Resting, cache := map["m" := Module(false, "new")]);
    hide Next, CanMove;
    Chain(s, Answer, []);
    assert [Answer] == [Answer] + [];
  }

  // ---------------------------------------------------------------- the disable marker

  lemma MoveKeepsFlag(s: System, m: Move, name: Name)
    requires CanMove(s, m) && name in s.cache
    ensures name in Next(s, m).cache && Next(s, m).cache[name].hotfixDisabled == s.cache[name].hotfixDisabled
  {
    hide Step, Enabled;
    if m.Work? {
      WorkShape(s, m);
    }
  }

  /** Once a module is known its disable flag never changes, whatever its files say later. */
  lemma {:induction false} DisableFlagIsForever(s: System, ms: seq<Move>, name: Name)
    requires Possible(s, ms) && name in s.cache
    ensures name in After(s, ms).cache
    ensures After(s, ms).cache[name].hotfixDisabled == s.cache[name].hotfixDisabled
    decreases |ms|
  {
    hide Next, CanMove;
    if ms != [] {
      MoveKeepsFlag(s, ms[0], name);
      DisableFlagIsForever(Next(s, ms[0]), ms[1..], name);
    }
  }

  /** No round is reloading this module. */
  predicate NotReloading(s: System, name: Name) {
    s.watcher.Running? ==> s.watcher.round.name != name
  }

  lemma WriteSparesDisabled(s: System, m: Move, name: Name)
    requires CanMove(s, m) && (m.Notice? ==> m.write)
    requires name in s.cache && s.cache[name].hotfixDisabled && NotReloading(s, name)
    ensures name in Next(s, m).cache && Next(s, m).cache[name] == s.cache[name] && NotReloading(Next(s, m), name)
  {
    hide Step, Enabled;
    if m.Work? {
      WorkShape(s, m);
    }
  }

  /** Write events alone never replace a module that was first loaded with the disable marker. */
  lemma {:induction false} WritesSpareDisabled(s: System, ms: seq<Move>, name: Name)
    requires Possible(s, ms) && forall m <- ms :: m.Notice? ==> m.write
    requires name in s.cache && s.cache[name].hotfixDisabled && NotReloading(s, name)
    ensures name in After(s, ms).cache && After(s, ms).cache[name] == s.cache[name]
    decreases |ms|
  {
    hide Next, CanMove;
    if ms != [] {
      WriteSparesDisabled(s, ms[0], name);
      WritesSpareDisabled(Next(s, ms[0]), ms[1..], name);
    }
  }
}
