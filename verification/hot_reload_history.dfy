/** What the moves of a history say about its commits, and about the disable marker. */
module HotReloadHistory {
  import opened Framing
  import opened EventLoop
  import opened LoopEnds
  import opened HotReload
  import opened HotReloadProofs

  // ---------------------------------------------------------------- what was performed

  /** In `s`, move `m` is the Update of a reload event that `h` tells of. */
  ghost predicate Happened(s: System, m: Move, h: Hearing) {
    && CanMove(s, m) && m.Work? && m.i == h.i && m.disk == h.disk && m.loaded == h.loaded
    && Performing(s, m.i, m.l) && m.l.outs == [h.out]
    && s.loops[m.i].heap.events[s.loops[m.i].queue[0]].body.hotfix == h.hotfix
  }

  /** From `s` to `t` the watcher hears nothing new, or what `m` has performed. */
  ghost predicate Hears(s: System, m: Move, t: System) {
    t.watcher.Running? ==>
      || t.watcher.round.heard == []
      || (s.watcher.Running? && t.watcher.round.heard == s.watcher.round.heard)
      || (s.watcher.Running? && exists h :: Happened(s, m, h) && t.watcher.round.heard == s.watcher.round.heard + [h])
  }

  /**
   What a runtime is given when it performs a reload event: by a hotfix, if it runs without an error, what is on disk,
   which becomes the module's content; by a patch, if the content loads, that content, whatever its call does; and
   otherwise nothing.  No other runtime is given anything, and the cache stays.
   */
  lemma PerformanceInstalls(s: System, m: Move)
    requires m.Work? && CanMove(s, m) && Performing(s, m.i, m.l) && s.watcher.Running?
    ensures |m.l.outs| == 1 && s.loops[m.i].queue != [] && s.loops[m.i].queue[0] < |s.loops[m.i].heap.events|
    ensures s.loops[m.i].heap.events[s.loops[m.i].queue[0]].body.Reload?
    ensures var hotfix := s.loops[m.i].heap.events[s.loops[m.i].queue[0]].body.hotfix;
            var out, t, r := m.l.outs[0], Next(s, m), s.watcher.round;
            var fixed := hotfix && out.called && !out.ret.Raised?;
            && t.watcher.Running? && t.cache == s.cache
            && t.watcher.round.file == r.file.(content := if fixed then m.disk else r.file.content)
            && t.given == if fixed then s.given[m.i := s.given[m.i][r.name := m.disk]]
                          else if !hotfix && m.loaded then s.given[m.i := s.given[m.i][r.name := r.file.content]]
                          else s.given
  {
    PerformingHasOne(s, m.i, m.l);
    hide Step, Enabled;
  }

  lemma PerformingHasOne(s: System, i: RuntimeId, l: Label)
    requires i < |s.loops| && Enabled(s.loops[i], l) && Performing(s, i, l)
    ensures l.Drain? && |l.outs| == 1 && l.outs == [l.outs[0]]
    ensures s.loops[i].queue != [] && s.loops[i].queue[0] < |s.loops[i].heap.events|
    ensures s.loops[i].heap.events[s.loops[i].queue[0]].body.Reload?
  {
  }

  lemma WorkHears(s: System, m: Move)
    requires m.Work? && CanMove(s, m)
    ensures Hears(s, m, Next(s, m))
  {
    if Performing(s, m.i, m.l) {
      PerformingHasOne(s, m.i, m.l);
    }
    hide Step, Enabled;
    if s.watcher.Running? && Performing(s, m.i, m.l) {
      var hotfix := s.loops[m.i].heap.events[s.loops[m.i].queue[0]].body.hotfix;
      var h := Hearing(m.i, hotfix, m.l.outs[0], m.disk, m.loaded);
      assert Happened(s, m, h);
    }
  }

  lemma MoveHears(s: System, m: Move)
    requires CanMove(s, m)
    ensures Hears(s, m, Next(s, m))
  {
    if m.Work? {
      WorkHears(s, m);
    }
    hide Step, Enabled, Happened;
  }

  lemma {:induction false} Split(s: System, a: seq<Move>, m: Move)
    requires Possible(s, a + [m])
    ensures Possible(s, a) && CanMove(After(s, a), m) && After(s, a + [m]) == Next(After(s, a), m)
    decreases |a|
  {
    hide Next, CanMove;
    if a == [] {
      assert a + [m] == [m] && [m][1..] == [];
    } else {
      assert (a + [m])[0] == a[0] && (a + [m])[1..] == a[1..] + [m];
      Split(Next(s, a[0]), a[1..], m);
    }
  }

  /** Move `k` of a history, in the state it finds, is the Update that `h` tells of. */
  ghost predicate HappenedAt(s: System, ms: seq<Move>, k: nat, h: Hearing) {
    k < |ms| && Possible(s, ms[..k]) && Happened(After(s, ms[..k]), ms[k], h)
  }

  lemma LongerHistory(s: System, front: seq<Move>, m: Move, k: nat, h: Hearing)
    requires HappenedAt(s, front, k, h)
    ensures HappenedAt(s, front + [m], k, h)
  {
    hide Happened, Possible, After;
    assert (front + [m])[..k] == front[..k];
  }

  /** Everything the watcher has heard in the round under way is a move of the history. */
  lemma {:induction false} HeardHappened(s: System, ms: seq<Move>, j: nat)
    requires Possible(s, ms) && s.watcher.Resting?
    requires After(s, ms).watcher.Running? && j < |After(s, ms).watcher.round.heard|
    ensures exists k :: HappenedAt(s, ms, k, After(s, ms).watcher.round.heard[j])
    decreases |ms|
  {
    hide Next, CanMove, Happened;
    if ms != [] {
      var front, m := ms[..|ms| - 1], ms[|ms| - 1];
      assert ms == front + [m] && ms[..|front|] == front;
      Split(s, front, m);
      var u, t := After(s, front), After(s, ms);
      hide Possible, After;
      MoveHears(u, m);
      var h := t.watcher.round.heard[j];
      if u.watcher.Running? && j < |u.watcher.round.heard| && h == u.watcher.round.heard[j] {
        HeardHappened(s, front, j);
        var k :| HappenedAt(s, front, k, h);
        LongerHistory(s, front, m, k, h);
      } else {
        assert HappenedAt(s, ms, |front|, h);
      }
    }
  }

  /**
   At every commit, in any history, each runtime that was in the ring when the round began has performed one of its
   events in a move of that history: its code was loaded and its call raised no error.
   */
  lemma CommitWithoutRaise(cache: map<Name, Module>, ms: seq<Move>, m: Move, i: nat)
    requires Possible(Boot(cache), ms) && CanMove(After(Boot(cache), ms), m)
    requires Next(After(Boot(cache), ms), m).cache != After(Boot(cache), ms).cache
    requires i < |After(Boot(cache), ms).watcher.round.start|
    ensures After(Boot(cache), ms).watcher.Running?
    ensures var r, t := After(Boot(cache), ms).watcher.round, Next(After(Boot(cache), ms), m);
            exists k, h :: HappenedAt(Boot(cache), ms, k, h) && h.i == r.start[i] && h.loaded && !h.out.ret.Raised?
                           && (h.hotfix ==> h.out.called && r.name in t.cache && h.disk == t.cache[r.name].content)
  {
    CommitMeansEveryoneHasIt(cache, ms, m);
    var s := After(Boot(cache), ms);
    var r := s.watcher.round;
    hide Next, CanMove, Possible, After, HappenedAt, HasContent;
    assert r.popped[i] == r.start[i];
    HeardHappened(Boot(cache), ms, i);
    var k :| HappenedAt(Boot(cache), ms, k, r.heard[i]);
    assert Sound(r.heard[i]) && r.heard[i].i == r.start[i];
  }

  // ---------------------------------------------------------------- the disable marker

  /** A readable file starts a round, unless it was written and is known as disabled. */
  lemma NoticeStartsRound(s: System, m: Move)
    requires CanMove(s, m) && m.Notice?
    ensures var t := Next(s, m);
            if m.write && m.name in s.cache && s.cache[m.name].hotfixDisabled then t == s
            else
              && t.watcher.Running? && t.watcher.round.name == m.name && t.watcher.round.noticed == m.content
              && t.cache == s.cache && t.ring == s.ring && t.watcher.round.start == s.ring
  {
  }

  /** In any history the flag of a module is set by what was noticed in the round that first commits it. */
  lemma FirstVersionSetsFlag(cache: map<Name, Module>, ms: seq<Move>, m: Move, name: Name)
    requires Possible(Boot(cache), ms) && CanMove(After(Boot(cache), ms), m)
    requires name !in After(Boot(cache), ms).cache && name in Next(After(Boot(cache), ms), m).cache
    ensures var s, t := After(Boot(cache), ms), Next(After(Boot(cache), ms), m);
            && s.watcher.Running? && s.watcher.round.name == name
            && (t.cache[name].hotfixDisabled <==> "---@disable-hotfix" <= s.watcher.round.noticed)
  {
    var s := After(Boot(cache), ms);
    BootInv(cache);
    HistoryKeepsInv(Boot(cache), ms);
    OnlyCommitsChangeCache(s, m);
    CommitStep(s, m);
    hide Next, CanMove, Possible, After, PoolInv, LoopsInv, AnswersInv, OrderInv;
  }

  /** So a file first loaded with the marker is never replaced by writing it. */
  lemma MarkedIsNeverReplaced(cache: map<Name, Module>, ms: seq<Move>, m: Move, name: Name, ls: seq<Move>)
    requires Possible(Boot(cache), ms) && CanMove(After(Boot(cache), ms), m)
    requires name !in After(Boot(cache), ms).cache && name in Next(After(Boot(cache), ms), m).cache
    requires After(Boot(cache), ms).watcher.Running? ==>
               "---@disable-hotfix" <= After(Boot(cache), ms).watcher.round.noticed
    requires Possible(Next(After(Boot(cache), ms), m), ls) && forall l <- ls :: l.Notice? ==> l.write
    ensures var t := Next(After(Boot(cache), ms), m);
            name in After(t, ls).cache && After(t, ls).cache[name] == t.cache[name]
  {
    var s, t := After(Boot(cache), ms), Next(After(Boot(cache), ms), m);
    FirstVersionSetsFlag(cache, ms, m, name);
    OnlyCommitsChangeCache(s, m);
    CommitStep(s, m);
    hide Next, CanMove, Possible, After;
    WritesSpareDisabled(t, ls, name);
  }

  // ---------------------------------------------------------------- what a reload event answers

  /**
   A reload event answers in the Update that performs it: failure exactly if its call raised an error, or, for a
   hotfix, was not come to; a patch that has nothing to call succeeds.  It never ends the loop.
   */
  lemma ReloadAnswers(s: Loop, outs: seq<Outcome>)
    requires Enabled(s, Drain(outs))
    requires s.heap.events[s.queue[0]].body.Reload? && s.heap.events[s.queue[0]].body.phase == Initialize
    ensures |outs| == 1
    ensures var id, t := s.queue[0], Step(s, Drain(outs));
            var hotfix := s.heap.events[id].body.hotfix;
            && id < |t.heap.events| && !t.mode.Halted?
            && t.heap.events[id].body ==
               Reload(Complete, hotfix, Some(!outs[0].ret.Raised? && (outs[0].called || !hotfix)))
  {
    RaiseHalts(s, outs);
    hide Call;
  }
}
