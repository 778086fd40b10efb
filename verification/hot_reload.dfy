/**
 The hot-reload protocol of scripts.go: a file watcher rotates a ring of runtimes, sends a hotfix event to the
 first and patch events to the rest, waits for each answer, and commits the module to the shared cache when all
 have succeeded.  Each runtime is a full event loop, and every interleaving of loops, watcher and newly created
 runtimes is a sequence of `Move`s.
 */
module HotReload {
  import opened Framing
  import opened EventLoop

  type RuntimeId = nat
  type Name = string
  type Content = string

  /** No element twice. */
  predicate Distinct<T(==)>(xs: seq<T>) {
    forall i, j :: 0 <= i < j < |xs| ==> xs[i] != xs[j]
  }

  /** localFileCache, as far as reloading needs it. */
  datatype Module = Module(hotfixDisabled: bool, content: Content)

  /** Where the watcher is in its loop over the ring. */
  datatype Stage =
    | Choosing                                 // select on sm.runtimes
    | Holding(r: RuntimeId)                    // r taken, not yet sent back
    | Sending(r: RuntimeId)                    // r at the tail again, event not yet posted
    | Waiting(r: RuntimeId, id: EventId)       // <-result

  /** Runtime `i` performed a reload event: how its call ended, what was on disk, and whether the content loaded. */
  datatype Hearing = Hearing(i: RuntimeId, hotfix: bool, out: Outcome, disk: Content, loaded: bool)

  /**
   One round.  `file`, `completes` and `stage` are the watcher's variables; the rest is history that only the
   theorems read: what the watcher found in the file, the ring at the start, the runtimes taken so far, those created
   before and after the first was sent back, what runtimes did, and what each had been given before.
   */
  datatype Round = Round(name: Name, noticed: Content, file: Module, completes: nat, stage: Stage,
                         start: seq<RuntimeId>, popped: seq<RuntimeId>, early: seq<RuntimeId>, late: seq<RuntimeId>,
                         heard: seq<Hearing>, before: seq<map<Name, Content>>)

  datatype Watcher = Resting | Running(round: Round)

  /** `given[i]` is what reload events have installed in runtime `i`'s VM. */
  datatype System = System(loops: seq<Loop>, given: seq<map<Name, Content>>, ring: seq<RuntimeId>,
                           watcher: Watcher, cache: map<Name, Module>)

  datatype Move =
    | Join                                                             // NewRuntime: scripts.runtimes <- r
    | Work(i: RuntimeId, l: Label, disk: Content, loaded: bool)        // runtime i takes a step
    | Notice(write: bool, name: Name, content: Content)                // a Write or Create event of a readable file
    | Take                                                             // r := <-sm.runtimes
    | PutBack                                                          // sm.runtimes <- r
    | Post                                                             // r.EventQueue <- e
    | Answer                                                           // err := <-result

  const DISABLE_MARKER := "---@disable-hotfix"

  /** strings.HasPrefix(content, luaDisableHotfixMarker) */
  predicate Marked(content: Content) {
    DISABLE_MARKER <= content
  }

  /** The disable flag of a known module is preserved. */
  function Inherited(cache: map<Name, Module>, name: Name, m: Module): Module {
    if name in cache then m.(hotfixDisabled := cache[name].hotfixDisabled) else m
  }

  /** localScriptModule.add */
  function Add(cache: map<Name, Module>, name: Name, m: Module): map<Name, Module> {
    cache[name := Inherited(cache, name, m)]
  }

  /** Step `l` of this loop is the Update that performs reload event `id`. */
  predicate Performs(s: Loop, l: Label, id: EventId)
    requires Enabled(s, l)
  {
    l.Drain? && s.queue[0] == id && s.heap.events[id].body.Reload? && s.heap.events[id].body.phase == Initialize
  }

  predicate CanMove(s: System, m: Move) {
    match m
    case Join => true
    case Work(i, l, _, loaded) =>
      && i < |s.loops| && i < |s.given| && Enabled(s.loops[i], l) && !l.Order?
      && (l.Drain? && l.outs != [] && (l.outs[0].called || !l.outs[0].ret.Raised?) ==> loaded)
    case Notice(_, _, _) => s.watcher.Resting?
    case Take => s.watcher.Running? && s.watcher.round.stage.Choosing? && s.ring != []
    case PutBack => s.watcher.Running? && s.watcher.round.stage.Holding?
    case Post => s.watcher.Running? && s.watcher.round.stage.Sending? && s.watcher.round.stage.r < |s.loops|
    case Answer =>
      && s.watcher.Running? && s.watcher.round.stage.Waiting?
      && var w := s.watcher.round.stage;
      && w.r < |s.loops| && w.id < |s.loops[w.r].heap.events|
      && var e := s.loops[w.r].heap.events[w.id].body;
      && e.Reload? && e.answer.Some?
  }

  /** What performing a reload event installs: hotfix reads the file, patch uses the module's content. */
  function Perform(s: System, i: RuntimeId, hotfix: bool, out: Outcome, disk: Content, loaded: bool): System
    requires i < |s.given|
  {
    if !s.watcher.Running? then s
    else
      var r := s.watcher.round;
      var heard := r.heard + [Hearing(i, hotfix, out, disk, loaded)];
      if hotfix && Succeeds(hotfix, out) then
        s.(given := s.given[i := s.given[i][r.name := disk]],
           watcher := Running(r.(file := r.file.(content := disk), heard := heard)))
      else if !hotfix && loaded then
        s.(given := s.given[i := s.given[i][r.name := r.file.content]], watcher := Running(r.(heard := heard)))
      else
        s.(watcher := Running(r.(heard := heard)))
  }

  function WorkMove(s: System, i: RuntimeId, l: Label, disk: Content, loaded: bool): System
    requires CanMove(s, Work(i, l, disk, loaded))
  {
    var stepped := s.(loops := s.loops[i := Step(s.loops[i], l)]);
    if l.Drain? && Performs(s.loops[i], l, s.loops[i].queue[0]) then
      Perform(stepped, i, s.loops[i].heap.events[s.loops[i].queue[0]].body.hotfix, l.outs[0], disk, loaded)
    else
      stepped
  }

  function AnswerMove(s: System): System
    requires CanMove(s, Answer)
  {
    var r := s.watcher.round;
    var err := !s.loops[r.stage.r].heap.events[r.stage.id].body.answer.value;
    if err then
      s.(watcher := Resting)
    else if r.completes + 1 < |s.ring| then
      s.(watcher := Running(r.(completes := r.completes + 1, stage := Choosing)))
    else
      s.(watcher := Resting, cache := Add(s.cache, r.name, r.file))
  }

  function Next(s: System, m: Move): System
    requires CanMove(s, m)
  {
    match m
    case Join =>
      var i := |s.loops|;
      var w := match s.watcher {
        case Resting => Resting
        case Running(r) =>
          if r.popped == [] || (r.stage.Holding? && |r.popped| == 1) then
            Running(r.(early := r.early + [i]))
          else
            Running(r.(late := r.late + [i]))
      };
      s.(loops := s.loops + [START], given := s.given + [map[]], ring := s.ring + [i], watcher := w)
    case Work(i, l, disk, loaded) => WorkMove(s, i, l, disk, loaded)
    case Notice(write, name, content) =>
      if write && name in s.cache && s.cache[name].hotfixDisabled then
        s
      else
        s.(watcher := Running(Round(name, content, Module(Marked(content), content), 0, Choosing,
                                    s.ring, [], [], [], [], s.given)))
    case Take =>
      var r := s.watcher.round;
      s.(ring := s.ring[1..],
         watcher := Running(r.(stage := Holding(s.ring[0]), popped := r.popped + [s.ring[0]])))
    case PutBack =>
      var r := s.watcher.round;
      s.(ring := s.ring + [r.stage.r], watcher := Running(r.(stage := Sending(r.stage.r))))
    case Post =>
      var r := s.watcher.round;
      var i := r.stage.r;
      s.(loops := s.loops[i := Step(s.loops[i], Order(r.completes == 0))],
         watcher := Running(r.(stage := Waiting(i, |s.loops[i].heap.events|))))
    case Answer => AnswerMove(s)
  }

  /** The cache holds what OpenPackage has scanned before the watcher starts. */
  function Boot(cache: map<Name, Module>): System {
    System([], [], [], Resting, cache)
  }

  predicate Possible(s: System, ms: seq<Move>)
    decreases |ms|
  {
    ms != [] ==> CanMove(s, ms[0]) && Possible(Next(s, ms[0]), ms[1..])
  }

  function After(s: System, ms: seq<Move>): System
    requires Possible(s, ms)
    decreases |ms|
  {
    if ms == [] then s else After(Next(s, ms[0]), ms[1..])
  }
}
