/**
 The script module of scripts.go on its fields: the registry of module names and files, and the watcher's loop
 over the ring of runtimes, one round at a time.  `HotReload` has the same loop as steps among those of the
 runtimes; here it is the loop itself, and what the runtimes answer is arbitrary.
 */
module ScriptModule {
  import opened Framing
  import HotReload

  type Name = HotReload.Name
  type Content = HotReload.Content
  type RuntimeId = HotReload.RuntimeId

  /** localFileCache */
  class FileCache {
    const name: Name
    var hotfixDisabled: bool
    var content: Content

    constructor (name: Name, content: Content)
      ensures this.name == name && this.content == content && hotfixDisabled == HotReload.Marked(content)
    {
      this.name, this.content, hotfixDisabled := name, content, HotReload.Marked(content);
    }

    function View(): HotReload.Module
      reads this
    {
      HotReload.Module(hotfixDisabled, content)
    }

    /** Reads the file again and runs it; the content is replaced only if both succeed. */
    method Hotfix(disk: Content, runs: bool) returns (ok: bool)
      modifies this`content
      ensures ok == runs && content == if ok then disk else old(content)
    {
      if !runs {
        return false;
      }
      content := disk;
      ok := true;
    }
  }

  // ---------------------------------------------------------------- ModuleNames

  function Dots(name: Name): nat {
    if name == "" then 0 else (if name[0] == '.' then 1 else 0) + Dots(name[1..])
  }

  function HasSuffix(name: Name, suffix: string): bool {
    |name| >= |suffix| && name[|name| - |suffix|..] == suffix
  }

  function Less(a: seq<Name>, i: nat, j: nat): bool
    requires i < |a| && j < |a|
  {
    var init := HasSuffix(a[i], "init");
    if init && HasSuffix(a[j], "init") then Dots(a[i]) < Dots(a[j])
    else if init then true
    else Dots(a[i]) < Dots(a[j])
  }

  function Swapped(a: seq<Name>, i: nat, j: nat): (b: seq<Name>)
    requires i < |a| && j < |a|
    ensures |b| == |a| && multiset(b) == multiset(a)
  {
    a[i := a[j]][j := a[i]]
  }

  lemma ReorderedIsDistinct(a: seq<Name>, b: seq<Name>)
    requires HotReload.Distinct(a) && multiset(a) == multiset(b)
    ensures HotReload.Distinct(b) && (forall x :: x in a <==> x in b)
  {
    forall i, j | 0 <= i < j < |b|
      ensures b[i] != b[j]
    {
      DistinctBag(a, b[i]);
      if b[i] == b[j] {
        TwiceInBag(b, i, j);
      }
    }
    forall x
      ensures x in a <==> x in b
    {
      assert x in a <==> x in multiset(a);
      assert x in b <==> x in multiset(b);
    }
  }

  lemma {:induction false} DistinctBag(a: seq<Name>, x: Name)
    requires HotReload.Distinct(a)
    ensures multiset(a)[x] <= 1
  {
    if a != [] {
      DistinctBag(a[1..], x);
      assert a == [a[0]] + a[1..];
      if a[0] == x {
        assert x !in a[1..];
        assert x !in multiset(a[1..]);
      }
    }
  }

  lemma TwiceInBag(a: seq<Name>, i: nat, j: nat)
    requires i < j < |a| && a[i] == a[j]
    ensures multiset(a)[a[i]] >= 2
  {
    assert a == a[..i] + [a[i]] + a[i + 1..j] + [a[j]] + a[j + 1..];
  }

  // ---------------------------------------------------------------- the ring

  /**
   What a round has made of the ring: `visited` have been taken from the front, `pushed` put at the end, of those
   `joined` are new, and `held` are taken but not yet sent back.
   */
  ghost predicate Turned(start: seq<RuntimeId>, ring: seq<RuntimeId>, visited: seq<RuntimeId>, joined: seq<RuntimeId>,
                         pushed: seq<RuntimeId>, held: seq<RuntimeId>) {
    && visited + ring == start + pushed
    && |pushed| + |held| == |visited| + |joined|
    && multiset(pushed + held) == multiset(visited + joined)
    && (joined == [] ==> pushed + held == visited && |visited| <= |start|)
  }

  lemma TurnedJoin(start: seq<RuntimeId>, ring: seq<RuntimeId>, visited: seq<RuntimeId>, joined: seq<RuntimeId>,
                   pushed: seq<RuntimeId>, held: seq<RuntimeId>, more: seq<RuntimeId>)
    requires Turned(start, ring, visited, joined, pushed, held)
    ensures Turned(start, ring + more, visited, joined + more, pushed + more, held)
  {
    assert visited + (ring + more) == (visited + ring) + more == start + (pushed + more);
    assert multiset(pushed + more + held) == multiset(pushed + held) + multiset(more);
    assert visited + (joined + more) == (visited + joined) + more;
    if more == [] {
      assert pushed + more == pushed;
    }
  }

  lemma TurnedTake(start: seq<RuntimeId>, ring: seq<RuntimeId>, visited: seq<RuntimeId>, joined: seq<RuntimeId>,
                   pushed: seq<RuntimeId>)
    requires Turned(start, ring, visited, joined, pushed, []) && ring != [] && (visited != [] ==> |visited| < |ring|)
    ensures Turned(start, ring[1..], visited + [ring[0]], joined, pushed, [ring[0]])
  {
    var r := [ring[0]];
    assert ring == r + ring[1..];
    assert (visited + r) + ring[1..] == visited + ring;
    assert pushed + [] == pushed;
    assert multiset(visited + r + joined) == multiset(visited + joined) + multiset(r);
    assert |visited| + |ring| == |start| + |pushed|;
  }

  lemma TurnedPut(start: seq<RuntimeId>, ring: seq<RuntimeId>, visited: seq<RuntimeId>, joined: seq<RuntimeId>,
                  pushed: seq<RuntimeId>, r: RuntimeId)
    requires Turned(start, ring, visited, joined, pushed, [r])
    ensures Turned(start, ring + [r], visited, joined, pushed + [r], [])
  {
    assert visited + (ring + [r]) == (visited + ring) + [r] == start + (pushed + [r]);
    assert pushed + [r] + [] == pushed + [r];
  }

  lemma BagCancels(v: multiset<RuntimeId>, r: multiset<RuntimeId>, s: multiset<RuntimeId>, j: multiset<RuntimeId>,
                   p: multiset<RuntimeId>)
    requires v + r == s + p && p == v + j
    ensures r == s + j
  {
    forall x
      ensures r[x] == (s + j)[x]
    {
      assert (v + r)[x] == (s + p)[x];
    }
  }

  /** What that means for the ring and for those visited, when none is held. */
  lemma TurnedMeans(start: seq<RuntimeId>, ring: seq<RuntimeId>, visited: seq<RuntimeId>, joined: seq<RuntimeId>,
                    pushed: seq<RuntimeId>)
    requires Turned(start, ring, visited, joined, pushed, [])
    ensures |ring| == |start| + |joined| && multiset(ring) == multiset(start) + multiset(joined)
    ensures |visited| >= |start| ==> start <= visited
    ensures joined == [] ==>
              |visited| <= |start| && visited == start[..|visited|] && ring == start[|visited|..] + visited
  {
    assert pushed + [] == pushed;
    assert multiset(visited + ring) == multiset(start + pushed);
    assert multiset(pushed) == multiset(visited) + multiset(joined);
    assert multiset(visited) + multiset(ring) == multiset(start) + multiset(pushed);
    BagCancels(multiset(visited), multiset(ring), multiset(start), multiset(joined), multiset(pushed));
    var all := visited + ring;
    assert all[..|visited|] == visited && all[|visited|..] == ring;
    if |visited| >= |start| {
      assert all[..|start|] == start && visited[..|start|] == all[..|start|];
    }
    if joined == [] {
      assert all == start + visited;
      assert all[..|visited|] == start[..|visited|];
      assert all[|visited|..] == start[|visited|..] + visited;
    }
  }

  /** How a round ends, or that it has not ended yet. */
  datatype RoundEnd = Committed | Discarded | Unfinished

  /** Each runtime visited has answered; the answers are successes, but for the last of a round that is discarded. */
  predicate Answered(end: RoundEnd, visited: seq<RuntimeId>, answers: seq<bool>) {
    && |answers| == |visited|
    && (forall i :: 0 <= i < |answers| - 1 ==> answers[i])
    && (answers != [] ==> answers[|answers| - 1] == (end != Discarded))
    && (end == Discarded ==> answers != [])
  }

  lemma OneMoreAnswer(visited: seq<RuntimeId>, answers: seq<bool>, end: RoundEnd, seen: seq<RuntimeId>, ok: bool)
    requires Answered(Unfinished, visited, answers) && |seen| == |visited| + 1 && (end == Discarded <==> !ok)
    ensures Answered(end, seen, answers + [ok])
  {
  }

  // ---------------------------------------------------------------- localScriptModule

  class LocalScriptModule {
    var names: seq<Name>
    var modules: map<Name, FileCache>
    var runtimes: seq<RuntimeId>       // the channel: taken at the front, sent back at the end

    ghost var cache: map<Name, HotReload.Module>

    /** The names are the keys of the modules, each once, and `cache` is what the files hold. */
    ghost predicate Valid()
      reads this, modules.Values
    {
      && HotReload.Distinct(names)
      && (forall name :: name in names <==> name in modules)
      && cache.Keys == modules.Keys
      && (forall name <- modules :: modules[name].name == name && modules[name].View() == cache[name])
    }

    constructor ()
      ensures Valid() && cache == map[] && runtimes == []
    {
      names, modules, runtimes, cache := [], map[], [], map[];
    }

    /** sort.Sort(sm.names): only that the names stay the same is promised, as Less is not an order. */
    method SortNames()
      modifies this`names
      ensures multiset(names) == multiset(old(names))
    {
      var i := 1;
      while i < |names|
        decreases |old(names)| - i
        invariant 1 <= i && |names| == |old(names)| && multiset(names) == multiset(old(names))
      {
        var j := i;
        while j > 0 && Less(names, j, j - 1)
          invariant 0 <= j <= i < |names| == |old(names)| && multiset(names) == multiset(old(names))
        {
          names := Swapped(names, j, j - 1);
          j := j - 1;
        }
        i := i + 1;
      }
    }

    method AddName(name: Name)
      requires HotReload.Distinct(names) && name !in names
      modifies this`names
      ensures HotReload.Distinct(names) && forall other :: other in names <==> other in old(names) || other == name
    {
      names := names + [name];
      ghost var grown := names;
      assert HotReload.Distinct(grown);
      SortNames();
      ReorderedIsDistinct(grown, names);
    }

    /** What add does before it stores the file: a new name is put among the names, a known one passes its flag on. */
    method Enrol(m: FileCache)
      requires Valid() && m !in modules.Values
      modifies this`names, m`hotfixDisabled
      ensures HotReload.Distinct(names) && forall other :: other in names <==> other in modules || other == m.name
      ensures m.View() == HotReload.Inherited(cache, m.name, old(m.View()))
    {
      if m.name in modules {
        m.hotfixDisabled := modules[m.name].hotfixDisabled;
      } else {
        AddName(m.name);
      }
    }

    /** A new file takes the place of the one of its name, and its disable flag. */
    method Add(m: FileCache)
      requires Valid() && m !in modules.Values
      modifies this, m
      ensures Valid() && modules == old(modules)[m.name := m] && runtimes == old(runtimes)
      ensures cache == HotReload.Add(old(cache), m.name, old(m.View())) && m.content == old(m.content)
    {
      hide HotReload.Distinct, HotReload.Inherited;
      ghost var file := m.View();
      Enrol(m);
      modules := modules[m.name := m];
      cache := HotReload.Add(cache, m.name, file);
    }

    method Get(name: Name) returns (m: FileCache?)
      requires Valid()
      ensures m != null <==> name in names
      ensures m != null ==> m in modules.Values && m.name == name && m.View() == cache[name]
    {
      m := if name in modules then modules[name] else null;
    }

    /** NewRuntime may run at any time: scripts.runtimes <- r. */
    method Joins() returns (ghost more: seq<RuntimeId>)
      modifies this`runtimes
      ensures runtimes == old(runtimes) + more
    {
      var joining: seq<RuntimeId> := *;
      runtimes := runtimes + joining;
      more := joining;
    }

    /** A reload event is sent to a runtime, which answers in any way; the first one reads the file. */
    method Ask(m: FileCache, first: bool) returns (ok: bool, ghost disk: Content)
      modifies m`content
      ensures m.content == if first && ok then disk else old(m.content)
    {
      ok := *;
      var onDisk: Content := *;
      if first {
        ok := m.Hotfix(onDisk, ok);
      }
      disk := onDisk;
    }

    /** A registration at any time, as part of a round. */
    method JoinRound(ghost start: seq<RuntimeId>, ghost visited: seq<RuntimeId>, ghost joined: seq<RuntimeId>,
                     ghost pushed: seq<RuntimeId>, ghost held: seq<RuntimeId>)
        returns (ghost newer: seq<RuntimeId>, ghost longer: seq<RuntimeId>)
      requires Turned(start, runtimes, visited, joined, pushed, held)
      modifies this`runtimes
      ensures Turned(start, runtimes, visited, newer, longer, held)
      ensures |runtimes| >= |old(runtimes)| && (held == [] ==> |runtimes| == |start| + |newer|)
    {
      ghost var ring := runtimes;
      ghost var more := Joins();
      TurnedJoin(start, ring, visited, joined, pushed, held, more);
      newer, longer := joined + more, pushed + more;
    }

    /** r := <-sm.runtimes; sm.runtimes <- r */
    method Rotate(ghost start: seq<RuntimeId>, ghost visited: seq<RuntimeId>, ghost joined: seq<RuntimeId>,
                  ghost pushed: seq<RuntimeId>)
        returns (ghost seen: seq<RuntimeId>, ghost newer: seq<RuntimeId>, ghost longer: seq<RuntimeId>)
      requires Turned(start, runtimes, visited, joined, pushed, []) && |runtimes| > 0
      requires visited != [] ==> |visited| < |runtimes|
      modifies this`runtimes
      ensures Turned(start, runtimes, seen, newer, longer, []) && |seen| == |visited| + 1
    {
      hide Turned;
      TurnedTake(start, runtimes, visited, joined, pushed);
      var r := runtimes[0];
      runtimes, seen := runtimes[1..], visited + [r];
      newer, longer := JoinRound(start, seen, joined, pushed, [r]);
      TurnedPut(start, runtimes, seen, newer, longer, r);
      runtimes, longer := runtimes + [r], longer + [r];
    }

    /**
     The HotfixProcess loop but for its last act, for at most `turns` turns; as many as there are runtimes in the end
     are enough.  `visited` are the runtimes taken from the ring, `joined` those created meanwhile, and `read` is what
     hotfix read.
     */
    method Spin(m: FileCache, turns: nat)
        returns (end: RoundEnd, ghost visited: seq<RuntimeId>, ghost joined: seq<RuntimeId>, ghost answers: seq<bool>,
                 ghost read: Option<Content>)
      modifies this`runtimes, m`content
      ensures |runtimes| == |old(runtimes)| + |joined|
      ensures multiset(runtimes) == multiset(old(runtimes)) + multiset(joined)
      ensures joined == [] ==>
                && |visited| <= |old(runtimes)| && visited == old(runtimes)[..|visited|]
                && runtimes == old(runtimes)[|visited|..] + visited
      ensures end == Committed ==>
                old(runtimes) <= visited && |visited| >= |runtimes| && visited != [] && read == Some(m.content)
      ensures Answered(end, visited, answers)
      ensures 0 < |old(runtimes)| && |runtimes| <= turns ==> end != Unfinished
    {
      ghost var start, pushed := runtimes, [];
      visited, joined, answers, read, end := [], [], [], None, Unfinished;
      assert Turned(start, runtimes, visited, joined, pushed, []);
      hide Turned, Answered;
      var completes, turn := 0, 0;
      while turn < turns && end == Unfinished
        invariant Turned(start, runtimes, visited, joined, pushed, [])
        invariant |runtimes| == |start| + |joined| && turn <= turns
        invariant end == Unfinished && |start| > 0 ==> |visited| == turn
        invariant end == Unfinished ==> completes == |visited| && (visited != [] ==> completes < |runtimes|)
        invariant end == Committed ==> |visited| >= |runtimes| > 0 && completes > 0
        invariant completes > 0 ==> read == Some(m.content)
        invariant Answered(end, visited, answers)
      {
        turn := turn + 1;
        joined, pushed := JoinRound(start, visited, joined, pushed, []);
        if |runtimes| > 0 {
          ghost var before := visited;
          visited, joined, pushed := Rotate(start, visited, joined, pushed);
          ghost var disk;
          var ok;
          ok, disk := Ask(m, completes == 0);
          joined, pushed := JoinRound(start, visited, joined, pushed, []);
          if ok {
            read := if completes == 0 then Some(disk) else read;
            completes := completes + 1;
            end := if completes < |runtimes| then Unfinished else Committed;
          } else {
            end := Discarded;
          }
          OneMoreAnswer(before, answers, end, visited, ok);
          answers := answers + [ok];
        }
      }
      TurnedMeans(start, runtimes, visited, joined, pushed);
    }

    /**
     A round of reloading.  In every outcome the ring keeps its runtimes and gains those created; if none was, it
     is the old ring turned by the number visited.  Only if all of them have been visited is the file stored.
     */
    method Reload(m: FileCache, turns: nat)
        returns (end: RoundEnd, ghost visited: seq<RuntimeId>, ghost joined: seq<RuntimeId>, ghost answers: seq<bool>,
                 ghost read: Option<Content>)
      requires Valid() && m !in modules.Values
      modifies this, m
      ensures Valid()
      ensures |runtimes| == |old(runtimes)| + |joined|
      ensures multiset(runtimes) == multiset(old(runtimes)) + multiset(joined)
      ensures joined == [] ==>
                && |visited| <= |old(runtimes)| && visited == old(runtimes)[..|visited|]
                && runtimes == old(runtimes)[|visited|..] + visited
      ensures end == Committed ==>
                old(runtimes) <= visited && |visited| >= |runtimes| && visited != [] && read == Some(m.content)
      ensures Answered(end, visited, answers)
      ensures 0 < |old(runtimes)| && |runtimes| <= turns ==> end != Unfinished
      ensures end == Committed ==> modules == old(modules)[m.name := m]
      ensures end == Committed ==>
                cache == HotReload.Add(old(cache), m.name, HotReload.Module(old(m.hotfixDisabled), m.content))
      ensures end != Committed ==> modules == old(modules) && cache == old(cache) && names == old(names)
    {
      hide HotReload.Distinct, HotReload.Inherited;
      end, visited, joined, answers, read := Spin(m, turns);
      if end == Committed {
        Add(m);
      }
    }

    /**
     The watcher's case for a readable file: a Write to a file known as disabled is passed over, and any other starts
     a round.
     */
    method Notice(write: bool, name: Name, content: Content, turns: nat)
        returns (reloads: bool, end: RoundEnd, ghost visited: seq<RuntimeId>, ghost joined: seq<RuntimeId>,
                 ghost answers: seq<bool>, ghost read: Option<Content>)
      requires Valid()
      modifies this
      ensures Valid() && reloads == !(write && name in old(cache) && old(cache)[name].hotfixDisabled)
      ensures !reloads ==> joined == [] && visited == [] && end == Discarded
      ensures |runtimes| == |old(runtimes)| + |joined|
      ensures multiset(runtimes) == multiset(old(runtimes)) + multiset(joined)
      ensures joined == [] ==>
                && |visited| <= |old(runtimes)| && visited == old(runtimes)[..|visited|]
                && runtimes == old(runtimes)[|visited|..] + visited
      ensures reloads ==> Answered(end, visited, answers)
      ensures reloads && 0 < |old(runtimes)| && |runtimes| <= turns ==> end != Unfinished
      ensures end == Committed ==>
                && old(runtimes) <= visited && |visited| >= |runtimes| && visited != [] && read.Some?
                && name in modules && fresh(modules[name]) && modules == old(modules)[name := modules[name]]
                && cache == HotReload.Add(old(cache), name, HotReload.Module(HotReload.Marked(content), read.value))
      ensures end != Committed ==> modules == old(modules) && cache == old(cache) && names == old(names)
    {
      if write && name in modules && modules[name].hotfixDisabled {
        return false, Discarded, [], [], [], None;
      }
      hide HotReload.Distinct, Answered, HotReload.Inherited, HotReload.Add;
      var m := new FileCache(name, content);
      end, visited, joined, answers, read := Reload(m, turns);
      reloads := true;
    }
  }
}
