/**
 The conversions of luaconv/luaconv.go between Lua values and Go values.  `LuaValue` visits the entries of a table
 in an order that is not fixed, so what it may return is a relation; `Value` is a function.
 */
module LuaConv {

  /** A table is its entries; an entry that is nil is as good as absent. */
  datatype Lua =
    | LNil
    | LBool(b: bool)
    | LNumber(x: real)
    | LString(s: string)
    | LFunction(text: string)             // `text` is what String() prints
    | LTable(m: map<Lua, Lua>)
    | LObject(id: nat)                    // userdata, threads, channels

  datatype IntKind = Int | Int8 | Int16 | Int32 | Int64 | Uint | Uint8 | Uint16 | Uint32 | Uint64

  datatype Go =
    | GoNil
    | GoBool(b: bool)
    | GoString(s: string)
    | GoBytes(s: string)
    | GoFloat(x: real)
    | GoInt(n: int, kind: IntKind)
    | GoMap(m: map<string, Go>)                    // map[string]interface{}
    | GoSlice(xs: seq<Go>)                         // []interface{}
    | GoStrings(ss: seq<string>)                   // []string
    | GoStringMap(sm: map<string, string>)         // map[string]string
    | GoInt64Map(im: map<string, int>)             // map[string]int64
    | GoStringsMap(lm: map<string, seq<string>>)   // map[string][]string
    | GoTime(unix: int)
    | GoOpaque(id: nat)                            // a Lua object, or any other Go type

  /** Go's conversions between float64 and int64, and fmt.Sprint; all that is assumed: a string prints as itself. */
  datatype Env = Env(toInt: real -> int, toFloat: int -> real, sprint: Go -> string) {
    ghost predicate Sane() {
      forall s :: sprint(GoString(s)) == s
    }
  }

  // ---------------------------------------------------------------- tables

  function IntKey(i: int): Lua {
    LNumber(i as real)
  }

  /** The positive integer a key is, or 0. */
  function Index(k: Lua): nat {
    if k.LNumber? && k.x.Floor > 0 && k.x == k.x.Floor as real then k.x.Floor else 0
  }

  lemma IndexOfIntKey(i: int)
    ensures i > 0 ==> Index(IntKey(i)) == i
    ensures IntKey(i).x.Floor == i
  {
  }

  lemma IntKeyOfIndex(k: Lua)
    ensures Index(k) > 0 ==> k == IntKey(Index(k))
  {
  }

  /** The table has an entry under the integer `i`. */
  predicate HasInt(m: map<Lua, Lua>, i: int) {
    IntKey(i) in m && m[IntKey(i)] != LNil
  }

  ghost predicate IsMaxN(m: map<Lua, Lua>, n: nat) {
    (n > 0 ==> HasInt(m, n)) && forall i :: i > n ==> !HasInt(m, i)
  }

  /** LTable.MaxN: the largest positive integer key. */
  ghost function MaxN(m: map<Lua, Lua>): (n: nat)
    ensures IsMaxN(m, n)
    decreases |m|
  {
    if m == map[] then 0
    else
      var k :| k in m;
      var rest := m - {k};
      var n := MaxN(rest);
      IsMaxNWith(m, k, n);
      if m[k] != LNil && Index(k) > n then Index(k) else n
  }

  lemma IsMaxNWith(m: map<Lua, Lua>, k: Lua, n: nat)
    requires k in m && IsMaxN(m - {k}, n)
    ensures IsMaxN(m, if m[k] != LNil && Index(k) > n then Index(k) else n)
  {
    var top := if m[k] != LNil && Index(k) > n then Index(k) else n;
    IntKeyOfIndex(k);
    forall i | i > top
      ensures !HasInt(m, i)
    {
      IndexOfIntKey(i);
      assert !HasInt(m - {k}, i);
    }
    assert n > 0 ==> HasInt(m - {k}, n);
  }

  lemma MaxNIs(m: map<Lua, Lua>, n: nat)
    requires IsMaxN(m, n)
    ensures MaxN(m) == n
  {
    assert n == 0 || HasInt(m, n);
    assert MaxN(m) == 0 || HasInt(m, MaxN(m));
  }

  // ---------------------------------------------------------------- LuaValue

  /** A whole number becomes an int64, any other a float64. */
  function Number(env: Env, x: real): Go {
    if x == env.toFloat(env.toInt(x)) then GoInt(env.toInt(x), Int64) else GoFloat(x)
  }

  /** `g` is a possible result of LuaValue(lv). */
  ghost predicate Converts(env: Env, lv: Lua, g: Go)
    decreases lv, 2
  {
    match lv
    case LNil => g == GoNil
    case LBool(b) => g == GoBool(b)
    case LNumber(x) => g == Number(env, x)
    case LString(s) => g == GoString(s)
    case LFunction(text) => g == GoString(text)
    case LObject(id) => g == GoOpaque(id)
    case LTable(m) =>
      if MaxN(m) == 0 then g.GoMap? && BecomesMap(env, lv, g.m) else g.GoSlice? && BecomesSlice(env, lv, g.xs)
  }

  /** Every entry is in the map under its key's text; of entries with the same text any one may be left. */
  ghost predicate BecomesMap(env: Env, lv: Lua, gm: map<string, Go>)
    requires lv.LTable?
    decreases lv, 1
  {
    KeysKept(env, lv, gm) && TextsBacked(env, lv, gm)
  }

  ghost predicate KeysKept(env: Env, lv: Lua, gm: map<string, Go>)
    requires lv.LTable?
    decreases lv, 0
  {
    forall k :: k in lv.m && lv.m[k] != LNil ==> exists s :: s in gm && Keyed(env, k, s)
  }

  ghost predicate TextsBacked(env: Env, lv: Lua, gm: map<string, Go>)
    requires lv.LTable?
    decreases lv, 0
  {
    forall s :: s in gm ==>
      exists k :: k in lv.m && lv.m[k] != LNil && Keyed(env, k, s) && Converts(env, lv.m[k], gm[s])
  }

  ghost predicate BecomesSlice(env: Env, lv: Lua, gs: seq<Go>)
    requires lv.LTable?
    decreases lv, 1
  {
    && |gs| == MaxN(lv.m)
    && forall i :: 0 <= i < |gs| ==>
         if HasInt(lv.m, i + 1) then Converts(env, lv.m[IntKey(i + 1)], gs[i]) else gs[i] == GoNil
  }

  /** `s` is a possible text of key `k`. */
  ghost predicate Keyed(env: Env, k: Lua, s: string)
    decreases k, 3
  {
    exists gk :: Converts(env, k, gk) && env.sprint(gk) == s
  }

  // ---------------------------------------------------------------- Value

  /** A fresh table filled by RawSetString; setting nil leaves no entry. */
  function StringTable(entries: map<string, Lua>): (t: Lua)
    ensures t.LTable?
    ensures forall k <- t.m :: k.LString? && k.s in entries && entries[k.s] != LNil && t.m[k] == entries[k.s]
    ensures forall s <- entries :: entries[s] != LNil ==> LString(s) in t.m
  {
    LTable(map s | s in entries && entries[s] != LNil :: LString(s) := entries[s])
  }

  /** A fresh table filled by RawSetInt from 1 on. */
  function ArrayTable(xs: seq<Lua>): (t: Lua)
    ensures t.LTable?
  {
    LTable(map i | 0 <= i < |xs| && xs[i] != LNil :: IntKey(i + 1) := xs[i])
  }

  function AsLua(ss: seq<string>): (xs: seq<Lua>)
    ensures |xs| == |ss| && forall i :: 0 <= i < |ss| ==> xs[i] == LString(ss[i])
  {
    seq(|ss|, i requires 0 <= i < |ss| => LString(ss[i]))
  }

  function StringsTable(ss: seq<string>): Lua {
    ArrayTable(AsLua(ss))
  }

  function Texts(m: map<string, string>): map<string, Lua> {
    map s | s in m :: LString(m[s])
  }

  function Counts(env: Env, m: map<string, int>): map<string, Lua> {
    map s | s in m :: LNumber(env.toFloat(m[s]))
  }

  function ListTables(m: map<string, seq<string>>): map<string, Lua> {
    map s | s in m :: StringsTable(m[s])
  }

  function Value(env: Env, g: Go): Lua {
    match g
    case GoNil => LNil
    case GoBool(b) => LBool(b)
    case GoString(s) => LString(s)
    case GoBytes(s) => LString(s)
    case GoFloat(x) => LNumber(x)
    case GoInt(n, kind) => if kind == Int16 || kind == Uint16 then LNil else LNumber(env.toFloat(n))
    case GoMap(m) => StringTable(map s | s in m :: Value(env, m[s]))
    case GoSlice(xs) => ArrayTable(seq(|xs|, i requires 0 <= i < |xs| => Value(env, xs[i])))
    case GoStrings(ss) => StringsTable(ss)
    case GoStringMap(m) => StringTable(Texts(m))
    case GoInt64Map(m) => StringTable(Counts(env, m))
    case GoStringsMap(m) => StringTable(ListTables(m))
    case GoTime(unix) => LNumber(env.toFloat(unix))
    case GoOpaque(_) => LNil
  }

  // ---------------------------------------------------------------- what becomes of the tables that Value makes

  /** The elements without the nils at the end. */
  function Trim(xs: seq<Lua>): seq<Lua> {
    if xs == [] || xs[|xs| - 1] != LNil then xs else Trim(xs[..|xs| - 1])
  }

  lemma {:induction false} TrimCuts(xs: seq<Lua>)
    ensures |Trim(xs)| <= |xs| && Trim(xs) == xs[..|Trim(xs)|]
    ensures Trim(xs) != [] ==> xs[|Trim(xs)| - 1] != LNil
    ensures forall i :: |Trim(xs)| <= i < |xs| ==> xs[i] == LNil
    decreases |xs|
  {
    if xs != [] && xs[|xs| - 1] == LNil {
      TrimCuts(xs[..|xs| - 1]);
    }
  }

  lemma ArrayEntry(xs: seq<Lua>, i: int)
    ensures HasInt(ArrayTable(xs).m, i) <==> 1 <= i <= |xs| && xs[i - 1] != LNil
    ensures HasInt(ArrayTable(xs).m, i) ==> ArrayTable(xs).m[IntKey(i)] == xs[i - 1]
  {
    var m := ArrayTable(xs).m;
    if 1 <= i <= |xs| && xs[i - 1] != LNil {
      assert IntKey(i - 1 + 1) in m;
    }
    if IntKey(i) in m {
      var j :| 0 <= j < |xs| && xs[j] != LNil && IntKey(j + 1) == IntKey(i);
      IndexOfIntKey(i);
      IndexOfIntKey(j + 1);
    }
  }

  lemma MaxNOfArray(xs: seq<Lua>)
    ensures MaxN(ArrayTable(xs).m) == |Trim(xs)|
  {
    var m, n := ArrayTable(xs).m, |Trim(xs)|;
    TrimCuts(xs);
    ArrayEntry(xs, n);
    forall i | i > n
      ensures !HasInt(m, i)
    {
      ArrayEntry(xs, i);
    }
    MaxNIs(m, n);
  }

  lemma NoNils(xs: seq<Lua>)
    requires Trim(xs) == []
    ensures ArrayTable(xs) == LTable(map[])
  {
    TrimCuts(xs);
  }

  ghost predicate ConvertsAll(env: Env, xs: seq<Lua>, gs: seq<Go>) {
    |gs| == |xs| && forall i :: 0 <= i < |xs| ==> Converts(env, xs[i], gs[i])
  }

  lemma ConvertsNil(env: Env, g: Go)
    ensures Converts(env, LNil, g) <==> g == GoNil
  {
  }

  lemma ArrayBecomesSlice(env: Env, xs: seq<Lua>, gs: seq<Go>)
    ensures BecomesSlice(env, ArrayTable(xs), gs) <==> ConvertsAll(env, Trim(xs), gs)
  {
    MaxNOfArray(xs);
    TrimCuts(xs);
    hide Converts, ArrayTable;
    var m := ArrayTable(xs).m;
    forall i | 0 <= i < |gs| && |gs| == |Trim(xs)|
      ensures (if HasInt(m, i + 1) then Converts(env, m[IntKey(i + 1)], gs[i]) else gs[i] == GoNil)
              <==> Converts(env, Trim(xs)[i], gs[i])
    {
      ArrayEntry(xs, i + 1);
      ConvertsNil(env, gs[i]);
      assert Trim(xs)[i] == xs[i];
    }
  }

  /** A table filled from a slice becomes that slice without its trailing nils, or the empty map. */
  lemma ArrayConverts(env: Env, xs: seq<Lua>, g: Go)
    ensures Converts(env, ArrayTable(xs), g) <==>
            if Trim(xs) == [] then g == GoMap(map[]) else g.GoSlice? && ConvertsAll(env, Trim(xs), g.xs)
  {
    MaxNOfArray(xs);
    if Trim(xs) == [] {
      NoNils(xs);
    } else if g.GoSlice? {
      ArrayBecomesSlice(env, xs, g.xs);
    }
    hide BecomesSlice, ConvertsAll, Trim;
  }

  lemma MaxNOfStrings(entries: map<string, Lua>)
    ensures MaxN(StringTable(entries).m) == 0
  {
    var m := StringTable(entries).m;
    assert forall i :: !HasInt(m, i);
    MaxNIs(m, 0);
  }

  lemma KeyedByString(env: Env, s: string, t: string)
    requires env.Sane()
    ensures Keyed(env, LString(s), t) <==> s == t
  {
    assert Converts(env, LString(s), GoString(s));
  }

  /** `gm` has the keys of the entries that are not nil, with their values converted. */
  ghost predicate ConvertsMap(env: Env, entries: map<string, Lua>, gm: map<string, Go>) {
    && (forall s :: s in gm <==> s in entries && entries[s] != LNil)
    && (forall s :: s in gm ==> Converts(env, entries[s], gm[s]))
  }

  /** A table filled from a map becomes a map with the same keys, less those whose value is nil. */
  lemma StringsConvert(env: Env, entries: map<string, Lua>, g: Go)
    requires env.Sane()
    ensures Converts(env, StringTable(entries), g) <==> g.GoMap? && ConvertsMap(env, entries, g.m)
  {
    hide Converts, BecomesMap, ConvertsMap, StringTable;
    MaxNOfStrings(entries);
    TableConverts(env, StringTable(entries), g);
    if g.GoMap? {
      StringsBecomeMap(env, entries, g.m);
    }
  }

  lemma TableConverts(env: Env, t: Lua, g: Go)
    requires t.LTable? && MaxN(t.m) == 0
    ensures Converts(env, t, g) <==> g.GoMap? && BecomesMap(env, t, g.m)
  {
    hide BecomesMap, BecomesSlice, MaxN;
  }

  lemma StringsBecomeMap(env: Env, entries: map<string, Lua>, gm: map<string, Go>)
    requires env.Sane()
    ensures BecomesMap(env, StringTable(entries), gm) <==> ConvertsMap(env, entries, gm)
  {
    hide Converts, KeysKept, TextsBacked, StringTable;
    StringsBacked(env, entries, gm);
    StringsKept(env, entries, gm);
  }

  lemma StringsBacked(env: Env, entries: map<string, Lua>, gm: map<string, Go>)
    requires env.Sane()
    ensures TextsBacked(env, StringTable(entries), gm) <==>
            forall s :: s in gm ==> s in entries && entries[s] != LNil && Converts(env, entries[s], gm[s])
  {
    hide Converts, Keyed, StringTable;
    var m := StringTable(entries).m;
    if TextsBacked(env, StringTable(entries), gm) {
      forall s | s in gm
        ensures s in entries && entries[s] != LNil && Converts(env, entries[s], gm[s])
      {
        var k :| k in m && m[k] != LNil && Keyed(env, k, s) && Converts(env, m[k], gm[s]);
        KeyedByString(env, k.s, s);
      }
    }
    forall s | s in gm && s in entries && entries[s] != LNil && Converts(env, entries[s], gm[s])
      ensures exists k :: k in m && m[k] != LNil && Keyed(env, k, s) && Converts(env, m[k], gm[s])
    {
      KeyedByString(env, s, s);
      assert LString(s) in m && m[LString(s)] == entries[s];
    }
  }

  lemma StringsKept(env: Env, entries: map<string, Lua>, gm: map<string, Go>)
    requires env.Sane()
    ensures KeysKept(env, StringTable(entries), gm) <==> forall s :: s in entries && entries[s] != LNil ==> s in gm
  {
    hide Converts, Keyed, StringTable;
    var m := StringTable(entries).m;
    if KeysKept(env, StringTable(entries), gm) {
      forall s | s in entries && entries[s] != LNil
        ensures s in gm
      {
        assert LString(s) in m && m[LString(s)] == entries[s];
        var t :| t in gm && Keyed(env, LString(s), t);
        KeyedByString(env, s, t);
      }
    }
    forall k | k in m && m[k] != LNil && k.s in gm
      ensures exists s :: s in gm && Keyed(env, k, s)
    {
      KeyedByString(env, k.s, k.s);
    }
  }

  // ---------------------------------------------------------------- what LuaValue can return

  /** Go values as LuaValue makes them. */
  predicate Canonical(env: Env, g: Go) {
    match g
    case GoNil => true
    case GoBool(_) => true
    case GoString(_) => true
    case GoFloat(x) => x != env.toFloat(env.toInt(x))
    case GoInt(n, kind) => kind == Int64 && env.toInt(env.toFloat(n)) == n
    case GoMap(m) => forall s <- m :: m[s] != GoNil && Canonical(env, m[s])
    case GoSlice(xs) => xs != [] && xs[|xs| - 1] != GoNil && forall i :: 0 <= i < |xs| ==> Canonical(env, xs[i])
    case GoOpaque(_) => true
    case _ => false
  }

  lemma {:induction false} ConvertsCanonical(env: Env, lv: Lua, g: Go)
    requires Converts(env, lv, g)
    ensures Canonical(env, g) && (g == GoNil <==> lv == LNil)
  {
    if lv.LTable? {
      if g.GoMap? {
        assert TextsBacked(env, lv, g.m);
        forall s | s in g.m
          ensures g.m[s] != GoNil && Canonical(env, g.m[s])
        {
          var k :| k in lv.m && lv.m[k] != LNil && Keyed(env, k, s) && Converts(env, lv.m[k], g.m[s]);
          ConvertsCanonical(env, lv.m[k], g.m[s]);
        }
      } else {
        var n := MaxN(lv.m);
        assert HasInt(lv.m, n - 1 + 1);
        forall i | 0 <= i < |g.xs|
          ensures Canonical(env, g.xs[i]) && (HasInt(lv.m, i + 1) ==> g.xs[i] != GoNil)
        {
          if HasInt(lv.m, i + 1) {
            ConvertsCanonical(env, lv.m[IntKey(i + 1)], g.xs[i]);
          }
        }
      }
    }
  }

  // ---------------------------------------------------------------- LuaValue after Value after LuaValue

  /** No Lua object, and no Go value of a type Value does not know, anywhere in it. */
  predicate Clean(g: Go) {
    match g
    case GoMap(m) => forall s <- m :: Clean(m[s])
    case GoSlice(xs) => forall i :: 0 <= i < |xs| ==> Clean(xs[i])
    case GoOpaque(_) => false
    case _ => true
  }

  function Values(env: Env, xs: seq<Go>): seq<Lua> {
    seq(|xs|, i requires 0 <= i < |xs| => Value(env, xs[i]))
  }

  function ValueMap(env: Env, m: map<string, Go>): map<string, Lua> {
    map s | s in m :: Value(env, m[s])
  }

  lemma ValueOfNothing(env: Env, g: Go)
    requires Canonical(env, g)
    ensures Value(env, g) == LNil <==> g.GoNil? || g.GoOpaque?
  {
  }

  lemma SameSliceBack(env: Env, xs: seq<Go>, hs: seq<Go>)
    requires ConvertsAll(env, Values(env, xs), hs)
    requires forall i, y :: 0 <= i < |xs| && Converts(env, Value(env, xs[i]), y) ==> (y == xs[i] <==> Clean(xs[i]))
    ensures hs == xs <==> forall i :: 0 <= i < |xs| ==> Clean(xs[i])
  {
    hide Converts, Value, Clean;
    var vs := Values(env, xs);
    forall i | 0 <= i < |xs|
      ensures hs[i] == xs[i] <==> Clean(xs[i])
    {
      assert Converts(env, vs[i], hs[i]);
    }
  }

  /** No element is lost at the end, unless it is a Lua object. */
  lemma NothingTrimmed(env: Env, xs: seq<Go>)
    requires Canonical(env, GoSlice(xs))
    ensures xs != [] && (Clean(xs[|xs| - 1]) ==> Trim(Values(env, xs)) == Values(env, xs))
  {
    ValueOfNothing(env, xs[|xs| - 1]);
  }

  lemma SliceReturns(env: Env, xs: seq<Go>, h: Go)
    requires Canonical(env, GoSlice(xs)) && Converts(env, ArrayTable(Values(env, xs)), h)
    requires forall i, y :: 0 <= i < |xs| && Converts(env, Value(env, xs[i]), y) ==> (y == xs[i] <==> Clean(xs[i]))
    ensures h == GoSlice(xs) <==> Clean(GoSlice(xs))
  {
    hide Converts, ConvertsAll, Canonical, Value, Trim, ArrayTable;
    NothingTrimmed(env, xs);
    var vs, last := Values(env, xs), xs[|xs| - 1];
    ArrayConverts(env, vs, h);
    TrimCuts(vs);
    if Clean(last) {
      SameSliceBack(env, xs, h.xs);
    } else if h == GoSlice(xs) {
      ConvertsAllLong(env, Trim(vs), xs);
      assert Trim(vs) == vs;
      SameSliceBack(env, xs, h.xs);
    }
  }

  lemma ConvertsAllLong(env: Env, xs: seq<Lua>, gs: seq<Go>)
    requires ConvertsAll(env, xs, gs)
    ensures |gs| == |xs|
  {
  }

  lemma SameMapBack(env: Env, m: map<string, Go>, hm: map<string, Go>)
    requires ConvertsMap(env, ValueMap(env, m), hm)
    requires forall s :: s in m ==> (Value(env, m[s]) == LNil <==> m[s].GoOpaque?)
    requires forall s, y :: s in m && Converts(env, Value(env, m[s]), y) ==> (y == m[s] <==> Clean(m[s]))
    requires forall s :: s in m ==> Clean(m[s])
    ensures hm == m
  {
    hide Converts, Value;
    forall s
      ensures s in hm <==> s in m
      ensures s in m ==> hm[s] == m[s]
    {
      if s in m {
        assert Clean(m[s]);
        assert !m[s].GoOpaque?;
      }
    }
  }

  lemma MapReturns(env: Env, m: map<string, Go>, h: Go)
    requires env.Sane() && Canonical(env, GoMap(m)) && Converts(env, Value(env, GoMap(m)), h)
    requires forall s, y :: s in m && Converts(env, Value(env, m[s]), y) ==> (y == m[s] <==> Clean(m[s]))
    ensures h == GoMap(m) <==> Clean(GoMap(m))
  {
    var vs := ValueMap(env, m);
    StringsConvert(env, vs, h);
    forall s | s in m
      ensures Value(env, m[s]) == LNil <==> m[s].GoOpaque?
    {
      ValueOfNothing(env, m[s]);
    }
    hide Converts, Canonical, Value, StringTable;
    if Clean(GoMap(m)) {
      SameMapBack(env, m, h.m);
    }
    if h == GoMap(m) {
      forall s | s in m
        ensures Clean(m[s])
      {
        assert Converts(env, vs[s], m[s]);
      }
    }
  }

  lemma {:induction false} CanonicalReturns(env: Env, g: Go, h: Go)
    requires env.Sane() && Canonical(env, g) && Converts(env, Value(env, g), h)
    ensures h == g <==> Clean(g)
  {
    match g
    case GoMap(m) =>
      forall s, y | s in m && Converts(env, Value(env, m[s]), y)
        ensures y == m[s] <==> Clean(m[s])
      {
        CanonicalReturns(env, m[s], y);
      }
      MapReturns(env, m, h);
    case GoSlice(xs) =>
      forall i, y | 0 <= i < |xs| && Converts(env, Value(env, xs[i]), y)
        ensures y == xs[i] <==> Clean(xs[i])
      {
        CanonicalReturns(env, xs[i], y);
      }
      SliceReturns(env, xs, h);
    case _ =>
  }

  /**
   Converting a Lua value to Go, back, and to Go again gives the first Go value exactly if it holds no Lua
   object, at any depth and whatever order tables are visited in.
   */
  lemma LuaValueRetractionIff(env: Env, lv: Lua, g: Go, h: Go)
    requires env.Sane() && Converts(env, lv, g) && Converts(env, Value(env, g), h)
    ensures h == g <==> Clean(g)
  {
    ConvertsCanonical(env, lv, g);
    CanonicalReturns(env, g, h);
  }

  /** A Lua value that holds no Lua object under any key at any depth. */
  predicate Plain(lv: Lua) {
    match lv
    case LObject(_) => false
    case LTable(m) => forall k <- m :: Plain(m[k])
    case _ => true
  }

  lemma {:induction false} PlainIsClean(env: Env, lv: Lua, g: Go)
    requires Plain(lv) && Converts(env, lv, g)
    ensures Clean(g)
  {
    if lv.LTable? && g.GoMap? {
      assert TextsBacked(env, lv, g.m);
      forall s | s in g.m
        ensures Clean(g.m[s])
      {
        var k :| k in lv.m && lv.m[k] != LNil && Keyed(env, k, s) && Converts(env, lv.m[k], g.m[s]);
        PlainIsClean(env, lv.m[k], g.m[s]);
      }
    } else if lv.LTable? {
      forall i | 0 <= i < |g.xs|
        ensures Clean(g.xs[i])
      {
        if HasInt(lv.m, i + 1) {
          PlainIsClean(env, lv.m[IntKey(i + 1)], g.xs[i]);
        }
      }
    }
  }

  /** So a value without Lua objects always comes back the same. */
  lemma PlainRetraction(env: Env, lv: Lua, g: Go, h: Go)
    requires env.Sane() && Plain(lv) && Converts(env, lv, g) && Converts(env, Value(env, g), h)
    ensures h == g
  {
    PlainIsClean(env, lv, g);
    LuaValueRetractionIff(env, lv, g, h);
  }

  // ---------------------------------------------------------------- Value after LuaValue after Value

  /** Converting to Go and back gives this Lua value, whatever LuaValue does. */
  ghost predicate Stable(env: Env, v: Lua) {
    forall g :: Converts(env, v, g) ==> Value(env, g) == v
  }

  lemma StringTableStable(env: Env, entries: map<string, Lua>)
    requires env.Sane() && forall s <- entries :: Stable(env, entries[s])
    ensures Stable(env, StringTable(entries))
  {
    forall g | Converts(env, StringTable(entries), g)
      ensures Value(env, g) == StringTable(entries)
    {
      StringsConvert(env, entries, g);
      hide Converts;
      var vs := ValueMap(env, g.m);
      forall s
        ensures (s in vs && vs[s] != LNil) <==> (s in entries && entries[s] != LNil)
        ensures s in vs && vs[s] != LNil ==> vs[s] == entries[s]
      {
        if s in g.m {
          assert Stable(env, entries[s]);
        }
      }
      SameEntries(vs, entries);
    }
  }

  lemma SameEntries(a: map<string, Lua>, b: map<string, Lua>)
    requires forall s :: (s in a && a[s] != LNil) <==> (s in b && b[s] != LNil)
    requires forall s :: s in a && a[s] != LNil ==> s in b && a[s] == b[s]
    ensures StringTable(a) == StringTable(b)
  {
    var x, y := StringTable(a).m, StringTable(b).m;
    assert forall k :: k in x <==> k in y;
    assert forall k :: k in x ==> x[k] == y[k];
    assert x == y;
  }

  lemma ArrayTableStable(env: Env, xs: seq<Lua>)
    requires forall i :: 0 <= i < |xs| ==> Stable(env, xs[i])
    ensures Stable(env, ArrayTable(xs))
  {
    forall g | Converts(env, ArrayTable(xs), g)
      ensures Value(env, g) == ArrayTable(xs)
    {
      ArrayConverts(env, xs, g);
      TrimCuts(xs);
      hide Converts;
      if Trim(xs) == [] {
        NoNils(xs);
        assert ValueMap(env, g.m) == map[];
      } else {
        var vs := Values(env, g.xs);
        forall i | 0 <= i < |vs|
          ensures vs[i] == xs[i]
        {
          assert Converts(env, Trim(xs)[i], g.xs[i]) && Stable(env, xs[i]);
        }
        SameElements(vs, xs);
      }
    }
  }

  lemma SameElements(a: seq<Lua>, b: seq<Lua>)
    requires |a| <= |b| && (forall i :: 0 <= i < |a| ==> a[i] == b[i])
    requires forall i :: |a| <= i < |b| ==> b[i] == LNil
    ensures ArrayTable(a) == ArrayTable(b)
  {
    var x, y := ArrayTable(a).m, ArrayTable(b).m;
    forall k
      ensures k in x <==> k in y
      ensures k in x ==> x[k] == y[k]
    {
      if k in x {
        var i :| 0 <= i < |a| && a[i] != LNil && IntKey(i + 1) == k;
        ArrayEntry(a, i + 1);
        ArrayEntry(b, i + 1);
      }
      if k in y {
        var i :| 0 <= i < |b| && b[i] != LNil && IntKey(i + 1) == k;
        ArrayEntry(a, i + 1);
        ArrayEntry(b, i + 1);
      }
    }
    assert x == y;
  }

  lemma ScalarStable(env: Env, v: Lua)
    requires v.LNil? || v.LBool? || v.LNumber? || v.LString?
    ensures Stable(env, v)
  {
  }

  lemma StringsTableStable(env: Env, ss: seq<string>)
    ensures Stable(env, StringsTable(ss))
  {
    var xs := AsLua(ss);
    forall i | 0 <= i < |xs|
      ensures Stable(env, xs[i])
    {
      ScalarStable(env, xs[i]);
    }
    ArrayTableStable(env, xs);
  }

  /**
   Converting a Go value to Lua, back, and to Lua again gives the first Lua value, for every Go value of every
   type: mixed maps and slices, nil entries, trailing nils, empty slices, and numbers a float64 cannot hold.
   */
  lemma {:induction false} ValueRetraction(env: Env, g: Go)
    requires env.Sane()
    ensures Stable(env, Value(env, g))
  {
    match g
    case GoMap(m) =>
      forall s | s in m
        ensures Stable(env, Value(env, m[s]))
      {
        ValueRetraction(env, m[s]);
      }
      StringTableStable(env, ValueMap(env, m));
    case GoSlice(xs) =>
      forall i | 0 <= i < |xs|
        ensures Stable(env, Value(env, xs[i]))
      {
        ValueRetraction(env, xs[i]);
      }
      ArrayTableStable(env, Values(env, xs));
    case GoStrings(ss) => StringsTableStable(env, ss);
    case GoStringsMap(m) =>
      forall s | s in m
        ensures Stable(env, StringsTable(m[s]))
      {
        StringsTableStable(env, m[s]);
      }
      StringTableStable(env, ListTables(m));
    case GoStringMap(m) =>
      StringTableStable(env, Texts(m));
    case GoInt64Map(m) =>
      StringTableStable(env, Counts(env, m));
    case _ => ScalarStable(env, Value(env, g));
  }

  // ---------------------------------------------------------------- what a reader finds

  /** The table holds these elements, but for nils, under 1, 2, 3, .., and nothing else. */
  ghost predicate Holds(t: Lua, xs: seq<Lua>) {
    && t.LTable?
    && (forall k :: k in t.m ==> exists i :: 1 <= i <= |xs| && k == IntKey(i))
    && (forall i :: 1 <= i <= |xs| ==>
          if xs[i - 1] == LNil then IntKey(i) !in t.m else IntKey(i) in t.m && t.m[IntKey(i)] == xs[i - 1])
  }

  /** The table holds a value under each of these keys as a string, and nothing else. */
  ghost predicate HasKeys(t: Lua, keys: set<string>) {
    t.LTable? && forall k :: k in t.m <==> k.LString? && k.s in keys
  }

  lemma ArrayHolds(xs: seq<Lua>)
    ensures Holds(ArrayTable(xs), xs)
  {
    var m := ArrayTable(xs).m;
    forall i | 1 <= i <= |xs|
      ensures if xs[i - 1] == LNil then IntKey(i) !in m else IntKey(i) in m && m[IntKey(i)] == xs[i - 1]
    {
      ArrayEntry(xs, i);
      assert IntKey(i) in m ==> m[IntKey(i)] != LNil;
    }
    forall k | k in m
      ensures exists i :: 1 <= i <= |xs| && k == IntKey(i)
    {
      var j :| 0 <= j < |xs| && xs[j] != LNil && IntKey(j + 1) == k;
    }
  }

  /** A boolean, a string, bytes and every kind of number but the 16-bit integers keep their value. */
  lemma ValueOfScalar(env: Env, g: Go)
    ensures g.GoBool? ==> Value(env, g) == LBool(g.b)
    ensures g.GoString? || g.GoBytes? ==> Value(env, g) == LString(g.s)
    ensures g.GoFloat? ==> Value(env, g) == LNumber(g.x)
    ensures g.GoInt? && g.kind != Int16 && g.kind != Uint16 ==> Value(env, g) == LNumber(env.toFloat(g.n))
    ensures g.GoTime? ==> Value(env, g) == LNumber(env.toFloat(g.unix))
    ensures g.GoNil? || g.GoOpaque? || (g.GoInt? && (g.kind == Int16 || g.kind == Uint16)) ==> Value(env, g) == LNil
  {
  }

  /** A map becomes a table with its keys, less those whose value is nil, and under each its value. */
  lemma ValueOfMap(env: Env, m: map<string, Go>)
    ensures var t := Value(env, GoMap(m));
            && t.LTable?
            && (forall k :: k in t.m <==> k.LString? && k.s in m && Value(env, m[k.s]) != LNil)
            && forall s :: s in m && Value(env, m[s]) != LNil ==> t.m[LString(s)] == Value(env, m[s])
  {
    hide Value;
    ValueOfMapIs(env, m);
    var entries, t := ValueMap(env, m), Value(env, GoMap(m));
    forall k
      ensures k in t.m <==> k.LString? && k.s in entries && entries[k.s] != LNil
    {
      if k.LString? && k.s in entries && entries[k.s] != LNil {
        assert LString(k.s) == k;
      }
    }
  }

  lemma ValueOfMapIs(env: Env, m: map<string, Go>)
    ensures Value(env, GoMap(m)) == StringTable(ValueMap(env, m))
  {
  }

  /** A slice becomes a table with its elements from 1 on, less the nils. */
  lemma ValueOfSlice(env: Env, xs: seq<Go>)
    ensures var t := Value(env, GoSlice(xs));
            && t.LTable?
            && (forall k :: k in t.m ==> exists i :: 1 <= i <= |xs| && k == IntKey(i))
            && forall i :: 1 <= i <= |xs| ==>
                 if Value(env, xs[i - 1]) == LNil then IntKey(i) !in t.m
                 else IntKey(i) in t.m && t.m[IntKey(i)] == Value(env, xs[i - 1])
  {
    assert Value(env, GoSlice(xs)) == ArrayTable(Values(env, xs));
    ArrayHolds(Values(env, xs));
    hide Value, ArrayTable;
  }

  /** What LuaValue can return for a value that is not a table. */
  lemma ConvertsScalar(env: Env, lv: Lua, g: Go)
    requires Converts(env, lv, g)
    ensures lv.LNil? ==> g == GoNil
    ensures lv.LBool? ==> g == GoBool(lv.b)
    ensures lv.LString? ==> g == GoString(lv.s)
    ensures lv.LFunction? ==> g == GoString(lv.text)
    ensures lv.LObject? ==> g == GoOpaque(lv.id)
    ensures lv.LNumber? ==>
              g == if lv.x == env.toFloat(env.toInt(lv.x)) then GoInt(env.toInt(lv.x), Int64) else GoFloat(lv.x)
  {
  }

  /**
   A table with a positive integer key becomes a slice as long as the largest such key, each element converted or nil;
   any other becomes a map.
   */
  lemma ConvertsTable(env: Env, m: map<Lua, Lua>, g: Go)
    requires Converts(env, LTable(m), g)
    ensures (exists i :: i > 0 && HasInt(m, i)) ==>
              && g.GoSlice? && |g.xs| > 0 && HasInt(m, |g.xs|) && (forall i :: i > |g.xs| ==> !HasInt(m, i))
              && (forall i :: 1 <= i <= |g.xs| ==>
                    if HasInt(m, i) then Converts(env, m[IntKey(i)], g.xs[i - 1]) else g.xs[i - 1] == GoNil)
    ensures (forall i :: i > 0 ==> !HasInt(m, i)) ==> g.GoMap?
  {
    TableUnfolds(env, m, g);
    assert IsMaxN(m, MaxN(m));
    hide Converts, Keyed, MaxN, KeysKept, TextsBacked;
    if g.GoSlice? {
      SliceUnfolds(env, m, g.xs);
    }
    hide BecomesSlice;
  }

  lemma TableUnfolds(env: Env, m: map<Lua, Lua>, g: Go)
    requires Converts(env, LTable(m), g)
    ensures if MaxN(m) > 0 then g.GoSlice? && |g.xs| == MaxN(m) && BecomesSlice(env, LTable(m), g.xs)
            else g.GoMap? && KeysKept(env, LTable(m), g.m) && TextsBacked(env, LTable(m), g.m)
  {
    hide KeysKept, TextsBacked, MaxN;
  }

  lemma SliceUnfolds(env: Env, m: map<Lua, Lua>, xs: seq<Go>)
    requires BecomesSlice(env, LTable(m), xs)
    ensures forall i :: 1 <= i <= |xs| ==>
              if HasInt(m, i) then Converts(env, m[IntKey(i)], xs[i - 1]) else xs[i - 1] == GoNil
  {
    hide Converts, MaxN;
    forall i | 1 <= i <= |xs|
      ensures if HasInt(m, i) then Converts(env, m[IntKey(i)], xs[i - 1]) else xs[i - 1] == GoNil
    {
      var j := i - 1;
      assert HasInt(m, j + 1) == HasInt(m, i);
      assert if HasInt(m, j + 1) then Converts(env, m[IntKey(j + 1)], xs[j]) else xs[j] == GoNil;
    }
  }

  /** In a map that a table becomes, every entry that is not nil is found under a text of its key. */
  lemma ConvertsKeys(env: Env, m: map<Lua, Lua>, g: Go, k: Lua)
    requires Converts(env, LTable(m), g) && g.GoMap? && k in m && m[k] != LNil
    ensures exists s :: s in g.m && Keyed(env, k, s)
  {
    TableUnfolds(env, m, g);
    hide Converts, Keyed, TextsBacked, MaxN;
  }

  /** And under every text is the value of an entry that is not nil and whose key has that text. */
  lemma ConvertsTexts(env: Env, m: map<Lua, Lua>, g: Go, s: string)
    requires Converts(env, LTable(m), g) && g.GoMap? && s in g.m
    ensures exists k :: k in m && m[k] != LNil && Keyed(env, k, s) && Converts(env, m[k], g.m[s])
  {
    TableUnfolds(env, m, g);
    hide Converts, Keyed, KeysKept, MaxN;
  }

  // ---------------------------------------------------------------- the loops

  method MaxNOf(m: map<Lua, Lua>) returns (n: nat)
    ensures n == MaxN(m)
  {
    n := 0;
    var todo := m.Keys;
    while todo != {}
      invariant todo <= m.Keys
      invariant n > 0 ==> HasInt(m, n)
      invariant forall k <- m.Keys - todo :: m[k] != LNil ==> Index(k) <= n
    {
      var k :| k in todo;
      todo := todo - {k};
      if m[k] != LNil && Index(k) > n {
        n := Index(k);
        IntKeyOfIndex(k);
      }
    }
    forall i | i > n
      ensures !HasInt(m, i)
    {
      IndexOfIntKey(i);
    }
    MaxNIs(m, n);
  }

  /** LuaValue; ForEach visits the entries of a table in any order and passes over nils. */
  method LuaValueOf(env: Env, lv: Lua) returns (g: Go)
    ensures Converts(env, lv, g)
    ensures lv.LBool? ==> g == GoBool(lv.b)
    ensures lv.LString? ==> g == GoString(lv.s)
    ensures lv.LFunction? ==> g == GoString(lv.text)
    ensures lv.LObject? ==> g == GoOpaque(lv.id)
    decreases lv
  {
    match lv
    case LNil => g := GoNil;
    case LBool(b) => g := GoBool(b);
    case LString(s) => g := GoString(s);
    case LNumber(x) =>
      var vi := env.toInt(x);
      g := if x == env.toFloat(vi) then GoInt(vi, Int64) else GoFloat(x);
    case LFunction(text) => g := GoString(text);
    case LObject(id) => g := GoOpaque(id);
    case LTable(m) =>
      var maxn := MaxNOf(m);
      if maxn == 0 {
        var ret: map<string, Go> := map[];
        var todo := m.Keys;
        while todo != {}
          invariant todo <= m.Keys
          invariant forall k <- m.Keys - todo :: m[k] != LNil ==> exists s :: s in ret && Keyed(env, k, s)
          invariant TextsBacked(env, lv, ret)
        {
          var k :| k in todo;
          todo := todo - {k};
          if m[k] != LNil {
            var key := LuaValueOf(env, k);
            var value := LuaValueOf(env, m[k]);
            var keyStr := env.sprint(key);
            assert Keyed(env, k, keyStr);
            ret := ret[keyStr := value];
          }
        }
        g := GoMap(ret);
      } else {
        var ret: seq<Go> := [];
        for i := 1 to maxn + 1
          invariant |ret| == i - 1
          invariant forall j :: 0 <= j < |ret| ==>
                      if HasInt(m, j + 1) then Converts(env, m[IntKey(j + 1)], ret[j]) else ret[j] == GoNil
        {
          var element := GoNil;
          if HasInt(m, i) {
            element := LuaValueOf(env, m[IntKey(i)]);
          }
          ret := ret + [element];
        }
        g := GoSlice(ret);
      }
  }

  /** The table Map, MapString and MapInt64 fill, as far as the keys in `done`. */
  function Filled(entries: map<string, Lua>, done: set<string>): map<Lua, Lua> {
    map s | s in done && s in entries && entries[s] != LNil :: LString(s) := entries[s]
  }

  /** RawSetString and RawSetInt: setting nil takes the entry away. */
  function RawSet(m: map<Lua, Lua>, k: Lua, v: Lua): map<Lua, Lua> {
    if v == LNil then m - {k} else m[k := v]
  }

  lemma FillNone(entries: map<string, Lua>, done: set<string>)
    requires done == {}
    ensures Filled(entries, done) == map[]
  {
  }

  lemma FillOne(entries: map<string, Lua>, done: set<string>, s: string)
    requires s in entries && s !in done
    ensures RawSet(Filled(entries, done), LString(s), entries[s]) == Filled(entries, done + {s})
  {
    var a, b := RawSet(Filled(entries, done), LString(s), entries[s]), Filled(entries, done + {s});
    assert forall k :: k in a <==> k in b;
    assert forall k :: k in a ==> a[k] == b[k];
  }

  lemma OneLess(keys: set<string>, todo: set<string>, k: string)
    requires k in todo && todo <= keys
    ensures keys - todo + {k} == keys - (todo - {k}) && k !in keys - todo && todo - {k} <= keys
  {
  }

  lemma NoneLeft(keys: set<string>, todo: set<string>)
    requires todo == {}
    ensures keys - todo == keys
  {
  }

  lemma FillAll(entries: map<string, Lua>, done: set<string>)
    requires done == entries.Keys
    ensures LTable(Filled(entries, done)) == StringTable(entries)
  {
  }

  lemma ValuesMore(env: Env, xs: seq<Go>, i: nat)
    requires i < |xs|
    ensures Values(env, xs[..i + 1]) == Values(env, xs[..i]) + [Value(env, xs[i])]
  {
  }

  lemma FillNothing()
    ensures ArrayTable([]) == LTable(map[])
  {
  }

  lemma FillNext(xs: seq<Lua>, v: Lua)
    ensures LTable(RawSet(ArrayTable(xs).m, IntKey(|xs| + 1), v)) == ArrayTable(xs + [v])
  {
    var a, b := RawSet(ArrayTable(xs).m, IntKey(|xs| + 1), v), ArrayTable(xs + [v]).m;
    forall k
      ensures k in a <==> k in b
      ensures k in a ==> a[k] == b[k]
    {
      if k in a || k in b {
        var i := k.x.Floor;
        IndexOfIntKey(i);
        ArrayEntry(xs, i);
        ArrayEntry(xs + [v], i);
      }
    }
    assert a == b;
  }

  /** The loop over a []string. */
  method TableOfStrings(ss: seq<string>) returns (t: Lua)
    ensures t == StringsTable(ss) && Holds(t, AsLua(ss))
  {
    ArrayHolds(AsLua(ss));
    FillNothing();
    hide ArrayTable, Holds;
    ghost var xs: seq<Lua> := [];
    var lt: map<Lua, Lua> := map[];
    for i := 0 to |ss|
      invariant xs == AsLua(ss[..i])
      invariant LTable(lt) == ArrayTable(xs)
    {
      FillNext(xs, LString(ss[i]));
      lt := RawSet(lt, IntKey(i + 1), LString(ss[i]));
      xs := xs + [LString(ss[i])];
    }
    t := LTable(lt);
    assert ss[..|ss|] == ss;
  }

  /** Map: the keys of a Go map are visited in any order. */
  method TableOfMap(env: Env, g: Go) returns (t: Lua)
    requires g.GoMap?
    ensures t == Value(env, g) && t.LTable?
    ensures forall k :: k in t.m <==> k.LString? && k.s in g.m && Value(env, g.m[k.s]) != LNil
    ensures forall s <- g.m :: Value(env, g.m[s]) != LNil ==> t.m[LString(s)] == Value(env, g.m[s])
    decreases g, 0
  {
    var data := g.m;
    ValueOfMap(env, data);
    ValueOfMapIs(env, data);
    ghost var entries := ValueMap(env, data);
    hide Value;
    assert entries.Keys == data.Keys && forall s <- data :: entries[s] == Value(env, data[s]);
    hide StringTable, Filled, ValueMap, RawSet;
    var lt: map<Lua, Lua> := map[];
    var todo := data.Keys;
    FillNone(entries, data.Keys - todo);
    while todo != {}
      invariant todo <= data.Keys
      invariant lt == Filled(entries, data.Keys - todo)
    {
      var k :| k in todo;
      var v := ValueOf(env, data[k]);
      FillOne(entries, data.Keys - todo, k);
      lt := RawSet(lt, LString(k), v);
      OneLess(data.Keys, todo, k);
      todo := todo - {k};
    }
    NoneLeft(data.Keys, todo);
    FillAll(entries, data.Keys - todo);
    t := LTable(lt);
  }

  lemma TextsMean(data: map<string, string>)
    ensures var t := StringTable(Texts(data));
            HasKeys(t, data.Keys) && forall s <- data :: t.m[LString(s)] == LString(data[s])
  {
  }

  lemma CountsMean(env: Env, data: map<string, int>)
    ensures var t := StringTable(Counts(env, data));
            HasKeys(t, data.Keys) && forall s <- data :: t.m[LString(s)] == LNumber(env.toFloat(data[s]))
  {
  }

  lemma ListTablesMean(data: map<string, seq<string>>)
    ensures var t := StringTable(ListTables(data));
            HasKeys(t, data.Keys) && forall s <- data :: Holds(t.m[LString(s)], AsLua(data[s]))
  {
    var t := StringTable(ListTables(data));
    hide Holds, AsLua, ArrayTable;
    forall s <- data
      ensures Holds(t.m[LString(s)], AsLua(data[s]))
    {
      ArrayHolds(AsLua(data[s]));
    }
  }

  /** MapString. */
  method TableOfStringMap(env: Env, data: map<string, string>) returns (t: Lua)
    ensures t == StringTable(Texts(data))
    ensures HasKeys(t, data.Keys) && forall s <- data :: t.m[LString(s)] == LString(data[s])
  {
    TextsMean(data);
    ghost var entries := Texts(data);
    assert entries.Keys == data.Keys && forall s <- data :: entries[s] == LString(data[s]);
    hide StringTable, Filled, HasKeys, Texts, RawSet;
    var lt: map<Lua, Lua> := map[];
    var todo := data.Keys;
    FillNone(entries, data.Keys - todo);
    while todo != {}
      invariant todo <= data.Keys
      invariant lt == Filled(entries, data.Keys - todo)
    {
      var k :| k in todo;
      FillOne(entries, data.Keys - todo, k);
      lt := RawSet(lt, LString(k), LString(data[k]));
      OneLess(data.Keys, todo, k);
      todo := todo - {k};
    }
    NoneLeft(data.Keys, todo);
    FillAll(entries, data.Keys - todo);
    t := LTable(lt);
  }

  /** MapInt64. */
  method TableOfInt64Map(env: Env, data: map<string, int>) returns (t: Lua)
    ensures t == StringTable(Counts(env, data))
    ensures HasKeys(t, data.Keys) && forall s <- data :: t.m[LString(s)] == LNumber(env.toFloat(data[s]))
  {
    CountsMean(env, data);
    ghost var entries := Counts(env, data);
    assert entries.Keys == data.Keys && forall s <- data :: entries[s] == LNumber(env.toFloat(data[s]));
    hide StringTable, Filled, HasKeys, Counts, RawSet;
    var lt: map<Lua, Lua> := map[];
    var todo := data.Keys;
    FillNone(entries, data.Keys - todo);
    while todo != {}
      invariant todo <= data.Keys
      invariant lt == Filled(entries, data.Keys - todo)
    {
      var k :| k in todo;
      FillOne(entries, data.Keys - todo, k);
      lt := RawSet(lt, LString(k), LNumber(env.toFloat(data[k])));
      OneLess(data.Keys, todo, k);
      todo := todo - {k};
    }
    NoneLeft(data.Keys, todo);
    FillAll(entries, data.Keys - todo);
    t := LTable(lt);
  }

  method TableOfStringsMap(env: Env, data: map<string, seq<string>>) returns (t: Lua)
    ensures t == StringTable(ListTables(data))
    ensures HasKeys(t, data.Keys) && forall s <- data :: Holds(t.m[LString(s)], AsLua(data[s]))
  {
    ListTablesMean(data);
    ghost var entries := ListTables(data);
    assert entries.Keys == data.Keys && forall s <- data :: entries[s] == StringsTable(data[s]);
    hide StringTable, Filled, HasKeys, Holds, StringsTable, ListTables, RawSet;
    var lt: map<Lua, Lua> := map[];
    var todo := data.Keys;
    FillNone(entries, data.Keys - todo);
    while todo != {}
      invariant todo <= data.Keys
      invariant lt == Filled(entries, data.Keys - todo)
    {
      var k :| k in todo;
      var v := TableOfStrings(data[k]);
      FillOne(entries, data.Keys - todo, k);
      lt := RawSet(lt, LString(k), v);
      OneLess(data.Keys, todo, k);
      todo := todo - {k};
    }
    NoneLeft(data.Keys, todo);
    FillAll(entries, data.Keys - todo);
    t := LTable(lt);
  }

  /** The loop over a []interface{}. */
  method TableOfSlice(env: Env, g: Go) returns (t: Lua)
    requires g.GoSlice?
    ensures t == Value(env, g) && t.LTable?
    ensures forall k :: k in t.m ==> exists i :: 1 <= i <= |g.xs| && k == IntKey(i)
    ensures forall i :: 1 <= i <= |g.xs| ==>
              if Value(env, g.xs[i - 1]) == LNil then IntKey(i) !in t.m
              else IntKey(i) in t.m && t.m[IntKey(i)] == Value(env, g.xs[i - 1])
    decreases g, 0
  {
    var data := g.xs;
    assert Value(env, g) == ArrayTable(Values(env, data));
    ValueOfSlice(env, data);
    FillNothing();
    assert |Values(env, data)| == |data| && Values(env, data[..0]) == [];
    hide Value, Values, ArrayTable, Holds, RawSet;
    ghost var xs: seq<Lua> := [];
    var lt: map<Lua, Lua> := map[];
    for i := 0 to |data|
      invariant xs == Values(env, data[..i])
      invariant LTable(lt) == ArrayTable(xs)
    {
      var v := ValueOf(env, data[i]);
      ValuesMore(env, data, i);
      FillNext(xs, v);
      lt := RawSet(lt, IntKey(i + 1), v);
      xs := xs + [v];
    }
    assert data[..|data|] == data;
    t := LTable(lt);
  }

  method ValueOf(env: Env, g: Go) returns (v: Lua)
    ensures v == Value(env, g)
    ensures g.GoBool? ==> v == LBool(g.b)
    ensures g.GoString? || g.GoBytes? ==> v == LString(g.s)
    ensures g.GoFloat? ==> v == LNumber(g.x)
    ensures g.GoInt? && g.kind != Int16 && g.kind != Uint16 ==> v == LNumber(env.toFloat(g.n))
    ensures g.GoTime? ==> v == LNumber(env.toFloat(g.unix))
    ensures g.GoStrings? ==> Holds(v, AsLua(g.ss))
    ensures g.GoStringMap? ==> HasKeys(v, g.sm.Keys) && forall s <- g.sm :: v.m[LString(s)] == LString(g.sm[s])
    ensures g.GoInt64Map? ==>
              HasKeys(v, g.im.Keys) && forall s <- g.im :: v.m[LString(s)] == LNumber(env.toFloat(g.im[s]))
    ensures g.GoStringsMap? ==> HasKeys(v, g.lm.Keys) && forall s <- g.lm :: Holds(v.m[LString(s)], AsLua(g.lm[s]))
    decreases g, 1
  {
    match g
    case GoNil => v := LNil;
    case GoBool(b) => v := LBool(b);
    case GoString(s) => v := LString(s);
    case GoBytes(s) => v := LString(s);
    case GoFloat(x) => v := LNumber(x);
    case GoInt(n, kind) => v := if kind == Int16 || kind == Uint16 then LNil else LNumber(env.toFloat(n));
    case GoMap(m) => v := TableOfMap(env, g);
    case GoSlice(xs) => v := TableOfSlice(env, g);
    case GoStrings(ss) => v := TableOfStrings(ss);
    case GoStringMap(m) => v := TableOfStringMap(env, m);
    case GoInt64Map(m) => v := TableOfInt64Map(env, m);
    case GoStringsMap(m) => v := TableOfStringsMap(env, m);
    case GoTime(unix) => v := LNumber(env.toFloat(unix));
    case GoOpaque(_) => v := LNil;
  }
}
