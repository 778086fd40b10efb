/**
 The date formatter of auxlib/utils.go: a scanner with flags and an output buffer, proved to compute a short
 recursive grammar, and laws of that grammar.  A string is a sequence of bytes; a `char` stands for one byte.
 */
module Strftime {

  // ---------------------------------------------------------------- the grammar

  /** A time, as far as formatting can see it: Format(layout) and Weekday(). */
  datatype Time = Time(format: string -> string, weekday: nat)

  /** cDateFlagToGo */
  function Layouts(): map<char, string> {
    map['a' := "mon", 'A' := "Monday", 'b' := "Jan", 'B' := "January", 'c' := "02 Jan 06 15:04 MST", 'd' := "02",
        'F' := "2006-01-02", 'H' := "15", 'I' := "03", 'm' := "01", 'M' := "04", 'p' := "PM", 'P' := "pm", 'S' := "05",
        'x' := "15/04/05", 'X' := "15:04:05", 'y' := "06", 'Y' := "2006", 'z' := "-0700", 'Z' := "MST"]
  }

  const FLAG := '%'

  /** Decimal digits of a number, as fmt.Sprint prints it. */
  function Digits(n: nat): string {
    var d := [['0', '1', '2', '3', '4', '5', '6', '7', '8', '9'][n % 10]];
    if n < 10 then d else Digits(n / 10) + d
  }

  /** What a flag followed by `c` stands for; an unknown one stands for itself. */
  function Expansion(t: Time, c: char): string {
    if c in Layouts() then t.format(Layouts()[c])
    else if c == 'w' then Digits(t.weekday)
    else [FLAG, c]
  }

  /** A format is read from the left: `%%`, `%c`, a lone `%` at the very end, or any other byte. */
  function Expand(t: Time, s: string): string {
    if s == "" then ""
    else if s[0] != FLAG then [s[0]] + Expand(t, s[1..])
    else if |s| == 1 then [FLAG]
    else if s[1] == FLAG then [FLAG] + Expand(t, s[2..])
    else Expansion(t, s[1]) + Expand(t, s[2..])
  }

  /** How many bytes are read at once from the front of a format, and what they become. */
  function TokenLength(s: string): nat
    requires s != ""
  {
    if s[0] == FLAG && |s| > 1 then 2 else 1
  }

  function Token(t: Time, s: string): string
    requires s != ""
  {
    if s[0] != FLAG || |s| == 1 || s[1] == FLAG then [s[0]] else Expansion(t, s[1])
  }

  lemma ExpandFirst(t: Time, s: string)
    requires s != ""
    ensures Expand(t, s) == Token(t, s) + Expand(t, s[TokenLength(s)..])
  {
  }

  // ---------------------------------------------------------------- the scanner

  /** flagScanner, with the empty `start` and `end` strings strftime gives it. */
  class FlagScanner {
    const str: string
    var buf: string
    var pos: nat
    var hasFlag: bool
    var changeFlag: bool

    /** Between calls a pending flag is followed by a byte that is not another flag. */
    predicate Valid()
      reads this
    {
      && pos <= |str|
      && (hasFlag ==> pos < |str| && str[pos] != FLAG)
    }

    /** The output that the unread input stands for. */
    function Rest(t: Time): string
      reads this
      requires Valid()
    {
      if hasFlag then Expansion(t, str[pos]) + Expand(t, str[pos + 1..]) else Expand(t, str[pos..])
    }

    /** The output still to come after Next has returned `c`. */
    function Owed(t: Time, c: char, eos: bool): string
      reads this
      requires pos <= |str| && (!eos && changeFlag ==> Valid())
    {
      if eos then ""
      else if changeFlag then Rest(t)
      else (if hasFlag then Expansion(t, c) else [c]) + Expand(t, str[pos..])
    }

    constructor (str: string)
      ensures this.str == str && buf == "" && Valid()
      ensures forall t :: Rest(t) == Expand(t, str)
    {
      this.str := str;
      buf, pos, hasFlag, changeFlag := "", 0, false, false;
      new;
      assert str[0..] == str;
    }

    method AppendString(s: string)
      modifies this`buf
      ensures buf == old(buf) + s
    {
      buf := buf + s;
    }

    method AppendChar(ch: char)
      modifies this`buf
      ensures buf == old(buf) + [ch]
    {
      buf := buf + [ch];
    }

    /** Reads on; what has been written and what is still owed together stay the same. */
    method Next(ghost t: Time) returns (c: char, eos: bool)
      requires Valid()
      modifies this
      ensures old(pos) <= pos <= |str| && (!eos ==> old(pos) < pos)
      ensures eos ==> Valid() && pos == |str|
      ensures !eos && changeFlag ==> Valid() && hasFlag
      ensures old(buf + Rest(t)) == buf + Owed(t, c, eos)
      decreases |str| - pos
    {
      c := '\0';
      changeFlag := false;
      if pos == |str| {
        return c, true;
      }
      c := str[pos];
      ghost var rest := str[pos..];
      assert rest[1..] == str[pos + 1..];
      ExpandFirst(t, rest);
      hide Expand, Expansion;
      if c == FLAG {
        if pos < |str| - 1 && str[pos + 1] == FLAG {
          assert rest[2..] == str[pos + 2..];
          hasFlag := false;
          Associative(buf, [FLAG], Expand(t, str[pos + 2..]));
          AppendChar(FLAG);
          pos := pos + 2;
          c, eos := Next(t);
          return c, eos;
        } else if pos != |str| - 1 {
          assert rest[1] == str[pos + 1] && rest[2..] == str[pos + 2..];
          changeFlag := true;
          hasFlag := true;
        }
      }
      pos := pos + 1;
      return c, false;
    }
  }

  lemma Associative(a: string, b: string, c: string)
    ensures a + (b + c) == (a + b) + c
  {
  }

  /** The branch of strftime for a flag. */
  method AppendExpansion(sc: FlagScanner, t: Time, c: char)
    modifies sc`buf
    ensures sc.buf == old(sc.buf) + Expansion(t, c)
  {
    hide Digits, Layouts;
    if c in Layouts() {
      sc.AppendString(t.format(Layouts()[c]));
    } else if c == 'w' {
      sc.AppendString(Digits(t.weekday));
    } else {
      ghost var before := sc.buf;
      sc.AppendChar('%');
      sc.AppendChar(c);
      assert sc.buf == before + ['%', c];
    }
  }

  /** The body of the loop in strftime: writes what the scanner has returned, unless a flag has just begun. */
  method Write(sc: FlagScanner, t: Time, c: char)
    requires sc.pos <= |sc.str| && (sc.changeFlag ==> sc.Valid() && sc.hasFlag)
    modifies sc
    ensures sc.Valid() && sc.pos == old(sc.pos)
    ensures sc.buf + sc.Rest(t) == old(sc.buf + sc.Owed(t, c, false))
  {
    hide Expand, Expansion;
    if !sc.changeFlag {
      ghost var before, rest := sc.buf, Expand(t, sc.str[sc.pos..]);
      if sc.hasFlag {
        AppendExpansion(sc, t, c);
        Associative(before, Expansion(t, c), rest);
        sc.hasFlag := false;
      } else {
        Associative(before, [c], rest);
        sc.AppendChar(c);
      }
    }
  }

  method Strftime(t: Time, cfmt: string) returns (out: string)
    ensures out == Expand(t, cfmt)
  {
    hide Expand, Expansion;
    var sc := new FlagScanner(cfmt);
    var c, eos := sc.Next(t);
    while !eos
      invariant sc.pos <= |sc.str| && (!eos && sc.changeFlag ==> sc.Valid() && sc.hasFlag)
      invariant sc.buf + sc.Owed(t, c, eos) == Expand(t, cfmt)
      decreases !eos, |sc.str| - sc.pos
    {
      Write(sc, t, c);
      c, eos := sc.Next(t);
    }
    out := sc.buf;
  }

  // ---------------------------------------------------------------- laws

  /** Every flag byte doubled. */
  function Escape(s: string): string {
    if s == "" then "" else (if s[0] == FLAG then [FLAG, FLAG] else [s[0]]) + Escape(s[1..])
  }

  lemma {:induction false} EscapeRoundTrip(t: Time, s: string)
    ensures Expand(t, Escape(s)) == s
  {
    if s != "" {
      var e := Escape(s);
      assert e[if s[0] == FLAG then 2 else 1..] == Escape(s[1..]);
      EscapeRoundTrip(t, s[1..]);
    }
  }

  /** Reading `s` from the left ends on a flag byte with nothing after it. */
  predicate Dangling(s: string) {
    s != "" &&
    if s[0] != FLAG then Dangling(s[1..])
    else if |s| == 1 then true
    else Dangling(s[2..])
  }

  lemma NoFlagDangles(a: string)
    requires a != "" && !Dangling(a)
    ensures a[0] == FLAG ==> |a| > 1
    ensures !Dangling(a[TokenLength(a)..])
  {
  }

  lemma TokenStays(t: Time, a: string, b: string)
    requires a != "" && (a[0] == FLAG ==> |a| > 1)
    ensures TokenLength(a + b) == TokenLength(a) && Token(t, a + b) == Token(t, a)
  {
    hide Expansion;
    var ab := a + b;
    assert ab[0] == a[0] && (|a| > 1 ==> ab[1] == a[1]);
  }

  lemma {:induction false} ExpandConcat(t: Time, a: string, b: string)
    requires !Dangling(a)
    ensures Expand(t, a + b) == Expand(t, a) + Expand(t, b)
  {
    if a == "" {
      assert a + b == b;
    } else {
      ExpandFirst(t, a);
      ExpandFirst(t, a + b);
      NoFlagDangles(a);
      TokenStays(t, a, b);
      hide Expand, Expansion, Token, TokenLength, Dangling;
      var tail := a[TokenLength(a)..];
      assert (a + b)[TokenLength(a)..] == tail + b;
      ExpandConcat(t, tail, b);
      Associative(Token(t, a), Expand(t, tail), Expand(t, b));
    }
  }

  /** A flag byte at the end swallows the next one. */
  lemma {:induction false} DanglingSwallows(t: Time, a: string)
    requires Dangling(a)
    ensures Expand(t, a + [FLAG]) == Expand(t, a)
  {
    if a[0] == FLAG && |a| == 1 {
      assert (a + [FLAG])[2..] == "";
    } else {
      var n := if a[0] == FLAG then 2 else 1;
      assert (a + [FLAG])[n..] == a[n..] + [FLAG];
      DanglingSwallows(t, a[n..]);
    }
  }

  /** Formatting distributes over concatenation exactly when the first format leaves no flag dangling. */
  lemma ExpandConcatIff(t: Time, a: string)
    ensures (forall b :: Expand(t, a + b) == Expand(t, a) + Expand(t, b)) <==> !Dangling(a)
  {
    if Dangling(a) {
      DanglingSwallows(t, a);
      assert Expand(t, a + [FLAG]) != Expand(t, a) + Expand(t, [FLAG]);
    } else {
      forall b
        ensures Expand(t, a + b) == Expand(t, a) + Expand(t, b)
      {
        ExpandConcat(t, a, b);
      }
    }
  }

  // ---------------------------------------------------------------- the tokens; with concatenation they say it all

  lemma OneFlag(t: Time, c: char)
    requires c != FLAG
    ensures Expand(t, [FLAG, c]) == Expansion(t, c)
  {
    ExpandFirst(t, [FLAG, c]);
    hide Expansion;
    assert [FLAG, c][2..] == "";
  }

  predicate Formats(t: Time, c: char, layout: string) {
    Expand(t, ['%', c]) == t.format(layout)
  }

  lemma Known(t: Time, c: char, layout: string)
    requires c != FLAG && c in Layouts() && Layouts()[c] == layout
    ensures Formats(t, c, layout)
  {
    OneFlag(t, c);
    hide Expand, Layouts;
  }

  /** The date flags of C and the layouts of Go they stand for. */
  lemma DateFlags(t: Time)
    ensures Formats(t, 'a', "mon") && Formats(t, 'A', "Monday") && Formats(t, 'b', "Jan") && Formats(t, 'B', "January")
    ensures Formats(t, 'd', "02") && Formats(t, 'm', "01") && Formats(t, 'y', "06") && Formats(t, 'Y', "2006")
    ensures Formats(t, 'F', "2006-01-02") && Formats(t, 'x', "15/04/05")
  {
    hide Formats;
    Known(t, 'a', "mon");
    Known(t, 'A', "Monday");
    Known(t, 'b', "Jan");
    Known(t, 'B', "January");
    Known(t, 'd', "02");
    Known(t, 'm', "01");
    Known(t, 'y', "06");
    Known(t, 'Y', "2006");
    Known(t, 'F', "2006-01-02");
    Known(t, 'x', "15/04/05");
  }

  /** The same for the flags of the time of day. */
  lemma TimeFlags(t: Time)
    ensures Formats(t, 'H', "15") && Formats(t, 'I', "03") && Formats(t, 'M', "04") && Formats(t, 'S', "05")
    ensures Formats(t, 'p', "PM") && Formats(t, 'P', "pm") && Formats(t, 'z', "-0700") && Formats(t, 'Z', "MST")
    ensures Formats(t, 'X', "15:04:05") && Formats(t, 'c', "02 Jan 06 15:04 MST")
  {
    hide Formats;
    Known(t, 'H', "15");
    Known(t, 'I', "03");
    Known(t, 'M', "04");
    Known(t, 'S', "05");
    Known(t, 'p', "PM");
    Known(t, 'P', "pm");
    Known(t, 'z', "-0700");
    Known(t, 'Z', "MST");
    Known(t, 'X', "15:04:05");
    Known(t, 'c', "02 Jan 06 15:04 MST");
  }

  /** Any other flag, a byte that is no flag, and a flag byte alone stand for themselves; a doubled one for one. */
  lemma OtherTokens(t: Time, c: char)
    ensures c !in "aAbBcdFHImMpPSxXyYzZw%" ==> Expand(t, ['%', c]) == ['%', c]
    ensures c != '%' ==> Expand(t, [c]) == [c]
    ensures Expand(t, "%") == "%" && Expand(t, "%%") == "%"
  {
    if c !in "aAbBcdFHImMpPSxXyYzZw%" {
      assert c != FLAG by { assert "aAbBcdFHImMpPSxXyYzZw%"[21] == FLAG; }
      OneFlag(t, c);
      hide Expand;
      UnknownFlag(c);
    }
    assert [c][1..] == "" && "%%"[2..] == "";
  }

  lemma UnknownFlag(c: char)
    requires c !in "aAbBcdFHImMpPSxXyYzZw%"
    ensures c !in Layouts() && c != 'w'
  {
    var known := "aAbBcdFHImMpPSxXyYzZw%";
    assert known == ['a', 'A', 'b', 'B', 'c', 'd', 'F', 'H', 'I', 'm', 'M', 'p', 'P', 'S', 'x', 'X', 'y', 'Y', 'z', 'Z',
                     'w', '%'];
    assert forall k :: 0 <= k < |known| ==> known[k] != c;
  }

  lemma Weekday(t: Time)
    requires t.weekday < 7
    ensures Expand(t, "%w") == ["0123456"[t.weekday]]
  {
    OneFlag(t, 'w');
    hide Expand;
  }
}
