/** Option lists of lib/fuse_opt.c: printing options into one escaped string and splitting such
    a string again. */
module Options {
  import opened Basics

  /** A C string has no NUL inside. */
  predicate CString(s: string) {
    '\0' !in s
  }

  /** The part of a buffer up to the first NUL. */
  function Cut(s: string): (r: string)
    ensures CString(r) && (CString(s) ==> r == s)
  {
    if s == "" || s[0] == '\0' then "" else [s[0]] + Cut(s[1..])
  }

  // ---- printing ----

  function Escape(s: string): string {
    if s == "" then ""
    else
      var rest, c := Escape(s[..|s| - 1]), s[|s| - 1];
      rest + if c == ',' || c == '\\' then ['\\', c] else [c]
  }

  /** add_opt_common() with escaping: the comma is left out while the list is empty. */
  function AddOpt(opts: Option<string>, opt: string): string {
    (if opts.Some? && opts.value != "" then opts.value + "," else "") + Escape(opt)
  }

  function Print(opts: seq<string>): Option<string> {
    if opts == [] then None else Some(AddOpt(Print(opts[..|opts| - 1]), opts[|opts| - 1]))
  }

  // ---- splitting ----

  predicate IsOctal(s: string) {
    |s| >= 4 && '0' <= s[1] <= '3' && '0' <= s[2] <= '7' && '0' <= s[3] <= '7'
  }

  function OctalChar(s: string): char
    requires IsOctal(s)
  {
    (((s[1] as int - 48) * 64 + (s[2] as int - 48) * 8 + (s[3] as int - 48)) as char)
  }

  /** How many characters of `s` make up the next character of an option, and which it is. */
  function Unit(s: string): (r: (int, char))
    requires s != ""
    ensures 1 <= r.0 <= |s|
  {
    if s[0] == '\\' && |s| > 1 then
      if IsOctal(s) then (4, OctalChar(s)) else (2, s[1])
    else (1, s[0])
  }

  /** The options in `s` when `cur` has been read of the first one. */
  function Split(s: string, cur: string): seq<string>
    decreases |s|
  {
    if s == "" then [Cut(cur)]
    else if s[0] == ',' then [Cut(cur)] + Split(s[1..], "")
    else Split(s[Unit(s).0..], cur + [Unit(s).1])
  }

  function ParseGroup(s: string): seq<string> {
    Split(s, "")
  }

  // ---- the two undo each other ----

  lemma {:induction false} EscapeConcat(a: string, b: string)
    ensures Escape(a + b) == Escape(a) + Escape(b)
    decreases |b|
  {
    if b == "" {
      assert a + b == a;
    } else {
      assert (a + b)[..|a + b| - 1] == a + b[..|b| - 1];
      EscapeConcat(a, b[..|b| - 1]);
    }
  }

  lemma EscapeOne(c: char)
    ensures Escape([c]) == if c == ',' || c == '\\' then ['\\', c] else [c]
  {
    var s := [c];
    assert s[..|s| - 1] == "" && Escape("") == "";
  }

  lemma EscapeFirst(c: char, tail: string)
    ensures Escape([c] + tail) == (if c == ',' || c == '\\' then ['\\', c] else [c]) + Escape(tail)
  {
    hide Escape;
    EscapeConcat([c], tail);
    EscapeOne(c);
  }

  /** An escaped character is read back. */
  lemma UnitEscaped(c: char, rest: string)
    ensures
      var e := if c == ',' || c == '\\' then ['\\', c] else [c];
      (e + rest)[0] != ',' && Unit(e + rest) == (|e|, c) && (e + rest)[|e|..] == rest
  {
  }

  /** Reading one escaped option, up to the end or the next comma. */
  lemma {:induction false} SplitEscaped(opt: string, cur: string, rest: string)
    requires rest == "" || rest[0] == ','
    ensures Split(Escape(opt) + rest, cur) == Split(rest, cur + opt)
    decreases |opt|
  {
    hide Escape, Unit;
    if opt == "" {
      EscapeEmpty(opt);
      assert Escape(opt) + rest == rest && cur + opt == cur;
    } else {
      var c, tail := opt[0], opt[1..];
      assert opt == [c] + tail;
      EscapeFirst(c, tail);
      var e := if c == ',' || c == '\\' then ['\\', c] else [c];
      assert Escape(opt) + rest == e + (Escape(tail) + rest);
      UnitEscaped(c, Escape(tail) + rest);
      SplitEscaped(tail, cur + [c], rest);
      assert cur + [c] + tail == cur + opt;
    }
  }

  /** The list without the empty options at its front, of which the last is kept when there
      is nothing else. */
  function Strip(opts: seq<string>): seq<string> {
    if |opts| > 1 && opts[0] == "" then Strip(opts[1..]) else opts
  }

  predicate Stripped(opts: seq<string>) {
    |opts| == 1 || (|opts| > 1 && opts[0] != "")
  }

  predicate CStrings(opts: seq<string>) {
    forall i {:trigger opts[i]} :: 0 <= i < |opts| ==> CString(opts[i])
  }

  function Joined(opts: seq<string>): string
    requires opts != []
  {
    if |opts| == 1 then Escape(opts[0]) else Escape(opts[0]) + "," + Joined(opts[1..])
  }

  lemma {:induction false} SplitJoined(opts: seq<string>)
    requires opts != [] && CStrings(opts)
    ensures ParseGroup(Joined(opts)) == opts
    decreases |opts|
  {
    hide Escape, Unit;
    if |opts| == 1 {
      SplitEscaped(opts[0], "", "");
      assert Escape(opts[0]) + "" == Escape(opts[0]) && "" + opts[0] == opts[0];
    } else {
      var rest := "," + Joined(opts[1..]);
      SplitEscaped(opts[0], "", rest);
      assert Joined(opts) == Escape(opts[0]) + rest;
      assert "" + opts[0] == opts[0];
      assert rest[1..] == Joined(opts[1..]);
      SplitJoined(opts[1..]);
    }
  }

  lemma {:induction false} JoinedSnoc(opts: seq<string>, o: string)
    requires opts != []
    ensures Joined(opts + [o]) == Joined(opts) + "," + Escape(o)
    decreases |opts|
  {
    var all := opts + [o];
    if |opts| == 1 {
      assert all[1..] == [o];
    } else {
      assert all[1..] == opts[1..] + [o];
      JoinedSnoc(opts[1..], o);
      var a, b := Escape(opts[0]) + ",", Joined(opts[1..]);
      assert a + (b + "," + Escape(o)) == (a + b) + "," + Escape(o);
    }
  }

  lemma {:induction false} StripSnoc(opts: seq<string>, o: string)
    requires opts != []
    ensures Stripped(Strip(opts)) && Strip(opts) != []
    ensures Strip(opts + [o]) == if Strip(opts) == [""] then [o] else Strip(opts) + [o]
    decreases |opts|
  {
    var all := opts + [o];
    if |opts| == 1 {
      assert all[1..] == [o];
    } else {
      assert all[1..] == opts[1..] + [o];
      StripSnoc(opts[1..], o);
    }
  }

  lemma {:induction false} EscapeEmpty(s: string)
    ensures Escape(s) == "" <==> s == ""
  {
  }

  lemma JoinedEmpty(opts: seq<string>)
    requires Stripped(opts)
    ensures Joined(opts) == "" <==> opts == [""]
  {
    EscapeEmpty(opts[0]);
  }

  /** What printing really yields. */
  lemma {:induction false} PrintIsJoined(opts: seq<string>)
    requires opts != []
    ensures Strip(opts) != [] && Stripped(Strip(opts)) && Print(opts) == Some(Joined(Strip(opts)))
    decreases |opts|
  {
    var front, o := opts[..|opts| - 1], opts[|opts| - 1];
    assert opts == front + [o];
    if front == [] {
      assert Print(front) == None;
      assert opts == [o] && "" + Escape(o) == Escape(o);
    } else {
      PrintIsJoined(front);
      StripSnoc(front, o);
      JoinedEmpty(Strip(front));
      if Strip(front) == [""] {
        assert "" + Escape(o) == Escape(o);
      } else {
        JoinedSnoc(Strip(front), o);
        StrippedSnoc(Strip(front), o);
      }
    }
  }

  lemma StrippedSnoc(opts: seq<string>, o: string)
    requires Stripped(opts) && opts != [""]
    ensures Stripped(opts + [o])
  {
  }

  lemma {:induction false} StripCStrings(opts: seq<string>)
    requires CStrings(opts)
    ensures CStrings(Strip(opts)) && forall i {:trigger Strip(opts)[i]} :: 0 <= i < |Strip(opts)| ==>
      Strip(opts)[i] in opts
    decreases |opts|
  {
    if |opts| > 1 && opts[0] == "" {
      var t := opts[1..];
      assert forall i {:trigger t[i]} :: 0 <= i < |t| ==> t[i] == opts[i + 1];
      StripCStrings(t);
    }
  }

  /** Splitting what was printed gives the options back, less the empty ones at the front:
      the round trip is exact iff the first option is not empty or is the only one. */
  lemma RoundTripIff(opts: seq<string>)
    requires opts != [] && CStrings(opts)
    ensures Print(opts).Some? && ParseGroup(Print(opts).value) == Strip(opts)
    ensures ParseGroup(Print(opts).value) == opts <==> |opts| == 1 || opts[0] != ""
  {
    PrintIsJoined(opts);
    StripCStrings(opts);
    SplitJoined(Strip(opts));
    StripShorter(opts);
  }

  lemma {:induction false} StripShorter(opts: seq<string>)
    ensures |Strip(opts)| <= |opts| && (Strip(opts) == opts <==> !(|opts| > 1 && opts[0] == ""))
    decreases |opts|
  {
    if |opts| > 1 && opts[0] == "" {
      StripShorter(opts[1..]);
    }
  }

  /** Printing again what was split changes nothing. */
  lemma {:induction false} PrintStripped(opts: seq<string>)
    requires opts != []
    ensures Print(Strip(opts)) == Print(opts)
  {
    PrintIsJoined(opts);
    PrintIsJoined(Strip(opts));
    StripTwice(opts);
  }

  lemma {:induction false} StripTwice(opts: seq<string>)
    ensures Strip(Strip(opts)) == Strip(opts)
    decreases |opts|
  {
    if |opts| > 1 && opts[0] == "" {
      StripTwice(opts[1..]);
    }
  }

  lemma PrintSnoc(opts: seq<string>, o: string)
    ensures Print(opts + [o]) == Some(AddOpt(Print(opts), o))
  {
    assert (opts + [o])[..|opts|] == opts;
  }

  lemma {:induction false} SplitCStrings(s: string, cur: string)
    ensures CStrings(Split(s, cur))
    decreases |s|
  {
    if s != "" {
      if s[0] == ',' {
        SplitCStrings(s[1..], "");
      } else {
        SplitCStrings(s[Unit(s).0..], cur + [Unit(s).1]);
      }
    }
  }

  // ---- octal escapes ----

  function Digit(d: int): char
    requires 0 <= d < 8
  {
    (48 + d) as char
  }

  /** A byte written as a backslash and three octal digits. */
  function Octal(c: char): string
    requires c as int < 256
  {
    ['\\', Digit(c as int / 64), Digit(c as int / 8 % 8), Digit(c as int % 8)]
  }

  predicate Bytes(s: string) {
    forall i {:trigger s[i]} :: 0 <= i < |s| ==> s[i] as int < 256
  }

  function AllOctal(s: string): string
    requires Bytes(s)
  {
    if s == "" then "" else Octal(s[0]) + AllOctal(s[1..])
  }

  lemma OctalDigits(n: int)
    requires 0 <= n < 256
    ensures 0 <= n / 64 < 4 && 0 <= n / 8 % 8 < 8 && n == n / 64 * 64 + n / 8 % 8 * 8 + n % 8
  {
    assert n / 8 / 8 == n / 64;
  }

  /** An octal escape is read as one character, the byte it stands for. */
  lemma OctalUnit(c: char, rest: string)
    requires c as int < 256
    ensures Unit(Octal(c) + rest) == (4, c) && (Octal(c) + rest)[4..] == rest
  {
    OctalDigits(c as int);
    var s := Octal(c) + rest;
    assert s[1] == Digit(c as int / 64) && s[2] == Digit(c as int / 8 % 8) && s[3] == Digit(c as int % 8);
  }

  lemma {:induction false} SplitOctal(s: string, cur: string, rest: string)
    requires Bytes(s)
    ensures Split(AllOctal(s) + rest, cur) == Split(rest, cur + s)
    decreases |s|
  {
    hide Unit, Octal;
    if s == "" {
      assert AllOctal(s) + rest == rest && cur + s == cur;
    } else {
      var c, tail := s[0], s[1..];
      assert forall i {:trigger tail[i]} :: 0 <= i < |tail| ==> tail[i] == s[i + 1];
      OctalUnit(c, AllOctal(tail) + rest);
      OctalStart(c, AllOctal(tail) + rest);
      assert AllOctal(s) + rest == Octal(c) + (AllOctal(tail) + rest);
      SplitOctal(tail, cur + [c], rest);
      assert cur + [c] + tail == cur + s;
    }
  }

  lemma OctalStart(c: char, rest: string)
    requires c as int < 256
    ensures Octal(c) + rest != "" && (Octal(c) + rest)[0] == '\\'
  {
  }

  /** An option written in octal escapes throughout, commas and backslashes included, is the
      only option of its group. */
  lemma OctalGroup(s: string)
    requires Bytes(s) && CString(s)
    ensures ParseGroup(AllOctal(s)) == [s]
  {
    SplitOctal(s, "", "");
    assert AllOctal(s) + "" == AllOctal(s) && "" + s == s;
  }
}
