/** The parser of lib/fuse_opt.c as it runs: a context updated step by step and option strings
    unescaped in place. It does what the functions of module OptionTable say. */
module OptionParserObject {
  import opened Basics
  import opened Options
  import opened OptionTable

  lemma GroupStep(cfg: Config, argv: seq<string>, c: Ctx, o: string, rest: seq<string>)
    requires 0 <= c.at
    ensures Group(cfg, argv, c, [o] + rest) ==
      var d := Gopt(cfg, argv, c, o, true);
      if d.None? then None else Group(cfg, argv, d.value, rest)
  {
    assert ([o] + rest)[1..] == rest;
  }

  lemma GroupDone(cfg: Config, argv: seq<string>, c: Ctx)
    requires 0 <= c.at
    ensures Group(cfg, argv, c, []) == Some(c)
  {
  }

  /** The templates that do not match make no difference. */
  lemma {:induction false} SkipTo(cfg: Config, argv: seq<string>, c: Ctx, j: int, arg: string, iso: bool)
    requires 0 <= j <= |cfg.table| && 0 <= c.at
    ensures OfferAll(cfg, argv, c, j, arg, iso) == OfferAll(cfg, argv, c, FindOpt(cfg.table, j, arg), arg, iso)
    decreases |cfg.table| - j
  {
    hide Match;
    if j < |cfg.table| && Match(cfg.table[j].templ, arg).None? {
      SkipTo(cfg, argv, c, j + 1, arg, iso);
    }
  }

  lemma OfferStep(cfg: Config, argv: seq<string>, c: Ctx, j: int, arg: string, iso: bool)
    requires 0 <= j <= |cfg.table| && 0 <= c.at && (j < |cfg.table| ==> Match(cfg.table[j].templ, arg).Some?)
    ensures OfferAll(cfg, argv, c, j, arg, iso) ==
      if j == |cfg.table| then Some(c)
      else
        var d := Offer(cfg, argv, c, cfg.table[j], arg, iso);
        if d.None? then None else OfferAll(cfg, argv, d.value, j + 1, arg, iso)
  {
    hide Match;
  }

  lemma EscapeStep(opt: string, i: int)
    requires 0 <= i < |opt|
    ensures Escape(opt[..i + 1]) ==
      Escape(opt[..i]) + if opt[i] == ',' || opt[i] == '\\' then ['\\', opt[i]] else [opt[i]]
  {
    assert opt[..i + 1][..i] == opt[..i];
  }

  /** The copying loop of add_opt_common(), with escaping, behind what is there already. */
  method AppendEscaped(head: string, opt: string) returns (d: string)
    ensures d == head + Escape(opt)
  {
    d := head;
    for i := 0 to |opt|
      invariant d == head + Escape(opt[..i])
    {
      EscapeStep(opt, i);
      if opt[i] == ',' || opt[i] == '\\' {
        d := d + ['\\'];
      }
      d := d + [opt[i]];
    }
    assert opt[..|opt|] == opt;
  }

  class Parser {
    const cfg: Config
    const argv: seq<string>
    var argctr: int
    var out: seq<string>
    var opts: Option<string>
    var nonopt: int
    /** An allocation has failed. */
    var starved: bool
    /** The options that `opts` was printed from, and the joins so far. */
    ghost var kept: seq<string>
    ghost var joins: int

    ghost function View(): Ctx
      reads this
    {
      Ctx(argctr, out, kept, nonopt, joins)
    }

    ghost predicate Valid()
      reads this
    {
      0 <= argctr && opts == Print(kept)
    }

    /** A step succeeds with the context it should, or fails as it should or for lack of memory. */
    ghost predicate Result(ok: bool, before: bool, expected: Option<Ctx>)
      reads this
    {
      if ok then expected == Some(View()) && starved == before else starved || expected == None
    }

    constructor (argv: seq<string>, cfg: Config)
      ensures this.argv == argv && this.cfg == cfg && Valid() && View() == Ctx(0, [], [], 0, 0) && !starved
    {
      this.argv, this.cfg := argv, cfg;
      argctr, out, opts, nonopt, starved := 0, [], None, 0, false;
      kept, joins := [], 0;
    }

    /** add_opt_common() with escaping. */
    method AddOptEscaped(opt: string) returns (ok: bool)
      requires Valid()
      modifies this`opts, this`kept, this`starved
      ensures Valid() && Result(ok, old(starved), Some(old(View()).Add(opt, true)))
      ensures opts == if ok then Some(AddOpt(old(opts), opt)) else old(opts)
    {
      hide Print;
      var enough: bool := *;
      if !enough {
        starved := true;
        return false;
      }
      var d := if opts.Some? then opts.value else "";
      if d != "" {
        d := d + ",";
      }
      d := AppendEscaped(d, opt);
      PrintSnoc(kept, opt);
      opts := Some(d);
      kept := kept + [opt];
      return true;
    }

    method AddArgument(arg: string) returns (ok: bool)
      modifies this`out, this`starved
      ensures Result(ok, old(starved), Some(old(View()).Add(arg, false)))
      ensures out == if ok then old(out) + [arg] else old(out)
    {
      var enough: bool := *;
      if !enough {
        starved := true;
        return false;
      }
      out := out + [arg];
      return true;
    }

    /** call_proc(). */
    method CallProc(arg: string, key: int, iso: bool) returns (ok: bool)
      requires Valid()
      modifies this`opts, this`kept, this`out, this`starved
      ensures Valid() && Result(ok, old(starved), OptionTable.CallProc(cfg, old(View()), arg, key, iso))
    {
      if key == KEY_DISCARD {
        return true;
      }
      if key != KEY_KEEP {
        var v := cfg.proc(arg, key);
        if v == Fail || v == Drop {
          return v == Drop;
        }
      }
      if iso {
        ok := AddOptEscaped(arg);
      } else {
        ok := AddArgument(arg);
      }
    }

    /** process_opt(); the copy of a "%s" parameter can fail for lack of memory. */
    method ProcessOpt(t: Template, sep: int, arg: string, iso: bool) returns (ok: bool)
      requires Valid() && 0 <= sep && (sep > 0 ==> sep < |t.templ| && sep <= |arg|)
      modifies this`opts, this`kept, this`out, this`starved
      ensures Valid() && Result(ok, old(starved), Apply(cfg, old(View()), t, sep, arg, iso))
    {
      if !t.stores {
        ok := CallProc(arg, t.value, iso);
      } else if sep > 0 && sep + 1 < |t.templ| {
        var param := Parameter(t.templ, sep, arg);
        if sep + 2 < |t.templ| && t.templ[sep + 2] == 's' {
          var enough: bool := *;
          starved := starved || !enough;
          ok := enough;
        } else {
          ok := cfg.scans(t.templ[sep + 1..], param);
        }
      } else {
        ok := true;
      }
    }

    /** process_opt_sep_arg(). */
    method ProcessOptSepArg(t: Template, sep: int, arg: string, iso: bool) returns (ok: bool)
      requires Valid() && Match(t.templ, arg) == Some(sep) && Hungry(t, arg)
      modifies this`argctr, this`joins, this`opts, this`kept, this`out, this`starved
      ensures Valid() && Result(ok, old(starved), Offer(cfg, argv, old(View()), t, arg, iso))
    {
      if argctr + 1 >= |argv| {
        return false;
      }
      argctr, joins := argctr + 1, joins + 1;
      var enough: bool := *;
      if !enough {
        starved := true;
        return false;
      }
      ok := ProcessOpt(t, sep, arg[..sep] + argv[argctr], iso);
    }

    /** find_opt() from template `from` on. */
    method Find(from: int, arg: string) returns (j: int)
      requires 0 <= from <= |cfg.table|
      ensures j == FindOpt(cfg.table, from, arg)
    {
      hide Match;
      j := from;
      while j < |cfg.table| && Match(cfg.table[j].templ, arg).None?
        invariant from <= j <= |cfg.table| && FindOpt(cfg.table, from, arg) == FindOpt(cfg.table, j, arg)
      {
        j := j + 1;
      }
    }

    /** process_gopt(): every template that matches has its turn. */
    method ProcessGopt(arg: string, iso: bool) returns (ok: bool)
      requires Valid()
      modifies this`argctr, this`joins, this`opts, this`kept, this`out, this`starved
      ensures Valid() && Result(ok, old(starved), Gopt(cfg, argv, old(View()), arg, iso))
    {
      hide Match, Offer, OfferAll, OptionTable.CallProc, Print, FindOpt;
      var j := Find(0, arg);
      if j == |cfg.table| {
        ok := CallProc(arg, KEY_OPT, iso);
        return;
      }
      ghost var goal := OfferAll(cfg, argv, View(), 0, arg, iso);
      SkipTo(cfg, argv, View(), 0, arg, iso);
      while j < |cfg.table|
        invariant 0 <= j <= |cfg.table| && Valid() && starved == old(starved)
        invariant j < |cfg.table| ==> Match(cfg.table[j].templ, arg).Some?
        invariant goal == OfferAll(cfg, argv, View(), j, arg, iso)
      {
        var t := cfg.table[j];
        OfferStep(cfg, argv, View(), j, arg, iso);
        ok := OfferTo(t, arg, iso);
        if !ok {
          return;
        }
        SkipTo(cfg, argv, View(), j + 1, arg, iso);
        j := Find(j + 1, arg);
      }
      OfferStep(cfg, argv, View(), j, arg, iso);
      return true;
    }

    method OfferTo(t: Template, arg: string, iso: bool) returns (ok: bool)
      requires Valid() && Match(t.templ, arg).Some?
      modifies this`argctr, this`joins, this`opts, this`kept, this`out, this`starved
      ensures Valid() && Result(ok, old(starved), Offer(cfg, argv, old(View()), t, arg, iso))
    {
      var sep := Match(t.templ, arg).value;
      if sep > 0 && t.templ[sep] == ' ' && |arg| == sep {
        ok := ProcessOptSepArg(t, sep, arg, iso);
      } else {
        ok := ProcessOpt(t, sep, arg, iso);
      }
    }

    /** process_real_option_group(): the write position never overtakes the read position. */
    method ProcessGroup(text: string) returns (ok: bool)
      requires CString(text) && Valid()
      modifies this`argctr, this`opts, this`kept, this`joins, this`starved, this`out
      ensures Valid() && Result(ok, old(starved), Group(cfg, argv, old(View()), ParseGroup(text)))
    {
      hide Group, Cut, Escape, Split, Unit, Print;
      var n := |text|;
      var buf := new char[n + 1](i => if 0 <= i < n then text[i] else '\0');
      var s, d := 0, 0;
      ghost var goal := Group(cfg, argv, View(), ParseGroup(text));
      assert text[0..] == text && buf[..0] == "";
      while true
        invariant 0 <= d <= s <= n && starved == old(starved) && Valid()
        invariant forall i {:trigger buf[i]} :: s <= i <= n ==> buf[i] == if i < n then text[i] else '\0'
        invariant goal == Group(cfg, argv, View(), Split(text[s..], buf[..d]))
        decreases n - s
      {
        ghost var cur := buf[..d];
        SplitAt(text, s, cur);
        if buf[s] == '\0' || buf[s] == ',' {
          var end := s == n;
          buf[d] := '\0';
          assert buf[..d] == cur;
          var arg := Cut(buf[..d]);
          GroupStep(cfg, argv, View(), arg, if end then [] else Split(text[s + 1..], ""));
          ok := ProcessGopt(arg, true);
          if !ok {
            return;
          }
          d := 0;
          if end {
            GroupDone(cfg, argv, View());
            return true;
          }
          assert buf[..0] == "";
          s := s + 1;
        } else {
          var len, c := ReadUnit(buf, s, n, text);
          buf[d] := c;
          assert buf[..d + 1] == cur + [c];
          d := d + 1;
          s := s + len;
        }
      }
    }

    /** The escape at the read position, if there is one. */
    method ReadUnit(buf: array<char>, s: int, n: int, text: string) returns (len: int, c: char)
      requires n == |text| && buf.Length == n + 1 && 0 <= s < n && CString(text)
      requires forall i {:trigger buf[i]} :: s <= i <= n ==> buf[i] == if i < n then text[i] else '\0'
      ensures (len, c) == Unit(text[s..])
    {
      len, c := 1, buf[s];
      if buf[s] == '\\' && buf[s + 1] != '\0' {
        if '0' <= buf[s + 1] <= '3' && '0' <= buf[s + 2] <= '7' && '0' <= buf[s + 3] <= '7' {
          len, c := 4,
            (((buf[s + 1] as int - 48) * 64 + (buf[s + 2] as int - 48) * 8 + (buf[s + 3] as int - 48)) as char);
        } else {
          len, c := 2, buf[s + 1];
        }
      }
    }

    /** process_option_group(): on a copy of the text, if there is memory for one. */
    method ProcessOptionGroup(text: string) returns (ok: bool)
      requires CString(text) && Valid()
      modifies this`argctr, this`opts, this`kept, this`joins, this`starved, this`out
      ensures Valid() && Result(ok, old(starved), Group(cfg, argv, old(View()), ParseGroup(text)))
    {
      var enough: bool := *;
      if !enough {
        starved := true;
        return false;
      }
      ok := ProcessGroup(text);
    }

    /** process_one(): argctr ends on the last argument used. */
    method ProcessOne() returns (ok: bool)
      requires Valid() && argctr < |argv| && CStrings(argv)
      modifies this
      ensures Valid() && Result(ok, old(starved), One(cfg, argv, old(View())))
    {
      hide Group, Split, Gopt, OptionTable.CallProc, Print;
      var arg := argv[argctr];
      if nonopt != 0 || arg == "" || arg[0] != '-' {
        ok := CallProc(arg, KEY_NONOPT, false);
      } else if |arg| > 1 && arg[1] == 'o' {
        if |arg| > 2 {
          ok := ProcessOptionGroup(arg[2..]);
        } else if argctr + 1 >= |argv| {
          ok := false;
        } else {
          argctr := argctr + 1;
          ok := ProcessOptionGroup(argv[argctr]);
        }
      } else if |arg| == 2 && arg[1] == '-' {
        ok := AddArgument(arg);
        if ok {
          nonopt := |out|;
        }
      } else {
        ok := ProcessGopt(arg, false);
      }
    }

    /** opt_parse(). */
    method OptParse() returns (ok: bool)
      requires Valid() && View() == Ctx(0, [], [], 0, 0) && CStrings(argv) && !starved
      modifies this
      ensures ok ==> Parse(cfg, argv) == Some(out)
      ensures !ok ==> starved || Parse(cfg, argv) == None
    {
      hide One, Run, Print;
      if argv != [] {
        ok := AddArgument(argv[0]);
        if !ok {
          return;
        }
        assert [] + [argv[0]] == [argv[0]];
      }
      argctr := 1;
      ghost var start := View();
      while argctr < |argv|
        invariant 1 <= argctr && !starved && Valid() && (argv == [] ==> View() == start)
        invariant argv != [] ==> Run(cfg, argv, start) == Run(cfg, argv, View()) && start.Before(View())
        decreases |argv| - argctr
      {
        ghost var c := View();
        RunStep(cfg, argv, c);
        ok := ProcessOne();
        if !ok {
          return;
        }
        argctr := argctr + 1;
      }
      RunEnd(cfg, argv, View());
      PrintedIff(kept);
      if opts.Some? {
        var enough: bool := *;
        if !enough {
          starved := true;
          return false;
        }
        out := out[..1] + ["-o", opts.value] + out[1..];
      }
      if nonopt != 0 && nonopt == |out| && out[|out| - 1] == "--" {
        out := out[..|out| - 1];
      }
      return true;
    }
  }

  lemma PrintedIff(kept: seq<string>)
    ensures Print(kept).Some? <==> kept != []
  {
  }

  lemma RunStep(cfg: Config, argv: seq<string>, c: Ctx)
    requires 0 <= c.at < |argv|
    ensures Run(cfg, argv, c) ==
      var d := One(cfg, argv, c);
      if d.None? then None else Run(cfg, argv, d.value.(at := d.value.at + 1))
  {
  }

  /** What the read position decides. */
  lemma SplitAt(text: string, s: int, cur: string)
    requires 0 <= s <= |text| && CString(text)
    ensures s == |text| ==> Split(text[s..], cur) == [Cut(cur)] + []
    ensures s < |text| ==> text[s] != '\0' && 1 <= Unit(text[s..]).0 <= |text| - s
    ensures s < |text| && text[s] == ',' ==> Split(text[s..], cur) == [Cut(cur)] + Split(text[s + 1..], "")
    ensures s < |text| && text[s] != ',' ==>
      Split(text[s..], cur) == Split(text[s + Unit(text[s..]).0..], cur + [Unit(text[s..]).1])
  {
    if s < |text| {
      var u := Unit(text[s..]);
      assert text[s..][1..] == text[s + 1..] && text[s..][u.0..] == text[s + u.0..];
    }
  }
}
