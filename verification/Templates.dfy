/** What the templates of lib/fuse_opt.h promise: which arguments match a name with and without
    a parameter, what the parameter is, and what becomes of a matching option. */
module Templates {
  import opened Basics
  import opened OptionTable

  /** The first separator of a template is the mark after `name`: an equals sign counts before
      a space. */
  predicate Marked(name: string, mark: char, rest: string) {
    && name != "" && '=' !in name
    && (mark == '=' || (mark == ' ' && ' ' !in name && '=' !in rest))
  }

  /** What may follow the separator: nothing, or a format. */
  predicate Format(fmt: string) {
    fmt == "" || fmt[0] == '%'
  }

  lemma {:induction false} IndexOfAt(text: string, mark: char, k: int)
    requires 0 <= k <= |text| && mark !in text[..k] && (k < |text| ==> text[k] == mark)
    ensures IndexOf(text, mark) == k
    decreases |text|
  {
    if k > 0 {
      assert text[0] in text[..k];
      assert text[1..][..k - 1] == text[1..k];
      assert forall c :: c in text[1..k] ==> c in text[..k];
      IndexOfAt(text[1..], mark, k - 1);
    }
  }

  lemma SeparatorAt(name: string, mark: char, fmt: string)
    requires Marked(name, mark, fmt)
    ensures Separator(name + [mark] + fmt) == |name|
  {
    var t := name + [mark] + fmt;
    assert t[..|name|] == name;
    if mark == '=' {
      IndexOfAt(t, '=', |name|);
    } else {
      assert t[..|t|] == t;
      IndexOfAt(t, '=', |t|);
      IndexOfAt(t, ' ', |name|);
    }
  }

  lemma FrontIs(name: string, mark: char, fmt: string)
    requires Marked(name, mark, fmt) && Format(fmt)
    ensures Front(name + [mark] + fmt) == Some(if mark == '=' then name + "=" else name)
  {
    var t := name + [mark] + fmt;
    SeparatorAt(name, mark, fmt);
    assert t[..|name|] == name && t[..|name| + 1] == name + [mark];
    assert fmt != "" ==> t[|name| + 1] == fmt[0];
  }

  /** "name=" with or without a format: every argument that begins with it, and the rest of the
      argument is the parameter. */
  lemma EqualsTemplate(name: string, fmt: string, arg: string)
    requires Marked(name, '=', fmt) && Format(fmt)
    ensures var t := name + "=" + fmt;
      && (Match(t, arg).Some? <==> name + "=" <= arg)
      && (Match(t, arg).Some? ==> Match(t, arg).value == |name| && arg == name + "=" + Parameter(t, |name|, arg))
  {
    var t := name + "=" + fmt;
    SeparatorAt(name, '=', fmt);
    FrontIs(name, '=', fmt);
    assert name + "=" <= t;
    if name + "=" <= arg {
      assert arg == name + "=" + arg[|name| + 1..];
    }
  }

  /** "name " with or without a format: every argument that begins with the name; what follows
      the name is the parameter, and when nothing does it is the next argument. */
  lemma SpaceTemplate(tt: Template, name: string, fmt: string, arg: string)
    requires Marked(name, ' ', fmt) && Format(fmt) && tt.templ == name + " " + fmt
    ensures var t := tt.templ;
      && (Match(t, arg).Some? <==> name <= arg)
      && (Match(t, arg).Some? ==> Match(t, arg).value == |name| && arg == name + Parameter(t, |name|, arg))
      && (Hungry(tt, arg) <==> arg == name)
  {
    var t := tt.templ;
    SeparatorAt(name, ' ', fmt);
    FrontIs(name, ' ', fmt);
    assert name <= t && t[|name|] == ' ';
    if name <= arg {
      assert arg == name + arg[|name|..];
    }
  }

  /** Any other template: only the argument that is the same. */
  lemma PlainTemplate(tt: Template, name: string, mark: char, rest: string, arg: string)
    requires || (tt.templ == name && '=' !in name && ' ' !in name)
             || (tt.templ == name + [mark] + rest && Marked(name, mark, rest) && !Format(rest))
    ensures Match(tt.templ, arg) == (if arg == tt.templ then Some(0) else None) && !Hungry(tt, arg)
  {
    var t := tt.templ;
    if t == name && '=' !in name && ' ' !in name {
      assert t[..|t|] == t;
      IndexOfAt(t, '=', |t|);
      IndexOfAt(t, ' ', |t|);
    } else {
      SeparatorAt(name, mark, rest);
    }
  }

  // ---- what becomes of the option ----

  /** The template keeps or discards what it matches, by its key alone. */
  predicate Plain(t: Template, arg: string) {
    Match(t.templ, arg).Some? ==> !t.stores && !Hungry(t, arg) && (t.value == KEY_KEEP || t.value == KEY_DISCARD)
  }

  /** How many templates from `j` on keep the option. */
  function Keepers(table: seq<Template>, j: int, arg: string): nat
    requires 0 <= j <= |table|
    decreases |table| - j
  {
    if j == |table| then 0
    else (if Match(table[j].templ, arg).Some? && table[j].value == KEY_KEEP then 1 else 0) + Keepers(table, j + 1, arg)
  }

  function Copies(arg: string, n: nat): seq<string> {
    seq(n, _ => arg)
  }

  /** The context after `n` more copies of the option, where options of its kind go. */
  function Put(c: Ctx, arg: string, n: nat, iso: bool): Ctx {
    if iso then c.(kept := c.kept + Copies(arg, n)) else c.(out := c.out + Copies(arg, n))
  }

  lemma PutMore(c: Ctx, arg: string, n: nat, iso: bool)
    ensures Put(c, arg, 0, iso) == c && Put(c.Add(arg, iso), arg, n, iso) == Put(c, arg, n + 1, iso)
  {
    assert Copies(arg, n + 1) == [arg] + Copies(arg, n);
    assert c.kept + Copies(arg, 0) == c.kept && c.out + Copies(arg, 0) == c.out;
    assert c.kept + [arg] + Copies(arg, n) == c.kept + Copies(arg, n + 1);
    assert c.out + [arg] + Copies(arg, n) == c.out + Copies(arg, n + 1);
  }

  /** An option is put out once for every template that says KEEP and not at all for one that
      says DISCARD. */
  lemma {:induction false} KeptForEach(cfg: Config, argv: seq<string>, c: Ctx, j: int, arg: string, iso: bool)
    requires 0 <= j <= |cfg.table| && 0 <= c.at
    requires forall i {:trigger cfg.table[i]} :: j <= i < |cfg.table| ==> Plain(cfg.table[i], arg)
    ensures OfferAll(cfg, argv, c, j, arg, iso) == Some(Put(c, arg, Keepers(cfg.table, j, arg), iso))
    decreases |cfg.table| - j
  {
    hide Put, Match;
    if j == |cfg.table| {
      PutMore(c, arg, 0, iso);
    } else {
      var t := cfg.table[j];
      assert Plain(t, arg);
      var n := Keepers(cfg.table, j + 1, arg);
      var d := if Match(t.templ, arg).Some? && t.value == KEY_KEEP then c.Add(arg, iso) else c;
      PutMore(c, arg, n, iso);
      KeptForEach(cfg, argv, d, j + 1, arg, iso);
    }
  }

  // ---- plain words ----

  /** The words that the callback keeps. */
  function KeptWords(cfg: Config, words: seq<string>): seq<string> {
    if words == [] then []
    else (if cfg.proc(words[0], KEY_NONOPT) == Keep then [words[0]] else []) + KeptWords(cfg, words[1..])
  }

  predicate Refused(cfg: Config, word: string) {
    cfg.proc(word, KEY_NONOPT) == Fail
  }

  /** Behind a "--", and as long as nothing begins with a dash, every argument goes to the
      callback as a word. */
  lemma {:induction false} WordsOnly(cfg: Config, argv: seq<string>, c: Ctx)
    requires 0 <= c.at <= |argv|
    requires c.nonopt != 0 || forall i {:trigger argv[i]} :: c.at <= i < |argv| ==> !Dashed(argv[i])
    ensures Run(cfg, argv, c) ==
      if exists i {:trigger argv[i]} :: c.at <= i < |argv| && Refused(cfg, argv[i]) then None
      else Some(c.(at := |argv|, out := c.out + KeptWords(cfg, argv[c.at..])))
    decreases |argv| - c.at
  {
    if c.at == |argv| {
      assert c.out + [] == c.out;
    } else {
      var d := CallProc(cfg, c, argv[c.at], KEY_NONOPT, false);
      assert One(cfg, argv, c) == d;
      assert argv[c.at..][1..] == argv[c.at + 1..];
      if d.Some? {
        WordsOnly(cfg, argv, d.value.(at := c.at + 1));
        var rest := KeptWords(cfg, argv[c.at + 1..]);
        assert c.out + [argv[c.at]] + rest == c.out + ([argv[c.at]] + rest);
        assert [] + rest == rest;
      }
    }
  }

  /** A vector of plain words: the callback decides which of them stay. */
  lemma PlainWords(cfg: Config, argv: seq<string>)
    requires argv != [] && forall i {:trigger argv[i]} :: 1 <= i < |argv| ==> !Dashed(argv[i])
    ensures Parse(cfg, argv) ==
      if exists i {:trigger argv[i]} :: 1 <= i < |argv| && Refused(cfg, argv[i]) then None
      else Some([argv[0]] + KeptWords(cfg, argv[1..]))
  {
    WordsOnly(cfg, argv, Ctx(1, [argv[0]], [], 0, 0));
  }
}
