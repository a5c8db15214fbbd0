/** Templates and opt_parse() of lib/fuse_opt.c. An option is offered to every template it
    matches, so one option can be kept several times, and a template that ends in a space
    takes its parameter from the next argument. The caller's callback is a parameter. */
module OptionTable {
  import opened Basics
  import opened Options

  const KEY_OPT := -1
  const KEY_NONOPT := -2
  const KEY_KEEP := -3
  const KEY_DISCARD := -4

  /** `struct fuse_opt`: what it matches, whether it stores (an offset is given), its value. */
  datatype Template = Template(templ: string, stores: bool, value: int)

  datatype Verdict = Keep | Drop | Fail

  /** The templates, the callback (which keeps everything if there is none), and whether
      sscanf() takes a parameter for a template. */
  datatype Config = Config(table: seq<Template>, proc: (string, int) -> Verdict, scans: (string, string) -> bool)

  // ---- matching ----

  /** strchr(), with the length for "not found". */
  function IndexOf(text: string, mark: char): (k: int)
    ensures 0 <= k <= |text|
  {
    if text == "" || text[0] == mark then 0 else 1 + IndexOf(text[1..], mark)
  }

  /** The first occurrence. */
  lemma {:induction false} IndexOfIs(text: string, mark: char)
    ensures var k := IndexOf(text, mark); mark !in text[..k] && (k < |text| ==> text[k] == mark)
    decreases |text|
  {
    if text != "" && text[0] != mark {
      IndexOfIs(text[1..], mark);
      var k := IndexOf(text[1..], mark);
      assert text[..k + 1] == [text[0]] + text[1..][..k];
    }
  }

  /** Where the parameter of a template would begin. */
  function Separator(t: string): (k: int)
    ensures 0 <= k <= |t|
  {
    if IndexOf(t, '=') < |t| then IndexOf(t, '=') else IndexOf(t, ' ')
  }

  /** The part of a template that must stand in front of a parameter, if it takes one. */
  function Front(t: string): Option<string> {
    var sep := Separator(t);
    if sep == |t| || (sep + 1 < |t| && t[sep + 1] != '%') then None
    else Some(t[..if t[sep] == '=' then sep + 1 else sep])
  }

  /** match_template(): the position of the separator, or zero for an exact match. */
  function Match(t: string, arg: string): (r: Option<int>)
    ensures r.Some? ==> 0 <= r.value && (r.value > 0 ==> r.value < |t| && r.value <= |arg|)
  {
    if Front(t).Some? && Front(t).value <= arg then Some(Separator(t))
    else if t == arg then Some(0) else None
  }

  /** find_opt() from template `j` on. */
  function FindOpt(table: seq<Template>, j: int, arg: string): (r: int)
    requires 0 <= j <= |table|
    ensures j <= r <= |table| && (r < |table| ==> Match(table[r].templ, arg).Some?)
    ensures forall i {:trigger table[i]} :: j <= i < r ==> Match(table[i].templ, arg).None?
    decreases |table| - j
  {
    if j == |table| || Match(table[j].templ, arg).Some? then j else FindOpt(table, j + 1, arg)
  }

  // ---- one option ----

  /** `struct fuse_opt_context`: the argument being read, the output so far, the options kept
      for the "-o" of the output, the length of the output after a "--" (or zero), and how
      often an option was joined with the argument after it. */
  datatype Ctx = Ctx(at: int, out: seq<string>, kept: seq<string>, nonopt: int, joins: int)
  {
    /** What every step keeps. */
    ghost predicate Before(d: Ctx) {
      at <= d.at && joins <= d.joins && out <= d.out && kept <= d.kept
    }

    function Add(arg: string, iso: bool): Ctx {
      if iso then this.(kept := kept + [arg]) else this.(out := out + [arg])
    }
  }

  function Ask(cfg: Config, arg: string, key: int): Verdict {
    if key == KEY_DISCARD then Drop else if key == KEY_KEEP then Keep else cfg.proc(arg, key)
  }

  /** call_proc(). */
  function CallProc(cfg: Config, c: Ctx, arg: string, key: int, iso: bool): (r: Option<Ctx>)
    ensures r.Some? ==> c.Before(r.value)
  {
    match Ask(cfg, arg, key)
    case Fail => None
    case Drop => Some(c)
    case Keep => Some(c.Add(arg, iso))
  }

  /** The parameter in an argument that matched with the separator at `sep`. */
  function Parameter(t: string, sep: int, arg: string): string
    requires 0 < sep < |t| && sep <= |arg|
  {
    if t[sep] == '=' && sep < |arg| then arg[sep + 1..] else arg[sep..]
  }

  /** The parameter is read by sscanf(); after "%s" it is only copied. */
  predicate Scanned(t: string, sep: int)
    requires 0 < sep < |t|
  {
    sep + 1 < |t| && !(sep + 2 < |t| && t[sep + 2] == 's')
  }

  /** What process_opt() decides. */
  function Decide(cfg: Config, t: Template, sep: int, arg: string): Verdict
    requires 0 <= sep && (sep > 0 ==> sep < |t.templ| && sep <= |arg|)
  {
    if !t.stores then Ask(cfg, arg, t.value)
    else if sep > 0 && Scanned(t.templ, sep) && !cfg.scans(t.templ[sep + 1..], Parameter(t.templ, sep, arg)) then Fail
    else Drop
  }

  /** process_opt(). */
  function Apply(cfg: Config, c: Ctx, t: Template, sep: int, arg: string, iso: bool): (r: Option<Ctx>)
    requires 0 <= sep && (sep > 0 ==> sep < |t.templ| && sep <= |arg|)
    ensures r.Some? ==> c.Before(r.value)
  {
    match Decide(cfg, t, sep, arg)
    case Fail => None
    case Drop => Some(c)
    case Keep => Some(c.Add(arg, iso))
  }

  /** The template takes its parameter from the next argument. */
  predicate Hungry(t: Template, arg: string) {
    var m := Match(t.templ, arg);
    m.Some? && m.value > 0 && t.templ[m.value] == ' ' && m.value == |arg|
  }

  /** process_opt_sep_arg(), or process_opt(). */
  function Offer(cfg: Config, argv: seq<string>, c: Ctx, t: Template, arg: string, iso: bool): (r: Option<Ctx>)
    requires Match(t.templ, arg).Some? && 0 <= c.at
    ensures r.Some? ==> c.Before(r.value)
  {
    var sep := Match(t.templ, arg).value;
    if !Hungry(t, arg) then Apply(cfg, c, t, sep, arg, iso)
    else if c.at + 1 >= |argv| then None
    else Apply(cfg, c.(at := c.at + 1, joins := c.joins + 1), t, sep, arg[..sep] + argv[c.at + 1], iso)
  }

  /** The option is offered to every template that it matches, from template `j` on. */
  function OfferAll(cfg: Config, argv: seq<string>, c: Ctx, j: int, arg: string, iso: bool): (r: Option<Ctx>)
    requires 0 <= j <= |cfg.table| && 0 <= c.at
    ensures r.Some? ==> c.Before(r.value)
    decreases |cfg.table| - j
  {
    if j == |cfg.table| then Some(c)
    else if Match(cfg.table[j].templ, arg).None? then OfferAll(cfg, argv, c, j + 1, arg, iso)
    else
      var d := Offer(cfg, argv, c, cfg.table[j], arg, iso);
      if d.None? then None else OfferAll(cfg, argv, d.value, j + 1, arg, iso)
  }

  /** process_gopt(). */
  function Gopt(cfg: Config, argv: seq<string>, c: Ctx, arg: string, iso: bool): (r: Option<Ctx>)
    requires 0 <= c.at
    ensures r.Some? ==> c.Before(r.value)
  {
    if FindOpt(cfg.table, 0, arg) < |cfg.table| then OfferAll(cfg, argv, c, 0, arg, iso)
    else CallProc(cfg, c, arg, KEY_OPT, iso)
  }

  // ---- the whole vector ----

  /** process_real_option_group() on the options of a group. */
  function Group(cfg: Config, argv: seq<string>, c: Ctx, options: seq<string>): (r: Option<Ctx>)
    requires 0 <= c.at
    ensures r.Some? ==> c.Before(r.value)
    decreases |options|
  {
    if options == [] then Some(c)
    else
      var d := Gopt(cfg, argv, c, options[0], true);
      if d.None? then None else Group(cfg, argv, d.value, options[1..])
  }

  predicate IsGroup(arg: string) {
    |arg| > 1 && arg[0] == '-' && arg[1] == 'o'
  }

  /** The argument is an option rather than a plain word, when no "--" came before. */
  predicate Dashed(arg: string) {
    arg != "" && arg[0] == '-'
  }

  /** process_one() on the argument at `c.at`. */
  function One(cfg: Config, argv: seq<string>, c: Ctx): (r: Option<Ctx>)
    requires 0 <= c.at < |argv|
    ensures r.Some? ==> c.Before(r.value)
  {
    var arg := argv[c.at];
    if c.nonopt != 0 || !Dashed(arg) then CallProc(cfg, c, arg, KEY_NONOPT, false)
    else if IsGroup(arg) then
      if |arg| > 2 then Group(cfg, argv, c, ParseGroup(arg[2..]))
      else if c.at + 1 >= |argv| then None
      else Group(cfg, argv, c.(at := c.at + 1), ParseGroup(argv[c.at + 1]))
    else if arg == "--" then Some(c.(out := c.out + [arg], nonopt := |c.out| + 1))
    else Gopt(cfg, argv, c, arg, false)
  }

  function Run(cfg: Config, argv: seq<string>, c: Ctx): (r: Option<Ctx>)
    requires 0 <= c.at
    ensures r.Some? ==> c.Before(r.value)
    decreases |argv| - c.at
  {
    if c.at >= |argv| then Some(c)
    else
      var d := One(cfg, argv, c);
      if d.None? then None else Run(cfg, argv, d.value.(at := d.value.at + 1))
  }

  lemma RunEnd(cfg: Config, argv: seq<string>, c: Ctx)
    requires 0 <= c.at && |argv| <= c.at
    ensures Run(cfg, argv, c) == Some(c)
  {
  }

  /** The printed options go to the front; a "--" at the very end goes away. */
  function Finish(c: Ctx): seq<string> {
    var out := if c.kept != [] && c.out != [] then c.out[..1] + ["-o", Print(c.kept).value] + c.out[1..] else c.out;
    if c.nonopt != 0 && c.nonopt == |out| && out[|out| - 1] == "--" then out[..|out| - 1] else out
  }

  /** The context at the end of opt_parse(), before the output is finished. */
  function Parsed(cfg: Config, argv: seq<string>): Option<Ctx>
    requires argv != []
  {
    Run(cfg, argv, Ctx(1, [argv[0]], [], 0, 0))
  }

  function Parse(cfg: Config, argv: seq<string>): Option<seq<string>> {
    if argv == [] then Some([])
    else
      var c := Parsed(cfg, argv);
      if c.None? then None else Some(Finish(c.value))
  }

  /** A trailing "--" stays when options were printed, because their insertion makes the
      output longer than the length that was noted. */
  lemma TrailingSeparatorIff(c: Ctx)
    requires c.out != [] && 2 <= c.nonopt <= |c.out| && c.out[c.nonopt - 1] == "--"
    ensures c.nonopt == |c.out| ==> (|Finish(c)| == |c.out| - 1 <==> c.kept == [])
  {
  }
}
