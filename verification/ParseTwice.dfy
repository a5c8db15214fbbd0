/** What a parse puts out and what a second parse, with the same templates and callback, makes
    of it. */
module ParseTwice {
  import opened Basics
  import opened Options
  import opened OptionTable

  // ---- how often an option is kept ----

  function Repeat(arg: string, n: nat): (r: seq<string>)
    ensures |r| == n
  {
    seq(n, i => arg)
  }

  function AddTimes(c: Ctx, arg: string, n: nat, iso: bool): Ctx {
    if iso then c.(kept := c.kept + Repeat(arg, n)) else c.(out := c.out + Repeat(arg, n))
  }

  /** How many templates from `j` on keep the option. */
  function KeptBy(cfg: Config, j: int, arg: string): nat
    requires 0 <= j <= |cfg.table|
    decreases |cfg.table| - j
  {
    if j == |cfg.table| then 0
    else
      var m := Match(cfg.table[j].templ, arg);
      (if m.Some? && Decide(cfg, cfg.table[j], m.value, arg) == Keep then 1 else 0) + KeptBy(cfg, j + 1, arg)
  }

  function Copies(cfg: Config, arg: string): nat {
    if FindOpt(cfg.table, 0, arg) < |cfg.table| then KeptBy(cfg, 0, arg)
    else if Ask(cfg, arg, KEY_OPT) == Keep then 1 else 0
  }

  /** No template from `j` on fails or asks for the next argument. */
  predicate Smooth(cfg: Config, j: int, arg: string)
    requires 0 <= j <= |cfg.table|
    decreases |cfg.table| - j
  {
    if j == |cfg.table| then true
    else
      var m := Match(cfg.table[j].templ, arg);
      && (m.Some? ==> !Hungry(cfg.table[j], arg) && Decide(cfg, cfg.table[j], m.value, arg) != Fail)
      && Smooth(cfg, j + 1, arg)
  }

  predicate Accepted(cfg: Config, arg: string) {
    Smooth(cfg, 0, arg) && (FindOpt(cfg.table, 0, arg) == |cfg.table| ==> Ask(cfg, arg, KEY_OPT) != Fail)
  }

  lemma AddMore(c: Ctx, arg: string, n: nat, iso: bool)
    ensures AddTimes(c.Add(arg, iso), arg, n, iso) == AddTimes(c, arg, 1 + n, iso) && AddTimes(c, arg, 0, iso) == c
  {
    assert [arg] + Repeat(arg, n) == Repeat(arg, 1 + n);
    assert c.kept + [arg] + Repeat(arg, n) == c.kept + ([arg] + Repeat(arg, n));
    assert c.out + [arg] + Repeat(arg, n) == c.out + ([arg] + Repeat(arg, n));
  }

  lemma {:induction false} OfferAllAdds(cfg: Config, argv: seq<string>, c: Ctx, j: int, arg: string, iso: bool)
    requires 0 <= j <= |cfg.table| && 0 <= c.at && Smooth(cfg, j, arg)
    ensures OfferAll(cfg, argv, c, j, arg, iso) == Some(AddTimes(c, arg, KeptBy(cfg, j, arg), iso))
    decreases |cfg.table| - j
  {
    hide AddTimes, Match;
    if j == |cfg.table| {
      AddMore(c, arg, 0, iso);
    } else {
      var t := cfg.table[j];
      var m := Match(t.templ, arg);
      if m.Some? && Decide(cfg, t, m.value, arg) == Keep {
        OfferAllAdds(cfg, argv, c.Add(arg, iso), j + 1, arg, iso);
        AddMore(c, arg, KeptBy(cfg, j + 1, arg), iso);
      } else {
        OfferAllAdds(cfg, argv, c, j + 1, arg, iso);
      }
    }
  }

  lemma {:induction false} OfferAllSmooth(cfg: Config, argv: seq<string>, c: Ctx, j: int, arg: string, iso: bool)
    requires 0 <= j <= |cfg.table| && 0 <= c.at && OfferAll(cfg, argv, c, j, arg, iso).Some?
    requires OfferAll(cfg, argv, c, j, arg, iso).value.joins == c.joins
    ensures Smooth(cfg, j, arg)
    decreases |cfg.table| - j
  {
    hide Match;
    if j < |cfg.table| {
      var t := cfg.table[j];
      if Match(t.templ, arg).None? {
        OfferAllSmooth(cfg, argv, c, j + 1, arg, iso);
      } else {
        var d := Offer(cfg, argv, c, t, arg, iso).value;
        OfferAllSmooth(cfg, argv, d, j + 1, arg, iso);
      }
    }
  }

  /** An option that was once taken without the argument after it is added so many times,
      wherever it comes. */
  lemma GoptAdds(cfg: Config, argv: seq<string>, c: Ctx, arg: string, iso: bool)
    requires 0 <= c.at && Accepted(cfg, arg)
    ensures Gopt(cfg, argv, c, arg, iso) == Some(AddTimes(c, arg, Copies(cfg, arg), iso))
  {
    hide AddTimes;
    if FindOpt(cfg.table, 0, arg) < |cfg.table| {
      OfferAllAdds(cfg, argv, c, 0, arg, iso);
    } else {
      AddMore(c, arg, 0, iso);
      AddMore(c.Add(arg, iso), arg, 0, iso);
    }
  }

  lemma {:induction false} NoneSmooth(cfg: Config, j: int, arg: string)
    requires 0 <= j <= |cfg.table| && FindOpt(cfg.table, j, arg) == |cfg.table|
    ensures Smooth(cfg, j, arg)
    decreases |cfg.table| - j
  {
    hide Match;
    if j < |cfg.table| {
      NoneSmooth(cfg, j + 1, arg);
    }
  }

  lemma GoptAccepted(cfg: Config, argv: seq<string>, c: Ctx, arg: string, iso: bool)
    requires 0 <= c.at && Gopt(cfg, argv, c, arg, iso).Some? && Gopt(cfg, argv, c, arg, iso).value.joins == c.joins
    ensures Accepted(cfg, arg) && Gopt(cfg, argv, c, arg, iso) == Some(AddTimes(c, arg, Copies(cfg, arg), iso))
  {
    hide Smooth, AddTimes, OfferAll;
    if FindOpt(cfg.table, 0, arg) < |cfg.table| {
      OfferAllSmooth(cfg, argv, c, 0, arg, iso);
    } else {
      NoneSmooth(cfg, 0, arg);
    }
    GoptAdds(cfg, argv, c, arg, iso);
  }

  // ---- options that take the next argument ----

  /** Some template takes the parameter of this option from the next argument. */
  predicate Asks(cfg: Config, arg: string) {
    exists j :: 0 <= j < |cfg.table| && Hungry(cfg.table[j], arg)
  }

  lemma {:induction false} SmoothSince(cfg: Config, j: int, k: int, arg: string)
    requires 0 <= j <= k < |cfg.table| && Smooth(cfg, j, arg)
    ensures !Hungry(cfg.table[k], arg)
    decreases k - j
  {
    hide Match, Hungry;
    if j < k {
      SmoothSince(cfg, j + 1, k, arg);
    } else {
      HungryMatches(cfg.table[j], arg);
    }
  }

  lemma HungryMatches(t: Template, arg: string)
    ensures Hungry(t, arg) ==> Match(t.templ, arg) == Some(|arg|)
  {
  }

  lemma AcceptedAlone(cfg: Config, arg: string)
    requires Accepted(cfg, arg)
    ensures !Asks(cfg, arg)
  {
    hide Hungry, Smooth;
    forall k | 0 <= k < |cfg.table| ensures !Hungry(cfg.table[k], arg) {
      SmoothSince(cfg, 0, k, arg);
    }
  }

  /** A template that took its parameter from the next argument also matches the two joined. */
  lemma JoinedMatches(t: Template, arg: string, param: string)
    requires Hungry(t, arg)
    ensures Match(t.templ, arg + param) == Match(t.templ, arg) == Some(|arg|) && arg[..|arg|] == arg
  {
  }

  lemma {:induction false} KeptByOne(cfg: Config, i: int, j: int, arg: string)
    requires 0 <= i <= j < |cfg.table| && Match(cfg.table[j].templ, arg).Some?
    requires Decide(cfg, cfg.table[j], Match(cfg.table[j].templ, arg).value, arg) == Keep
    ensures KeptBy(cfg, i, arg) >= 1
    decreases j - i
  {
    hide Match;
    if i < j {
      KeptByOne(cfg, i + 1, j, arg);
    }
  }

  /** What is put out for an option: the option itself, or it joined with an argument. Offered
      again it would be kept, if it did not ask for yet another argument. */
  ghost predicate Emits(cfg: Config, arg: string, x: string) {
    Copies(cfg, x) >= 1 && arg <= x && (x != arg ==> Asks(cfg, arg)) && (CString(arg) ==> CString(x))
  }

  ghost predicate AllEmitted(cfg: Config, arg: string, xs: seq<string>) {
    forall i {:trigger xs[i]} :: 0 <= i < |xs| ==> Emits(cfg, arg, xs[i])
  }

  /** `d` is `c` with `xs` added. */
  ghost predicate Added(c: Ctx, d: Ctx, xs: seq<string>, iso: bool) {
    && d.nonopt == c.nonopt
    && (if iso then d.kept == c.kept + xs && d.out == c.out else d.out == c.out + xs && d.kept == c.kept)
  }

  lemma OfferEmits(cfg: Config, argv: seq<string>, c: Ctx, j: int, arg: string, iso: bool) returns (xs: seq<string>)
    requires 0 <= j < |cfg.table| && 0 <= c.at && CStrings(argv) && Match(cfg.table[j].templ, arg).Some?
    requires Offer(cfg, argv, c, cfg.table[j], arg, iso).Some?
    ensures Added(c, Offer(cfg, argv, c, cfg.table[j], arg, iso).value, xs, iso) && AllEmitted(cfg, arg, xs)
  {
    hide Match, Hungry, Copies;
    var t, sep := cfg.table[j], Match(cfg.table[j].templ, arg).value;
    HungryMatches(t, arg);
    var x := if Hungry(t, arg) then arg + argv[c.at + 1] else arg;
    if Hungry(t, arg) {
      JoinedMatches(t, arg, argv[c.at + 1]);
    }
    xs := if Decide(cfg, t, sep, x) == Keep then [x] else [];
    if xs != [] {
      Matched(cfg, j, x);
    }
  }

  lemma Matched(cfg: Config, j: int, x: string)
    requires 0 <= j < |cfg.table| && Match(cfg.table[j].templ, x).Some?
    requires Decide(cfg, cfg.table[j], Match(cfg.table[j].templ, x).value, x) == Keep
    ensures Copies(cfg, x) >= 1
  {
    hide Match;
    KeptByOne(cfg, 0, j, x);
  }

  lemma {:induction false} OfferAllEmits(cfg: Config, argv: seq<string>, c: Ctx, j: int, arg: string, iso: bool)
    returns (xs: seq<string>)
    requires 0 <= j <= |cfg.table| && 0 <= c.at && CStrings(argv) && OfferAll(cfg, argv, c, j, arg, iso).Some?
    ensures Added(c, OfferAll(cfg, argv, c, j, arg, iso).value, xs, iso) && AllEmitted(cfg, arg, xs)
    decreases |cfg.table| - j
  {
    hide Match, Offer, Emits;
    if j == |cfg.table| {
      xs := [];
    } else if Match(cfg.table[j].templ, arg).None? {
      xs := OfferAllEmits(cfg, argv, c, j + 1, arg, iso);
    } else {
      var d := Offer(cfg, argv, c, cfg.table[j], arg, iso).value;
      var first := OfferEmits(cfg, argv, c, j, arg, iso);
      var rest := OfferAllEmits(cfg, argv, d, j + 1, arg, iso);
      xs := first + rest;
    }
  }

  lemma GoptEmits(cfg: Config, argv: seq<string>, c: Ctx, arg: string, iso: bool) returns (xs: seq<string>)
    requires 0 <= c.at && CStrings(argv) && Gopt(cfg, argv, c, arg, iso).Some?
    ensures Added(c, Gopt(cfg, argv, c, arg, iso).value, xs, iso) && AllEmitted(cfg, arg, xs)
  {
    hide OfferAll, FindOpt;
    if FindOpt(cfg.table, 0, arg) < |cfg.table| {
      xs := OfferAllEmits(cfg, argv, c, 0, arg, iso);
    } else {
      xs := if Ask(cfg, arg, KEY_OPT) == Keep then [arg] else [];
    }
  }

  // ---- what a parse leaves behind ----

  /** A kept option: it would be kept again, once or more. With `alone` it would also be taken
      without the argument after it. */
  predicate Kept(cfg: Config, alone: bool, arg: string) {
    CString(arg) && Copies(cfg, arg) >= 1 && (alone ==> Accepted(cfg, arg))
  }

  ghost predicate AllKept(cfg: Config, alone: bool, options: seq<string>) {
    forall i {:trigger options[i]} :: 0 <= i < |options| ==> Kept(cfg, alone, options[i])
  }

  /** An output argument that is not behind a "--". */
  predicate Plain(cfg: Config, alone: bool, arg: string) {
    if Dashed(arg) then !IsGroup(arg) && arg != "--" && Copies(cfg, arg) >= 1 && (alone ==> Accepted(cfg, arg))
    else Ask(cfg, arg, KEY_NONOPT) == Keep
  }

  ghost predicate AllPlain(cfg: Config, alone: bool, args: seq<string>) {
    forall i {:trigger args[i]} :: 0 <= i < |args| ==> Plain(cfg, alone, args[i])
  }

  ghost predicate AllWords(cfg: Config, args: seq<string>) {
    forall i {:trigger args[i]} :: 0 <= i < |args| ==> Ask(cfg, args[i], KEY_NONOPT) == Keep
  }

  /** The output arguments between the program name and the "--". */
  function Middle(c: Ctx): seq<string>
    requires c.out != []
  {
    if 2 <= c.nonopt <= |c.out| then c.out[1..c.nonopt - 1] else c.out[1..]
  }

  /** The "--" and what follows it. */
  function Rear(c: Ctx): seq<string> {
    if 2 <= c.nonopt <= |c.out| then c.out[c.nonopt - 1..] else []
  }

  ghost predicate Good(cfg: Config, alone: bool, c: Ctx) {
    && c.out != [] && AllKept(cfg, alone, c.kept) && AllPlain(cfg, alone, Middle(c))
    && (c.nonopt == 0 || (2 <= c.nonopt <= |c.out| && c.out[c.nonopt - 1] == "--" && AllWords(cfg, Rear(c)[1..])))
  }

  /** What is asked of a parse that goes from `c` to `d`: no joins at all, or else that a joined
      option is not a group or a separator, which only one that begins with a lone "-" can be. */
  ghost predicate Proper(cfg: Config, alone: bool, argv: seq<string>, c: Ctx, d: Ctx) {
    if alone then d.joins == c.joins else CStrings(argv) && !Asks(cfg, "-")
  }

  lemma EmittedPlain(cfg: Config, arg: string, x: string)
    requires Emits(cfg, arg, x) && !Asks(cfg, "-") && Dashed(arg) && !IsGroup(arg) && arg != "--"
    ensures Plain(cfg, false, x)
  {
    hide Asks, Copies, Accepted;
    assert x[0] == '-';
    if x != arg {
      assert arg != "-";
      assert |arg| > 1 && x[1] == arg[1];
    }
  }

  lemma GoptGood(cfg: Config, alone: bool, argv: seq<string>, c: Ctx, arg: string, iso: bool)
    requires 0 <= c.at && Good(cfg, alone, c) && c.nonopt == 0 && Gopt(cfg, argv, c, arg, iso).Some?
    requires Proper(cfg, alone, argv, c, Gopt(cfg, argv, c, arg, iso).value)
    requires if iso then CString(arg) else Dashed(arg) && !IsGroup(arg) && arg != "--"
    ensures Good(cfg, alone, Gopt(cfg, argv, c, arg, iso).value) && Gopt(cfg, argv, c, arg, iso).value.nonopt == 0
  {
    hide Accepted, Copies, Gopt, Asks;
    var xs;
    if alone {
      GoptAccepted(cfg, argv, c, arg, iso);
      xs := Repeat(arg, Copies(cfg, arg));
    } else {
      xs := GoptEmits(cfg, argv, c, arg, iso);
      if !iso {
        forall i | 0 <= i < |xs| ensures Plain(cfg, false, xs[i]) {
          EmittedPlain(cfg, arg, xs[i]);
        }
      }
    }
    assert (c.out + xs)[1..] == c.out[1..] + xs;
  }

  lemma {:induction false} GroupGood(cfg: Config, alone: bool, argv: seq<string>, c: Ctx, options: seq<string>)
    requires 0 <= c.at && Good(cfg, alone, c) && c.nonopt == 0 && CStrings(options)
    requires Group(cfg, argv, c, options).Some? && Proper(cfg, alone, argv, c, Group(cfg, argv, c, options).value)
    ensures Good(cfg, alone, Group(cfg, argv, c, options).value)
    decreases |options|
  {
    hide Good, Gopt, CString, Asks;
    if options != [] {
      GoptGood(cfg, alone, argv, c, options[0], true);
      var rest := options[1..];
      assert forall i {:trigger rest[i]} :: 0 <= i < |rest| ==> rest[i] == options[i + 1];
      GroupGood(cfg, alone, argv, Gopt(cfg, argv, c, options[0], true).value, rest);
    }
  }

  lemma GoodAt(cfg: Config, alone: bool, c: Ctx, at: int)
    requires Good(cfg, alone, c)
    ensures Good(cfg, alone, c.(at := at)) && c.out != []
  {
  }

  lemma WordGood(cfg: Config, alone: bool, c: Ctx, arg: string)
    requires Good(cfg, alone, c) && CallProc(cfg, c, arg, KEY_NONOPT, false).Some? && (c.nonopt == 0 ==> !Dashed(arg))
    ensures Good(cfg, alone, CallProc(cfg, c, arg, KEY_NONOPT, false).value)
  {
    hide Good, Ask;
    if Ask(cfg, arg, KEY_NONOPT) == Keep {
      WordAdded(cfg, alone, c, arg);
    }
  }

  lemma WordAdded(cfg: Config, alone: bool, c: Ctx, arg: string)
    requires Good(cfg, alone, c) && Ask(cfg, arg, KEY_NONOPT) == Keep && (c.nonopt == 0 ==> !Dashed(arg))
    ensures Good(cfg, alone, c.(out := c.out + [arg]))
  {
    hide Kept, Accepted, Copies, Ask;
    var d := c.(out := c.out + [arg]);
    if c.nonopt == 0 {
      assert Middle(d) == Middle(c) + [arg];
      assert Plain(cfg, alone, arg);
    } else {
      hide Plain;
      assert Middle(d) == Middle(c);
      assert Rear(d)[1..] == Rear(c)[1..] + [arg];
    }
  }

  lemma SeparatorGood(cfg: Config, alone: bool, c: Ctx)
    requires Good(cfg, alone, c) && c.nonopt == 0
    ensures Good(cfg, alone, c.(out := c.out + ["--"], nonopt := |c.out| + 1))
  {
    hide Accepted, Copies, Kept;
    var d := c.(out := c.out + ["--"], nonopt := |c.out| + 1);
    assert Middle(d) == Middle(c);
  }

  lemma OneGood(cfg: Config, alone: bool, argv: seq<string>, c: Ctx)
    requires Good(cfg, alone, c) && 0 <= c.at < |argv| && One(cfg, argv, c).Some?
    requires Proper(cfg, alone, argv, c, One(cfg, argv, c).value)
    ensures Good(cfg, alone, One(cfg, argv, c).value)
  {
    hide Good, Gopt, CallProc, Group, Asks;
    var arg := argv[c.at];
    if c.nonopt != 0 || !Dashed(arg) {
      WordGood(cfg, alone, c, arg);
    } else if IsGroup(arg) {
      GoodAt(cfg, alone, c, c.at + 1);
      var text := if |arg| > 2 then arg[2..] else argv[c.at + 1];
      SplitCStrings(text, "");
      GroupGood(cfg, alone, argv, if |arg| > 2 then c else c.(at := c.at + 1), ParseGroup(text));
    } else if arg == "--" {
      SeparatorGood(cfg, alone, c);
    } else {
      GoptGood(cfg, alone, argv, c, arg, false);
    }
  }

  /** Whatever a parse puts out would be kept again, and taken alone if nothing was joined. */
  lemma {:induction false} RunGood(cfg: Config, alone: bool, argv: seq<string>, c: Ctx)
    requires 0 <= c.at && Good(cfg, alone, c) && Run(cfg, argv, c).Some?
    requires Proper(cfg, alone, argv, c, Run(cfg, argv, c).value)
    ensures Good(cfg, alone, Run(cfg, argv, c).value)
    decreases |argv| - c.at
  {
    hide Good, One, Asks;
    if c.at < |argv| {
      var d := One(cfg, argv, c).value;
      OneGood(cfg, alone, argv, c);
      GoodAt(cfg, alone, d, d.at + 1);
      RunGood(cfg, alone, argv, d.(at := d.at + 1));
    }
  }

  lemma ParsedGood(cfg: Config, alone: bool, argv: seq<string>)
    requires argv != [] && Parsed(cfg, argv).Some?
    requires Proper(cfg, alone, argv, Ctx(1, [argv[0]], [], 0, 0), Parsed(cfg, argv).value)
    ensures Good(cfg, alone, Parsed(cfg, argv).value)
  {
    hide Run, Proper, Kept, Plain;
    var start := Ctx(1, [argv[0]], [], 0, 0);
    assert Good(cfg, alone, start);
    RunGood(cfg, alone, argv, start);
  }

  // ---- the second parse ----

  /** How often an output argument comes out of the second parse. */
  function Times(cfg: Config, arg: string, iso: bool): nat {
    if iso || Dashed(arg) then Copies(cfg, arg) else 1
  }

  function Multiply(cfg: Config, args: seq<string>, iso: bool): seq<string> {
    if args == [] then [] else Repeat(args[0], Times(cfg, args[0], iso)) + Multiply(cfg, args[1..], iso)
  }

  ghost predicate Once(cfg: Config, args: seq<string>, iso: bool) {
    forall i {:trigger args[i]} :: 0 <= i < |args| ==> Times(cfg, args[i], iso) == 1
  }

  ghost predicate AtLeastOnce(cfg: Config, args: seq<string>, iso: bool) {
    forall i {:trigger args[i]} :: 0 <= i < |args| ==> Times(cfg, args[i], iso) >= 1
  }

  lemma {:induction false} MultiplySame(cfg: Config, args: seq<string>, iso: bool)
    requires AtLeastOnce(cfg, args, iso)
    ensures |Multiply(cfg, args, iso)| >= |args| && (args != [] ==> Multiply(cfg, args, iso)[0] == args[0])
    ensures Multiply(cfg, args, iso) == args <==> Once(cfg, args, iso)
    decreases |args|
  {
    hide Times;
    if args != [] {
      var n, rest := Times(cfg, args[0], iso), args[1..];
      assert forall i {:trigger rest[i]} :: 0 <= i < |rest| ==> rest[i] == args[i + 1];
      MultiplySame(cfg, rest, iso);
      var m := Multiply(cfg, rest, iso);
      assert Multiply(cfg, args, iso) == Repeat(args[0], n) + m;
      assert Repeat(args[0], n)[0] == args[0];
      if n == 1 {
        assert args == Repeat(args[0], 1) + rest;
        assert (Repeat(args[0], 1) + m)[1..] == m;
        OnceFirst(cfg, args, iso);
      } else {
        assert !Once(cfg, args, iso);
      }
    }
  }

  lemma OnceFirst(cfg: Config, args: seq<string>, iso: bool)
    requires args != [] && Times(cfg, args[0], iso) == 1
    ensures Once(cfg, args, iso) <==> Once(cfg, args[1..], iso)
  {
    hide Times;
    var rest := args[1..];
    assert forall i {:trigger args[i]} :: 0 < i < |args| ==> args[i] == rest[i - 1];
    assert forall i {:trigger rest[i]} :: 0 <= i < |rest| ==> rest[i] == args[i + 1];
  }

  /** The printed options, parsed again. */
  lemma {:induction false} GroupMultiplies(cfg: Config, argv: seq<string>, c: Ctx, options: seq<string>)
    requires 0 <= c.at && AllKept(cfg, true, options)
    ensures Group(cfg, argv, c, options) == Some(c.(kept := c.kept + Multiply(cfg, options, true)))
    decreases |options|
  {
    hide Gopt, Copies, Accepted, CString;
    if options == [] {
      assert c.kept + [] == c.kept;
    } else {
      var o, rest := options[0], options[1..];
      assert forall i {:trigger rest[i]} :: 0 <= i < |rest| ==> rest[i] == options[i + 1];
      GoptAdds(cfg, argv, c, o, true);
      var d := AddTimes(c, o, Copies(cfg, o), true);
      GroupMultiplies(cfg, argv, d, rest);
      assert c.kept + Repeat(o, Copies(cfg, o)) + Multiply(cfg, rest, true) == c.kept + Multiply(cfg, options, true);
    }
  }

  lemma KeptMultiplied(cfg: Config, options: seq<string>)
    requires AllKept(cfg, true, options)
    ensures AtLeastOnce(cfg, options, true) && CStrings(options)
  {
  }

  lemma {:induction false} StripEmpties(n: nat)
    requires n >= 1
    ensures Strip(Repeat("", n)) == [""]
  {
    if n > 1 {
      assert Repeat("", n)[1..] == Repeat("", n - 1);
      StripEmpties(n - 1);
    }
  }

  lemma {:induction false} MultiplyCStrings(cfg: Config, options: seq<string>)
    requires CStrings(options)
    ensures CStrings(Multiply(cfg, options, true))
    decreases |options|
  {
    if options != [] {
      MultiplyCStrings(cfg, options[1..]);
    }
  }

  /** The options print the same iff each was kept once, or nothing but empty ones was kept. */
  lemma PrintMultiplied(cfg: Config, options: seq<string>)
    requires options != [] && AllKept(cfg, true, options) && Stripped(options)
    ensures Multiply(cfg, options, true) != []
    ensures Print(Multiply(cfg, options, true)) == Print(options) <==> options == [""] || Once(cfg, options, true)
  {
    hide Print, Times, Once, AllKept;
    var m := Multiply(cfg, options, true);
    KeptMultiplied(cfg, options);
    MultiplySame(cfg, options, true);
    MultiplyCStrings(cfg, options);
    RoundTripIff(options);
    RoundTripIff(m);
    if options == [""] {
      EmptyMultiplied(cfg);
      PrintIsJoined(m);
      PrintIsJoined(options);
    }
  }

  lemma EmptyMultiplied(cfg: Config)
    requires Times(cfg, "", true) >= 1
    ensures Strip(Multiply(cfg, [""], true)) == [""]
  {
    hide Times;
    var n := Times(cfg, "", true);
    assert [""][1..] == [];
    assert Multiply(cfg, [""], true) == Repeat("", n) + [] == Repeat("", n);
    StripEmpties(n);
  }

  /** One argument in front of the "--" again. */
  lemma OneAgain(cfg: Config, argv: seq<string>, c: Ctx)
    requires 0 <= c.at < |argv| && c.nonopt == 0 && Plain(cfg, true, argv[c.at])
    ensures One(cfg, argv, c) == Some(c.(out := c.out + Repeat(argv[c.at], Times(cfg, argv[c.at], false))))
  {
    hide Gopt, Copies, Accepted;
    var arg := argv[c.at];
    if Dashed(arg) {
      GoptAdds(cfg, argv, c, arg, false);
    } else {
      assert Repeat(arg, 1) == [arg];
    }
  }

  lemma {:induction false} RerunMiddle(cfg: Config, argv: seq<string>, c: Ctx, mid: seq<string>)
    requires 0 <= c.at <= |argv| && c.nonopt == 0 && AllPlain(cfg, true, mid) && mid <= argv[c.at..]
    ensures Run(cfg, argv, c) == Run(cfg, argv, c.(at := c.at + |mid|, out := c.out + Multiply(cfg, mid, false)))
    decreases |mid|
  {
    hide One, Plain, Times, Repeat;
    if mid == [] {
      assert c.out + [] == c.out;
    } else {
      var a, rest := mid[0], mid[1..];
      assert argv[c.at] == argv[c.at..][0] == a;
      assert argv[c.at + 1..] == argv[c.at..][1..];
      assert forall i {:trigger rest[i]} :: 0 <= i < |rest| ==> rest[i] == mid[i + 1];
      OneAgain(cfg, argv, c);
      var r := Repeat(a, Times(cfg, a, false));
      var d := c.(at := c.at + 1, out := c.out + r);
      RerunMiddle(cfg, argv, d, rest);
      assert c.out + r + Multiply(cfg, rest, false) == c.out + Multiply(cfg, mid, false);
    }
  }

  lemma {:induction false} RerunWords(cfg: Config, argv: seq<string>, c: Ctx)
    requires 0 <= c.at <= |argv| && c.nonopt != 0 && AllWords(cfg, argv[c.at..])
    ensures Run(cfg, argv, c) == Some(c.(at := |argv|, out := c.out + argv[c.at..]))
    decreases |argv| - c.at
  {
    hide One, AllWords;
    if c.at == |argv| {
      assert c.out + [] == c.out;
    } else {
      var rest := argv[c.at + 1..];
      assert argv[c.at..] == [argv[c.at]] + rest;
      OneWord(cfg, argv, c);
      RerunWords(cfg, argv, c.(at := c.at + 1, out := c.out + [argv[c.at]]));
      assert c.out + [argv[c.at]] + rest == c.out + ([argv[c.at]] + rest);
    }
  }

  lemma OneWord(cfg: Config, argv: seq<string>, c: Ctx)
    requires 0 <= c.at < |argv| && c.nonopt != 0 && AllWords(cfg, argv[c.at..])
    ensures One(cfg, argv, c) == Some(c.(out := c.out + [argv[c.at]])) && AllWords(cfg, argv[c.at + 1..])
  {
    hide Ask;
    var words, rest := argv[c.at..], argv[c.at + 1..];
    assert forall i {:trigger rest[i]} :: 0 <= i < |rest| ==> rest[i] == words[i + 1];
    assert words[0] == argv[c.at];
  }

  ghost predicate IsRear(cfg: Config, rear: seq<string>) {
    rear == [] || (rear[0] == "--" && AllWords(cfg, rear[1..]))
  }

  lemma RerunRear(cfg: Config, argv: seq<string>, c: Ctx, rear: seq<string>)
    requires 0 <= c.at <= |argv| && c.nonopt == 0 && argv[c.at..] == rear && IsRear(cfg, rear)
    ensures Run(cfg, argv, c) ==
      Some(c.(at := |argv|, out := c.out + rear, nonopt := if rear == [] then 0 else |c.out| + 1))
  {
    if rear == [] {
      assert c.out + [] == c.out;
    } else {
      assert argv[c.at] == rear[0] == "--" && rear[1..] == argv[c.at + 1..];
      var d := c.(at := c.at + 1, out := c.out + ["--"], nonopt := |c.out| + 1);
      assert One(cfg, argv, c) == Some(d.(at := c.at));
      RerunWords(cfg, argv, d);
      assert c.out + ["--"] + rear[1..] == c.out + rear;
    }
  }

  lemma Dropped(argv: seq<string>, i: int, mid: seq<string>, rear: seq<string>)
    requires 0 <= i <= |argv| && argv[i..] == mid + rear
    ensures mid <= argv[i..] && i + |mid| <= |argv| && argv[i + |mid|..] == rear
  {
    assert argv[i + |mid|..] == argv[i..][|mid|..];
  }

  /** Everything behind the printed options again. */
  lemma Rerun(cfg: Config, argv: seq<string>, c: Ctx, mid: seq<string>, rear: seq<string>)
    requires 0 <= c.at <= |argv| && c.nonopt == 0 && argv[c.at..] == mid + rear && AllPlain(cfg, true, mid)
    requires IsRear(cfg, rear)
    ensures
      var out := c.out + Multiply(cfg, mid, false);
      Run(cfg, argv, c) == Some(c.(at := |argv|, out := out + rear, nonopt := if rear == [] then 0 else |out| + 1))
  {
    hide *;
    Dropped(argv, c.at, mid, rear);
    RerunMiddle(cfg, argv, c, mid);
    RerunRear(cfg, argv, c.(at := c.at + |mid|, out := c.out + Multiply(cfg, mid, false)), rear);
  }

  /** The output before it is finished, in its parts. */
  lemma Parts(cfg: Config, alone: bool, c: Ctx)
    requires Good(cfg, alone, c)
    ensures c.out == [c.out[0]] + Middle(c) + Rear(c) && IsRear(cfg, Rear(c)) && AllPlain(cfg, alone, Middle(c))
    ensures c.nonopt == if Rear(c) == [] then 0 else |Middle(c)| + 2
    ensures AtLeastOnce(cfg, Middle(c), false) && AllKept(cfg, alone, c.kept)
  {
    hide Accepted, Copies;
  }

  /** The finished output: a lone "--" at the end goes away only if no options are printed. */
  lemma Finished(c: Ctx, p: string, mid: seq<string>, rear: seq<string>)
    requires c.out == [p] + mid + rear && (rear != [] ==> rear[0] == "--")
    requires c.nonopt == if rear == [] then 0 else |mid| + 2
    ensures c.kept != [] ==> Finish(c) == [p, "-o", Print(c.kept).value] + mid + rear
    ensures c.kept == [] ==> Finish(c) == [p] + mid + (if |rear| == 1 then [] else rear)
  {
    var out := c.out;
    assert out[..1] == [p] && out[1..] == mid + rear;
    if c.kept == [] {
      assert out[..|out| - |rear|] == [p] + mid;
    } else {
      assert [p] + ["-o", Print(c.kept).value] + (mid + rear) == [p, "-o", Print(c.kept).value] + mid + rear;
    }
  }

  /** No option in front of the "--" was kept more than once, and neither was any in the printed
      list, unless that is empty. */
  ghost predicate OnceEach(cfg: Config, c: Ctx)
    requires c.out != []
  {
    && Once(cfg, Middle(c), false)
    && (c.kept != [] ==> Strip(c.kept) == [""] || Once(cfg, Strip(c.kept), true))
  }

  lemma SameMiddle(front: seq<string>, a: seq<string>, b: seq<string>, rear: seq<string>)
    ensures front + a + rear == front + b + rear <==> a == b
  {
    if front + a + rear == front + b + rear {
      assert |a| == |b|;
      assert a == (front + a + rear)[|front|..|front| + |a|];
      assert b == (front + b + rear)[|front|..|front| + |b|];
    }
  }

  lemma ParseIs(cfg: Config, argv: seq<string>, d: Ctx)
    requires argv != [] && Run(cfg, argv, Ctx(1, [argv[0]], [], 0, 0)) == Some(d)
    ensures Parse(cfg, argv) == Some(Finish(d))
  {
  }

  lemma AgainWithoutOptions(cfg: Config, c: Ctx)
    requires Good(cfg, true, c) && c.kept == []
    ensures c.out != [] && (Parse(cfg, Finish(c)) == Some(Finish(c)) <==> Once(cfg, Middle(c), false))
  {
    hide *;
    GoodAt(cfg, true, c, 1);
    Parts(cfg, true, c);
    RearStart(cfg, Rear(c));
    var p, mid := c.out[0], Middle(c);
    var rear := if |Rear(c)| == 1 then [] else Rear(c);
    var argv := [p] + mid + rear;
    Finished(c, p, mid, Rear(c));
    assert argv[1..] == mid + rear;
    RearStart(cfg, []);
    Rerun(cfg, argv, Ctx(1, [p], [], 0, 0), mid, rear);
    var m := Multiply(cfg, mid, false);
    var d := Ctx(|argv|, [p] + m + rear, [], if rear == [] then 0 else |m| + 2, 0);
    ParseIs(cfg, argv, d);
    Finished(d, p, m, rear);
    SameMiddle([p], m, mid, rear);
    MultiplySame(cfg, mid, false);
  }

  lemma RearStart(cfg: Config, rear: seq<string>)
    requires IsRear(cfg, rear) || rear == []
    ensures IsRear(cfg, rear) && (rear != [] ==> rear[0] == "--")
  {
  }

  /** What the printed options turn into. */
  lemma OptionsAgain(cfg: Config, argv: seq<string>, p: string, kept: seq<string>)
    requires kept != [] && AllKept(cfg, true, kept) && |argv| >= 3 && argv[0] == p && argv[1] == "-o"
    requires Print(kept) == Some(argv[2])
    ensures
      var m := Multiply(cfg, Strip(kept), true);
      && Parsed(cfg, argv) == Run(cfg, argv, Ctx(3, [p], m, 0, 0)) && m != []
      && (Print(m) == Print(kept) <==> Strip(kept) == [""] || Once(cfg, Strip(kept), true))
  {
    hide Print, ParseGroup, Group, Once, Times, Strip;
    var start, s := Ctx(1, [p], [], 0, 0), Strip(kept);
    KeptMultiplied(cfg, kept);
    RoundTripIff(kept);
    PrintIsJoined(kept);
    PrintStripped(kept);
    StripKept(cfg, true, kept);
    GroupMultiplies(cfg, argv, start.(at := 2), s);
    assert [] + Multiply(cfg, s, true) == Multiply(cfg, s, true);
    PrintMultiplied(cfg, s);
    assert One(cfg, argv, start) == Some(start.(at := 2, kept := Multiply(cfg, s, true)));
  }

  lemma StripKept(cfg: Config, alone: bool, kept: seq<string>)
    requires AllKept(cfg, alone, kept)
    ensures AllKept(cfg, alone, Strip(kept)) && (kept == [] ==> Strip(kept) == [])
  {
    hide Accepted, Copies;
    StripCStrings(kept);
    var s := Strip(kept);
    forall i | 0 <= i < |s| ensures Kept(cfg, alone, s[i]) {
      var k :| 0 <= k < |kept| && kept[k] == s[i];
    }
  }

  lemma SameOutput(p: string, a: string, b: string, m: seq<string>, mid: seq<string>, rear: seq<string>)
    ensures [p, "-o", a] + m + rear == [p, "-o", b] + mid + rear <==> a == b && m == mid
  {
    var x, y := [p, "-o", a] + m + rear, [p, "-o", b] + mid + rear;
    assert x[2] == a && y[2] == b;
    if a == b {
      SameMiddle([p, "-o", a], m, mid, rear);
    }
  }

  lemma AgainWithOptions(cfg: Config, c: Ctx)
    requires Good(cfg, true, c) && c.kept != []
    ensures Parse(cfg, Finish(c)) == Some(Finish(c)) <==> OnceEach(cfg, c)
  {
    hide Good, Run, Parsed, Finish, Multiply, Once, AllPlain, AtLeastOnce, AllKept, Middle, Rear, Print, Strip;
    GoodAt(cfg, true, c, 1);
    Parts(cfg, true, c);
    var p, mid, rear, argv := c.out[0], Middle(c), Rear(c), Finish(c);
    Finished(c, p, mid, rear);
    RoundTripSome(c.kept);
    var printed := Print(c.kept).value;
    assert argv == [p, "-o", printed] + mid + rear && argv[3..] == mid + rear;
    assert argv[0] == p && argv[1] == "-o" && argv[2] == printed;
    OptionsAgain(cfg, argv, p, c.kept);
    var k, m := Multiply(cfg, Strip(c.kept), true), Multiply(cfg, mid, false);
    Rerun(cfg, argv, Ctx(3, [p], k, 0, 0), mid, rear);
    var d := Ctx(|argv|, [p] + m + rear, k, if rear == [] then 0 else |m| + 2, 0);
    Finished(d, p, m, rear);
    RoundTripSome(k);
    SameOutput(p, Print(k).value, printed, m, mid, rear);
    MultiplySame(cfg, mid, false);
  }

  lemma RoundTripSome(kept: seq<string>)
    requires kept != []
    ensures Print(kept).Some?
  {
  }

  /** Parsing again what was put out, when each option of it is taken alone, changes nothing iff
      each is kept once. */
  lemma FinishedAgain(cfg: Config, c: Ctx)
    requires Good(cfg, true, c)
    ensures c.out != [] && (Parse(cfg, Finish(c)) == Some(Finish(c)) <==> OnceEach(cfg, c))
  {
    hide Good, Parse, Finish, Once;
    GoodAt(cfg, true, c, 1);
    if c.kept == [] {
      AgainWithoutOptions(cfg, c);
    } else {
      AgainWithOptions(cfg, c);
    }
  }

  /** After a parse that joined no option with the argument after it, that is always so. */
  lemma UnjoinedIff(cfg: Config, argv: seq<string>)
    requires argv != [] && Parsed(cfg, argv).Some? && Parsed(cfg, argv).value.joins == 0
    ensures Parsed(cfg, argv).value.out != []
    ensures Parse(cfg, Parse(cfg, argv).value) == Parse(cfg, argv) <==> OnceEach(cfg, Parsed(cfg, argv).value)
  {
    hide Run, Finish, OnceEach, Good;
    ParsedGood(cfg, true, argv);
    FinishedAgain(cfg, Parsed(cfg, argv).value);
  }
}
