/** Which argument vectors a parse leaves as they are, with the same templates and callback, and
    so when parsing twice is parsing once. */
module ParseStable {
  import opened Basics
  import opened Options
  import opened OptionTable
  import opened ParseTwice

  // ---- vectors in the form in which a parse puts them out ----

  /** The vector starts with a printed list of options. */
  predicate HasList(argv: seq<string>) {
    |argv| >= 3 && argv[1] == "-o"
  }

  function Listed(argv: seq<string>): seq<string> {
    if HasList(argv) then ParseGroup(argv[2]) else []
  }

  /** What comes after the program name and the list. */
  function Body(argv: seq<string>): seq<string> {
    if HasList(argv) then argv[3..] else if argv == [] then [] else argv[1..]
  }

  /** Where the first "--" is, or the length. */
  function SeparatorAt(args: seq<string>): (k: int)
    ensures 0 <= k <= |args| && (k < |args| ==> args[k] == "--") && "--" !in args[..k]
  {
    if args == [] || args[0] == "--" then 0
    else
      var k := SeparatorAt(args[1..]);
      assert args[..k + 1] == [args[0]] + args[1..][..k];
      k + 1
  }

  /** Every option is taken alone and kept once, every word is kept, the list is printed as a
      parse prints it, and a "--" at the end follows a list. */
  ghost predicate Canonical(cfg: Config, argv: seq<string>) {
    var body := Body(argv);
    var k := SeparatorAt(body);
    && AllPlain(cfg, true, body[..k]) && Once(cfg, body[..k], false) && IsRear(cfg, body[k..])
    && (if HasList(argv) then ListCanonical(cfg, Listed(argv), argv[2]) else |body| != k + 1)
  }

  ghost predicate ListCanonical(cfg: Config, options: seq<string>, text: string) {
    && options != [] && AllKept(cfg, true, options) && Print(options) == Some(text)
    && (options == [""] || Once(cfg, options, true))
  }

  /** The context that would put the vector out. */
  function Context(argv: seq<string>): Ctx
    requires argv != []
  {
    var k := SeparatorAt(Body(argv));
    Ctx(1, [argv[0]] + Body(argv), Listed(argv), if k == |Body(argv)| then 0 else k + 2, 0)
  }

  lemma ContextParts(argv: seq<string>)
    requires argv != []
    ensures
      var c, body := Context(argv), Body(argv);
      var k := SeparatorAt(body);
      c.out != [] && Middle(c) == body[..k] && Rear(c) == body[k..] && body == body[..k] + body[k..]
  {
    hide SeparatorAt, Body, Listed;
  }

  lemma ContextGood(cfg: Config, argv: seq<string>)
    requires argv != [] && Canonical(cfg, argv)
    ensures Good(cfg, true, Context(argv)) && OnceEach(cfg, Context(argv))
  {
    hide AllPlain, AllKept, Once, SeparatorAt, AllWords, Middle, Rear;
    ContextParts(argv);
    if HasList(argv) {
      ListStripped(cfg, Listed(argv), argv[2]);
    } else {
      NothingKept(cfg);
    }
  }

  lemma NothingKept(cfg: Config)
    ensures AllKept(cfg, true, [])
  {
  }

  lemma ListStripped(cfg: Config, options: seq<string>, text: string)
    requires options == ParseGroup(text) && ListCanonical(cfg, options, text)
    ensures Strip(options) == options
  {
    hide AllKept, Once, Print, Split;
    KeptMultiplied(cfg, options);
    RoundTripIff(options);
  }

  lemma ContextFinished(cfg: Config, argv: seq<string>)
    requires argv != [] && Canonical(cfg, argv)
    ensures Finish(Context(argv)) == argv
  {
    hide AllPlain, AllKept, Once, SeparatorAt, AllWords, Middle, Rear, Finish, Print, Split;
    ContextParts(argv);
    var c, body := Context(argv), Body(argv);
    var k := SeparatorAt(body);
    Finished(c, argv[0], body[..k], body[k..]);
    if HasList(argv) {
      assert [argv[0], "-o", argv[2]] + body[..k] + body[k..] == [argv[0], argv[1], argv[2]] + argv[3..] == argv;
    } else {
      assert [argv[0]] + body[..k] + body[k..] == argv;
    }
  }

  lemma CanonicalStable(cfg: Config, argv: seq<string>)
    requires Canonical(cfg, argv)
    ensures Parse(cfg, argv) == Some(argv)
  {
    hide Canonical, Context, Good, OnceEach, Finish, Parsed;
    if argv != [] {
      ContextGood(cfg, argv);
      ContextFinished(cfg, argv);
      FinishedAgain(cfg, Context(argv));
    }
  }

  // ---- a stable vector that is read without joins is canonical ----

  lemma {:induction false} PlainNoSeparator(cfg: Config, mid: seq<string>, rear: seq<string>)
    requires AllPlain(cfg, true, mid) && (rear != [] ==> rear[0] == "--")
    ensures SeparatorAt(mid + rear) == |mid| && (mid + rear)[..|mid|] == mid && (mid + rear)[|mid|..] == rear
    ensures mid != [] ==> mid[0] != "-o"
    decreases |mid|
  {
    hide Accepted, Copies;
    if mid == [] {
      assert mid + rear == rear;
    } else {
      var rest := mid[1..];
      assert forall i {:trigger rest[i]} :: 0 <= i < |rest| ==> rest[i] == mid[i + 1];
      assert Plain(cfg, true, mid[0]);
      PlainNoSeparator(cfg, rest, rear);
      assert (mid + rear)[1..] == rest + rear;
    }
  }

  lemma BareVector(p: string, mid: seq<string>, rear: seq<string>)
    requires (mid != [] ==> mid[0] != "-o") && (rear != [] ==> rear[0] == "--")
    ensures !HasList([p] + mid + rear) && Body([p] + mid + rear) == mid + rear
  {
    var argv := [p] + mid + rear;
    assert argv[1..] == mid + rear;
    if |argv| > 1 {
      assert argv[1] == (mid + rear)[0];
    }
  }

  lemma ListVector(p: string, text: string, mid: seq<string>, rear: seq<string>)
    ensures
      var argv := [p, "-o", text] + mid + rear;
      HasList(argv) && argv[2] == text && Listed(argv) == ParseGroup(text) && Body(argv) == mid + rear
  {
    var argv := [p, "-o", text] + mid + rear;
    assert argv[3..] == mid + rear && argv[1] == "-o" && argv[2] == text;
  }

  lemma CanonicalIs(cfg: Config, argv: seq<string>, mid: seq<string>, rear: seq<string>)
    requires Body(argv) == mid + rear && AllPlain(cfg, true, mid) && Once(cfg, mid, false) && IsRear(cfg, rear)
    requires if HasList(argv) then ListCanonical(cfg, Listed(argv), argv[2]) else |rear| != 1
    ensures Canonical(cfg, argv)
  {
    hide AllPlain, Once, IsRear, ListCanonical, SeparatorAt, HasList, Listed, Body;
    RearStart(cfg, rear);
    PlainNoSeparator(cfg, mid, rear);
  }

  lemma FinishCanonical(cfg: Config, c: Ctx)
    requires Good(cfg, true, c) && c.out != [] && OnceEach(cfg, c)
    ensures Canonical(cfg, Finish(c))
  {
    hide *;
    Parts(cfg, true, c);
    RearStart(cfg, Rear(c));
    RearStart(cfg, []);
    OnceParts(cfg, c);
    var p, mid, argv := c.out[0], Middle(c), Finish(c);
    Finished(c, p, mid, Rear(c));
    PlainNoSeparator(cfg, mid, Rear(c));
    if c.kept == [] {
      var rear := if |Rear(c)| == 1 then [] else Rear(c);
      BareVector(p, mid, rear);
      CanonicalIs(cfg, argv, mid, rear);
    } else {
      RoundTripSome(c.kept);
      ListVector(p, Print(c.kept).value, mid, Rear(c));
      PrintedCanonical(cfg, c.kept);
      CanonicalIs(cfg, argv, mid, Rear(c));
    }
  }

  lemma OnceParts(cfg: Config, c: Ctx)
    requires c.out != [] && OnceEach(cfg, c)
    ensures Once(cfg, Middle(c), false)
    ensures c.kept != [] ==> Strip(c.kept) == [""] || Once(cfg, Strip(c.kept), true)
  {
  }

  lemma PrintedCanonical(cfg: Config, kept: seq<string>)
    requires kept != [] && AllKept(cfg, true, kept) && Print(kept).Some?
    requires Strip(kept) == [""] || Once(cfg, Strip(kept), true)
    ensures ListCanonical(cfg, ParseGroup(Print(kept).value), Print(kept).value)
  {
    hide AllKept, Once, Print, Split, Strip;
    KeptMultiplied(cfg, kept);
    RoundTripIff(kept);
    PrintIsJoined(kept);
    PrintStripped(kept);
    StripKept(cfg, true, kept);
  }

  lemma StableCanonical(cfg: Config, argv: seq<string>)
    requires argv != [] && Parse(cfg, argv) == Some(argv) && Parsed(cfg, argv).value.joins == 0
    ensures Canonical(cfg, argv)
  {
    hide Run, Finish, Good, OnceEach, Canonical;
    ParsedGood(cfg, true, argv);
    FinishedAgain(cfg, Parsed(cfg, argv).value);
    FinishCanonical(cfg, Parsed(cfg, argv).value);
  }

  // ---- no option asks ----

  ghost predicate NoneAsks(cfg: Config, options: seq<string>) {
    forall i {:trigger options[i]} :: 0 <= i < |options| ==> !Asks(cfg, options[i])
  }

  /** Reading on from argument `i`, no option asks for the argument after it. */
  ghost predicate NeverAsks(cfg: Config, argv: seq<string>, i: int)
    requires 0 <= i
    decreases |argv| - i
  {
    if i >= |argv| || argv[i] == "--" then true
    else if !Dashed(argv[i]) then NeverAsks(cfg, argv, i + 1)
    else if !IsGroup(argv[i]) then !Asks(cfg, argv[i]) && NeverAsks(cfg, argv, i + 1)
    else if |argv[i]| > 2 then NoneAsks(cfg, ParseGroup(argv[i][2..])) && NeverAsks(cfg, argv, i + 1)
    else i + 1 < |argv| ==> NoneAsks(cfg, ParseGroup(argv[i + 1])) && NeverAsks(cfg, argv, i + 2)
  }

  lemma {:induction false} OfferAllJoins(cfg: Config, argv: seq<string>, c: Ctx, j: int, arg: string, iso: bool)
    requires 0 <= j <= |cfg.table| && 0 <= c.at && !Asks(cfg, arg) && OfferAll(cfg, argv, c, j, arg, iso).Some?
    ensures
      var d := OfferAll(cfg, argv, c, j, arg, iso).value;
      d.joins == c.joins && d.at == c.at && d.nonopt == c.nonopt
    decreases |cfg.table| - j
  {
    hide Match, Hungry;
    if j < |cfg.table| {
      var t := cfg.table[j];
      if Match(t.templ, arg).None? {
        OfferAllJoins(cfg, argv, c, j + 1, arg, iso);
      } else {
        OfferAllJoins(cfg, argv, Offer(cfg, argv, c, t, arg, iso).value, j + 1, arg, iso);
      }
    }
  }

  lemma GoptJoins(cfg: Config, argv: seq<string>, c: Ctx, arg: string, iso: bool)
    requires 0 <= c.at && !Asks(cfg, arg) && Gopt(cfg, argv, c, arg, iso).Some?
    ensures
      var d := Gopt(cfg, argv, c, arg, iso).value;
      d.joins == c.joins && d.at == c.at && d.nonopt == c.nonopt
  {
    hide OfferAll, Asks;
    if FindOpt(cfg.table, 0, arg) < |cfg.table| {
      OfferAllJoins(cfg, argv, c, 0, arg, iso);
    }
  }

  lemma {:induction false} GroupJoins(cfg: Config, argv: seq<string>, c: Ctx, options: seq<string>)
    requires 0 <= c.at && NoneAsks(cfg, options) && Group(cfg, argv, c, options).Some?
    ensures
      var d := Group(cfg, argv, c, options).value;
      d.joins == c.joins && d.at == c.at && d.nonopt == c.nonopt
    decreases |options|
  {
    hide Gopt, Asks;
    if options != [] {
      GoptJoins(cfg, argv, c, options[0], true);
      var rest := options[1..];
      assert forall i {:trigger rest[i]} :: 0 <= i < |rest| ==> rest[i] == options[i + 1];
      GroupJoins(cfg, argv, Gopt(cfg, argv, c, options[0], true).value, rest);
    }
  }

  /** Behind a "--" nothing is joined. */
  lemma {:induction false} WordsJoin(cfg: Config, argv: seq<string>, c: Ctx)
    requires 0 <= c.at && c.nonopt != 0 && Run(cfg, argv, c).Some?
    ensures Run(cfg, argv, c).value.joins == c.joins
    decreases |argv| - c.at
  {
    if c.at < |argv| {
      var d := One(cfg, argv, c).value;
      WordsJoin(cfg, argv, d.(at := d.at + 1));
    }
  }

  lemma {:induction false} NeverJoins(cfg: Config, argv: seq<string>, c: Ctx)
    requires 0 <= c.at && NeverAsks(cfg, argv, c.at) && Run(cfg, argv, c).Some?
    ensures Run(cfg, argv, c).value.joins == c.joins
    decreases |argv| - c.at
  {
    hide Group, Gopt, Asks, CallProc, NoneAsks;
    if c.nonopt != 0 {
      WordsJoin(cfg, argv, c);
    } else if c.at < |argv| {
      var arg, d := argv[c.at], One(cfg, argv, c).value;
      if arg == "--" {
        WordsJoin(cfg, argv, d.(at := d.at + 1));
      } else {
        OneJoins(cfg, argv, c);
        NeverJoins(cfg, argv, d.(at := d.at + 1));
      }
    }
  }

  lemma OneJoins(cfg: Config, argv: seq<string>, c: Ctx)
    requires 0 <= c.at < |argv| && NeverAsks(cfg, argv, c.at) && One(cfg, argv, c).Some?
    requires c.nonopt == 0 && argv[c.at] != "--"
    ensures
      var d := One(cfg, argv, c).value;
      d.joins == c.joins && NeverAsks(cfg, argv, d.at + 1)
  {
    hide Group, Gopt, Asks, NoneAsks;
    var arg := argv[c.at];
    if Dashed(arg) {
      if !IsGroup(arg) {
        GoptJoins(cfg, argv, c, arg, false);
      } else if |arg| > 2 {
        GroupJoins(cfg, argv, c, ParseGroup(arg[2..]));
      } else {
        GroupJoins(cfg, argv, c.(at := c.at + 1), ParseGroup(argv[c.at + 1]));
      }
    }
  }

  // ---- no argument is kept twice ----

  /** The template can keep an option. */
  predicate Keeper(t: Template) {
    !t.stores && t.value != KEY_DISCARD
  }

  function Keepers(cfg: Config, j: int, arg: string): nat
    requires 0 <= j <= |cfg.table|
    decreases |cfg.table| - j
  {
    if j == |cfg.table| then 0
    else (if Match(cfg.table[j].templ, arg).Some? && Keeper(cfg.table[j]) then 1 else 0) + Keepers(cfg, j + 1, arg)
  }

  /** No argument of the vector matches two templates that can keep it. */
  ghost predicate SingleKept(cfg: Config, argv: seq<string>) {
    var body := Body(argv);
    forall i {:trigger body[i]} :: 0 <= i < |body| && Dashed(body[i]) ==> Keepers(cfg, 0, body[i]) <= 1
  }

  /** A join uses up an argument and adds at most what the option alone would. */
  lemma {:induction false} OfferAllCounts(cfg: Config, argv: seq<string>, c: Ctx, j: int, arg: string)
    requires 0 <= j <= |cfg.table| && 0 <= c.at < |argv| && OfferAll(cfg, argv, c, j, arg, false).Some?
    ensures
      var d := OfferAll(cfg, argv, c, j, arg, false).value;
      && d.at - c.at == d.joins - c.joins && d.at < |argv| && d.kept == c.kept
      && |d.out| <= |c.out| + Keepers(cfg, j, arg)
    decreases |cfg.table| - j
  {
    hide Match, Hungry;
    if j < |cfg.table| {
      var t := cfg.table[j];
      if Match(t.templ, arg).None? {
        OfferAllCounts(cfg, argv, c, j + 1, arg);
      } else {
        OfferCounts(cfg, argv, c, t, arg);
        OfferAllCounts(cfg, argv, Offer(cfg, argv, c, t, arg, false).value, j + 1, arg);
      }
    }
  }

  lemma OfferCounts(cfg: Config, argv: seq<string>, c: Ctx, t: Template, arg: string)
    requires 0 <= c.at < |argv| && Match(t.templ, arg).Some? && Offer(cfg, argv, c, t, arg, false).Some?
    ensures
      var d := Offer(cfg, argv, c, t, arg, false).value;
      && d.at - c.at == d.joins - c.joins && d.at < |argv| && d.kept == c.kept
      && |d.out| <= |c.out| + if Keeper(t) then 1 else 0
  {
    hide Match, Hungry;
    HungryMatches(t, arg);
  }

  lemma GoptCounts(cfg: Config, argv: seq<string>, c: Ctx, arg: string)
    requires 0 <= c.at < |argv| && Gopt(cfg, argv, c, arg, false).Some? && Keepers(cfg, 0, arg) <= 1
    ensures
      var d := Gopt(cfg, argv, c, arg, false).value;
      d.at - c.at == d.joins - c.joins && d.at < |argv| && |d.out| <= |c.out| + 1
  {
    hide OfferAll, Keepers;
    if FindOpt(cfg.table, 0, arg) < |cfg.table| {
      OfferAllCounts(cfg, argv, c, 0, arg);
    }
  }

  lemma {:induction false} GroupOfferCounts(cfg: Config, argv: seq<string>, c: Ctx, j: int, arg: string)
    requires 0 <= j <= |cfg.table| && 0 <= c.at < |argv| && OfferAll(cfg, argv, c, j, arg, true).Some?
    ensures
      var d := OfferAll(cfg, argv, c, j, arg, true).value;
      d.at - c.at == d.joins - c.joins && d.at < |argv| && d.out == c.out && d.nonopt == c.nonopt
    decreases |cfg.table| - j
  {
    hide Match, Hungry;
    if j < |cfg.table| {
      var t := cfg.table[j];
      if Match(t.templ, arg).None? {
        GroupOfferCounts(cfg, argv, c, j + 1, arg);
      } else {
        HungryMatches(t, arg);
        GroupOfferCounts(cfg, argv, Offer(cfg, argv, c, t, arg, true).value, j + 1, arg);
      }
    }
  }

  lemma {:induction false} GroupCounts(cfg: Config, argv: seq<string>, c: Ctx, options: seq<string>)
    requires 0 <= c.at < |argv| && Group(cfg, argv, c, options).Some?
    ensures
      var d := Group(cfg, argv, c, options).value;
      d.at - c.at == d.joins - c.joins && d.at < |argv| && d.out == c.out && d.nonopt == c.nonopt
    decreases |options|
  {
    hide OfferAll;
    if options != [] {
      if FindOpt(cfg.table, 0, options[0]) < |cfg.table| {
        GroupOfferCounts(cfg, argv, c, 0, options[0]);
      }
      GroupCounts(cfg, argv, Gopt(cfg, argv, c, options[0], true).value, options[1..]);
    }
  }

  lemma OneCounts(cfg: Config, argv: seq<string>, c: Ctx)
    requires 0 <= c.at < |argv| && One(cfg, argv, c).Some?
    requires Dashed(argv[c.at]) && !IsGroup(argv[c.at]) ==> Keepers(cfg, 0, argv[c.at]) <= 1
    ensures
      var d := One(cfg, argv, c).value;
      && d.at < |argv| && |d.out| - |c.out| + d.joins - c.joins <= d.at + 1 - c.at
      && (c.nonopt == 0 && argv[c.at] == "-o" ==> |d.out| - |c.out| + d.joins - c.joins + 2 <= d.at + 1 - c.at)
  {
    hide Gopt, Group, Keepers;
    var arg := argv[c.at];
    if c.nonopt == 0 && Dashed(arg) && arg != "--" {
      if !IsGroup(arg) {
        GoptCounts(cfg, argv, c, arg);
      } else if |arg| > 2 {
        GroupCounts(cfg, argv, c, ParseGroup(arg[2..]));
      } else {
        GroupCounts(cfg, argv, c.(at := c.at + 1), ParseGroup(argv[c.at + 1]));
      }
    }
  }

  lemma {:induction false} RunCounts(cfg: Config, argv: seq<string>, c: Ctx)
    requires 0 <= c.at <= |argv| && Run(cfg, argv, c).Some?
    requires forall i {:trigger argv[i]} :: c.at <= i < |argv| && Dashed(argv[i]) ==> Keepers(cfg, 0, argv[i]) <= 1
    ensures
      var d := Run(cfg, argv, c).value;
      |d.out| + d.joins <= |c.out| + c.joins + |argv| - c.at
    decreases |argv| - c.at
  {
    hide One, Keepers;
    if c.at < |argv| {
      var d := One(cfg, argv, c).value;
      OneCounts(cfg, argv, c);
      RunCounts(cfg, argv, d.(at := d.at + 1));
    }
  }

  /** The arguments that are put out and those that are used up by joins fit the vector. */
  lemma ParsedCounts(cfg: Config, argv: seq<string>)
    requires argv != [] && Parsed(cfg, argv).Some? && SingleKept(cfg, argv)
    ensures
      var d := Parsed(cfg, argv).value;
      |d.out| + d.joins <= if HasList(argv) then |argv| - 2 else |argv|
  {
    hide Keepers, One;
    var start, body := Ctx(1, [argv[0]], [], 0, 0), Body(argv);
    if HasList(argv) {
      assert forall i {:trigger argv[i]} :: 3 <= i < |argv| ==> argv[i] == body[i - 3];
      var d := One(cfg, argv, start).value;
      OneCounts(cfg, argv, start);
      RunCounts(cfg, argv, d.(at := d.at + 1));
    } else {
      assert forall i {:trigger argv[i]} :: 1 <= i < |argv| ==> argv[i] == body[i - 1];
      RunCounts(cfg, argv, start);
    }
  }

  lemma LoneGroup(cfg: Config, argv: seq<string>)
    ensures |argv| == 2 && argv[1] == "-o" ==> Parse(cfg, argv) == None
  {
  }

  /** Such a vector can be stable only if nothing is joined. */
  lemma StableUnjoined(cfg: Config, argv: seq<string>)
    requires argv != [] && Parse(cfg, argv) == Some(argv) && SingleKept(cfg, argv)
    ensures Parsed(cfg, argv).value.joins == 0
  {
    hide SingleKept, Print, Group, Gopt;
    ParsedCounts(cfg, argv);
    var d := Parsed(cfg, argv).value;
    assert Ctx(1, [argv[0]], [], 0, 0).Before(d);
    LoneGroup(cfg, argv);
    if d.kept != [] && |argv| > 1 {
      assert argv[1] == "-o";
    }
  }

  // ---- the theorems ----

  /** A parse leaves a vector as it is iff the vector is canonical, provided that no argument
      matches two templates that can keep it or that no option asks for the argument after it. */
  lemma StableIff(cfg: Config, argv: seq<string>)
    requires SingleKept(cfg, argv) || NeverAsks(cfg, argv, 1)
    ensures Parse(cfg, argv) == Some(argv) <==> argv == [] || Canonical(cfg, argv)
  {
    hide Run, SingleKept, NeverAsks, Canonical, Finish;
    if Parse(cfg, argv) == Some(argv) && argv != [] {
      if SingleKept(cfg, argv) {
        StableUnjoined(cfg, argv);
      } else {
        NeverJoins(cfg, argv, Ctx(1, [argv[0]], [], 0, 0));
      }
      StableCanonical(cfg, argv);
    }
    if argv != [] && Canonical(cfg, argv) {
      CanonicalStable(cfg, argv);
    }
  }

  /** Parsing twice is parsing once iff the result is canonical, under the same proviso for the
      result. */
  lemma ParseIdempotentIff(cfg: Config, argv: seq<string>)
    requires Parse(cfg, argv).Some?
    requires SingleKept(cfg, Parse(cfg, argv).value) || NeverAsks(cfg, Parse(cfg, argv).value, 1)
    ensures Parse(cfg, Parse(cfg, argv).value) == Parse(cfg, argv) <==>
      Parse(cfg, argv).value == [] || Canonical(cfg, Parse(cfg, argv).value)
  {
    hide Parse, SingleKept, NeverAsks, Canonical;
    StableIff(cfg, Parse(cfg, argv).value);
  }

  // ---- what is asked in a result ----

  ghost predicate MiddleQuiet(cfg: Config, mid: seq<string>) {
    forall i {:trigger mid[i]} :: 0 <= i < |mid| && Dashed(mid[i]) ==> !Asks(cfg, mid[i])
  }

  lemma {:induction false} MiddleAsks(cfg: Config, alone: bool, argv: seq<string>, i: int, mid: seq<string>,
    rear: seq<string>)
    requires 0 <= i <= |argv| && argv[i..] == mid + rear && AllPlain(cfg, alone, mid) && IsRear(cfg, rear)
    ensures NeverAsks(cfg, argv, i) <==> MiddleQuiet(cfg, mid)
    decreases |mid|
  {
    hide Asks, Accepted, Copies, NoneAsks, AllWords;
    if mid == [] {
      assert mid + rear == rear;
      if rear != [] {
        assert argv[i] == rear[0];
      }
    } else {
      var rest := mid[1..];
      assert forall k {:trigger rest[k]} :: 0 <= k < |rest| ==> rest[k] == mid[k + 1];
      assert forall k {:trigger mid[k]} :: 0 < k < |mid| ==> mid[k] == rest[k - 1];
      assert argv[i] == argv[i..][0] == mid[0] && Plain(cfg, alone, mid[0]);
      assert argv[i + 1..] == argv[i..][1..] == rest + rear;
      MiddleAsks(cfg, alone, argv, i + 1, rest, rear);
    }
  }

  /** The result never asks iff none of its options does. */
  lemma ResultAsks(cfg: Config, alone: bool, c: Ctx)
    requires Good(cfg, alone, c) && c.out != []
    ensures NeverAsks(cfg, Finish(c), 1) <==>
      MiddleQuiet(cfg, Middle(c)) && (c.kept != [] ==> NoneAsks(cfg, Strip(c.kept)))
  {
    hide *;
    Parts(cfg, alone, c);
    RearStart(cfg, Rear(c));
    RearStart(cfg, []);
    var p, mid, argv := c.out[0], Middle(c), Finish(c);
    Finished(c, p, mid, Rear(c));
    if c.kept == [] {
      var rear := if |Rear(c)| == 1 then [] else Rear(c);
      assert argv[1..] == mid + rear;
      MiddleAsks(cfg, alone, argv, 1, mid, rear);
    } else {
      ResultList(cfg, alone, c.kept);
      assert argv[1] == "-o" && argv[2] == Print(c.kept).value && argv[3..] == mid + Rear(c);
      AsksStep(cfg, argv);
      MiddleAsks(cfg, alone, argv, 3, mid, Rear(c));
    }
  }

  lemma AsksStep(cfg: Config, argv: seq<string>)
    requires HasList(argv)
    ensures NeverAsks(cfg, argv, 1) <==> NoneAsks(cfg, ParseGroup(argv[2])) && NeverAsks(cfg, argv, 3)
    ensures |argv| >= 3
  {
  }

  lemma ResultList(cfg: Config, alone: bool, kept: seq<string>)
    requires kept != [] && AllKept(cfg, alone, kept)
    ensures Print(kept).Some? && ParseGroup(Print(kept).value) == Strip(kept)
  {
    hide Print, Split, Accepted, Copies;
    RoundTripIff(kept);
  }

  /** The result of a parse that joined nothing never asks. */
  lemma UnjoinedNeverAsks(cfg: Config, argv: seq<string>)
    requires argv != [] && Parsed(cfg, argv).Some? && Parsed(cfg, argv).value.joins == 0
    ensures NeverAsks(cfg, Parse(cfg, argv).value, 1)
  {
    hide Run, Finish, NeverAsks, Accepted, Copies, Asks, Strip;
    var c := Parsed(cfg, argv).value;
    ParsedGood(cfg, true, argv);
    ResultAsks(cfg, true, c);
    AloneQuiet(cfg, c);
  }

  lemma AloneQuiet(cfg: Config, c: Ctx)
    requires Good(cfg, true, c) && c.out != []
    ensures MiddleQuiet(cfg, Middle(c)) && (c.kept != [] ==> NoneAsks(cfg, Strip(c.kept)))
  {
    hide Accepted, Copies, Asks, Strip, CString, Middle;
    var mid, s := Middle(c), Strip(c.kept);
    StripKept(cfg, true, c.kept);
    forall i | 0 <= i < |mid| && Dashed(mid[i]) ensures !Asks(cfg, mid[i]) {
      assert Plain(cfg, true, mid[i]);
      AcceptedAlone(cfg, mid[i]);
    }
    forall i | 0 <= i < |s| ensures !Asks(cfg, s[i]) {
      assert Kept(cfg, true, s[i]);
      AcceptedAlone(cfg, s[i]);
    }
  }

  // ---- tables in which an option matches one template ----

  ghost predicate MatchOnce(cfg: Config, arg: string) {
    forall j, k | 0 <= j < |cfg.table| && 0 <= k < |cfg.table| ::
      Match(cfg.table[j].templ, arg).Some? && Match(cfg.table[k].templ, arg).Some? ==> j == k
  }

  /** No option matches two templates, and no template makes a lone "-" ask. */
  ghost predicate Ordinary(cfg: Config) {
    (forall arg {:trigger MatchOnce(cfg, arg)} :: MatchOnce(cfg, arg)) && !Asks(cfg, "-")
  }

  lemma {:induction false} KeptWhere(cfg: Config, i: int, arg: string) returns (j: int)
    requires 0 <= i <= |cfg.table| && KeptBy(cfg, i, arg) >= 1
    ensures i <= j < |cfg.table| && Match(cfg.table[j].templ, arg).Some?
    ensures Decide(cfg, cfg.table[j], Match(cfg.table[j].templ, arg).value, arg) == Keep
    decreases |cfg.table| - i
  {
    hide Match, Decide;
    var m := Match(cfg.table[i].templ, arg);
    if m.Some? && Decide(cfg, cfg.table[i], m.value, arg) == Keep {
      j := i;
    } else {
      j := KeptWhere(cfg, i + 1, arg);
    }
  }

  lemma {:induction false} OnlyMatch(cfg: Config, i: int, j: int, arg: string)
    requires 0 <= i <= |cfg.table| && 0 <= j < |cfg.table| && MatchOnce(cfg, arg) && !Asks(cfg, arg)
    requires Match(cfg.table[j].templ, arg).Some?
    requires Decide(cfg, cfg.table[j], Match(cfg.table[j].templ, arg).value, arg) == Keep
    ensures KeptBy(cfg, i, arg) == (if i <= j then 1 else 0) && Smooth(cfg, i, arg)
    decreases |cfg.table| - i
  {
    hide Match, Decide, Hungry;
    if i < |cfg.table| {
      OnlyMatch(cfg, i + 1, j, arg);
    }
  }

  lemma {:induction false} OneKeeper(cfg: Config, i: int, arg: string)
    requires 0 <= i <= |cfg.table| && MatchOnce(cfg, arg)
    ensures Keepers(cfg, i, arg) <= 1
    ensures Keepers(cfg, i, arg) == 1 ==> exists j :: i <= j < |cfg.table| && Match(cfg.table[j].templ, arg).Some?
    decreases |cfg.table| - i
  {
    hide Match;
    if i < |cfg.table| {
      OneKeeper(cfg, i + 1, arg);
    }
  }

  /** There an option that is kept and does not ask is taken alone and kept once. */
  lemma KeptOnce(cfg: Config, arg: string)
    requires MatchOnce(cfg, arg) && Copies(cfg, arg) >= 1 && !Asks(cfg, arg)
    ensures Accepted(cfg, arg) && Copies(cfg, arg) == 1
  {
    hide Match, Decide, Asks, MatchOnce, FindOpt, Smooth, KeptBy;
    if FindOpt(cfg.table, 0, arg) < |cfg.table| {
      var j := KeptWhere(cfg, 0, arg);
      OnlyMatch(cfg, 0, j, arg);
    } else {
      NoneSmooth(cfg, 0, arg);
    }
  }

  lemma OrdinarySingle(cfg: Config, argv: seq<string>)
    requires Ordinary(cfg)
    ensures SingleKept(cfg, argv)
  {
    hide MatchOnce, Keepers, Asks;
    var body := Body(argv);
    forall i | 0 <= i < |body| && Dashed(body[i]) ensures Keepers(cfg, 0, body[i]) <= 1 {
      assert MatchOnce(cfg, body[i]);
      OneKeeper(cfg, 0, body[i]);
    }
  }

  lemma OrdinaryQuiet(cfg: Config, c: Ctx)
    requires Ordinary(cfg) && Good(cfg, false, c) && c.out != [] && MiddleQuiet(cfg, Middle(c))
    requires c.kept != [] ==> NoneAsks(cfg, Strip(c.kept))
    ensures Good(cfg, true, c.(kept := Strip(c.kept))) && OnceEach(cfg, c)
  {
    hide Accepted, Copies, Asks, Strip, CString, MatchOnce, Middle, AllWords;
    var mid, s := Middle(c), Strip(c.kept);
    StripKept(cfg, false, c.kept);
    assert Middle(c.(kept := s)) == mid && Rear(c.(kept := s)) == Rear(c) by { SameOut(c, s); }
    forall i | 0 <= i < |mid| && Dashed(mid[i]) ensures Accepted(cfg, mid[i]) && Copies(cfg, mid[i]) == 1 {
      assert Plain(cfg, false, mid[i]) && MatchOnce(cfg, mid[i]);
      KeptOnce(cfg, mid[i]);
    }
    forall i | 0 <= i < |s| ensures Accepted(cfg, s[i]) && Copies(cfg, s[i]) == 1 {
      assert Kept(cfg, false, s[i]) && MatchOnce(cfg, s[i]);
      KeptOnce(cfg, s[i]);
    }
  }

  lemma SameOut(c: Ctx, kept: seq<string>)
    requires c.out != []
    ensures Middle(c.(kept := kept)) == Middle(c) && Rear(c.(kept := kept)) == Rear(c)
  {
  }

  lemma FinishStripped(c: Ctx)
    ensures Finish(c.(kept := Strip(c.kept))) == Finish(c)
  {
    hide Print;
    if c.kept != [] {
      PrintIsJoined(c.kept);
      PrintStripped(c.kept);
    }
  }

  lemma OrdinaryStable(cfg: Config, c: Ctx)
    requires Ordinary(cfg) && Good(cfg, false, c) && c.out != [] && NeverAsks(cfg, Finish(c), 1)
    ensures Parse(cfg, Finish(c)) == Some(Finish(c))
  {
    hide *;
    ResultAsks(cfg, false, c);
    OrdinaryQuiet(cfg, c);
    var d := c.(kept := Strip(c.kept));
    FinishStripped(c);
    FinishedAgain(cfg, d);
    OnceStripped(cfg, c);
  }

  lemma OnceStripped(cfg: Config, c: Ctx)
    requires c.out != [] && OnceEach(cfg, c)
    ensures OnceEach(cfg, c.(kept := Strip(c.kept)))
  {
    hide Once, Middle;
    SameOut(c, Strip(c.kept));
    StripTwice(c.kept);
  }

  lemma CanonicalQuiet(cfg: Config, argv: seq<string>)
    requires argv != [] && Canonical(cfg, argv)
    ensures NeverAsks(cfg, argv, 1)
  {
    hide *;
    ContextGood(cfg, argv);
    ContextFinished(cfg, argv);
    GoodAt(cfg, true, Context(argv), 1);
    ResultAsks(cfg, true, Context(argv));
    AloneQuiet(cfg, Context(argv));
  }

  /** With such a table, whatever was joined: parsing twice is parsing once iff no option of the
      result asks for the argument after it. */
  lemma OrdinaryIff(cfg: Config, argv: seq<string>)
    requires Ordinary(cfg) && CStrings(argv) && Parse(cfg, argv).Some?
    ensures Parse(cfg, Parse(cfg, argv).value) == Parse(cfg, argv) <==> NeverAsks(cfg, Parse(cfg, argv).value, 1)
  {
    hide Run, Finish, Ordinary, Good, NeverAsks, Canonical, SingleKept;
    if argv == [] {
      NothingAsks(cfg);
    } else {
      var c := Parsed(cfg, argv).value;
      OrdinaryDash(cfg);
      ParsedGood(cfg, false, argv);
      GoodAt(cfg, false, c, 1);
      var v := Finish(c);
      FinishNonempty(c);
      if NeverAsks(cfg, v, 1) {
        OrdinaryStable(cfg, c);
      } else if Parse(cfg, v) == Some(v) {
        OrdinarySingle(cfg, v);
        StableIff(cfg, v);
        CanonicalQuiet(cfg, v);
      }
    }
  }

  lemma NothingAsks(cfg: Config)
    ensures NeverAsks(cfg, [], 1)
  {
  }

  lemma OrdinaryDash(cfg: Config)
    requires Ordinary(cfg)
    ensures !Asks(cfg, "-")
  {
  }

  lemma FinishNonempty(c: Ctx)
    requires c.out != [] && (c.nonopt == 0 || 2 <= c.nonopt)
    ensures Finish(c) != []
  {
  }

  // ---- tables without spaces ----

  /** The template can take a parameter from the next argument. */
  predicate Spaced(t: string) {
    OptionTable.Front(t).Some? && t[Separator(t)] == ' '
  }

  ghost predicate NoneSpaced(cfg: Config) {
    forall j {:trigger cfg.table[j]} :: 0 <= j < |cfg.table| ==> !Spaced(cfg.table[j].templ)
  }

  lemma {:induction false} NoneSpacedQuiet(cfg: Config, argv: seq<string>, i: int)
    requires NoneSpaced(cfg) && 0 <= i
    ensures NeverAsks(cfg, argv, i)
    decreases |argv| - i
  {
    assert forall a :: !Asks(cfg, a);
    hide Asks, NoneSpaced;
    if i < |argv| {
      NoneSpacedQuiet(cfg, argv, i + 1);
      if i + 1 < |argv| {
        NoneSpacedQuiet(cfg, argv, i + 2);
      }
    }
  }

  /** If no option is kept by two templates, parsing twice is parsing once. */
  lemma ParseIdempotent(cfg: Config, argv: seq<string>)
    requires Parse(cfg, argv).Some? && NoneSpaced(cfg) && forall a {:trigger Copies(cfg, a)} :: Copies(cfg, a) <= 1
    ensures Parse(cfg, Parse(cfg, argv).value) == Parse(cfg, argv)
  {
    hide Run, Finish, NoneSpaced, Accepted, Copies, NeverAsks;
    if argv != [] {
      NoneSpacedQuiet(cfg, argv, 1);
      NeverJoins(cfg, argv, Ctx(1, [argv[0]], [], 0, 0));
      ParsedGood(cfg, true, argv);
      var c := Parsed(cfg, argv).value;
      Parts(cfg, true, c);
      if c.kept != [] {
        StripKept(cfg, true, c.kept);
        KeptMultiplied(cfg, Strip(c.kept));
      }
      UnjoinedIff(cfg, argv);
    }
  }

  /** With no templates at all, whatever the callback decides. */
  lemma NoTemplates(cfg: Config, argv: seq<string>)
    requires cfg.table == [] && Parse(cfg, argv).Some?
    ensures Parse(cfg, Parse(cfg, argv).value) == Parse(cfg, argv)
  {
    ParseIdempotent(cfg, argv);
  }
}
