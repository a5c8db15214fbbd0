/** Argument vectors that show where a second parse goes wrong, and where it does not. */
module ParseExamples {
  import opened Basics
  import opened Options
  import opened OptionTable
  import opened ParseTwice
  import opened ParseStable

  const ALLOW := Template("a", false, KEY_KEEP)
  const TWICE := Config([ALLOW, ALLOW], (arg, key) => Keep, (format, param) => true)

  lemma KeptByBoth()
    ensures Accepted(TWICE, "a") && Copies(TWICE, "a") == 2
  {
    assert IndexOf("a", '=') == 1 && IndexOf("a", ' ') == 1;
    assert Match("a", "a") == Some(0);
    assert KeptBy(TWICE, 2, "a") == 0 && KeptBy(TWICE, 1, "a") == 1;
    assert Smooth(TWICE, 2, "a") && Smooth(TWICE, 1, "a");
  }

  /** One more "a" at the end of a printed list. */
  lemma PrintedMore(opts: seq<string>, text: string)
    requires opts != [] && Print(opts) == Some(text) && text != ""
    ensures Print(opts + ["a"]) == Some(text + ",a")
  {
    hide Print, Escape;
    PrintSnoc(opts, "a");
    EscapeOne('a');
    assert text + "," + "a" == text + ",a";
  }

  lemma Printed()
    ensures Print(["a"]) == Some("a") && Print(["a", "a"]) == Some("a,a")
    ensures Print(["a", "a", "a", "a"]) == Some("a,a,a,a")
  {
    hide Print, Escape;
    assert Print(["a"]) == Some("a") by {
      PrintSnoc([], "a");
      PrintNothing();
      EscapeOne('a');
      assert [] + ["a"] == ["a"] && "" + "a" == "a";
    }
    assert ["a"] + ["a"] == ["a", "a"] && "a" + ",a" == "a,a";
    PrintedMore(["a"], "a");
    assert ["a", "a"] + ["a"] == ["a", "a", "a"] && "a,a" + ",a" == "a,a,a";
    PrintedMore(["a", "a"], "a,a");
    assert ["a", "a", "a"] + ["a"] == ["a", "a", "a", "a"] && "a,a,a" + ",a" == "a,a,a,a";
    PrintedMore(["a", "a", "a"], "a,a,a");
  }

  lemma PrintNothing()
    ensures Print([]) == None
  {
  }

  /** A group of "a"s, each of which is kept twice. */
  lemma FirstParse()
    ensures Parsed(TWICE, ["p", "-oa"]) == Some(Ctx(2, ["p"], ["a", "a"], 0, 0))
  {
    hide Gopt, Print, Accepted, Copies, Split;
    KeptByBoth();
    Printed();
    RoundTripIff(["a"]);
    var c, argv := Ctx(1, ["p"], [], 0, 0), ["p", "-oa"];
    assert argv[1][2..] == "a" && IsGroup(argv[1]);
    GoptAdds(TWICE, argv, c, "a", true);
    var d := c.(kept := ["a", "a"]);
    assert AddTimes(c, "a", 2, true) == d by { assert Repeat("a", 2) == ["a", "a"]; }
    assert ["a"][1..] == [];
    assert Group(TWICE, argv, d, []) == Some(d);
    assert Group(TWICE, argv, c, ["a"]) == Some(d);
    assert One(TWICE, argv, c) == Some(d);
    assert Run(TWICE, argv, d.(at := 2)) == Some(d.(at := 2));
  }

  lemma SecondParse()
    ensures Parsed(TWICE, ["p", "-o", "a,a"]) == Some(Ctx(3, ["p"], ["a", "a", "a", "a"], 0, 0))
  {
    hide Gopt, Print, Accepted, Copies, Split, Run;
    KeptByBoth();
    Printed();
    var argv := ["p", "-o", "a,a"];
    assert AllKept(TWICE, true, ["a", "a"]);
    OptionsAgain(TWICE, argv, "p", ["a", "a"]);
    assert Strip(["a", "a"]) == ["a", "a"];
    MultipliedExample();
    RunEnd(TWICE, argv, Ctx(3, ["p"], ["a", "a", "a", "a"], 0, 0));
  }

  lemma MultipliedExample()
    requires Copies(TWICE, "a") == 2
    ensures Multiply(TWICE, ["a", "a"], true) == ["a", "a", "a", "a"]
  {
    hide Copies;
    assert Repeat("a", 2) == ["a", "a"] && ["a", "a"][1..] == ["a"] && ["a"][1..] == [];
    assert Multiply(TWICE, ["a"], true) == ["a", "a"];
  }

  /** An option that two templates keep doubles with every parse. */
  lemma TwiceExample()
    ensures Parse(TWICE, ["p", "-oa"]) == Some(["p", "-o", "a,a"])
    ensures Parse(TWICE, ["p", "-o", "a,a"]) == Some(["p", "-o", "a,a,a,a"])
  {
    hide Parsed, Print, Finish;
    FirstParse();
    SecondParse();
    Printed();
    Finished(Ctx(2, ["p"], ["a", "a"], 0, 0), "p", [], []);
    Finished(Ctx(3, ["p"], ["a", "a", "a", "a"], 0, 0), "p", [], []);
    assert ["p", "-o", "a,a"] + [] + [] == ["p", "-o", "a,a"];
    assert ["p", "-o", "a,a,a,a"] + [] + [] == ["p", "-o", "a,a,a,a"];
  }

  // ---- a parameter from the next argument ----

  const JOIN := Config([Template("-x %s", false, KEY_KEEP)], (arg, key) => Keep, (format, param) => true)

  lemma JoinMatches(word: string)
    ensures Match("-x %s", "-x") == Some(2) && Hungry(JOIN.table[0], "-x")
    ensures Match("-x %s", "-x" + word) == Some(2) && (Hungry(JOIN.table[0], "-x" + word) <==> word == "")
  {
    assert IndexOf("-x %s", '=') == 5 && IndexOf("-x %s", ' ') == 2;
    assert "-x %s"[..2] == "-x" <= "-x" + word;
  }

  lemma FirstJoin(word: string)
    ensures Parse(JOIN, ["p", "-x", word]) == Some(["p", "-x" + word])
  {
    hide Match, Hungry;
    JoinMatches(word);
    var c, d := Ctx(1, ["p"], [], 0, 0), Ctx(2, ["p", "-x" + word], [], 0, 1);
    var argv := ["p", "-x", word];
    assert "-x"[..2] + word == "-x" + word && ["p"] + ["-x" + word] == ["p", "-x" + word];
    assert Offer(JOIN, argv, c, JOIN.table[0], "-x", false) == Some(d);
    assert OfferAll(JOIN, argv, d, 1, "-x", false) == Some(d);
    assert OfferAll(JOIN, argv, c, 0, "-x", false) == Some(d);
    assert FindOpt(JOIN.table, 0, "-x") == 0;
    assert One(JOIN, argv, c) == Some(d);
    RunEnd(JOIN, argv, d.(at := 3));
  }

  lemma SecondJoin(word: string)
    ensures Parse(JOIN, ["p", "-x" + word]) == if word == "" then None else Some(["p", "-x" + word])
  {
    hide Match, Hungry;
    JoinMatches(word);
    var x := "-x" + word;
    var c, d, argv := Ctx(1, ["p"], [], 0, 0), Ctx(1, ["p", x], [], 0, 0), ["p", x];
    assert x[0] == '-' && x[1] == 'x' && ["p"] + [x] == ["p", x];
    assert FindOpt(JOIN.table, 0, x) == 0;
    if word == "" {
      assert Offer(JOIN, argv, c, JOIN.table[0], x, false) == None;
      assert One(JOIN, argv, c) == None;
    } else {
      assert Offer(JOIN, argv, c, JOIN.table[0], x, false) == Some(d);
      assert OfferAll(JOIN, argv, d, 1, x, false) == Some(d);
      assert OfferAll(JOIN, argv, c, 0, x, false) == Some(d);
      assert One(JOIN, argv, c) == Some(d);
      RunEnd(JOIN, argv, d.(at := 2));
    }
  }

  /** The joined option is stable iff the parameter is not empty; an empty one leaves an option
      behind that asks for another. */
  lemma JoinExample(word: string)
    ensures Parse(JOIN, ["p", "-x", word]) == Some(["p", "-x" + word])
    ensures Parse(JOIN, ["p", "-x" + word]) == Some(["p", "-x" + word]) <==> word != ""
    ensures Parse(JOIN, ["p", "-x" + ""]) == None
  {
    hide Parse;
    FirstJoin(word);
    SecondJoin(word);
    SecondJoin("");
  }

  // ---- a lone dash ----

  const DASH := Config([Template("- %s", false, KEY_KEEP)], (arg, key) => Keep, (format, param) => true)

  lemma DashMatches()
    ensures Match("- %s", "-") == Some(1) && Hungry(DASH.table[0], "-")
  {
    assert IndexOf("- %s", '=') == 4 && IndexOf("- %s", ' ') == 1;
    assert "- %s"[..1] == "-";
  }

  /** A joined option that looks like a separator is read as one, and stays. */
  lemma DashExample()
    ensures Parse(DASH, ["p", "-", "-", "w"]) == Some(["p", "--", "w"])
    ensures Parse(DASH, ["p", "--", "w"]) == Some(["p", "--", "w"])
  {
    hide Match, Hungry;
    DashMatches();
    var c, d, e := Ctx(1, ["p"], [], 0, 0), Ctx(2, ["p", "--"], [], 0, 1), Ctx(3, ["p", "--", "w"], [], 0, 1);
    var one, two := ["p", "-", "-", "w"], ["p", "--", "w"];
    assert "-"[..1] + "-" == "--" && ["p"] + ["--"] == ["p", "--"] && ["p", "--"] + ["w"] == ["p", "--", "w"];
    assert Offer(DASH, one, c, DASH.table[0], "-", false) == Some(d);
    assert OfferAll(DASH, one, d, 1, "-", false) == Some(d);
    assert OfferAll(DASH, one, c, 0, "-", false) == Some(d);
    assert FindOpt(DASH.table, 0, "-") == 0;
    assert One(DASH, one, c) == Some(d);
    assert One(DASH, one, d.(at := 3)) == Some(e);
    RunEnd(DASH, one, e.(at := 4));
    assert Run(DASH, one, d.(at := 3)) == Some(e.(at := 4));
    var f := Ctx(1, ["p", "--"], [], 2, 0);
    assert One(DASH, two, c) == Some(f);
    assert One(DASH, two, f.(at := 2)) == Some(f.(at := 2, out := ["p", "--", "w"]));
    RunEnd(DASH, two, Ctx(3, ["p", "--", "w"], [], 2, 0));
    assert Run(DASH, two, f.(at := 2)) == Some(Ctx(3, ["p", "--", "w"], [], 2, 0));
  }

  // ---- one option is swallowed and another doubled ----

  const SWALLOW := Config(
    [Template("-x", false, KEY_KEEP), Template("-x ", true, 0), Template("-y", false, KEY_KEEP),
     Template("-y", false, KEY_KEEP)], (arg, key) => Keep, (format, param) => true)

  lemma SwallowMatches()
    ensures Match("-x", "-x") == Some(0) && Match("-x ", "-x") == Some(2) && Match("-y", "-x") == None
    ensures Match("-x", "-y") == None && Match("-x ", "-y") == None && Match("-y", "-y") == Some(0)
  {
    assert IndexOf("-x", '=') == 2 && IndexOf("-x", ' ') == 2 && IndexOf("-y", '=') == 2 && IndexOf("-y", ' ') == 2;
    assert IndexOf("-x ", '=') == 3 && IndexOf("-x ", ' ') == 2;
    assert "-x "[..2] == "-x";
  }

  /** "-x" stays and uses up the argument after it. */
  lemma Swallows(argv: seq<string>, c: Ctx)
    requires 0 <= c.at && c.at + 1 < |argv|
    ensures Gopt(SWALLOW, argv, c, "-x", false) ==
      Some(c.(at := c.at + 1, joins := c.joins + 1, out := c.out + ["-x"]))
  {
    hide Match;
    SwallowMatches();
    var t, d := SWALLOW.table, c.(out := c.out + ["-x"]);
    var e := d.(at := c.at + 1, joins := c.joins + 1);
    assert Offer(SWALLOW, argv, c, t[0], "-x", false) == Some(d);
    assert Hungry(t[1], "-x") && Offer(SWALLOW, argv, d, t[1], "-x", false) == Some(e);
    assert OfferAll(SWALLOW, argv, e, 4, "-x", false) == Some(e);
    assert OfferAll(SWALLOW, argv, e, 3, "-x", false) == Some(e);
    assert OfferAll(SWALLOW, argv, e, 2, "-x", false) == Some(e);
    assert OfferAll(SWALLOW, argv, d, 1, "-x", false) == Some(e);
    assert OfferAll(SWALLOW, argv, c, 0, "-x", false) == Some(e);
    assert FindOpt(SWALLOW.table, 0, "-x") == 0;
  }

  lemma Doubles(argv: seq<string>, c: Ctx)
    requires 0 <= c.at
    ensures Gopt(SWALLOW, argv, c, "-y", false) == Some(c.(out := c.out + ["-y", "-y"]))
  {
    hide Match;
    SwallowMatches();
    var t, d, e := SWALLOW.table, c.(out := c.out + ["-y"]), c.(out := c.out + ["-y", "-y"]);
    assert c.out + ["-y"] + ["-y"] == c.out + ["-y", "-y"];
    assert Offer(SWALLOW, argv, c, t[2], "-y", false) == Some(d);
    assert Offer(SWALLOW, argv, d, t[3], "-y", false) == Some(e);
    assert OfferAll(SWALLOW, argv, e, 4, "-y", false) == Some(e);
    assert OfferAll(SWALLOW, argv, d, 3, "-y", false) == Some(e);
    assert OfferAll(SWALLOW, argv, c, 2, "-y", false) == Some(e);
    assert OfferAll(SWALLOW, argv, c, 1, "-y", false) == Some(e);
    assert OfferAll(SWALLOW, argv, c, 0, "-y", false) == Some(e);
    assert FindOpt(SWALLOW.table, 2, "-y") == 2;
    assert FindOpt(SWALLOW.table, 1, "-y") == 2;
    assert FindOpt(SWALLOW.table, 0, "-y") == 2;
  }

  /** Four arguments of which the second one is used up by "-x". */
  lemma SwallowParse(word: string)
    ensures Parse(SWALLOW, ["p", "-x", word, "-y"]) == Some(["p", "-x", "-y", "-y"])
  {
    hide Gopt;
    var argv, c := ["p", "-x", word, "-y"], Ctx(1, ["p"], [], 0, 0);
    Swallows(argv, c);
    var d := Ctx(2, ["p", "-x"], [], 0, 1);
    assert ["p"] + ["-x"] == ["p", "-x"] && ["p", "-x"] + ["-y", "-y"] == ["p", "-x", "-y", "-y"];
    assert One(SWALLOW, argv, c) == Some(d);
    Doubles(argv, d.(at := 3));
    var e := Ctx(3, ["p", "-x", "-y", "-y"], [], 0, 1);
    assert One(SWALLOW, argv, d.(at := 3)) == Some(e);
    RunEnd(SWALLOW, argv, e.(at := 4));
    assert Run(SWALLOW, argv, d.(at := 3)) == Some(e.(at := 4));
  }

  /** When an option asks and another is kept twice, a vector can be stable without being
      canonical. */
  lemma SwallowExample()
    ensures Parse(SWALLOW, ["p", "-x", "q", "-y"]) == Some(["p", "-x", "-y", "-y"])
    ensures Parse(SWALLOW, ["p", "-x", "-y", "-y"]) == Some(["p", "-x", "-y", "-y"])
    ensures !Canonical(SWALLOW, ["p", "-x", "-y", "-y"])
  {
    hide Parse, NeverAsks, Canonical;
    SwallowParse("q");
    SwallowParse("-y");
    var v := ["p", "-x", "-y", "-y"];
    SwallowAsks(v);
    if Canonical(SWALLOW, v) {
      CanonicalQuiet(SWALLOW, v);
    }
  }

  lemma SwallowAsks(argv: seq<string>)
    requires argv == ["p", "-x", "-y", "-y"]
    ensures !NeverAsks(SWALLOW, argv, 1)
  {
    hide Match;
    SwallowMatches();
    assert Hungry(SWALLOW.table[1], "-x");
    assert Asks(SWALLOW, argv[1]);
  }

  // ---- the separator at the end ----

  const PLAIN := Config([], (arg, key) => Keep, (format, param) => true)

  lemma PlainGroup(argv: seq<string>, c: Ctx)
    requires 0 <= c.at
    ensures ParseGroup("a") == ["a"] && Group(PLAIN, argv, c, ["a"]) == Some(c.(kept := c.kept + ["a"]))
  {
    hide Split, Print;
    Printed();
    RoundTripIff(["a"]);
    assert Gopt(PLAIN, argv, c, "a", true) == Some(c.(kept := c.kept + ["a"]));
    assert ["a"][1..] == [];
  }

  /** A "--" at the end goes away, but stays behind printed options. */
  lemma SeparatorExample()
    ensures Parse(PLAIN, ["p", "--"]) == Some(["p"]) && Parse(PLAIN, ["p", "-oa", "--"]) == Some(["p", "-o", "a", "--"])
  {
    hide Group, Split, Print, Finish;
    var one, two, c := ["p", "--"], ["p", "-oa", "--"], Ctx(1, ["p"], [], 0, 0);
    var d, e := Ctx(2, ["p", "--"], [], 2, 0), Ctx(3, ["p", "--"], ["a"], 2, 0);
    assert ["p"] + ["--"] == ["p", "--"] && [] + ["a"] == ["a"];
    assert One(PLAIN, one, c) == Some(d.(at := 1));
    RunEnd(PLAIN, one, d);
    Finished(d, "p", [], ["--"]);
    assert Finish(d) == ["p"] + [] + [] == ["p"];
    assert two[1][2..] == "a" && IsGroup(two[1]);
    PlainGroup(two, c);
    assert One(PLAIN, two, c) == Some(c.(kept := ["a"]));
    assert One(PLAIN, two, c.(at := 2, kept := ["a"])) == Some(e.(at := 2));
    RunEnd(PLAIN, two, e);
    assert Run(PLAIN, two, c.(at := 2, kept := ["a"])) == Some(e);
    Finished(e, "p", [], ["--"]);
    Printed();
    assert Finish(e) == ["p", "-o", "a"] + [] + ["--"] == ["p", "-o", "a", "--"];
  }
}
