/** A run of lib/fuse.c that loses a lock: a call that waits for two paths fails for want of
    memory, is woken once more before its thread runs, takes one of the paths, and is then
    answered with the old error. Nobody will ever give that path back. */
module LostLockRun {
  import opened Basics
  import opened NodeTree
  import opened NodeIds
  import opened TreeLock
  import opened NodeLife
  import opened PathLock
  import opened NodeOps
  import opened TreeOps
  import opened PathQueue
  import opened Machine
  import opened MachineRuns
  import opened Theorems
  import opened LostLocks

  /** A hold whose call neither runs nor waits. */
  ghost predicate Lost(s: State, k: Key) {
    k in s.holds && k.ticket in s.calls && k.ticket !in s.granted && NotQueued(s, k.ticket)
  }

  // ---- the tree: /a is node 2, /b is node 3 ----

  const LINKS: Tree := map[1 := Unlinked, 2 := Linked(1, "a"), 3 := Linked(1, "b")]

  lemma LinksWalks()
    ensures Walk(LINKS, 1) == [1] && Walk(LINKS, 2) == [2, 1] && Walk(LINKS, 3) == [3, 1]
    ensures Lookup(LINKS, 1, "b") == Some(3)
  {
    assert IsWalk(LINKS, 1, [1]) && HasWalk(LINKS, 1);
    WalkUnique(LINKS, 1, [1], Walk(LINKS, 1));
    assert IsWalk(LINKS, 2, [2, 1]) && HasWalk(LINKS, 2);
    WalkUnique(LINKS, 2, [2, 1], Walk(LINKS, 2));
    assert IsWalk(LINKS, 3, [3, 1]) && HasWalk(LINKS, 3);
    WalkUnique(LINKS, 3, [3, 1], Walk(LINKS, 3));
    assert LINKS[3] == Linked(1, "b") && LINKS[2] != Linked(1, "b") && LINKS[1] != Linked(1, "b");
  }

  ghost function NodesWith(a: int, b: int): Core {
    Core(LINKS, map[1 := 1, 2 := 1, 3 := 1], map[1 := 3, 2 := 1, 3 := 1], map[1 := 0, 2 := a, 3 := b], map[])
  }

  function Dir(n: Id): Request {
    Request(n, None, false)
  }

  const WRITE_B := Request(1, Some("b"), true)

  /** The new name of a hard link, as fuse_lib_link() asks for it: no node is write-locked. */
  const LINK_X := Request(3, Some("x"), false)

  lemma TryRoot(a: int, b: int)
    ensures TryPath(NodesWith(a, b), Dir(1), false) == (OK, NodesWith(a, b).treelock)
    ensures HoldFor(NodesWith(a, b), Dir(1)) == Hold(1, [], None)
  {
    LinksWalks();
    var tl := NodesWith(a, b).treelock;
    assert LockPath(tl, [], None) == tl;
  }

  lemma TryA(a: int, b: int)
    requires a >= 0
    ensures TryPath(NodesWith(a, b), Dir(2), false) == (OK, NodesWith(a + 1, b).treelock)
    ensures HoldFor(NodesWith(a, b), Dir(2)) == Hold(2, [2], None)
  {
    LinksWalks();
    var tl := NodesWith(a, b).treelock;
    assert LockPath(tl, [2], None) == NodesWith(a + 1, b).treelock;
    assert Scan(tl, [2, 1], 1) == OK;
    assert [2, 1][..1] == [2];
  }

  lemma TryB(a: int, b: int)
    requires b < 0
    ensures TryPath(NodesWith(a, b), LINK_X, false) == (EAGAIN, NodesWith(a, b).treelock)
  {
    LinksWalks();
  }

  lemma TryWriteB(a: int)
    ensures TryPath(NodesWith(a, 0), WRITE_B, false) == (OK, NodesWith(a, WRITE).treelock)
    ensures HoldFor(NodesWith(a, 0), WRITE_B) == Hold(1, [], Some(3))
  {
    LinksWalks();
    var tl := NodesWith(a, 0).treelock;
    assert LockPath(tl, [], Some(3)) == NodesWith(a, WRITE).treelock;
  }

  // ---- the states ----

  const HOLD_B := Hold(1, [], Some(3))
  const HOLD_A := Hold(2, [2], None)
  const HOLD_ROOT := Hold(1, [], None)

  /** Call 2, a link of /a to /b/x, as it waits for its two paths. */
  function Pair(first: bool, done: bool, err: Err): Elem {
    Wait(2, Dir(2), Some(LINK_X), None, None, first, false, done, err)
  }

  ghost function WithTwo(a: int, b: int, holds: Holds, queue: seq<Elem>, granted: map<Ticket, Grant>,
                         calls: set<Ticket>): State {
    State(NodesWith(a, b), holds, queue, granted, calls, Ids(3, 0))
  }

  const G1 := Grant(WRITE_B, None)
  const GR := Grant(Dir(1), None)

  ghost function Written(): Holds {
    map[Key(1, false) := HOLD_B]
  }

  ghost function S1(): State {
    State(Core(map[1 := Unlinked, 2 := Linked(1, "a")], map[1 := 1, 2 := 1], map[1 := 2, 2 := 1], map[1 := 0, 2 := 0],
      map[]),
          map[], [], map[], {}, Ids(2, 0))
  }

  ghost function S2(): State { WithTwo(0, 0, map[], [], map[], {}) }
  ghost function S3(): State { WithTwo(0, WRITE, Written(), [], map[1 := G1], {1}) }
  ghost function S4(): State { WithTwo(0, WRITE, Written(), [Pair(false, false, OK)], map[1 := G1], {1, 2}) }
  ghost function S5(q: Elem): State {
    WithTwo(0, WRITE, Written()[Key(3, false) := HOLD_ROOT], [q], map[1 := G1, 3 := GR], {1, 2, 3})
  }
  ghost function S6(): State { WithTwo(0, WRITE, Written(), [Pair(false, true, ENOMEM)], map[1 := G1], {1, 2}) }
  ghost function S8(): State {
    WithTwo(1, WRITE, Written()[Key(2, false) := HOLD_A], [Pair(true, true, ENOMEM)], map[1 := G1], {1, 2})
  }
  ghost function S9(): State { WithTwo(1, WRITE, Written()[Key(2, false) := HOLD_A], [], map[1 := G1], {1, 2}) }

  // ---- the steps ----

  /** The first two nodes are numbered 2 and 3. */
  lemma FirstNumbers()
    ensures Draw(Initial().core.tree, Ids(0, 0)) == Ids(2, 0) && Draw(S1().core.tree, Ids(2, 0)) == Ids(3, 0)
  {
    var t, u := Initial().core.tree, S1().core.tree;
    assert Steps(t, 0, 2) == 2;
    assert Steps(t, 0, 1) == Steps(t, 0, 2);
    assert Steps(u, 2, 1) == 1;
  }

  lemma FirstFind()
    ensures var e := Find(1, Some("a"), false, false); Enabled(Initial(), e) && Next(Initial(), e) == S1()
  {
    FirstNumbers();
    var c := Initial().core;
    assert Lookup(c.tree, 1, "a") == None;
    var d := Hash(Fresh(c, 2), 2, 1, "a");
    assert d.tree == S1().core.tree && d.nlookup == S1().core.nlookup;
    assert d.refctr == S1().core.refctr && d.treelock == S1().core.treelock;
  }

  lemma SecondFind()
    ensures var e := Find(1, Some("b"), false, false); Enabled(S1(), e) && Next(S1(), e) == S2()
  {
    FirstNumbers();
    var c := S1().core;
    assert c.tree[2] != Linked(1, "b");
    assert Lookup(c.tree, 1, "b") == None;
    var d := Hash(Fresh(c, 3), 3, 1, "b");
    assert d.tree == LINKS && d.nlookup == NodesWith(0, 0).nlookup;
    assert d.refctr == NodesWith(0, 0).refctr && d.treelock == NodesWith(0, 0).treelock;
  }

  lemma WriterEnters()
    ensures var e := GetOne(1, WRITE_B, false); Enabled(S2(), e) && Next(S2(), e) == S3()
  {
    LinksWalks();
    TryWriteB(0);
    hide TryPath, HoldFor;
    assert Target(LINKS, WRITE_B) == Some(3);
    assert map[][Key(1, false) := HOLD_B] == Written();
  }

  lemma PairGivesBack()
    ensures TryLock2(S3(), 2, Dir(2), LINK_X, false, false) == (EAGAIN, S3())
  {
    TryA(0, WRITE);
    TryB(1, WRITE);
    hide TryPath, HoldFor;
    var held := Written()[Key(2, false) := HOLD_A];
    assert held - {Key(2, false)} - {Key(2, true)} == Written();
    assert UnlockPath(NodesWith(1, WRITE).treelock, [2], None) == NodesWith(0, WRITE).treelock;
  }

  lemma PairWaits()
    ensures var e := GetTwo(2, Dir(2), LINK_X, false, false); Enabled(S3(), e) && Next(S3(), e) == S4()
  {
    PairGivesBack();
    hide TryLock2;
    assert {1} + {2} == {1, 2};
  }

  lemma ReaderEnters(s: State, q: Elem)
    requires s == WithTwo(0, WRITE, Written(), [q], map[1 := G1], {1, 2})
    ensures var e := GetOne(3, Dir(1), false); Enabled(s, e) && Next(s, e) == S5(q)
  {
    TryRoot(0, WRITE);
    hide TryPath, HoldFor;
    assert {1, 2} + {3} == {1, 2, 3};
    assert map[1 := G1][3 := GR] == map[1 := G1, 3 := GR];
    assert |s.calls| == 2;
  }

  lemma ReaderEnds(q: Elem)
    ensures Ended(S5(q), 3) == WithTwo(0, WRITE, Written(), [q], map[1 := G1], {1, 2})
  {
    var s := S5(q);
    assert Others(s.holds, 3) == Written();
    assert UnlockPath(s.core.treelock, [], None) == s.core.treelock;
    assert s.granted - {3} == map[1 := G1];
    assert s.calls - {3} == {1, 2};
  }

  /** The wakeup of call 2 runs out of memory. */
  lemma PairFails()
    ensures Wakeup(WithTwo(0, WRITE, Written(), [Pair(false, false, OK)], map[1 := G1], {1, 2}), 0, true, false) == S6()
  {
    var s := WithTwo(0, WRITE, Written(), [Pair(false, false, OK)], map[1 := G1], {1, 2});
    assert Others(Written(), 2) == Written();
    assert TryPath(s.core, Dir(2), true) == (ENOMEM, s.core.treelock);
    hide TryPath, HoldFor;
  }

  /** The second wakeup takes /a, finds /b still write-locked, and leaves the old error. */
  lemma PairHalfGranted()
    ensures Wakeup(S6(), 0, false, false) == S8()
  {
    TryA(0, WRITE);
    TryB(1, WRITE);
    hide TryPath, HoldFor;
  }

  lemma FirstWake()
    ensures var e := Free(3, [(true, false)]);
      Enabled(S5(Pair(false, false, OK)), e) && Next(S5(Pair(false, false, OK)), e) == S6()
  {
    ReaderEnds(Pair(false, false, OK));
    PairFails();
    hide Wakeup, Ended;
  }

  lemma SecondWake()
    ensures var e := Free(3, [(false, false)]);
      Enabled(S5(Pair(false, true, ENOMEM)), e) && Next(S5(Pair(false, true, ENOMEM)), e) == S8()
  {
    ReaderEnds(Pair(false, true, ENOMEM));
    PairHalfGranted();
    hide Wakeup, Ended;
  }

  lemma PairReturns()
    ensures Enabled(S8(), Resume(0)) && Next(S8(), Resume(0)) == S9()
  {
    assert Dequeued(S8().queue, 0) == [];
  }

  ghost function States(): seq<State> {
    [Initial(), S1(), S2(), S3(), S4(), S5(Pair(false, false, OK)), S6(), S5(Pair(false, true, ENOMEM)), S8(), S9()]
  }

  function Events(): seq<Event> {
    [Find(1, Some("a"), false, false), Find(1, Some("b"), false, false), GetOne(1, WRITE_B, false),
     GetTwo(2, Dir(2), LINK_X, false, false), GetOne(3, Dir(1), false), Free(3, [(true, false)]),
     GetOne(3, Dir(1), false), Free(3, [(false, false)]), Resume(0)]
  }

  lemma FirstReader()
    ensures var e := GetOne(3, Dir(1), false); Enabled(S4(), e) && Next(S4(), e) == S5(Pair(false, false, OK))
  {
    ReaderEnters(S4(), Pair(false, false, OK));
  }

  lemma SecondReader()
    ensures var e := GetOne(3, Dir(1), false); Enabled(S6(), e) && Next(S6(), e) == S5(Pair(false, true, ENOMEM))
  {
    ReaderEnters(S6(), Pair(false, true, ENOMEM));
  }

  lemma PairIsLost()
    ensures Lost(S9(), Key(2, false)) && 2 in S9().core.treelock && S9().core.treelock[2] == 1
  {
  }

  /** The run happens, and at its end /a is read-locked by a call that is gone. */
  lemma LockGetsLost()
    ensures IsRun(States(), Events())
    ensures var last := States()[9]; Lost(last, Key(2, false)) && 2 in last.core.treelock && last.core.treelock[2] == 1
  {
    hide Next, Enabled, S1, S2, S3, S4, S5, S6, S8, S9, Initial, Lost, Pair, Dir;
    FirstFind();
    SecondFind();
    WriterEnters();
    PairWaits();
    FirstReader();
    FirstWake();
    SecondReader();
    SecondWake();
    PairReturns();
    PairIsLost();
  }

  /** In every later state of every run a lost hold is still there. */
  lemma {:induction false} LostForEver(ss: seq<State>, es: seq<Event>, i: int, j: int, k: Key)
    requires IsRun(ss, es) && 0 <= i <= j < |ss| && Lost(ss[i], k)
    ensures Lost(ss[j], k) && ss[j].holds[k] == ss[i].holds[k]
    decreases j - i
  {
    hide Inv, Enabled, Next;
    if i < j {
      LostForEver(ss, es, i, j - 1, k);
      RunInv(ss, es, j - 1);
      RunStep(ss, es, j - 1);
      LostStays(ss[j - 1], es[j - 1], k);
    }
  }

  lemma LostStays(s: State, e: Event, k: Key)
    requires Inv(s) && Enabled(s, e) && Lost(s, k)
    ensures Lost(Next(s, e), k) && Next(s, e).holds[k] == s.holds[k]
  {
    hide Inv, Sound, TargetsKnown, WakeFrom, GiveBack, TryPath, HoldFor, Draw;
    NextSteady(s, e);
    if e.Free? {
      var s1 := Ended(s, e.t);
      assert SameHold(s.holds, s1.holds, k);
      WakeFromLocksOnly(s1, 0, e.f);
      WakeFromOthers(s1, 0, e.f, k);
    } else if e.GetOne? || e.GetTwo? {
      GetKeeps(s, e, k);
    }
  }

  lemma TryLockFrame(s: State, k: Key, r: Request, oom: bool)
    ensures var s' := TryLock(s, k, r, oom).1; s'.queue == s.queue && s'.granted == s.granted && s'.calls == s.calls
  {
  }

  lemma TryLock2Frame(s: State, t: Ticket, r1: Request, r2: Request, oom1: bool, oom2: bool)
    ensures var s' := TryLock2(s, t, r1, r2, oom1, oom2).1;
      s'.queue == s.queue && s'.granted == s.granted && s'.calls == s.calls
  {
    hide TryPath, HoldFor, GiveBack;
  }

  lemma GetKeeps(s: State, e: Event, k: Key)
    requires Inv(s) && Enabled(s, e) && Lost(s, k) && (e.GetOne? || e.GetTwo?)
    ensures Lost(Next(s, e), k)
  {
    hide Inv, Sound, TryLock, TryLock2, Asked;
    if e.GetOne? {
      TryLockFrame(s, Key(e.t, false), e.r, e.oom);
      TryLockOnlyTicket(s, Key(e.t, false), e.r, e.oom);
      assert SameHold(s.holds, TryLock(s, Key(e.t, false), e.r, e.oom).1.holds, k);
    } else {
      TryLock2Frame(s, e.t, e.r1, e.r2, e.oom1, e.oom2);
      TryLock2OnlyTicket(s, e.t, e.r1, e.r2, e.oom1, e.oom2);
      assert SameHold(s.holds, TryLock2(s, e.t, e.r1, e.r2, e.oom1, e.oom2).1.holds, k);
    }
  }

  // ---- exactly when a hold is lost ----

  /** The call of `k` is answered with an error while it owns that path. */
  ghost predicate AnsweredHolding(s: State, e: Event, k: Key) {
    && e.Resume? && 0 <= e.i < |s.queue| && s.queue[e.i].Wait? && s.queue[e.i].ticket == k.ticket
    && s.queue[e.i].err != OK && Has(s.queue[e.i], k.second)
  }

  /** A step loses a hold iff it answers a call with an error while the call owns that path. */
  lemma BecomesLostIff(s: State, e: Event, k: Key)
    requires Inv(s) && Enabled(s, e) && !Lost(s, k)
    ensures Lost(Next(s, e), k) <==> AnsweredHolding(s, e, k)
  {
    hide Inv, Lost, Next, Enabled;
    if e.Resume? {
      ResumeLosesIff(s, e.i, k);
    } else if e.GetOne? || e.GetTwo? {
      GetLosesNothing(s, e, k);
    } else if e.Free? {
      FreeLosesNothing(s, e.t, e.f, k);
    } else {
      OthersLoseNothing(s, e, k);
    }
  }

  lemma ResumeLosesIff(s: State, i: int, k: Key)
    requires Inv(s) && Enabled(s, Resume(i)) && !Lost(s, k)
    ensures Lost(Next(s, Resume(i)), k) <==> AnsweredHolding(s, Resume(i), k)
  {
    hide Sound, Owned;
    var s', q := Next(s, Resume(i)), s.queue[i];
    assert ElemTied(s.core, s.holds, q);
    assert k == Key(k.ticket, false) || k == Key(k.ticket, true);
    LeavesQueue(s, i, s', k.ticket);
  }

  /** Who is still in the queue after one element has left. */
  lemma LeavesQueue(s: State, i: int, s': State, t: Ticket)
    requires Inv(s) && 0 <= i < |s.queue| && s'.queue == Dequeued(s.queue, i)
    ensures NotQueued(s', t) <==> NotQueued(s, t) || t == s.queue[i].ticket
  {
    hide Sound, Owned, ElemTied, Disciplined;
    if t == s.queue[i].ticket || NotQueued(s, t) {
      forall j | 0 <= j < |s'.queue| ensures s'.queue[j].ticket != t {
        DequeuedAt(s.queue, i, j);
      }
    } else {
      var j :| 0 <= j < |s.queue| && s.queue[j].ticket == t;
      var m := if j < i then j else j - 1;
      DequeuedAt(s.queue, i, m);
      assert s'.queue[m].ticket == t;
    }
  }

  lemma GetLosesNothing(s: State, e: Event, k: Key)
    requires Inv(s) && Enabled(s, e) && !Lost(s, k) && (e.GetOne? || e.GetTwo?)
    ensures !Lost(Next(s, e), k)
  {
    hide Inv, Sound, TryLock, TryLock2, Asked, Settle, Lost, OnlyTicket;
    if e.GetOne? {
      var (err, s1) := TryLock(s, Key(e.t, false), e.r, e.oom);
      TryLockFrame(s, Key(e.t, false), e.r, e.oom);
      TryLockOnlyTicket(s, Key(e.t, false), e.r, e.oom);
      SettleLosesNothing(s, s1, e.t, e.r, None, err, k);
    } else {
      var (err, s1) := TryLock2(s, e.t, e.r1, e.r2, e.oom1, e.oom2);
      TryLock2Frame(s, e.t, e.r1, e.r2, e.oom1, e.oom2);
      TryLock2OnlyTicket(s, e.t, e.r1, e.r2, e.oom1, e.oom2);
      SettleLosesNothing(s, s1, e.t, e.r1, Some(e.r2), err, k);
    }
  }

  lemma SettleLosesNothing(s: State, s1: State, t: Ticket, r1: Request, r2: Option<Request>, err: Err, k: Key)
    requires !Lost(s, k) && t !in s.calls && OnlyTicket(s.holds, s1.holds, t)
    requires s1.queue == s.queue && s1.granted == s.granted && s1.calls == s.calls
    ensures !Lost(Settle(s1, t, r1, r2, err), k)
  {
    assert k.ticket != t ==> SameHold(s.holds, s1.holds, k);
    var s' := Settle(s1, t, r1, r2, err);
    if err == EAGAIN {
      assert s'.queue[|s.queue|].ticket == t;
    }
    assert forall j {:trigger s.queue[j]} :: 0 <= j < |s.queue| ==> s'.queue[j] == s.queue[j];
  }

  lemma FreeLosesNothing(s: State, t: Ticket, f: Failures, k: Key)
    requires Inv(s) && Enabled(s, Free(t, f)) && !Lost(s, k)
    ensures !Lost(Next(s, Free(t, f)), k)
  {
    hide Inv, Sound, TargetsKnown, WakeFrom, GiveBack;
    var s1 := Ended(s, t);
    var s2 := WakeFrom(s1, 0, f);
    WakeFromLocksOnly(s1, 0, f);
    if Lost(s2, k) {
      forall j | 0 <= j < |s1.queue| ensures s1.queue[j].ticket != k.ticket {
        assert s2.queue[j].ticket == s1.queue[j].ticket;
      }
      WakeFromOthers(s1, 0, f, k);
    }
  }

  lemma OthersLoseNothing(s: State, e: Event, k: Key)
    requires Inv(s) && Enabled(s, e) && !Lost(s, k) && !e.Resume? && !e.GetOne? && !e.GetTwo? && !e.Free?
    ensures !Lost(Next(s, e), k)
  {
    hide Inv, Sound, Draw, Found, Removed, Renamed, Exchanged, Forgotten, Pinned, Unpinned, ForgetWaits, NotAwaited;
    var s' := Next(s, e);
    if e.ResumeForget? {
      LeavesQueue(s, e.i, s', k.ticket);
    } else if e.StartForget? {
      NewOwnsNothing(s, e.t);
      assert k == Key(k.ticket, false) || k == Key(k.ticket, true);
      assert forall j {:trigger s.queue[j]} :: 0 <= j < |s.queue| ==> s'.queue[j] == s.queue[j];
    }
  }
}
