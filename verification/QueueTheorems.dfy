/** Properties of waiting and granted calls: when a wakeup grants a request, what a failed
    attempt leaves behind, that a hold never changes while it lasts, and when a call can be
    answered with an error although it still owns a path. */
module QueueTheorems {
  import opened Basics
  import opened NodeTree
  import opened TreeLock
  import opened NodeLife
  import opened PathLock
  import opened NodeOps
  import opened PathQueue
  import opened QueueSafety
  import opened Machine
  import opened MachineRuns
  import opened Theorems

  // ---- a failed try_get_path2() ----

  /** `tl'` is `tl`, or `tl` with a waiting mark on one node that has readers. */
  ghost predicate AtMostMarked(tl: Locks, tl': Locks) {
    tl' == tl || exists m {:trigger Marked(tl, m)} :: m in tl && tl[m] > 0 && tl' == Marked(tl, m)
  }

  lemma OneFailureMarks(c: Core, r: Request, oom: bool)
    ensures TryPath(c, r, oom).0 != OK ==> AtMostMarked(c.treelock, TryPath(c, r, oom).1)
  {
  }

  lemma UnlockAfterMark(tl: Locks, chain: seq<Id>, w: Option<Id>, tl2: Locks)
    requires AtMostMarked(LockPath(tl, chain, w), tl2)
    requires forall n :: n in chain ==> n in tl && tl[n] >= 0
    requires w.Some? ==> w.value in tl && tl[w.value] == 0 && w.value !in chain
    ensures AtMostMarked(tl, UnlockPath(tl2, chain, w))
  {
    var a := LockPath(tl, chain, w);
    if m :| m in a && a[m] > 0 && tl2 == Marked(a, m) {
      UnlockUndoesMarkedLock(tl, chain, w, m);
      assert tl[m] <= 0 ==> Marked(tl, m) == tl;
    } else {
      UnlockUndoesLock(tl, chain, w);
    }
  }

  lemma GiveBackSingle(tl: Locks, holds: Holds, t: Ticket, h: Hold)
    requires OwnsNothing(holds, t)
    ensures GiveBack(tl, holds[Key(t, false) := h], t) == UnlockPath(tl, h.chain, h.wnode)
    ensures Others(holds[Key(t, false) := h], t) == holds
  {
    var k := Key(t, false);
    assert holds[k := h] - {k} == holds;
    assert holds - {Key(t, true)} == holds;
  }

  /** Whatever goes wrong, the tree locks are as before, save for one waiting mark on a node
      that has readers; and no hold is gained or lost. */
  lemma FailureRestores(s: State, t: Ticket, r1: Request, r2: Request, oom1: bool, oom2: bool)
    requires SameDomains(s.core) && WellFormed(s.core.tree) && r1.nodeid in s.core.tree && r2.nodeid in s.core.tree
    requires OwnsNothing(s.holds, t) && TryLock2(s, t, r1, r2, oom1, oom2).0 != OK
    ensures TryLock2(s, t, r1, r2, oom1, oom2).1.holds == s.holds
    ensures AtMostMarked(s.core.treelock, TryLock2(s, t, r1, r2, oom1, oom2).1.core.treelock)
  {
    var (e1, s1) := TryLock(s, Key(t, false), r1, oom1);
    OneFailureMarks(s.core, r1, oom1);
    if e1 == OK {
      var h := HoldFor(s.core, r1);
      GrantedIff(s.core, r1);
      OpenMembers(s.core, h);
      GrantTargetOff(s.core, r1);
      var (e2, s2) := TryLock(s1, Key(t, true), r2, oom2);
      OneFailureMarks(s1.core, r2, oom2);
      GiveBackSingle(s2.core.treelock, s.holds, t, h);
      hide WellFormed, SameDomains, AtMostMarked, GiveBack, Others, UnlockPath, LockPath;
      UnlockAfterMark(s.core.treelock, h.chain, h.wnode, s2.core.treelock);
    }
  }

  lemma GrantTargetOff(c: Core, r: Request)
    requires Usable(c, r) && Outcome(c, r) == OK
    ensures var h := HoldFor(c, r); h.wnode.Some? ==> h.wnode.value in c.tree && h.wnode.value !in h.chain
  {
    var h := HoldFor(c, r);
    GrantedIff(c, r);
    if h.wnode.Some? {
      ChildOffWalk(c.tree, h.wnode.value, r.nodeid, h.chain + [ROOT]);
      assert forall n :: n in h.chain ==> n in h.chain + [ROOT];
    }
  }

  // ---- a writer that has to wait ----

  /** The node is on the way from the directory of the request to the root. */
  ghost predicate Passes(t: Tree, r: Request, n: Id) {
    n in Chain(t, r.nodeid)
  }

  lemma NoWayThrough(c: Core, r: Request, n: Id)
    requires Usable(c, r) && Passes(c.tree, r, n) && At(c.treelock, n) < 0
    ensures Outcome(c, r) != OK
  {
    hide Outcome, Usable, SameDomains, WellFormed, IsWalk;
    GrantedIff(c, r);
    var h := HoldFor(c, r);
    assert n in h.chain;
    var j :| 0 <= j < |h.chain| && h.chain[j] == n;
    assert At(c.treelock, h.chain[j]) < 0;
  }

  lemma WriterMarks(c: Core, holds: Holds, r: Request, w: Id)
    requires Sound(c, holds) && Usable(c, r) && Target(c.tree, r) == Some(w) && Users(holds, w, false) > 0
    ensures var (e, tl) := TryPath(c, r, false);
      e == EAGAIN && w in tl && tl[w] < 0 && forall n :: n in tl && n != w ==> tl[n] == c.treelock[n]
  {
    hide Sound, Usable, Faithful, Users, Target, Outcome, HoldFor, Marked;
    TargetInTree(c.tree, r);
    SoundFaithful(c, holds);
    MarkedShut(c.treelock, holds, w);
  }

  lemma TargetInTree(t: Tree, r: Request)
    ensures Target(t, r).Some? ==> Target(t, r).value in t
  {
  }

  lemma SoundFaithful(c: Core, holds: Holds)
    requires Sound(c, holds)
    ensures Faithful(c.treelock, holds) && c.treelock.Keys == c.tree.Keys
  {
  }

  lemma MarkedShut(tl: Locks, holds: Holds, w: Id)
    requires Faithful(tl, holds) && w in tl && Users(holds, w, false) > 0
    ensures tl[w] != 0 && Marked(tl, w)[w] < 0 && forall n :: n in tl && n != w ==> Marked(tl, w)[n] == tl[n]
  {
    hide Users;
    assert FaithfulAt(tl, holds, w);
  }

  /** A request to write what others read is told to wait and marks the node, only that node,
      and from then on nobody gets a path through it. */
  lemma WriterGoesFirst(c: Core, holds: Holds, r: Request, w: Id)
    requires Sound(c, holds) && Usable(c, r) && Target(c.tree, r) == Some(w) && Users(holds, w, false) > 0
    ensures var (e, tl) := TryPath(c, r, false); var d := c.(treelock := tl);
      && e == EAGAIN && w in tl && tl[w] < 0 && (forall n :: n in tl && n != w ==> tl[n] == c.treelock[n])
      && (forall r2 {:trigger Passes(c.tree, r2, w)} :: Usable(c, r2) && Passes(c.tree, r2, w) ==> Outcome(d, r2) != OK)
  {
    WriterMarks(c, holds, r, w);
    hide Sound, WellFormed, Passes, Outcome, TryPath, Target, Users;
    var d := c.(treelock := TryPath(c, r, false).1);
    forall r2 | Usable(c, r2) && Passes(c.tree, r2, w) ensures Outcome(d, r2) != OK {
      NoWayThrough(d, r2, w);
    }
  }

  /** A FORGET has to wait iff it would take the last lookups of a node that some call reads or
      writes. */
  lemma ForgetWaitsIff(c: Core, holds: Holds, n: Id, count: int)
    requires Sound(c, holds) && n in c.tree
    ensures ForgetWaits(c, n, count) <==>
      c.nlookup[n] == count && Users(holds, n, false) + Users(holds, n, true) > 0
  {
    assert FaithfulAt(c.treelock, holds, n);
  }

  // ---- a wakeup over free nodes ----

  ghost predicate AllFree(tl: Locks) {
    forall n {:trigger tl[n]} :: n in tl ==> tl[n] == 0
  }

  /** Two paths collide when one wants to write what the other reads or writes. */
  ghost predicate Collide(g: Hold, h: Hold) {
    || (g.wnode.Some? && (g.wnode.value in h.chain || g.wnode == h.wnode))
    || (h.wnode.Some? && h.wnode.value in g.chain)
  }

  lemma ChainInTree(t: Tree, h: Hold, j: int)
    requires IsWalk(t, h.nodeid, h.chain + [ROOT]) && 0 <= j < |h.chain|
    ensures h.chain[j] in t
  {
    assert (h.chain + [ROOT])[j] == h.chain[j];
  }

  lemma FreeGrantIff(c: Core, r: Request)
    requires Usable(c, r) && AllFree(c.treelock)
    ensures Outcome(c, r) == OK <==> ReachesRoot(c.tree, r.nodeid)
  {
    GrantedIff(c, r);
    RootChain(c, r);
    hide WellFormed, IsWalk, ReachesRoot;
    var h := HoldFor(c, r);
    if ReachesRoot(c.tree, r.nodeid) {
      forall j | 0 <= j < |h.chain| ensures At(c.treelock, h.chain[j]) >= 0 {
        ChainInTree(c.tree, h, j);
        var n := h.chain[j];
        assert c.treelock[n] == 0;
      }
    }
  }

  lemma LockedAt(tl: Locks, g: Hold, n: Id)
    requires n in tl && tl[n] == 0
    requires g.wnode.Some? ==> g.wnode.value !in g.chain
    ensures LockPath(tl, g.chain, g.wnode)[n] >= 0 <==> g.wnode != Some(n)
    ensures LockPath(tl, g.chain, g.wnode)[n] == 0 <==> g.wnode != Some(n) && n !in g.chain
  {
  }

  /** After one path has been taken from a free tree the other can be had iff it reaches the
      root and does not collide. */
  lemma SecondGrantIff(c: Core, g: Hold, r: Request)
    requires Usable(c, r) && AllFree(c.treelock)
    requires g.wnode.Some? ==> g.wnode.value !in g.chain
    ensures Outcome(c.(treelock := LockPath(c.treelock, g.chain, g.wnode)), r) == OK <==>
      ReachesRoot(c.tree, r.nodeid) && !Collide(g, HoldFor(c, r))
  {
    var d, h := c.(treelock := LockPath(c.treelock, g.chain, g.wnode)), HoldFor(c, r);
    GrantedIff(d, r);
    RootChain(c, r);
    hide WellFormed, IsWalk, ReachesRoot, LockPath;
    if ReachesRoot(c.tree, r.nodeid) {
      forall j | 0 <= j < |h.chain| ensures At(d.treelock, h.chain[j]) >= 0 <==> g.wnode != Some(h.chain[j]) {
        ChainInTree(c.tree, h, j);
        var n := h.chain[j];
        assert c.treelock[n] == 0;
        LockedAt(c.treelock, g, n);
      }
      if h.wnode.Some? {
        assert c.treelock[h.wnode.value] == 0;
        LockedAt(c.treelock, g, h.wnode.value);
      }
    }
  }

  /** If all nodes are free, one wakeup grants a waiting request iff its paths lead to the
      root and do not collide with each other. */
  lemma WakeupGrantsIff(s: State, i: int)
    requires 0 <= i < |s.queue| && s.queue[i].Wait? && !s.queue[i].done && !s.queue[i].first && !s.queue[i].second
    requires SameDomains(s.core) && WellFormed(s.core.tree) && AllFree(s.core.treelock)
    requires s.queue[i].r1.nodeid in s.core.tree && (s.queue[i].r2.Some? ==> s.queue[i].r2.value.nodeid in s.core.tree)
    ensures var q, q' := s.queue[i], Wakeup(s, i, false, false).queue[i];
      q'.Wait? && (q'.done && q'.err == OK <==>
        && ReachesRoot(s.core.tree, q.r1.nodeid)
        && (q.r2.Some? ==>
              && ReachesRoot(s.core.tree, q.r2.value.nodeid)
              && !Collide(HoldFor(s.core, q.r1), HoldFor(s.core, q.r2.value))))
  {
    hide WellFormed, SameDomains, ReachesRoot, Collide, LockPath, HoldFor, Wakeup, Target;
    var q, c := s.queue[i], s.core;
    WakeupElem(s, i, false, false);
    FreeGrantIff(c, q.r1);
    FreeOutcome(c, q.r1);
    if Outcome(c, q.r1) == OK && q.r2.Some? {
      GrantTargetOff(c, q.r1);
      SecondGrantIff(c, HoldFor(c, q.r1), q.r2.value);
      TryPathOk(c.(treelock := LockPath(c.treelock, HoldFor(c, q.r1).chain, HoldFor(c, q.r1).wnode)), q.r2.value);
    }
    hide AllFree, Outcome;
  }

  lemma TryPathOk(c: Core, r: Request)
    ensures TryPath(c, r, false).0 == OK <==> Outcome(c, r) == OK
  {
  }

  /** On a free tree an attempt has no reason to leave a mark. */
  lemma FreeOutcome(c: Core, r: Request)
    requires AllFree(c.treelock)
    ensures TryPath(c, r, false).0 == Outcome(c, r)
  {
  }

  lemma RootChain(c: Core, r: Request)
    requires Usable(c, r)
    ensures IsWalk(c.tree, r.nodeid, HoldFor(c, r).chain + [ROOT]) <==> ReachesRoot(c.tree, r.nodeid)
  {
    assert HasWalk(c.tree, r.nodeid);
    var w, chain := Walk(c.tree, r.nodeid), HoldFor(c, r).chain;
    assert w == chain + [w[|w| - 1]];
    if IsWalk(c.tree, r.nodeid, chain + [ROOT]) {
      assert (chain + [ROOT])[|chain + [ROOT]| - 1] == ROOT;
    }
    if ReachesRoot(c.tree, r.nodeid) {
      var v :| IsWalk(c.tree, r.nodeid, v) && v[|v| - 1] == ROOT;
      WalkUnique(c.tree, r.nodeid, w, v);
    }
  }

  // ---- a stale error ----

  /** The outcome of an attempt, in terms of the tree: the path can be had now, or leads to the
      root but must wait. */
  lemma TryPathMeans(c: Core, holds: Holds, r: Request, oom: bool)
    requires Sound(c, holds) && Usable(c, r)
    ensures TryPath(c, r, oom).0 == OK <==> !oom && Open(c, HoldFor(c, r))
    ensures TryPath(c, r, oom).0 == EAGAIN <==> !oom && ReachesRoot(c.tree, r.nodeid) && !Open(c, HoldFor(c, r))
  {
    GrantedIff(c, r);
    if Open(c, HoldFor(c, r)) {
      OpenReaches(c, HoldFor(c, r));
    }
    if ReachesRoot(c.tree, r.nodeid) {
      OutcomeRange(c, r);
    } else {
      BrokenIsEnoent(c, holds, r);
    }
    hide Sound, Usable, Outcome, Open, ReachesRoot;
    TryPathOutcome(c, r);
  }

  lemma OpenReaches(c: Core, h: Hold)
    requires Open(c, h)
    ensures ReachesRoot(c.tree, h.nodeid)
  {
    var w := h.chain + [ROOT];
    assert w[|w| - 1] == ROOT;
  }

  lemma OutcomeRange(c: Core, r: Request)
    requires Usable(c, r) && ReachesRoot(c.tree, r.nodeid)
    ensures Outcome(c, r) == OK || Outcome(c, r) == EAGAIN
  {
    GrantedIff(c, r);
  }

  lemma TryPathOutcome(c: Core, r: Request)
    ensures TryPath(c, r, false).0 == Outcome(c, r) && TryPath(c, r, true).0 == ENOMEM
  {
  }

  /** The path of a request can be had now; or it leads to the root but has to wait. */
  ghost predicate Ready(c: Core, r: Request) {
    Open(c, HoldFor(c, r))
  }

  ghost predicate Blocked(c: Core, r: Request) {
    ReachesRoot(c.tree, r.nodeid) && !Open(c, HoldFor(c, r))
  }

  /** A call that is done with an error may be woken again before its thread runs. Then it
      ends up answered with the old error while it owns a path iff it is the head, asked for
      two paths, and one of them can be had while the other has to wait. */
  lemma StaleErrorIff(s: State, i: int, oom1: bool, oom2: bool)
    requires Tidy(s) && 0 <= i < |s.queue| && s.queue[i].Wait? && ElemKnown(s.core, s.queue[i])
    requires s.queue[i].done && s.queue[i].err != OK && !s.queue[i].first && !s.queue[i].second
    ensures var q, q' := s.queue[i], Wakeup(s, i, oom1, oom2).queue[i];
      var c, d := s.core, WakePath(s, i, false, oom1).1.core;
      q'.Wait? && (q'.err != OK && (q'.first || q'.second) <==>
        && i == 0 && q.r2.Some? && !oom1 && !oom2
        && ((Ready(c, q.r1) && Blocked(d, q.r2.value)) || (Blocked(c, q.r1) && Ready(d, q.r2.value))))
  {
    hide Tidy, TryPath, HoldFor, GiveBack, Others, Wakeup, Target, Open, ReachesRoot, Sound, Usable, ElemKnown,
      ElemTied, Owned;
    var q, s1 := s.queue[i], WakePath(s, i, false, oom1).1;
    WakeupElem(s, i, oom1, oom2);
    TidyParts(s, i);
    KeptUsable(s.core, s.holds, q);
    TryPathMeans(s.core, s.holds, q.r1, oom1);
    WakePathTidy(s, i, false, oom1);
    TidyParts(s1, i);
    WakePathElem(s, i, false, oom1);
    if q.r2.Some? {
      KeptUsable(s1.core, s1.holds, s1.queue[i]);
      TryPathMeans(s1.core, s1.holds, q.r2.value, oom2);
    }
  }

  lemma KeptUsable(c: Core, holds: Holds, q: Elem)
    requires Sound(c, holds) && q.Wait? && ElemTied(c, holds, q)
    ensures Usable(c, q.r1) && (q.r2.Some? ==> Usable(c, q.r2.value))
  {
  }

  // ---- without allocation failures nothing is lost ----

  ghost predicate Broken(t: Tree, q: Elem)
    requires q.Wait?
  {
    !ReachesRoot(t, q.r1.nodeid) || (q.r2.Some? && !ReachesRoot(t, q.r2.value.nodeid))
  }

  /** A call that is done with an error owns nothing, and one of its paths is broken. */
  ghost predicate CleanElem(t: Tree, q: Elem) {
    q.Wait? && q.done && q.err != OK ==> !q.first && !q.second && Broken(t, q)
  }

  ghost predicate AllClean(s: State) {
    forall j {:trigger s.queue[j]} :: 0 <= j < |s.queue| ==> CleanElem(s.core.tree, s.queue[j])
  }

  /** Every call that may own something either runs or waits. */
  ghost predicate Accounted(s: State) {
    forall t {:trigger t in s.calls} :: t in s.calls ==> t in s.granted || !NotQueued(s, t)
  }

  predicate Succeeds(f: Failures) {
    forall i {:trigger f[i]} :: 0 <= i < |f| ==> !f[i].0 && !f[i].1
  }

  /** No allocation fails in this step. */
  predicate NoOom(e: Event) {
    match e
    case GetOne(_, _, oom) => !oom
    case GetTwo(_, _, _, oom1, oom2) => !oom1 && !oom2
    case Free(_, f) => Succeeds(f)
    case _ => true
  }

  lemma OutcomeBroken(c: Core, holds: Holds, r: Request)
    requires Sound(c, holds) && Usable(c, r)
    ensures TryPath(c, r, false).0 == Outcome(c, r) != ENOMEM
    ensures Outcome(c, r) == ENOENT <==> !ReachesRoot(c.tree, r.nodeid)
  {
    GrantedIff(c, r);
    if !ReachesRoot(c.tree, r.nodeid) {
      BrokenIsEnoent(c, holds, r);
    }
  }

  lemma WakePathBroken(s: State, i: int, second: bool)
    requires Tidy(s) && 0 <= i < |s.queue| && s.queue[i].Wait?
    ensures var (e, s') := WakePath(s, i, second, false); var q, r := s.queue[i], Wanted(s.queue[i], second);
      && e != ENOMEM && (e == ENOENT ==> r.Some? && !ReachesRoot(s.core.tree, r.value.nodeid))
      && (r.Some? && !ReachesRoot(s.core.tree, r.value.nodeid) && !Has(q, second) ==> e == ENOENT)
  {
    TidyParts(s, i);
    hide Tidy, Owned;
    var q, r := s.queue[i], Wanted(s.queue[i], second);
    if r.Some? && !Has(q, second) {
      OutcomeBroken(s.core, s.holds, r.value);
    }
  }

  lemma WakeupClean(s: State, i: int)
    requires Tidy(s) && 0 <= i < |s.queue| && s.queue[i].Wait? && ElemKnown(s.core, s.queue[i])
    requires CleanElem(s.core.tree, s.queue[i])
    ensures CleanElem(Wakeup(s, i, false, false).core.tree, Wakeup(s, i, false, false).queue[i])
  {
    hide Tidy, WakePath, Wakeup, ReachesRoot, ElemKnown, Target;
    var s1 := WakePath(s, i, false, false).1;
    WakeupElem(s, i, false, false);
    WakeupOnly(s, i, false, false);
    WakePathBroken(s, i, false);
    WakePathResult(s, i, false, false);
    WakePathOnly(s, i, false, false);
    WakePathTidy(s, i, false, false);
    WakePathBroken(s1, i, true);
  }

  lemma WakeupCleanAll(s: State, i: int)
    requires Inv(s) && TargetsKnown(s) && 0 <= i < |s.queue|
    requires AllClean(s)
    ensures AllClean(Wakeup(s, i, false, false))
  {
    var s' := Wakeup(s, i, false, false);
    if s.queue[i].Wait? {
      assert ElemKnown(s.core, s.queue[i]) && CleanElem(s.core.tree, s.queue[i]);
      WakeupClean(s, i);
      WakeupOnly(s, i, false, false);
      hide Wakeup, Inv, ReachesRoot;
      forall j | 0 <= j < |s'.queue| ensures CleanElem(s'.core.tree, s'.queue[j]) {
        if j != i {
          assert CleanElem(s.core.tree, s.queue[j]);
        }
      }
    }
  }

  lemma {:induction false} WakeAllClean(s: State, i: int, f: Failures)
    requires Inv(s) && TargetsKnown(s) && 0 <= i <= |s.queue| == |f| && Succeeds(f)
    requires AllClean(s)
    ensures AllClean(WakeFrom(s, i, f))
    decreases |f| - i
  {
    hide Wakeup, Inv, TargetsKnown, AllClean;
    if i < |s.queue| {
      assert !f[i].0 && !f[i].1;
      WakeupInv(s, i, false, false);
      WakeupKnown(s, i, false, false);
      WakeupCleanAll(s, i);
      WakeAllClean(Wakeup(s, i, false, false), i + 1, f);
    }
  }

  /** Broken ways stay broken, so changes of the tree keep the queue clean. */
  lemma CleanCore(s: State, d: Core)
    requires Inv(s) && AllClean(s) && NoNewWays(s.core.tree, d.tree)
    ensures AllClean(s.(core := d))
  {
    hide Sound, ReachesRoot;
    forall j | 0 <= j < |s.queue| ensures CleanElem(d.tree, s.queue[j]) {
      var q := s.queue[j];
      assert CleanElem(s.core.tree, q) && ElemTied(s.core, s.holds, q);
      assert q.Wait? ==> q.r1.nodeid in s.core.tree && (q.r2.Some? ==> q.r2.value.nodeid in s.core.tree) by {
        KeptInTree(s);
      }
    }
  }

  lemma KeptInTree(s: State)
    requires Inv(s)
    ensures forall t, n {:trigger Kept(s.core, t, n)} :: Kept(s.core, t, n) ==> n in s.core.tree
  {
    InvSound(s);
    SoundDomains(s.core, s.holds);
  }

  lemma AppendClean(s: State, q: Elem)
    requires AllClean(s) && CleanElem(s.core.tree, q)
    ensures AllClean(s.(queue := s.queue + [q]))
  {
    var s' := s.(queue := s.queue + [q]);
    forall j | 0 <= j < |s'.queue| ensures CleanElem(s'.core.tree, s'.queue[j]) {
      assert j < |s.queue| ==> s'.queue[j] == s.queue[j];
    }
  }

  lemma AppendAccounted(s: State, q: Elem)
    requires Accounted(s)
    ensures Accounted(s.(queue := s.queue + [q], calls := s.calls + {q.ticket}))
  {
    var s' := s.(queue := s.queue + [q], calls := s.calls + {q.ticket});
    assert s'.queue[|s.queue|] == q;
    forall t | t in s'.calls && t !in s'.granted ensures !NotQueued(s', t) {
      if t != q.ticket {
        assert !NotQueued(s, t);
        var i :| 0 <= i < |s.queue| && s.queue[i].ticket == t;
        assert s'.queue[i] == s.queue[i];
      }
    }
  }

  lemma DequeueClean(s: State, i: int)
    requires AllClean(s) && 0 <= i < |s.queue|
    ensures AllClean(s.(queue := Dequeued(s.queue, i)))
  {
    var s' := s.(queue := Dequeued(s.queue, i));
    forall j | 0 <= j < |s'.queue| ensures CleanElem(s'.core.tree, s'.queue[j]) {
      DequeuedAt(s.queue, i, j);
      assert CleanElem(s.core.tree, s.queue[if j < i then j else j + 1]);
    }
  }

  lemma StillQueued(s: State, i: int, t: Ticket)
    requires 0 <= i < |s.queue| && t != s.queue[i].ticket && !NotQueued(s, t)
    ensures !NotQueued(s.(queue := Dequeued(s.queue, i)), t)
  {
    var s' := s.(queue := Dequeued(s.queue, i));
    var m :| 0 <= m < |s.queue| && s.queue[m].ticket == t;
    var j := if m < i then m else m - 1;
    DequeuedAt(s.queue, i, j);
    assert s'.queue[j].ticket == t;
  }

  /** The call that leaves the queue is granted or gone. */
  lemma DequeueAccounted(s: State, i: int, granted: map<Ticket, Grant>, calls: set<Ticket>)
    requires Accounted(s) && 0 <= i < |s.queue| && s.granted.Keys <= granted.Keys
    requires calls <= s.calls && (s.queue[i].ticket in granted || s.queue[i].ticket !in calls)
    ensures Accounted(s.(queue := Dequeued(s.queue, i), granted := granted, calls := calls))
  {
    var s' := s.(queue := Dequeued(s.queue, i), granted := granted, calls := calls);
    forall t | t in s'.calls && t !in s'.granted ensures !NotQueued(s', t) {
      assert t in s.calls;
      StillQueued(s, i, t);
      NotQueuedSame(s.(queue := Dequeued(s.queue, i)), s', t);
    }
  }

  lemma NotQueuedSame(s: State, s': State, t: Ticket)
    requires s.queue == s'.queue
    ensures NotQueued(s, t) == NotQueued(s', t)
  {
  }

  lemma LocksOnlyAccounted(s: State, s': State)
    requires Accounted(s) && LocksOnly(s, s')
    ensures Accounted(s')
  {
    forall t | t in s'.calls && t !in s'.granted ensures !NotQueued(s', t) {
      assert t in s.calls;
      var i :| 0 <= i < |s.queue| && s.queue[i].ticket == t;
      assert s'.queue[i].ticket == t;
    }
  }
}
