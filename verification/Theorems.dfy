/** What the invariant means for callers, and properties of whole runs. */
module Theorems {
  import opened Basics
  import opened NodeTree
  import opened NodeIds
  import opened TreeLock
  import opened NodeLife
  import opened PathLock
  import opened NodeOps
  import opened TreeOps
  import opened PathQueue
  import opened Machine
  import opened MachineRuns

  // ---- runs ----

  /** The state fuse_new() sets up: only the root, looked up once. */
  ghost function Initial(): State {
    State(Core(map[ROOT := Unlinked], map[ROOT := 1], map[ROOT := 1], map[ROOT := 0], map[]), map[], [], map[], {},
      Ids(0, 0))
  }

  lemma InitialInv()
    ensures Inv(Initial())
  {
    var s := Initial();
    assert IsWalk(s.core.tree, ROOT, [ROOT]);
    assert Children(s.core.tree, ROOT) == {} && Pins(s.core.pinned, ROOT) == {};
    assert Exact(s.core, ROOT, None);
    assert FaithfulAt(s.core.treelock, s.holds, ROOT);
    forall n ensures PendingOk(s, n) {
    }
  }

  /** A run: states connected by enabled critical sections. */
  ghost predicate IsRun(ss: seq<State>, es: seq<Event>) {
    && |ss| == |es| + 1 && ss[0] == Initial()
    && forall i {:trigger es[i]} :: 0 <= i < |es| ==> Enabled(ss[i], es[i]) && ss[i + 1] == Next(ss[i], es[i])
  }

  /** Every reachable state satisfies the invariant. */
  lemma {:induction false} RunInv(ss: seq<State>, es: seq<Event>, i: int)
    requires IsRun(ss, es) && 0 <= i < |ss|
    ensures Inv(ss[i])
    decreases i
  {
    hide Inv, Next, Enabled;
    if i == 0 {
      InitialInv();
    } else {
      RunStep(ss, es, i - 1);
      RunInv(ss, es, i - 1);
      NextInv(ss[i - 1], es[i - 1]);
    }
  }

  lemma RunStep(ss: seq<State>, es: seq<Event>, i: int)
    requires IsRun(ss, es) && 0 <= i < |es|
    ensures |ss| == |es| + 1 && Enabled(ss[i], es[i]) && ss[i + 1] == Next(ss[i], es[i])
  {
    hide Enabled, Next;
    var e := es[i];
  }

  // ---- what a treelock value tells ----

  /** The integer determines who holds the node: nobody, one writer, or so many readers,
      with a waiting writer only while there are readers. */
  lemma TreelockMeans(s: State, n: Id)
    requires Inv(s) && n in s.core.treelock
    ensures var v, r, w := s.core.treelock[n], Users(s.holds, n, false), Users(s.holds, n, true);
      && (v == 0 <==> r == 0 && w == 0)
      && (v == WRITE <==> w == 1 && r == 0)
      && (v > 0 ==> r == v && w == 0)
      && (v < WRITE ==> r == v - WAIT && r > 0 && w == 0)
      && (w > 0 ==> r == 0 && w == 1)
  {
    assert FaithfulAt(s.core.treelock, s.holds, n);
  }

  /** The walk of unlock_path() visits exactly the nodes locked at the grant, and its asserts
      hold on each of them and on the write-locked child. */
  lemma ReleaseWalksGrantedChain(s: State, k: Key)
    requires Inv(s) && k in s.holds
    ensures var h := s.holds[k];
      && HasWalk(s.core.tree, h.nodeid) && Walk(s.core.tree, h.nodeid) == h.chain + [ROOT]
      && (forall n {:trigger n in h.chain} :: n in h.chain ==>
            n in s.core.treelock && s.core.treelock[n] != 0 && s.core.treelock[n] != WAIT &&
              s.core.treelock[n] != WRITE)
      && (h.wnode.Some? ==> h.wnode.value in s.core.treelock && s.core.treelock[h.wnode.value] == WRITE)
  {
    var h, c := s.holds[k], s.core;
    InvSound(s);
    assert Intact(c, s.holds, k);
    WalkUnique(c.tree, h.nodeid, Walk(c.tree, h.nodeid), h.chain + [ROOT]);
    forall n | n in h.chain
      ensures n in c.treelock && c.treelock[n] != 0 && c.treelock[n] != WAIT && c.treelock[n] != WRITE
    {
      var i :| 0 <= i < |h.chain| && h.chain[i] == n;
      assert (h.chain + [ROOT])[i] == n;
      HeldEncoding(c.treelock, s.holds, k, n);
    }
    if h.wnode.Some? {
      HeldEncoding(c.treelock, s.holds, k, h.wnode.value);
    }
  }

  // ---- ENOENT is final ----

  ghost predicate NoNewWays(t: Tree, u: Tree) {
    forall n {:trigger ReachesRoot(u, n)} :: n in t && ReachesRoot(u, n) ==> ReachesRoot(t, n)
  }

  lemma SubtreeNoNewWays(t: Tree, u: Tree)
    requires forall n {:trigger n in u} :: n in u ==> n in t && t[n] == u[n]
    ensures NoNewWays(t, u)
  {
    forall n | n in t && ReachesRoot(u, n) ensures ReachesRoot(t, n) {
      var w :| IsWalk(u, n, w) && w[|w| - 1] == ROOT;
      forall j | 0 <= j < |w| ensures w[j] in t && t[w[j]] == u[w[j]] {
        var m := w[j];
        assert m in u;
      }
      WalkFrame(u, t, n, w);
    }
  }

  /** Links changed only on nodes that reached the root before, or were cut: then no node
      that did not reach the root does now. */
  lemma ChangedNoNewWays(t: Tree, u: Tree, changed: set<Id>)
    requires t.Keys == u.Keys && ROOT in t && ROOT !in changed
    requires forall n {:trigger n in u} :: n in u && n !in changed ==> u[n] == t[n]
    requires forall n {:trigger ReachesRoot(t, n)} :: n in changed && n in t ==> u[n].Unlinked? || ReachesRoot(t, n)
    ensures NoNewWays(t, u)
  {
    forall n | n in t && ReachesRoot(u, n) ensures ReachesRoot(t, n) {
      var w :| IsWalk(u, n, w) && w[|w| - 1] == ROOT;
      ChangedWalk(t, u, changed, n, w);
    }
  }

  lemma ChangedWalk(t: Tree, u: Tree, changed: set<Id>, n: Id, w: seq<Id>)
    requires t.Keys == u.Keys && ROOT in t && ROOT !in changed && IsWalk(u, n, w) && w[|w| - 1] == ROOT
    requires forall m {:trigger m in u} :: m in u && m !in changed ==> u[m] == t[m]
    requires forall m {:trigger ReachesRoot(t, m)} :: m in changed && m in t ==> u[m].Unlinked? || ReachesRoot(t, m)
    ensures ReachesRoot(t, n)
  {
    if forall j :: 0 <= j < |w| ==> w[j] !in changed {
      forall j | 0 <= j < |w| ensures w[j] in t && t[w[j]] == u[w[j]] {
        var m := w[j];
        assert m in u;
      }
      WalkFrame(u, t, n, w);
    } else {
      var i := FirstChanged(w, changed);
      assert u[w[i]].Linked? && ReachesRoot(t, w[i]);
      forall j | 0 <= j < i ensures w[j] in t && t[w[j]] == u[w[j]] {
        var m := w[j];
        assert m in u;
      }
      PrefixReaches(t, u, n, w, i);
    }
  }

  lemma FirstChanged(w: seq<Id>, changed: set<Id>) returns (i: int)
    requires exists j :: 0 <= j < |w| && w[j] in changed
    ensures 0 <= i < |w| && w[i] in changed && forall j :: 0 <= j < i ==> w[j] !in changed
  {
    i := 0;
    while w[i] !in changed
      invariant 0 <= i < |w| && forall j :: 0 <= j < i ==> w[j] !in changed
      decreases |w| - i
    {
      i := i + 1;
    }
  }

  lemma EntryReaches(c: Core, holds: Holds, t: Ticket, dir: Id, name: string)
    requires Sound(c, holds) && DirectoryOf(holds, t, dir)
    ensures var x := Lookup(c.tree, dir, name); x.Some? ==>
      x.value in c.tree && x.value != ROOT && ReachesRoot(c.tree, x.value)
  {
    var x := Lookup(c.tree, dir, name);
    if x.Some? {
      var chain := DirectoryKept(c, holds, t, dir);
      WalkCons(c.tree, x.value, chain + [ROOT]);
      var v := [x.value] + (chain + [ROOT]);
      assert v[|v| - 1] == ROOT;
    }
  }

  lemma TwoEntriesNoNewWays(t: Tree, u: Tree, x: Option<Id>, y: Option<Id>)
    requires ChangedAtMost(t, u, x, y) && ROOT in t
    requires x.Some? ==> x.value in t && x.value != ROOT && ReachesRoot(t, x.value)
    requires y.Some? ==> y.value in t && y.value != ROOT && ReachesRoot(t, y.value)
    ensures NoNewWays(t, u)
  {
    var a := if x.Some? then {x.value} else {};
    var b := if y.Some? then {y.value} else {};
    ChangedNoNewWays(t, u, a + b);
  }

  lemma CreateNoNewWays(t: Tree, id: Id, dir: Id, name: string)
    requires WellFormed(t) && id !in t && dir in t
    ensures NoNewWays(t, t[id := Unlinked][id := Linked(dir, name)])
  {
    var u := t[id := Unlinked][id := Linked(dir, name)];
    forall n | n in t && ReachesRoot(u, n) ensures ReachesRoot(t, n) {
      var w :| IsWalk(u, n, w) && w[|w| - 1] == ROOT;
      assert Children(u, id) == {} by {
        forall y ensures y !in Children(u, id) {
          assert y in t ==> t[y] == t[y];
        }
      }
      LeafOffWalk(u, id, n, w);
      WalkFrame(u, t, n, w);
    }
  }

  // ---- frames of the lock-only steps ----

  /** Only treelocks, holds and queue entries differ; the calls and their order are the same. */
  ghost predicate LocksOnly(s: State, s': State) {
    && s'.core == s.core.(treelock := s'.core.treelock) && s'.core.treelock.Keys == s.core.treelock.Keys
    && s'.granted == s.granted && s'.calls == s.calls && s'.ids == s.ids && |s'.queue| == |s.queue|
    && forall i {:trigger s.queue[i]} {:trigger s'.queue[i]} :: 0 <= i < |s.queue| ==>
      s'.queue[i].ticket == s.queue[i].ticket
  }

  lemma WakeupLocksOnly(s: State, i: int, oom1: bool, oom2: bool)
    requires 0 <= i < |s.queue|
    ensures LocksOnly(s, Wakeup(s, i, oom1, oom2))
  {
    if s.queue[i].Wait? {
      WakeupOnly(s, i, oom1, oom2);
    }
  }

  lemma {:induction false} WakeFromLocksOnly(s: State, i: int, f: Failures)
    requires 0 <= i <= |s.queue| == |f|
    ensures LocksOnly(s, WakeFrom(s, i, f))
    decreases |f| - i
  {
    hide Wakeup;
    if i < |s.queue| {
      WakeupLocksOnly(s, i, f[i].0, f[i].1);
      WakeFromLocksOnly(Wakeup(s, i, f[i].0, f[i].1), i + 1, f);
    }
  }

  /** Which events can change links. */
  predicate LockEvent(e: Event) {
    e.GetOne? || e.GetTwo? || e.Resume? || e.Free?
  }

  ghost predicate SameNodes(c: Core, d: Core) {
    d == c.(treelock := d.treelock) && d.treelock.Keys == c.treelock.Keys
  }

  lemma GetTwoNodes(s: State, t: Ticket, r1: Request, r2: Request, oom1: bool, oom2: bool)
    ensures SameNodes(s.core, GetPath2(s, t, r1, r2, oom1, oom2).core)
  {
    hide TryPath, HoldFor, GiveBack, Others;
  }

  lemma LockEventNodes(s: State, e: Event)
    requires Enabled(s, e) && LockEvent(e)
    ensures SameNodes(s.core, Next(s, e).core)
  {
    hide TryPath, HoldFor, GiveBack, Others, Wakeup, WakeFrom, GetPath2, NewCall, Asked, TargetsKnown;
    if e.Free? {
      WakeFromLocksOnly(Ended(s, e.t), 0, e.f);
    } else if e.GetTwo? {
      GetTwoNodes(s, e.t, e.r1, e.r2, e.oom1, e.oom2);
    }
  }

  // ---- the tree over a step ----

  /** Once the way from a node to the root is broken it stays broken. */
  lemma EnoentFinal(s: State, e: Event)
    requires Inv(s) && Enabled(s, e)
    ensures NoNewWays(s.core.tree, Next(s, e).core.tree)
  {
    hide Inv, Sound, NoNewWays, Found, Removed, Renamed, Exchanged, Forgotten, Unpinned, MayChange, MayReplace, Draw;
    InvSound(s);
    SoundRoot(s.core, s.holds);
    var c := s.core;
    match e
    case GetOne(_, _, _) => LockEventNodes(s, e); SubtreeNoNewWays(c.tree, c.tree);
    case GetTwo(_, _, _, _, _) => LockEventNodes(s, e); SubtreeNoNewWays(c.tree, c.tree);
    case Resume(_) => LockEventNodes(s, e); SubtreeNoNewWays(c.tree, c.tree);
    case Free(_, _) => LockEventNodes(s, e); SubtreeNoNewWays(c.tree, c.tree);
    case StartForget(t, n, count) => CountsPositive(s, n); ForgetNoNewWays(s, n, count);
    case ResumeForget(i) => ResumeForgetCounts(s, i); ForgetNoNewWays(s, s.queue[i].nodeid, s.queue[i].count);
    case Find(dir, name, noNode, noName) =>
      DrawIsFree(c.tree, s.ids);
      FindNoNewWays(c, s.holds, dir, name, NewId(s), noNode || noName);
    case Remove(t, dir, name) => RemoveNoNewWays(c, s.holds, t, dir, name);
    case Rename(t, olddir, oldname, newdir, newname, hiding, oom) =>
      RenameNoNewWays(c, s.holds, t, olddir, oldname, newdir, newname, hiding, oom);
    case Exchange(t, olddir, oldname, newdir, newname, oom1, oom2) =>
      ExchangeNoNewWays(c, s.holds, t, olddir, oldname, newdir, newname, oom1, oom2);
    case Pin(t, n) => SubtreeNoNewWays(c.tree, c.tree);
    case Unpin(t) => UnpinNoNewWays(s, t);
  }

  lemma ResumeForgetCounts(s: State, i: int)
    requires Inv(s) && Enabled(s, ResumeForget(i))
    ensures var q := s.queue[i];
      q.nodeid in s.core.nlookup && q.nodeid != ROOT && 0 < q.count <= s.core.nlookup[q.nodeid]
  {
    var q, n := s.queue[i], s.queue[i].nodeid;
    assert ElemTied(s.core, s.holds, q);
    PendingDequeued(s.queue, i, n);
    forall j | 0 <= j < |Dequeued(s.queue, i)| && Dequeued(s.queue, i)[j].Forget?
      ensures Dequeued(s.queue, i)[j].count > 0
    {
      DequeuedAt(s.queue, i, j);
      assert ElemTied(s.core, s.holds, s.queue[if j < i then j else j + 1]);
    }
    PendingNonNegative(Dequeued(s.queue, i), n);
    assert PendingOk(s, n);
  }

  lemma ForgetNoNewWays(s: State, n: Id, count: int)
    requires Inv(s) && n in s.core.nlookup && n != ROOT && 0 < count <= s.core.nlookup[n]
    ensures !ForgetWaits(s.core, n, count) ==> NoNewWays(s.core.tree, Forgotten(s.core, n, count).tree)
    ensures NoNewWays(s.core.tree, s.core.tree)
  {
    hide Forgotten, Inv, Sound, Shrunk, NoNewWays, ForgetWaits;
    InvSound(s);
    SoundDomains(s.core, s.holds);
    SubtreeNoNewWays(s.core.tree, s.core.tree);
    if !ForgetWaits(s.core, n, count) {
      ForgottenSound(s.core, n, count, s.holds);
      ShrunkTree(LessLookup(s.core, n, count), Forgotten(s.core, n, count));
      SubtreeNoNewWays(s.core.tree, Forgotten(s.core, n, count).tree);
    }
  }

  lemma UnpinNoNewWays(s: State, t: Ticket)
    requires Inv(s) && Enabled(s, Unpin(t))
    ensures NoNewWays(s.core.tree, Unpinned(s.core, t).tree)
  {
    hide Unpinned, Inv, Sound, Shrunk, NoNewWays;
    InvSound(s);
    NewOwnsNothing(s, t);
    UnpinnedSound(s.core, t, s.holds);
    ShrunkTree(s.core.(pinned := s.core.pinned - {t}), Unpinned(s.core, t));
    SubtreeNoNewWays(s.core.tree, Unpinned(s.core, t).tree);
  }

  lemma ShrunkTree(c: Core, d: Core)
    requires Shrunk(c, d)
    ensures forall n {:trigger n in d.tree} :: n in d.tree ==> n in c.tree && c.tree[n] == d.tree[n]
  {
    forall n | n in d.tree ensures n in c.tree && c.tree[n] == d.tree[n] {
      assert d.tree[n] == d.tree[n];
    }
  }

  lemma FindNoNewWays(c: Core, holds: Holds, dir: Id, name: Option<string>, id: Id, oom: bool)
    requires Sound(c, holds) && dir in c.tree && id !in c.tree
    ensures NoNewWays(c.tree, Found(c, dir, name, id, oom).tree)
  {
    SubtreeNoNewWays(c.tree, c.tree);
    if name.Some? {
      CreateNoNewWays(c.tree, id, dir, name.value);
    }
  }

  lemma RemoveNoNewWays(c: Core, holds: Holds, t: Ticket, dir: Id, name: string)
    requires Sound(c, holds) && MayChange(c, holds, t, dir, name)
    ensures NoNewWays(c.tree, Removed(c, dir, name).tree)
  {
    hide Removed, MayChange, Sound, NoNewWays, ReachesRoot, DirectoryOf;
    var x := Lookup(c.tree, dir, name);
    RemovedSound(c, holds, t, dir, name);
    EntryWriteLocked(c, holds, t, dir, name);
    EntryReaches(c, holds, t, dir, name);
    SoundRoot(c, holds);
    TwoEntriesNoNewWays(c.tree, CutAny(c.tree, x), x, None);
  }

  ghost predicate ChangedAtMost(t: Tree, u: Tree, x: Option<Id>, y: Option<Id>) {
    u.Keys == t.Keys && forall n {:trigger n in u} :: n in u && Some(n) != x && Some(n) != y ==> u[n] == t[n]
  }

  lemma RenameChanges(t: Tree, olddir: Id, oldname: string, newdir: Id, newname: string, hiding: bool, oom: bool)
    ensures ChangedAtMost(t, RenamedTree(t, olddir, oldname, newdir, newname, hiding, oom),
                          Lookup(t, olddir, oldname), Lookup(t, newdir, newname))
  {
  }

  lemma ExchangeChanges(t: Tree, olddir: Id, oldname: string, newdir: Id, newname: string, oom1: bool, oom2: bool)
    ensures ChangedAtMost(t, ExchangedTree(t, olddir, oldname, newdir, newname, oom1, oom2),
                          Lookup(t, olddir, oldname), Lookup(t, newdir, newname))
  {
  }

  lemma RenameNoNewWays(c: Core, holds: Holds, t: Ticket, olddir: Id, oldname: string, newdir: Id, newname: string,
                        hiding: bool, oom: bool)
    requires Sound(c, holds) && MayChange(c, holds, t, olddir, oldname) && ValidName(newname)
    requires MayReplace(c, holds, t, newdir, newname, hiding)
    ensures NoNewWays(c.tree, Renamed(c, olddir, oldname, newdir, newname, hiding, oom).tree)
  {
    var x, y := Lookup(c.tree, olddir, oldname), Lookup(c.tree, newdir, newname);
    RenamedSound(c, holds, t, olddir, oldname, newdir, newname, hiding, oom);
    EntryReaches(c, holds, t, olddir, oldname);
    EntryReaches(c, holds, t, newdir, newname);
    RenameChanges(c.tree, olddir, oldname, newdir, newname, hiding, oom);
    assert ROOT in c.tree;
    hide *;
    TwoEntriesNoNewWays(c.tree, RenamedTree(c.tree, olddir, oldname, newdir, newname, hiding, oom), x, y);
  }

  lemma ExchangeNoNewWays(c: Core, holds: Holds, t: Ticket, olddir: Id, oldname: string, newdir: Id, newname: string,
                          oom1: bool, oom2: bool)
    requires Sound(c, holds) && MayChange(c, holds, t, olddir, oldname) && MayChange(c, holds, t, newdir, newname)
    requires ValidName(newname) && ValidName(oldname) && (olddir, oldname) != (newdir, newname)
    ensures NoNewWays(c.tree, Exchanged(c, olddir, oldname, newdir, newname, oom1, oom2).tree)
  {
    var x, y := Lookup(c.tree, olddir, oldname), Lookup(c.tree, newdir, newname);
    ExchangedSound(c, holds, t, olddir, oldname, newdir, newname, oom1, oom2);
    EntryReaches(c, holds, t, olddir, oldname);
    EntryReaches(c, holds, t, newdir, newname);
    ExchangeChanges(c.tree, olddir, oldname, newdir, newname, oom1, oom2);
    assert ROOT in c.tree;
    hide *;
    TwoEntriesNoNewWays(c.tree, ExchangedTree(c.tree, olddir, oldname, newdir, newname, oom1, oom2), x, y);
  }

  // ---- no locked node is ever freed ----

  ghost predicate FreesUnlocked(c: Core, d: Core) {
    forall n {:trigger n in d.tree} :: n in c.tree && n !in d.tree ==> n in c.treelock && c.treelock[n] == 0
  }

  lemma ShrunkFreesUnlocked(c: Core, e: Core, d: Core)
    requires e.tree == c.tree && e.treelock == c.treelock && Shrunk(e, d)
    requires SameDomains(c) && SameDomains(d)
    ensures FreesUnlocked(c, d)
  {
    forall n | n in c.tree && n !in d.tree ensures n in c.treelock && c.treelock[n] == 0 {
      assert n !in d.treelock && e.treelock[n] == c.treelock[n];
    }
  }

  lemma SoundDomains(c: Core, holds: Holds)
    requires Sound(c, holds)
    ensures SameDomains(c)
  {
  }

  lemma SoundRoot(c: Core, holds: Holds)
    requires Sound(c, holds)
    ensures ROOT in c.tree && WellFormed(c.tree)
  {
  }

  lemma ForgetFreesUnlocked(s: State, m: Id, count: int)
    requires Inv(s) && m in s.core.nlookup && m != ROOT && 0 < count <= s.core.nlookup[m]
    requires !ForgetWaits(s.core, m, count)
    ensures FreesUnlocked(s.core, Forgotten(s.core, m, count))
  {
    hide Forgotten, Sound, Inv, Shrunk, FreesUnlocked, ForgetWaits;
    InvSound(s);
    SoundDomains(s.core, s.holds);
    ForgottenSound(s.core, m, count, s.holds);
    SoundDomains(Forgotten(s.core, m, count), s.holds);
    ShrunkFreesUnlocked(s.core, LessLookup(s.core, m, count), Forgotten(s.core, m, count));
  }

  lemma UnpinFreesUnlocked(s: State, t: Ticket)
    requires Inv(s) && Enabled(s, Unpin(t))
    ensures FreesUnlocked(s.core, Unpinned(s.core, t))
  {
    hide Unpinned, Sound, Inv, Shrunk, FreesUnlocked;
    InvSound(s);
    SoundDomains(s.core, s.holds);
    NewOwnsNothing(s, t);
    UnpinnedSound(s.core, t, s.holds);
    SoundDomains(Unpinned(s.core, t), s.holds);
    ShrunkFreesUnlocked(s.core, s.core.(pinned := s.core.pinned - {t}), Unpinned(s.core, t));
  }

  /** Every node a step deletes was unlocked before the step. */
  lemma DeletedWereUnlocked(s: State, e: Event)
    requires Inv(s) && Enabled(s, e)
    ensures FreesUnlocked(s.core, Next(s, e).core)
  {
    hide Inv, Sound, Removed, Renamed, Exchanged, RenamedTree, ExchangedTree, Forgotten, Unpinned, MayChange,
      MayReplace, Quiet, Draw;
    InvSound(s);
    var c := s.core;
    match e
    case StartForget(_, m, count) =>
      CountsPositive(s, m);
      if !ForgetWaits(c, m, count) {
        ForgetFreesUnlocked(s, m, count);
      }
    case ResumeForget(i) => ResumeForgetCounts(s, i); ForgetFreesUnlocked(s, s.queue[i].nodeid, s.queue[i].count);
    case Unpin(t) => UnpinFreesUnlocked(s, t);
    case Remove(t, dir, name) => RemovedSound(c, s.holds, t, dir, name);
    case Rename(t, olddir, oldname, newdir, newname, hiding, oom) =>
      RenamedSound(c, s.holds, t, olddir, oldname, newdir, newname, hiding, oom);
      RenameChanges(c.tree, olddir, oldname, newdir, newname, hiding, oom);
    case Exchange(t, olddir, oldname, newdir, newname, oom1, oom2) =>
      ExchangedSound(c, s.holds, t, olddir, oldname, newdir, newname, oom1, oom2);
      ExchangeChanges(c.tree, olddir, oldname, newdir, newname, oom1, oom2);
    case Find(_, _, _, _) =>
    case Pin(_, _) =>
    case GetOne(_, _, _) => LockEventNodes(s, e);
    case GetTwo(_, _, _, _, _) => LockEventNodes(s, e);
    case Resume(_) => LockEventNodes(s, e);
    case Free(_, _) => LockEventNodes(s, e);
  }
}
