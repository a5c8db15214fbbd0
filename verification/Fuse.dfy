/** `struct fuse` of lib/fuse.c and the functions that work on it under `f->lock`: an object
    that is updated in place, loop by loop as in C. Every method is proved to do exactly what
    its specification function in the other modules says. The id and name tables are maps
    here; that the hash tables behave like maps is the subject of module LinearTable. */
module FuseObject {
  import opened Basics
  import opened NodeTree
  import opened TreeLock
  import opened NodeLife
  import opened PathLock
  import opened NodeOps
  import opened TreeOps
  import opened PathQueue
  import opened QueueSafety
  import opened Machine
  import opened MachineRuns
  import opened Theorems
  import opened QueueTheorems
  import opened Awake
  import opened Answers
  import opened PathText
  import opened NodeIds

  /** The path of a request, without the terminating NUL, fits an unsigned int. */
  ghost predicate PathFits(t: Tree, r: Request) {
    |Text(t, Chain(t, r.nodeid))| + |Tail(r.name)| + 1 <= UINT_MAX
  }

  ghost function PathOf(t: Tree, r: Request): string {
    Printed(Text(t, Chain(t, r.nodeid)) + Tail(r.name))
  }

  lemma {:induction false} TextPrefix(t: Tree, chain: seq<Id>, i: int)
    requires 0 <= i <= |chain|
    ensures |Text(t, chain[..i])| <= |Text(t, chain)|
    decreases |chain|
  {
    if i < |chain| {
      var rest := chain[..|chain| - 1];
      assert rest[..i] == chain[..i];
      TextPrefix(t, rest, i);
    } else {
      assert chain[..i] == chain;
    }
  }

  lemma TextStep(t: Tree, chain: seq<Id>, i: int)
    requires 0 <= i < |chain|
    ensures Text(t, chain[..i + 1]) == "/" + NameOf(t, chain[i]) + Text(t, chain[..i])
  {
    var c := chain[..i + 1];
    assert c[..|c| - 1] == chain[..i] && c[|c| - 1] == chain[i];
  }

  lemma WalkStart(t: Tree, n: Id, w: seq<Id>)
    requires IsWalk(t, n, w)
    ensures w[0] == n && w[..0] == []
  {
  }

  lemma WalkFresh(t: Tree, n: Id, w: seq<Id>, i: int)
    requires IsWalk(t, n, w) && 0 <= i < |w|
    ensures w[i] !in w[..i]
  {
    forall j | 0 <= j < i ensures w[j] != w[i] {
      WalkDistinct(t, n, w, j, i);
    }
  }

  /** The asserts of unlock_path() along the first `k` nodes of a walk. */
  ghost predicate ReadLocked(tl: Locks, w: seq<Id>, k: int)
    requires k <= |w|
  {
    forall j {:trigger w[j]} :: 0 <= j < k ==> w[j] in tl && tl[w[j]] != 0 && tl[w[j]] != WAIT && tl[w[j]] != WRITE
  }

  lemma LockNone(tl: Locks, w: Option<Id>)
    requires w.Some? ==> w.value in tl
    ensures LockPath(tl, [], w) == if w.Some? then tl[w.value := WRITE] else tl
    ensures TreeLock.UnlockPath(tl, [], w) == if w.Some? then tl[w.value := 0] else tl
  {
  }

  lemma UnlockMore(tl: Locks, chain: seq<Id>, x: Id, w: Option<Id>)
    requires x in tl && x !in chain && w != Some(x)
    ensures var m := TreeLock.UnlockPath(tl, chain, w);
      m[x] == tl[x] && m[x := Released(m[x])] == TreeLock.UnlockPath(tl, chain + [x], w)
  {
  }

  /** One more node of the walk is released. */
  lemma UnlockStep(t: Tree, tl: Locks, n: Id, walk: seq<Id>, k: int, i: int, w: Option<Id>)
    requires IsWalk(t, n, walk) && 0 <= i < k < |walk| && ReadLocked(tl, walk, k)
    requires w.Some? ==> w.value !in walk[..k]
    ensures var m, x := TreeLock.UnlockPath(tl, walk[..i], w), walk[i];
      && x in m && m[x] != 0 && m[x] != WAIT && m[x] != WRITE
      && m[x := Released(m[x])] == TreeLock.UnlockPath(tl, walk[..i + 1], w)
      && x in t && t[x].Linked? && t[x].parent == walk[i + 1]
  {
    hide IsWalk, TreeLock.UnlockPath;
    WalkFresh(t, n, walk, i);
    WalkAt(t, n, walk, i);
    assert walk[..i + 1] == walk[..i] + [walk[i]];
    assert walk[..k][i] == walk[i];
    UnlockMore(tl, walk[..i], walk[i], w);
  }

  lemma WalkAt(t: Tree, n: Id, walk: seq<Id>, i: int)
    requires IsWalk(t, n, walk) && 0 <= i < |walk|
    ensures var x := walk[i];
      x in t && (t[x].Linked? <==> i < |walk| - 1) && (t[x].Linked? ==> t[x].parent == walk[i + 1])
  {
    var x := walk[i];
    assert i < |walk| - 1 ==> t[x].Linked?;
  }

  lemma LockMore(tl: Locks, chain: seq<Id>, x: Id, w: Option<Id>)
    requires x in tl && x !in chain && w != Some(x)
    ensures var m := LockPath(tl, chain, w); m[x] == tl[x] && m[x := m[x] + 1] == LockPath(tl, chain + [x], w)
  {
  }

  /** One more node of the walk is read-locked. */
  lemma LockStep(t: Tree, tl: Locks, n: Id, walk: seq<Id>, i: int, w: Option<Id>)
    requires IsWalk(t, n, walk) && 0 <= i < |walk| && tl.Keys == t.Keys
    requires w.Some? ==> w.value !in walk
    ensures var m, x := LockPath(tl, walk[..i], w), walk[i];
      && x in m && m[x] == tl[x]
      && m[x := m[x] + 1] == LockPath(tl, walk[..i + 1], w)
      && x in t && (t[x].Linked? <==> i < |walk| - 1) && (t[x].Linked? ==> t[x].parent == walk[i + 1])
  {
    hide *;
    WalkFresh(t, n, walk, i);
    WalkAt(t, n, walk, i);
    assert walk[..i + 1] == walk[..i] + [walk[i]];
    LockMore(tl, walk[..i], walk[i], w);
  }

  lemma {:induction false} ScanSkip(tl: Locks, walk: seq<Id>, i: int)
    requires 0 <= i < |walk|
    requires forall j :: 0 <= j < i ==> walk[j] != ROOT && At(tl, walk[j]) >= 0
    ensures Scan(tl, walk, 0) == Scan(tl, walk, i)
    decreases i
  {
    if i > 0 {
      ScanSkip(tl, walk, i - 1);
    }
  }

  /** After locking the first `i` nodes of a walk, unlock_path() takes all of it back. */
  lemma RollsBack(t: Tree, tl: Locks, n: Id, walk: seq<Id>, i: int, w: Option<Id>)
    requires IsWalk(t, n, walk) && 0 <= i < |walk| && tl.Keys == t.Keys
    requires forall j {:trigger walk[j]} :: 0 <= j < i ==> At(tl, walk[j]) >= 0
    requires w.Some? ==> w.value in tl && tl[w.value] == 0 && w.value !in walk
    ensures var m := LockPath(tl, walk[..i], w);
      && ReadLocked(m, walk, i)
      && (w.Some? ==> w.value in m && m[w.value] == WRITE && w.value !in walk[..i])
      && TreeLock.UnlockPath(m, walk[..i], w) == tl
    ensures forall j :: 0 <= j < i ==> walk[j] != walk[i]
  {
    WalkFresh(t, n, walk, i);
    assert forall j {:trigger walk[j]} :: 0 <= j < i ==> walk[j] in t && walk[..i][j] == walk[j];
    hide IsWalk;
    UnlockUndoesLock(tl, walk[..i], w);
  }

  lemma WalkFacts(c: Core, r: Request)
    requires Usable(c, r)
    ensures var walk := Walk(c.tree, r.nodeid);
      && IsWalk(c.tree, r.nodeid, walk) && |walk| > 0 && walk[0] == r.nodeid && walk[..0] == []
      && Chain(c.tree, r.nodeid) == walk[..|walk| - 1]
      && Text(c.tree, []) == "" && c.treelock.Keys == c.tree.Keys
      && (Target(c.tree, r).Some? ==> Target(c.tree, r).value in c.tree && Target(c.tree, r).value !in walk)
  {
    assert HasWalk(c.tree, r.nodeid);
    var walk, w := Walk(c.tree, r.nodeid), Target(c.tree, r);
    if w.Some? {
      ChildOffWalk(c.tree, w.value, r.nodeid, walk);
    }
  }

  /** The loop of try_get_path() has read-locked the first `i` nodes of the walk. */
  ghost predicate Locking(c: Core, r: Request, walk: seq<Id>, i: int) {
    && 0 <= i < |walk| && walk == Walk(c.tree, r.nodeid) && Usable(c, r)
    && (Target(c.tree, r).Some? ==> At(c.treelock, Target(c.tree, r).value) == 0)
    && forall j {:trigger walk[j]} :: 0 <= j < i ==> walk[j] != ROOT && At(c.treelock, walk[j]) >= 0
  }

  /** What the loop has done so far. */
  ghost function LockedSoFar(c: Core, r: Request, walk: seq<Id>, i: int): Locks
    requires 0 <= i <= |walk|
  {
    LockPath(c.treelock, walk[..i], Target(c.tree, r))
  }

  /** The buffer after the first `i` nodes. */
  ghost function Built(t: Tree, r: Request, walk: seq<Id>, i: int): string
    requires 0 <= i <= |walk|
  {
    Text(t, walk[..i]) + Tail(r.name)
  }

  lemma NameAdded(c: Core, r: Request, walk: seq<Id>, i: int)
    requires Locking(c, r, walk, i) && PathFits(c.tree, r) && walk[i] in c.tree && c.tree[walk[i]].Linked?
    ensures i + 1 < |walk| && |Built(c.tree, r, walk, i)| + |c.tree[walk[i]].name| + 2 <= UINT_MAX
    ensures "/" + c.tree[walk[i]].name + Built(c.tree, r, walk, i) == Built(c.tree, r, walk, i + 1)
  {
    hide IsWalk, WellFormed, Walk, Target, Text, Tail;
    WalkFacts(c, r);
    WalkAt(c.tree, r.nodeid, walk, i);
    TextStep(c.tree, walk, i);
    TextPrefix(c.tree, walk[..|walk| - 1], i + 1);
    assert walk[..|walk| - 1][..i + 1] == walk[..i + 1];
  }

  lemma LockingStart(c: Core, r: Request)
    requires Usable(c, r) && (Target(c.tree, r).Some? ==> At(c.treelock, Target(c.tree, r).value) == 0)
    ensures var walk := Walk(c.tree, r.nodeid);
      && Locking(c, r, walk, 0) && |walk| > 0 && walk[0] == r.nodeid
      && LockedSoFar(c, r, walk, 0) == LockPath(c.treelock, [], Target(c.tree, r))
      && Built(c.tree, r, walk, 0) == Tail(r.name)
  {
    WalkFacts(c, r);
  }

  lemma LockingMore(c: Core, r: Request, walk: seq<Id>, i: int)
    requires Locking(c, r, walk, i) && i + 1 < |walk| && walk[i] != ROOT && At(c.treelock, walk[i]) >= 0
    ensures Locking(c, r, walk, i + 1)
  {
    forall j | 0 <= j < i + 1 ensures walk[j] != ROOT && At(c.treelock, walk[j]) >= 0 {
      assert j < i ==> walk[j] != ROOT;
    }
  }

  lemma LockingDecides(c: Core, r: Request, walk: seq<Id>, i: int)
    requires Locking(c, r, walk, i) && Chain(c.tree, r.nodeid) == walk[..|walk| - 1]
    ensures walk[i] == ROOT && i == |walk| - 1 ==> TryPath(c, r, false) == (OK, LockedSoFar(c, r, walk, i))
    ensures walk[i] != ROOT && i == |walk| - 1 ==> TryPath(c, r, false) == (ENOENT, c.treelock)
    ensures walk[i] != ROOT && i < |walk| - 1 && At(c.treelock, walk[i]) < 0 ==>
      TryPath(c, r, false) == (EAGAIN, c.treelock)
  {
    hide LockPath, WellFormed, SameDomains, Lookup;
    ScanSkip(c.treelock, walk, i);
  }

  /** The outcome is decided by the node the loop has reached. */
  lemma LockingNext(c: Core, r: Request, walk: seq<Id>, i: int)
    requires Locking(c, r, walk, i)
    ensures var m, x := LockedSoFar(c, r, walk, i), walk[i];
      && x in m && x in c.tree && m[x] == c.treelock[x]
      && (x == ROOT ==>
            TryPath(c, r, false) == (OK, m) &&
              Built(c.tree, r, walk, i) == Text(c.tree, Chain(c.tree, r.nodeid)) + Tail(r.name))
      && (x != ROOT && c.tree[x].Unlinked? ==> TryPath(c, r, false) == (ENOENT, c.treelock))
      && (x != ROOT && c.tree[x].Linked? ==>
            if m[x] < 0 then TryPath(c, r, false) == (EAGAIN, c.treelock)
            else Locking(c, r, walk, i + 1) && c.tree[x].parent == walk[i + 1]
                 && m[x := m[x] + 1] == LockedSoFar(c, r, walk, i + 1))
  {
    hide IsWalk, WellFormed, Walk, Chain, TryPath, LockPath, Target;
    LockingUsable(c, r, walk, i);
    WalkFacts(c, r);
    LockStep(c.tree, c.treelock, r.nodeid, walk, i, Target(c.tree, r));
    hide Locking;
    LockingDecides(c, r, walk, i);
    if walk[i] != ROOT && c.tree[walk[i]].Linked? && c.treelock[walk[i]] >= 0 {
      LockingMore(c, r, walk, i);
    }
  }

  lemma LockingUsable(c: Core, r: Request, walk: seq<Id>, i: int)
    requires Locking(c, r, walk, i)
    ensures Usable(c, r) && walk == Walk(c.tree, r.nodeid) && 0 <= i < |walk| && ROOT in c.tree
    ensures c.tree[ROOT].Unlinked?
  {
  }

  lemma TryPathOom(c: Core, r: Request)
    ensures TryPath(c, r, true) == (ENOMEM, c.treelock)
  {
  }

  lemma TailFits(t: Tree, r: Request)
    requires PathFits(t, r)
    ensures Tail(r.name) == if r.name.Some? then "/" + r.name.value + "" else ""
    ensures r.name.Some? ==> |r.name.value| + 2 <= UINT_MAX
  {
  }

  lemma UsableTree(c: Core, r: Request)
    requires Usable(c, r)
    ensures WellFormed(c.tree) && r.nodeid in c.tree
    ensures Target(c.tree, r) == if r.write && r.name.Some? then Lookup(c.tree, r.nodeid, r.name.value) else None
    ensures Target(c.tree, r).Some? ==>
      Target(c.tree, r).value in c.treelock &&
        At(c.treelock, Target(c.tree, r).value) == c.treelock[Target(c.tree, r).value]
  {
  }

  lemma TargetBusy(c: Core, r: Request)
    requires Target(c.tree, r).Some? && Target(c.tree, r).value in c.treelock
    ensures var w := Target(c.tree, r).value; c.treelock[w] != 0 ==>
      TryPath(c, r, false) == (EAGAIN, if c.treelock[w] > 0 then c.treelock[w := c.treelock[w] + WAIT] else c.treelock)
  {
  }

  /** unlock_path(n, w) would give back exactly the hold `k`. */
  ghost predicate Releasable(c: Core, holds: Holds, k: Key, n: Id, w: Option<Id>) {
    && k in holds && holds[k].nodeid == n && holds[k].wnode == w
    && IsWalk(c.tree, n, holds[k].chain + [ROOT])
    && (w.Some? ==> w.value in c.treelock)
    && ROOT in c.tree && c.tree[ROOT].Unlinked? && c.treelock.Keys == c.tree.Keys
  }

  lemma SoundReleasable(c: Core, holds: Holds, k: Key)
    requires Sound(c, holds) && k in holds
    ensures Releasable(c, holds, k, holds[k].nodeid, holds[k].wnode)
  {
    assert Intact(c, holds, k);
  }

  lemma StillReleasable(c: Core, holds: Holds, j: Key, k: Key, n: Id, w: Option<Id>, tl: Locks)
    requires Releasable(c, holds, k, n, w) && j != k && tl.Keys == c.treelock.Keys
    ensures Releasable(c.(treelock := tl), holds - {j}, k, n, w)
  {
  }

  lemma HeldWalk(c: Core, holds: Holds, k: Key, n: Id, w: Option<Id>)
    requires Releasable(c, holds, k, n, w) && Faithful(c.treelock, holds)
    ensures var walk, len := holds[k].chain + [ROOT], |holds[k].chain|;
      && IsWalk(c.tree, n, walk) && walk[len] == ROOT && walk[..len] == holds[k].chain
      && (forall j :: 0 <= j < len ==> walk[j] != ROOT)
      && ReadLocked(c.treelock, walk, len)
      && (w.Some? ==> w.value in c.treelock && c.treelock[w.value] == WRITE && w.value !in walk[..len])
  {
    var chain := holds[k].chain;
    var walk := chain + [ROOT];
    forall j {:trigger walk[j]} | 0 <= j < |chain|
      ensures walk[j] != ROOT && walk[j] in c.treelock && c.treelock[walk[j]] != 0 && c.treelock[walk[j]] != WAIT
      ensures c.treelock[walk[j]] != WRITE
    {
      WalkAt(c.tree, n, walk, j);
      assert walk[j] == chain[j];
      HeldEncoding(c.treelock, holds, k, walk[j]);
    }
    if w.Some? {
      HeldEncoding(c.treelock, holds, k, w.value);
    }
  }

  function Wnode(q: Elem, second: bool): Option<Id>
    requires q.Wait?
  {
    if second then q.w2 else q.w1
  }

  function Relinquished(q: Elem, second: bool): Elem
    requires q.Wait?
  {
    if second then q.(second := false) else q.(first := false)
  }

  /** One path of a waiting call is either held as the element says or not held at all. */
  ghost predicate HalfTied(c: Core, holds: Holds, q: Elem, second: bool)
    requires q.Wait?
  {
    var k, r := Key(q.ticket, second), Wanted(q, second);
    if Has(q, second) then r.Some? && Releasable(c, holds, k, r.value.nodeid, Wnode(q, second)) else k !in holds
  }

  lemma HalvesTied(c: Core, holds: Holds, q: Elem)
    requires Sound(c, holds) && q.Wait? && ElemTied(c, holds, q)
    ensures HalfTied(c, holds, q, false) && HalfTied(c, holds, q, true) && Faithful(c.treelock, holds)
  {
    if q.first {
      SoundReleasable(c, holds, Key(q.ticket, false));
    }
    if q.second {
      SoundReleasable(c, holds, Key(q.ticket, true));
    }
  }

  lemma SecondStillTied(c: Core, holds: Holds, q: Elem, tl: Locks)
    requires q.Wait? && HalfTied(c, holds, q, true) && tl.Keys == c.treelock.Keys
    ensures HalfTied(c.(treelock := tl), holds - {Key(q.ticket, false)}, Relinquished(q, false), true)
  {
    if q.second {
      StillReleasable(c, holds, Key(q.ticket, false), Key(q.ticket, true), q.r2.value.nodeid, q.w2, tl);
    }
  }

  ghost predicate ElemFits(t: Tree, q: Elem) {
    q.Wait? ==> PathFits(t, q.r1) && (q.r2.Some? ==> PathFits(t, q.r2.value))
  }

  ghost predicate QueueFits(t: Tree, queue: seq<Elem>) {
    forall i {:trigger queue[i]} :: 0 <= i < |queue| ==> ElemFits(t, queue[i])
  }

  lemma ElemUsable(s: State, i: int)
    requires Tidy(s) && 0 <= i < |s.queue| && s.queue[i].Wait?
    ensures Usable(s.core, s.queue[i].r1) && (s.queue[i].r2.Some? ==> Usable(s.core, s.queue[i].r2.value))
    ensures Sound(s.core, s.holds) && ElemTied(s.core, s.holds, s.queue[i])
  {
    assert ElemTied(s.core, s.holds, s.queue[i]);
  }

  lemma OnlyFits(s: State, s': State, i: int)
    requires 0 <= i < |s.queue| && s.queue[i].Wait? && Only(s, s', i)
    ensures ElemFits(s.core.tree, s.queue[i]) ==> ElemFits(s'.core.tree, s'.queue[i])
    ensures QueueFits(s.core.tree, s.queue) ==> QueueFits(s'.core.tree, s'.queue)
    ensures s'.queue[i].Wait? && |s'.queue| == |s.queue|
  {
    if QueueFits(s.core.tree, s.queue) {
      forall j | 0 <= j < |s'.queue| ensures ElemFits(s'.core.tree, s'.queue[j]) {
        assert ElemFits(s.core.tree, s.queue[j]);
      }
    }
  }

  /** wake_up_queued() after its first |f| elements. */
  ghost function WakeTo(s: State, f: Failures): (s': State)
    requires |f| <= |s.queue|
    ensures |s'.queue| == |s.queue|
    decreases |f|
  {
    if f == [] then s
    else
      var i := |f| - 1;
      Wakeup(WakeTo(s, f[..i]), i, f[i].0, f[i].1)
  }

  lemma {:induction false} WakeToFrom(s: State, f: Failures, i: int)
    requires 0 <= i <= |f| == |s.queue|
    ensures WakeFrom(WakeTo(s, f[..i]), i, f) == WakeTo(s, f)
    decreases |f| - i
  {
    if i == |f| {
      assert f[..i] == f;
    } else {
      WakeToFrom(s, f, i + 1);
      assert f[..i + 1][..i] == f[..i];
    }
  }

  lemma ReadyToWake(s: State, i: int)
    requires Inv(s) && TargetsKnown(s) && QueueFits(s.core.tree, s.queue) && 0 <= i < |s.queue|
    ensures Tidy(s) && ElemKnown(s.core, s.queue[i]) && ElemFits(s.core.tree, s.queue[i])
  {
  }

  lemma WokenFrame(s: State, i: int, oom1: bool, oom2: bool)
    requires Inv(s) && TargetsKnown(s) && QueueFits(s.core.tree, s.queue) && 0 <= i < |s.queue|
    ensures var s' := Wakeup(s, i, oom1, oom2);
      Inv(s') && TargetsKnown(s') && QueueFits(s'.core.tree, s'.queue)
  {
    WakeupInv(s, i, oom1, oom2);
    WakeupKnown(s, i, oom1, oom2);
    hide Inv, TargetsKnown, QueueFits;
    if s.queue[i].Wait? {
      WakeupOnly(s, i, oom1, oom2);
      OnlyFits(s, Wakeup(s, i, oom1, oom2), i);
    }
  }

  lemma WakeNothing(s: State, i: int, second: bool)
    requires 0 <= i < |s.queue| && s.queue[i].Wait? && (Has(s.queue[i], second) || Wanted(s.queue[i], second).None?)
    ensures PathQueue.WakePath(s, i, second, false) == (OK, s)
  {
  }

  lemma WakeAttempt(s: State, i: int, second: bool, oom: bool, r: Request)
    requires 0 <= i < |s.queue| && s.queue[i].Wait? && !Has(s.queue[i], second) && Wanted(s.queue[i], second) == Some(r)
    ensures var q, (e, s1) := s.queue[i], TryLock(s, Key(s.queue[i].ticket, second), r, oom);
      && s1.queue == s.queue && s1.core.tree == s.core.tree
      && PathQueue.WakePath(s, i, second, oom) ==
           (e, if e == OK then s1.(queue := s.queue[i := Got(q, second, Target(s.core.tree, r))]) else s1)
  {
  }

  lemma GetOneStep(s: State, t: Ticket, r: Request, oom: bool)
    requires Inv(s) && Enabled(s, GetOne(t, r, false))
    ensures Usable(s.core, r) && Enabled(s, GetOne(t, r, oom))
    ensures var (e, s1) := TryLock(s, Key(t, false), r, oom);
      Next(s, GetOne(t, r, oom)) == Settle(s1, t, r, None, e)
    ensures Inv(Next(s, GetOne(t, r, oom)))
  {
    NextInv(s, GetOne(t, r, oom));
  }

  lemma GetTwoStep(s: State, t: Ticket, r1: Request, r2: Request, oom1: bool, oom2: bool)
    requires Inv(s) && Enabled(s, GetTwo(t, r1, r2, false, false))
    ensures Usable(s.core, r1) && Usable(s.core, r2) && Enabled(s, GetTwo(t, r1, r2, oom1, oom2))
    ensures var (e, s1) := TryLock2(s, t, r1, r2, oom1, oom2);
      Next(s, GetTwo(t, r1, r2, oom1, oom2)) == Settle(s1, t, r1, Some(r2), e)
    ensures Inv(Next(s, GetTwo(t, r1, r2, oom1, oom2)))
  {
    AskedUsable(s, t, r1);
    AskedUsable(s, t, r2);
    hide Inv;
    NextInv(s, GetTwo(t, r1, r2, oom1, oom2));
  }

  /** When the second attempt fails the first path is held just as it was granted. */
  lemma FirstHeld(s: State, t: Ticket, r1: Request, r2: Request, oom1: bool, oom2: bool)
    requires Inv(s) && Enabled(s, GetTwo(t, r1, r2, false, false))
    ensures var (e1, s1) := TryLock(s, Key(t, false), r1, oom1); var (e2, s2) := TryLock(s1, Key(t, true), r2, oom2);
      && Usable(s1.core, r2) && s1.core.tree == s.core.tree
      && (e1 == OK && e2 != OK ==>
            && Faithful(s2.core.treelock, s2.holds) && Key(t, true) !in s2.holds
            && Releasable(s2.core, s2.holds, Key(t, false), r1.nodeid, Target(s.core.tree, r1)))
  {
    var (e1, s1) := TryLock(s, Key(t, false), r1, oom1);
    var (e2, s2) := TryLock(s1, Key(t, true), r2, oom2);
    NewCallInv(s, t);
    InvParts(s);
    AskedUsable(s, t, r2);
    assert Asked(s.core, t, r1) && Asked(s.core, t, r2) && OwnsNothing(s.holds, t);
    hide Inv, Enabled, Sound, Asked, TryPath, HoldFor, Faithful, Usable, Releasable;
    RoomForTwo(s.holds, s.calls, t);
    TryLockSound(s, Key(t, false), r1, oom1);
    UsableRelocked(s.core, s1.core, r2);
    if e1 == OK {
      GrownByOne(s.holds, Key(t, false), HoldFor(s.core, r1));
      AskedRelocked(s.core, s1.core.treelock, t, r2);
      TryLockSound(s1, Key(t, true), r2, oom2);
      if e2 != OK {
        SoundReleasable(s2.core, s2.holds, Key(t, false));
        SoundFaithful(s2.core, s2.holds);
        HoldForParts(s.core, r1);
      }
    }
  }

  lemma HoldForParts(c: Core, r: Request)
    ensures HoldFor(c, r).nodeid == r.nodeid && HoldFor(c, r).wnode == Target(c.tree, r)
  {
  }

  lemma UsableRelocked(c: Core, d: Core, r: Request)
    requires Usable(c, r) && d == c.(treelock := d.treelock) && d.treelock.Keys == c.treelock.Keys
    ensures Usable(d, r)
  {
  }

  lemma GrownByOne(holds: Holds, k: Key, h: Hold)
    requires k !in holds
    ensures |holds[k := h]| == |holds| + 1
  {
    assert holds[k := h] - {k} == holds;
    Smaller(holds[k := h], k);
  }

  lemma RoomForTwo(holds: Holds, calls: set<Ticket>, t: Ticket)
    requires Owned(holds, calls) && |calls| < MAX_CALLS
    ensures |holds| + 1 < MAX_HOLDS
  {
    HoldsBound(holds, calls);
  }

  lemma OnlyFirst(holds: Holds, t: Ticket, tl: Locks)
    requires Key(t, true) !in holds
    ensures Others(holds, t) == holds - {Key(t, false)}
    ensures GiveBackOne(tl, holds - {Key(t, false)}, Key(t, true)) == tl
  {
  }

  /** A ticket names one element of the queue. */
  lemma TicketAt(s: State, i: int)
    requires Inv(s) && 0 <= i < |s.queue|
    ensures forall j :: 0 <= j < |s.queue| && s.queue[j].ticket == s.queue[i].ticket ==> j == i
  {
  }

  /** What a call passes to free_path*() is what it was given. */
  ghost predicate Paid(s: State, k: Key, n: Id, w: Option<Id>) {
    k in s.holds && s.holds[k].nodeid == n && s.holds[k].wnode == w
  }

  lemma GrantReleasable(s: State, k: Key, n: Id, w: Option<Id>)
    requires Inv(s) && Paid(s, k, n, w)
    ensures Faithful(s.core.treelock, s.holds) && Releasable(s.core, s.holds, k, n, w)
  {
    hide Inv, Sound, Faithful;
    InvParts(s);
    SoundFaithful(s.core, s.holds);
    SoundReleasable(s.core, s.holds, k);
  }

  lemma OnePath(s: State, t: Ticket)
    requires Inv(s) && t in s.granted && s.granted[t].r2.None?
    ensures Key(t, true) !in s.holds
  {
    assert GrantTied(s, t, s.granted[t]);
  }

  lemma FreeStep(s: State, t: Ticket, f: Failures)
    requires Inv(s) && t in s.granted && TargetsKnown(s) && |f| == |s.queue|
    ensures Enabled(s, Free(t, f)) && Next(s, Free(t, f)) == WakeFrom(Ended(s, t), 0, f)
  {
  }

  lemma WakeNobody(s: State)
    requires s.queue == []
    ensures WakeFrom(s, 0, []) == s
  {
  }

  /** The nodes without those that are being deleted. */
  ghost function DropAll(c: Core, gone: set<Id>): Core {
    c.(tree := c.tree - gone, nlookup := c.nlookup - gone, refctr := c.refctr - gone, treelock := c.treelock - gone)
  }

  lemma DropNone(c: Core)
    ensures DropAll(c, {}) == c
  {
  }

  /** With `n` among the nodes being deleted neither its link nor its counter matters. */
  lemma DropOneMore(c: Core, gone: set<Id>, n: Id)
    ensures DropAll(Drop(c, n), gone) == DropAll(c, gone + {n}) == Drop(DropAll(c, gone), n)
    ensures DropAll(Cut(c, n), gone + {n}) == DropAll(c, gone + {n})
  {
    MinusMinus(c.tree, gone, n);
    MinusMinus(c.nlookup, gone, n);
    MinusMinus(c.refctr, gone, n);
    MinusMinus(c.treelock, gone, n);
    assert c.tree[n := Unlinked] - (gone + {n}) == c.tree - (gone + {n});
  }

  lemma MinusMinus<V>(m: map<Id, V>, gone: set<Id>, n: Id)
    ensures m - {n} - gone == m - (gone + {n}) && m - gone - {n} == m - (gone + {n})
  {
  }

  lemma DropAllAt(c: Core, gone: set<Id>, n: Id)
    requires n !in gone
    ensures var d := DropAll(c, gone);
      && (n in d.tree <==> n in c.tree) && (n in c.tree ==> d.tree[n] == c.tree[n])
      && (n in d.refctr <==> n in c.refctr) && (n in c.refctr ==> d.refctr[n] == c.refctr[n])
      && (n in d.treelock <==> n in c.treelock) && (n in c.treelock ==> d.treelock[n] == c.treelock[n])
  {
  }

  lemma DropDecremented(c: Core, gone: set<Id>, n: Id)
    requires n in c.refctr && n !in gone
    ensures DropAll(c.(refctr := c.refctr[n := c.refctr[n] - 1]), gone) == Decremented(DropAll(c, gone), n)
  {
    assert c.refctr[n := c.refctr[n] - 1] - gone == (c.refctr - gone)[n := c.refctr[n] - 1];
  }

  /** What unref_node() needs to know before it gives up a reference to `n`. */
  ghost predicate Owing(c: Core, n: Id, holds: Holds) {
    n in c.tree && Counted(c, Some(n)) && Locked(c, holds)
  }

  lemma OwingFacts(c: Core, n: Id, holds: Holds)
    requires Owing(c, n, holds)
    ensures n in c.refctr && n in c.treelock && c.refctr[n] > 0
    ensures c.refctr[n] > 1 ==> Unref(c, n) == Decremented(c, n)
    ensures c.refctr[n] == 1 ==>
      var e := Drop(Decremented(c, n), n);
      && c.treelock[n] == 0 && |e.tree| < |c.tree|
      && Unref(c, n) == (if c.tree[n].Linked? then Unref(e, c.tree[n].parent) else e)
      && (c.tree[n].Linked? ==> Owing(e, c.tree[n].parent, holds))
  {
    assert Exact(c, n, Some(n));
    if c.refctr[n] == 1 {
      DropSettles(c, n, holds);
      DropSize(c.tree, n);
      UnreferencedUnlocked(c, n, holds);
    }
  }

  lemma OwingInTree(c: Core, n: Id, holds: Holds)
    requires Owing(c, n, holds)
    ensures n in c.tree
  {
  }

  lemma Fewer(t: Tree, gone: set<Id>, n: Id)
    requires n in t && n !in gone
    ensures |t - (gone + {n})| < |t - gone|
  {
    DropSize(t - gone, n);
    assert t - gone - {n} == t - (gone + {n});
  }

  lemma SameSize(t: Tree, n: Id, gone: set<Id>)
    requires n in t
    ensures |t[n := Unlinked] - gone| == |t - gone|
  {
    assert (t[n := Unlinked] - gone).Keys == (t - gone).Keys;
    assert |t - gone| == |(t - gone).Keys| && |t[n := Unlinked] - gone| == |(t[n := Unlinked] - gone).Keys|;
  }

  /** A write-locked entry of a locked directory can be unhashed. */
  ghost predicate Unhashable(c: Core, holds: Holds, t: Ticket, x: Id, dir: Id) {
    && Sound(c, holds) && WriteLocked(holds, t, x) && DirectoryOf(holds, t, dir)
    && (x in c.tree && c.tree[x].Linked? ==> c.tree[x].parent == dir)
  }

  lemma UnhashOwes(c: Core, holds: Holds, t: Ticket, x: Id, dir: Id)
    requires Unhashable(c, holds, t, x, dir)
    ensures x in c.tree && (c.tree[x].Linked? ==> Owing(Cut(c, x), c.tree[x].parent, holds))
    ensures Sound(Unhash(c, x), holds) && Unhash(c, x).tree == c.tree[x := Unlinked]
  {
    UnhashLocked(c, holds, t, x, dir);
    WriteLockedAlone(c, holds, t, x);
    if c.tree[x].Linked? {
      CutCounted(c, x);
      CutLocked(c, x, holds);
    }
  }

  lemma EntryFacts(s: State, t: Ticket, dir: Id, name: string)
    requires Inv(s) && MayChange(s.core, s.holds, t, dir, name)
    ensures Sound(s.core, s.holds) && WellFormed(s.core.tree)
    ensures var x := Lookup(s.core.tree, dir, name); x.Some? ==> Unhashable(s.core, s.holds, t, x.value, dir)
  {
  }

  datatype RenameErr = RenameOk | RenameBusy | RenameNoMemory

  lemma StillUnhashable(c: Core, d: Core, holds: Holds, t: Ticket, x: Id, dir: Id, y: Id)
    requires Unhashable(c, holds, t, x, dir) && Sound(d, holds) && d.tree == c.tree[y := Unlinked]
    ensures Unhashable(d, holds, t, x, dir)
  {
    hide Sound, WriteLocked, DirectoryOf;
  }

  lemma DirectoryCounted(c: Core, holds: Holds, t: Ticket, dir: Id)
    requires Sound(c, holds) && DirectoryOf(holds, t, dir)
    ensures dir in c.refctr && dir in c.tree
  {
    var chain := DirectoryKept(c, holds, t, dir);
  }

  lemma MayChangeDirectory(c: Core, holds: Holds, t: Ticket, dir: Id, name: string)
    requires MayChange(c, holds, t, dir, name)
    ensures DirectoryOf(holds, t, dir)
  {
  }

  lemma ReplaceFacts(s: State, t: Ticket, dir: Id, name: string, hiding: bool)
    requires Inv(s) && MayReplace(s.core, s.holds, t, dir, name, hiding)
    ensures DirectoryOf(s.holds, t, dir)
    ensures var x := Lookup(s.core.tree, dir, name); x.Some? && !hiding ==> Unhashable(s.core, s.holds, t, x.value, dir)
  {
    hide Inv, Unhashable;
    if !hiding {
      EntryFacts(s, t, dir, name);
    }
  }

  /** Both ways in which a rename can end. */
  lemma RenameStep(s: State, t: Ticket, olddir: Id, oldname: string, newdir: Id, newname: string, hiding: bool,
    oom: bool)
    requires Inv(s) && Enabled(s, Rename(t, olddir, oldname, newdir, newname, hiding, false))
    ensures
      var e := Rename(t, olddir, oldname, newdir, newname, hiding, oom);
      && Enabled(s, e) && Inv(Next(s, e))
      && Next(s, e) == s.(core := Renamed(s.core, olddir, oldname, newdir, newname, hiding, oom))
    ensures Sound(s.core, s.holds) && WellFormed(s.core.tree) && DirectoryOf(s.holds, t, newdir)
    ensures
      var x, y := Lookup(s.core.tree, olddir, oldname), Lookup(s.core.tree, newdir, newname);
      && (x.Some? ==> Unhashable(s.core, s.holds, t, x.value, olddir))
      && (y.Some? && !hiding ==> Unhashable(s.core, s.holds, t, y.value, newdir))
  {
    hide Inv, Sound, WellFormed, Unhashable, MayChange, MayReplace, DirectoryOf, Renamed;
    NextInv(s, Rename(t, olddir, oldname, newdir, newname, hiding, oom));
    EntryFacts(s, t, olddir, oldname);
    ReplaceFacts(s, t, newdir, newname, hiding);
  }

  lemma ExchangeFacts(s: State, t: Ticket, olddir: Id, oldname: string, newdir: Id, newname: string)
    requires Inv(s) && Enabled(s, Exchange(t, olddir, oldname, newdir, newname, false, false))
    ensures forall a, b :: Inv(Next(s, Exchange(t, olddir, oldname, newdir, newname, a, b)))
    ensures Sound(s.core, s.holds) && WellFormed(s.core.tree)
    ensures DirectoryOf(s.holds, t, olddir) && DirectoryOf(s.holds, t, newdir)
    ensures var x, y := Lookup(s.core.tree, olddir, oldname), Lookup(s.core.tree, newdir, newname);
      && (x.Some? ==> Unhashable(s.core, s.holds, t, x.value, olddir))
      && (y.Some? ==> Unhashable(s.core, s.holds, t, y.value, newdir))
      && (x.Some? && y.Some? ==> x.value != y.value)
  {
    hide Inv, Sound, WellFormed, Unhashable, MayChange, DirectoryOf;
    forall a, b ensures Inv(Next(s, Exchange(t, olddir, oldname, newdir, newname, a, b))) {
      NextInv(s, Exchange(t, olddir, oldname, newdir, newname, a, b));
    }
    EntryFacts(s, t, olddir, oldname);
    EntryFacts(s, t, newdir, newname);
    MayChangeDirectory(s.core, s.holds, t, olddir, oldname);
    MayChangeDirectory(s.core, s.holds, t, newdir, newname);
  }

  lemma HashFrame(c: Core, x: Id, p: Id, name: string, y: Id, q: Id)
    requires p in c.refctr && q in c.refctr && y in c.tree && y != x
    ensures var d := Hash(c, x, p, name); q in d.refctr && y in d.tree && d.tree[y] == c.tree[y]
  {
  }

  /** A FORGET of `count` lookups of `n` that does not have to wait. */
  ghost predicate Forgettable(c: Core, holds: Holds, n: Id, count: int) {
    Sound(c, holds) && n in c.tree && n != ROOT && n in c.nlookup && 0 < count <= c.nlookup[n] &&
      !ForgetWaits(c, n, count)
  }

  lemma ForgetOwes(c: Core, holds: Holds, n: Id, count: int)
    requires Forgettable(c, holds, n, count)
    ensures n in c.tree && n in c.nlookup && n in c.refctr && n in c.treelock
    ensures count == c.nlookup[n] ==> Owing(LessLookup(c, n, count), n, holds)
  {
    LessLookupCounted(c, n, count);
    LessLookupLocked(c, n, count, holds);
  }

  lemma StartForgetFacts(s: State, t: Ticket, n: Id, count: int)
    requires Inv(s) && Enabled(s, StartForget(t, n, count))
    ensures Inv(Next(s, StartForget(t, n, count)))
    ensures n in s.core.nlookup && n in s.core.treelock && At(s.core.treelock, n) == s.core.treelock[n]
    ensures !ForgetWaits(s.core, n, count) ==> Forgettable(s.core, s.holds, n, count)
  {
    hide Sound, Inv, ForgetWaits, NotAwaited, Forgotten;
    NextInv(s, StartForget(t, n, count));
    InvParts(s);
    SoundDomains(s.core, s.holds);
    CountsPositive(s, n);
  }

  lemma ResumeForgetFacts(s: State, i: int)
    requires Inv(s) && Enabled(s, ResumeForget(i))
    ensures Inv(Next(s, ResumeForget(i)))
    ensures Forgettable(s.core, s.holds, s.queue[i].nodeid, s.queue[i].count)
  {
    hide Sound, Inv, ForgetWaits, NotAwaited, Forgotten;
    NextInv(s, ResumeForget(i));
    ResumeForgetCounts(s, i);
    InvParts(s);
    SoundDomains(s.core, s.holds);
  }

  lemma InvDomains(s: State)
    requires Inv(s)
    ensures SameDomains(s.core) && WellFormed(s.core.tree)
  {
  }

  lemma UnpinOwes(s: State, t: Ticket)
    requires Inv(s) && t in s.core.pinned && t !in s.calls
    ensures var c := s.core.(pinned := s.core.pinned - {t}); var n := s.core.pinned[t];
      Owing(c, n, s.holds) && n in c.refctr && n in c.treelock && n in c.tree
  {
    InvParts(s);
    OwnedNot(s.holds, s.calls, t);
    hide Inv, Owned;
    UnpinnedOwes(s.core, t, s.holds);
    SoundDomains(s.core, s.holds);
  }

  lemma OwnedNot(holds: Holds, calls: set<Ticket>, t: Ticket)
    requires Owned(holds, calls) && t !in calls
    ensures Key(t, false) !in holds && Key(t, true) !in holds
  {
  }

  lemma FindStep(s: State, dir: Id, name: Option<string>, noNode: bool, noName: bool)
    requires Inv(s) && Enabled(s, Find(dir, name, noNode, noName))
    ensures Inv(Next(s, Find(dir, name, noNode, noName)))
    ensures Next(s, Find(dir, name, noNode, noName)) ==
      s.(core := Found(s.core, dir, name, NewId(s), noNode || noName),
         ids := if Misses(s.core, dir, name) && !noNode then Draw(s.core.tree, s.ids) else s.ids)
    ensures dir in s.core.nlookup && dir in s.core.refctr && WellFormed(s.core.tree) && SameDomains(s.core)
  {
    hide Inv, Draw, Found;
    InvDomains(s);
    NextInv(s, Find(dir, name, noNode, noName));
  }

  /** A node that is allocated but not yet looked up. */
  ghost function Allocated(c: Core, id: Id): Core {
    c.(tree := c.tree[id := Unlinked], nlookup := c.nlookup[id := 0], refctr := c.refctr[id := 0],
       treelock := c.treelock[id := 0])
  }

  lemma AllocatedThenLookedUp(c: Core, id: Id, dir: Id, name: string)
    requires id != dir && dir in c.refctr
    ensures IncLookup(Hash(Allocated(c, id), id, dir, name), id) == Hash(Fresh(c, id), id, dir, name)
  {
    CountersAgree(c.refctr, id, dir);
    assert c.nlookup[id := 0][id := 1] == c.nlookup[id := 1];
  }

  lemma CountersAgree(m: map<Id, int>, id: Id, dir: Id)
    requires id != dir && dir in m
    ensures m[id := 0][dir := m[dir] + 1][id := 1] == m[id := 1][dir := m[dir] + 1]
  {
  }

  lemma AllocatedThenFreed(c: Core, id: Id)
    requires SameDomains(c) && id !in c.tree
    ensures Drop(Allocated(c, id), id) == c
  {
    assert c.tree[id := Unlinked] - {id} == c.tree;
    assert c.nlookup[id := 0] - {id} == c.nlookup;
    assert c.refctr[id := 0] - {id} == c.refctr;
    assert c.treelock[id := 0] - {id} == c.treelock;
  }

  lemma AllocatedFacts(c: Core, id: Id, dir: Id, name: string)
    requires id !in c.tree && dir in c.tree && SameDomains(c)
    ensures var d := Allocated(c, id); var e := Hash(d, id, dir, name);
      id in d.tree && d.tree[id].Unlinked? && dir in d.refctr && id in e.nlookup && id in e.refctr
  {
  }

  /** Both ways in which making a node can end. */
  lemma CreateStep(s: State, dir: Id, name: string)
    requires Inv(s) && Enabled(s, Find(dir, Some(name), false, false)) && Lookup(s.core.tree, dir, name).None?
    ensures
      var n, c, ids := NewId(s), s.core, Draw(s.core.tree, s.ids);
      var made, failed := Find(dir, Some(name), false, false), Find(dir, Some(name), false, true);
      var d := Allocated(c, n);
      var e := Hash(d, n, dir, name);
      && Inv(Next(s, made)) && Next(s, made) == s.(core := IncLookup(e, n), ids := ids)
      && Enabled(s, failed) && Inv(Next(s, failed)) && Next(s, failed) == s.(core := Drop(d, n), ids := ids)
      && n in d.tree && d.tree[n].Unlinked? && dir in d.refctr && n in e.nlookup && n in e.refctr
  {
    hide Inv, Next, WellFormed, Hash, ValidName, Draw, Allocated, Drop, IncLookup, Fresh, SameDomains;
    FindStep(s, dir, Some(name), false, false);
    FindStep(s, dir, Some(name), false, true);
    DrawIsFree(s.core.tree, s.ids);
    AllocatedThenFreed(s.core, NewId(s));
    AllocatedThenLookedUp(s.core, NewId(s), dir, name);
    AllocatedFacts(s.core, NewId(s), dir, name);
  }

  lemma Countable(s: State, dir: Id, name: string)
    requires Enabled(s, Find(dir, Some(name), false, false)) && InRange(s.ids)
    ensures |s.core.tree| < UNKNOWN_INO - 1 && 0 <= s.ids.ctr < WRAP && 0 <= s.ids.generation < WRAP
  {
  }

  /** Giving back first one path of a waiting call and then the other. */
  lemma UnlockedBoth(s: State, i: int)
    requires 0 <= i < |s.queue| && s.queue[i].Wait?
    ensures
      var q, tl := s.queue[i], s.core.treelock;
      var k, l := Key(q.ticket, false), Key(q.ticket, true);
      var one := GiveBackOne(tl, s.holds, k);
      UnlockElem(s, i) == s.(
        core := s.core.(treelock := GiveBackOne(one, s.holds - {k}, l)), holds := s.holds - {k} - {l},
        queue := s.queue[i := Relinquished(q, false)][i := Relinquished(Relinquished(q, false), true)])
  {
    hide GiveBackOne;
    var q := s.queue[i];
    var k, l := Key(q.ticket, false), Key(q.ticket, true);
    assert s.queue[i := Relinquished(q, false)][i := Relinquished(Relinquished(q, false), true)] ==
      s.queue[i := q.(first := false, second := false)];
    assert Others(s.holds, q.ticket) == s.holds - {k} - {l};
  }

  class Fuse {
    var tree: Tree
    var nlookup: map<Id, int>
    var refctr: map<Id, int>
    var treelock: Locks
    var queue: seq<Elem>
    var ctr: int
    var generation: int
    ghost var pinned: map<Ticket, Id>
    ghost var holds: Holds
    ghost var granted: map<Ticket, Grant>
    ghost var calls: set<Ticket>

    ghost function Nodes(): Core
      reads this
    {
      Core(tree, nlookup, refctr, treelock, pinned)
    }

    ghost function View(): State
      reads this
    {
      State(Nodes(), holds, queue, granted, calls, Ids(ctr, generation))
    }

    /** fuse_new(), as far as the node cache is concerned. */
    constructor ()
      ensures View() == Initial()
    {
      tree, nlookup, refctr, treelock := map[ROOT := Unlinked], map[ROOT := 1], map[ROOT := 1], map[ROOT := 0];
      queue, ctr, generation := [], 0, 0;
      pinned, holds, granted, calls := map[], map[], map[], {};
    }

    method LookupNode(parent: Id, name: string) returns (r: Option<Id>)
      requires WellFormed(tree)
      ensures r == Lookup(tree, parent, name)
    {
      if n :| n in tree && tree[n] == Linked(parent, name) {
        return Some(n);
      }
      return None;
    }

    /** unlock_path() up to, but not including, the k-th node of the walk. */
    method UnlockPath(nodeid: Id, w: Option<Id>, end: Option<Id>, ghost walk: seq<Id>, ghost k: int)
      requires IsWalk(tree, nodeid, walk) && 0 <= k < |walk|
      requires forall j :: 0 <= j < k ==> walk[j] != ROOT && end != Some(walk[j])
      requires walk[k] == ROOT || end == Some(walk[k])
      requires ReadLocked(treelock, walk, k)
      requires w.Some? ==> w.value in treelock && treelock[w.value] == WRITE && w.value !in walk[..k]
      modifies this`treelock
      ensures treelock == TreeLock.UnlockPath(old(treelock), walk[..k], w)
    {
      hide TreeLock.UnlockPath, IsWalk, ReadLocked;
      ghost var tl := treelock;
      LockNone(tl, w);
      if w.Some? {
        assert treelock[w.value] == WRITE;
        treelock := treelock[w.value := 0];
      }
      var node := nodeid;
      ghost var i := 0;
      WalkStart(tree, nodeid, walk);
      while end != Some(node) && node != ROOT
        invariant 0 <= i <= k && node == walk[i]
        invariant treelock == TreeLock.UnlockPath(tl, walk[..i], w)
        decreases k - i
      {
        UnlockStep(tree, tl, nodeid, walk, k, i, w);
        assert treelock[node] != 0 && treelock[node] != WAIT && treelock[node] != WRITE;
        treelock := treelock[node := treelock[node] - 1];
        if treelock[node] == WAIT {
          treelock := treelock[node := 0];
        }
        node := tree[node].parent;
        i := i + 1;
      }
    }
  
    /** try_get_path(): walk up from the directory, lock every node on the way, and roll back
        when that fails. `oom` tells whether an allocation failed. */
    method TryGetPath(r: Request) returns (err: Err, path: string, w: Option<Id>, ghost oom: bool)
      requires Usable(Nodes(), r) && PathFits(tree, r)
      modifies this`treelock
      ensures (err, treelock) == TryPath(old(Nodes()), r, oom)
      ensures oom <==> err == ENOMEM
      ensures err == OK ==> w == Target(tree, r) && path == PathOf(tree, r)
    {
      hide Usable, PathFits, TryPath, Target, Lookup, WellFormed, At, Text, Chain, Tail, LockPath;
      hide PathBuffer.Valid, PathBuffer.Contents;
      ghost var c := Nodes();
      TryPathOom(c, r);
      TailFits(tree, r);
      UsableTree(c, r);
      path, w, oom := "", None, true;
      var enough: bool := *;
      if !enough {
        return ENOMEM, path, w, oom;
      }
      var buf := new PathBuffer();
      if r.name.Some? {
        var ok := buf.AddName(r.name.value);
        if !ok {
          return ENOMEM, path, w, oom;
        }
      }
      if r.write && r.name.Some? {
        w := LookupNode(r.nodeid, r.name.value);
        if w.Some? {
          TargetBusy(c, r);
          if treelock[w.value] != 0 {
            if treelock[w.value] > 0 {
              treelock := treelock[w.value := treelock[w.value] + WAIT];
            }
            return EAGAIN, path, w, false;
          }
          treelock := treelock[w.value := WRITE];
        }
      }
      LockNone(c.treelock, w);
      err, oom := LockWalk(r, w, buf, c);
      if err == OK {
        path := buf.Print();
      }
    }

    /** The loop of try_get_path() and its way out. */
    method LockWalk(r: Request, w: Option<Id>, buf: PathBuffer, ghost c: Core) returns (err: Err, ghost oom: bool)
      requires Usable(c, r) && PathFits(tree, r) && tree == c.tree && w == Target(tree, r)
      requires w.Some? ==> At(c.treelock, w.value) == 0
      requires treelock == LockPath(c.treelock, [], w)
      requires buf.Valid() && buf.Contents() == Tail(r.name)
      modifies this`treelock, buf, buf.buf
      ensures (err, treelock) == TryPath(c, r, oom)
      ensures oom <==> err == ENOMEM
      ensures err == OK ==> buf.Valid() && buf.Contents() == Text(tree, Chain(tree, r.nodeid)) + Tail(r.name)
    {
      hide *;
      ghost var walk := Walk(tree, r.nodeid);
      LockingStart(c, r);
      var node := r.nodeid;
      ghost var i := 0;
      while node != ROOT
        invariant Locking(c, r, walk, i) && 0 <= i < |walk| && node == walk[i]
        invariant treelock == LockedSoFar(c, r, walk, i)
        invariant buf.buf == old(buf.buf) || fresh(buf.buf)
        invariant buf.Valid() && buf.Contents() == Built(tree, r, walk, i)
        decreases |walk| - i
      {
        LockingNext(c, r, walk, i);
        if tree[node].Unlinked? {
          RollBack(r, w, node, c, walk, i);
          return ENOENT, false;
        }
        NameAdded(c, r, walk, i);
        var ok := buf.AddName(tree[node].name);
        if !ok {
          RollBack(r, w, node, c, walk, i);
          return ENOMEM, true;
        }
        if treelock[node] < 0 {
          RollBack(r, w, node, c, walk, i);
          return EAGAIN, false;
        }
        treelock := treelock[node := treelock[node] + 1];
        node := tree[node].parent;
        i := i + 1;
      }
      LockingNext(c, r, walk, i);
      return OK, false;
    }

    /** The `out_unlock` exit of try_get_path(). */
    method RollBack(r: Request, w: Option<Id>, node: Id, ghost c: Core, ghost walk: seq<Id>, ghost i: int)
      requires Locking(c, r, walk, i) && tree == c.tree && w == Target(tree, r) && node == walk[i]
      requires treelock == LockedSoFar(c, r, walk, i)
      modifies this`treelock
      ensures treelock == c.treelock && (ENOMEM, treelock) == TryPath(c, r, true)
    {
      WalkFacts(c, r);
      RollsBack(tree, c.treelock, r.nodeid, walk, i, w);
      hide TreeLock.UnlockPath, LockPath, IsWalk, ReadLocked, WellFormed;
      UnlockPath(r.nodeid, w, Some(node), walk, i);
    }
  
    /** unlock_path() for a path that is held. */
    method ReleasePath(nodeid: Id, w: Option<Id>, ghost k: Key)
      requires Faithful(treelock, holds) && Releasable(Nodes(), holds, k, nodeid, w)
      modifies this`treelock, this`holds
      ensures treelock == GiveBackOne(old(treelock), old(holds), k) && holds == old(holds) - {k}
      ensures Faithful(treelock, holds)
    {
      HeldWalk(Nodes(), holds, k, nodeid, w);
      GiveBackOneFaithful(treelock, holds, k);
      hide Faithful, IsWalk, ReadLocked, TreeLock.UnlockPath;
      UnlockPath(nodeid, w, None, holds[k].chain + [ROOT], |holds[k].chain|);
      holds := holds - {k};
    }

    /** One half of queue_element_unlock(). */
    method ReleaseHalf(i: int, second: bool)
      requires 0 <= i < |queue| && queue[i].Wait? && HalfTied(Nodes(), holds, queue[i], second)
      requires Faithful(treelock, holds)
      modifies this`treelock, this`holds, this`queue
      ensures treelock == GiveBackOne(old(treelock), old(holds), Key(old(queue[i]).ticket, second))
      ensures holds == old(holds) - {Key(old(queue[i]).ticket, second)}
      ensures queue == old(queue)[i := Relinquished(old(queue[i]), second)]
      ensures Faithful(treelock, holds)
    {
      hide Releasable, Faithful, TreeLock.UnlockPath;
      var q := queue[i];
      ghost var k := Key(q.ticket, second);
      if Has(q, second) {
        ReleasePath(if second then q.r2.value.nodeid else q.r1.nodeid, Wnode(q, second), k);
        queue := queue[i := Relinquished(q, second)];
      } else {
        assert holds - {k} == holds && Relinquished(q, second) == q;
      }
    }

    method QueueElementUnlock(i: int)
      requires Sound(Nodes(), holds) && 0 <= i < |queue| && queue[i].Wait? && ElemTied(Nodes(), holds, queue[i])
      modifies this`treelock, this`holds, this`queue
      ensures View() == UnlockElem(old(View()), i)
    {
      hide Sound, ElemTied, HalfTied, GiveBackOne, Faithful, UnlockElem;
      ghost var q := queue[i];
      UnlockedBoth(View(), i);
      HalvesTied(Nodes(), holds, q);
      ReleaseHalf(i, false);
      SecondStillTied(old(Nodes()), old(holds), q, treelock);
      ReleaseHalf(i, true);
    }

    method TryLockPath(r: Request, ghost k: Key) returns (err: Err, path: string, w: Option<Id>, ghost oom: bool)
      requires Usable(Nodes(), r) && PathFits(tree, r)
      modifies this`treelock, this`holds
      ensures (err, View()) == TryLock(old(View()), k, r, oom)
      ensures err == OK ==> w == Target(tree, r) && path == PathOf(tree, r)
    {
      hide Usable, PathFits, TryPath, PathOf, Target;
      ghost var h := HoldFor(Nodes(), r);
      err, path, w, oom := TryGetPath(r);
      if err == OK {
        holds := holds[k := h];
      }
    }
  
    /** One half of queue_element_wakeup(). */
    method WakePath(i: int, second: bool) returns (err: Err, ghost oom: bool)
      requires Tidy(View()) && 0 <= i < |queue| && queue[i].Wait? && ElemFits(tree, queue[i])
      modifies this`treelock, this`holds, this`queue
      ensures (err, View()) == PathQueue.WakePath(old(View()), i, second, oom)
    {
      hide Tidy, Usable, PathFits, TryLock, Sound, ElemTied, Target, PathOf, PathQueue.WakePath, Got;
      var q := queue[i];
      ghost var s := View();
      ElemUsable(s, i);
      if Has(q, second) || (second && q.r2.None?) {
        WakeNothing(s, i, second);
        return OK, false;
      }
      var r := if second then q.r2.value else q.r1;
      var path, w;
      err, path, w, oom := TryLockPath(r, Key(q.ticket, second));
      WakeAttempt(s, i, second, oom, r);
      if err == OK {
        queue := queue[i := Got(q, second, w)];
      }
    }

    method QueueElementWakeup(i: int) returns (ghost oom1: bool, ghost oom2: bool)
      requires Tidy(View()) && 0 <= i < |queue| && ElemKnown(Nodes(), queue[i]) && ElemFits(tree, queue[i])
      modifies this`treelock, this`holds, this`queue
      ensures View() == Wakeup(old(View()), i, oom1, oom2)
    {
      hide Tidy, ElemKnown, ElemFits, PathQueue.WakePath, UnlockElem, Only;
      oom1, oom2 := false, false;
      if queue[i].Forget? {
        return;
      }
      ghost var s := View();
      var err1, err2;
      err1, oom1 := WakePath(i, false);
      ghost var s1 := View();
      WakePathTidy(s, i, false, oom1);
      OnlyFits(s, s1, i);
      OnlyKnown(s, s1, i);
      if err1 != OK && err1 != EAGAIN {
        GiveUp(i, err1);
        return;
      }
      err2, oom2 := WakePath(i, true);
      ghost var s2 := View();
      WakePathTidy(s1, i, true, oom2);
      OnlyFits(s1, s2, i);
      if err2 != OK && err2 != EAGAIN {
        GiveUp(i, err2);
        return;
      }
      if err1 == OK && err2 == OK {
        queue := queue[i := queue[i].(done := true, err := OK)];
      } else if i != 0 {
        ElemUsable(s2, i);
        QueueElementUnlock(i);
      }
    }

    /** The `err_unlock` exit of queue_element_wakeup(). */
    method GiveUp(i: int, err: Err)
      requires Tidy(View()) && 0 <= i < |queue| && queue[i].Wait?
      modifies this`treelock, this`holds, this`queue
      ensures View() == Finish(UnlockElem(old(View()), i), i, err)
    {
      hide Tidy, Sound, ElemTied, Release, Usable;
      ElemUsable(View(), i);
      QueueElementUnlock(i);
      queue := queue[i := queue[i].(done := true, err := err)];
    }

    method WakeUpQueued() returns (ghost f: Failures)
      requires Inv(View()) && TargetsKnown(View()) && QueueFits(tree, queue)
      modifies this`treelock, this`holds, this`queue
      ensures |f| == |queue| == |old(queue)| && View() == WakeFrom(old(View()), 0, f)
      ensures Inv(View()) && AllShut(View(), |queue|)
    {
      hide Inv, TargetsKnown, QueueFits, Wakeup, WakeFrom, Shut;
      ghost var s := View();
      f := [];
      for i := 0 to |queue|
        invariant |queue| == |old(queue)| && |f| == i && View() == WakeTo(s, f)
        invariant Inv(View()) && TargetsKnown(View()) && QueueFits(tree, queue)
      {
        ghost var oom1, oom2, s1 := false, false, View();
        ReadyToWake(s1, i);
        oom1, oom2 := QueueElementWakeup(i);
        WokenFrame(s1, i, oom1, oom2);
        f := f + [(oom1, oom2)];
        assert f[..i] == f[..|f| - 1];
      }
      WakeToFrom(s, f, 0);
      assert f[..0] == [];
      WakeFromShuts(s, 0, f);
    }
  
    // ---- get_path_common(), get_path2(), wait_path() ----

    /** What happens after the first attempt: go on, wait in the queue, or fail. */
    method SettleCall(t: Ticket, r1: Request, r2: Option<Request>, err: Err)
      modifies this`queue, this`granted, this`calls
      ensures View() == Settle(old(View()), t, r1, r2, err)
    {
      if err == EAGAIN {
        queue := queue + [Wait(t, r1, r2, None, None, false, false, false, OK)];
        calls := calls + {t};
      } else if err == OK {
        granted, calls := granted[t := Grant(r1, r2)], calls + {t};
      }
    }

    /** get_path_common() up to the point where it returns or goes to sleep (EAGAIN). */
    method GetPathCommon(t: Ticket, r: Request) returns (err: Err, path: string, w: Option<Id>, ghost oom: bool)
      requires Inv(View()) && Enabled(View(), GetOne(t, r, oom := false)) && PathFits(tree, r)
      modifies this
      ensures Enabled(old(View()), GetOne(t, r, oom)) && View() == Next(old(View()), GetOne(t, r, oom))
      ensures Inv(View()) && err == Verdict(old(Nodes()), r, oom)
      ensures (err == OK <==> t in granted) && (err == EAGAIN <==> !NotQueued(View(), t))
      ensures err == OK ==> w == Target(tree, r) && path == PathOf(tree, r)
    {
      hide Inv, Usable, Enabled, Next, PathFits, TryLock, Target, PathOf, Verdict, NotQueued;
      ghost var s := View();
      GetOneStep(s, t, r, false);
      err, path, w, oom := TryLockPath(r, Key(t, false));
      GetOneStep(s, t, r, oom);
      OneAnswer(s, t, r, oom);
      SettleCall(t, r, None, err);
    }
  
    /** try_get_path2(). */
    method TryGetPath2(t: Ticket, r1: Request, r2: Request)
      returns (err: Err, path1: string, path2: string, w1: Option<Id>, w2: Option<Id>, ghost oom1: bool,
        ghost oom2: bool)
      requires Inv(View()) && Enabled(View(), GetTwo(t, r1, r2, false, false)) && PathFits(tree, r1)
      requires PathFits(tree, r2)
      modifies this`treelock, this`holds
      ensures (err, View()) == TryLock2(old(View()), t, r1, r2, oom1, oom2)
      ensures err == OK ==> w1 == Target(tree, r1) && w2 == Target(tree, r2)
      ensures err == OK ==> path1 == PathOf(tree, r1) && path2 == PathOf(tree, r2)
    {
      hide Inv, Usable, Enabled, PathFits, TryLock, Target, PathOf, GiveBackOne, Faithful, Releasable,
        TreeLock.UnlockPath;
      ghost var s := View();
      GetTwoStep(s, t, r1, r2, false, false);
      path2, w2, oom2 := "", None, false;
      err, path1, w1, oom1 := TryLockPath(r1, Key(t, false));
      if err == OK {
        FirstHeld(s, t, r1, r2, oom1, false);
        err, path2, w2, oom2 := TryLockPath(r2, Key(t, true));
        if err != OK {
          FirstHeld(s, t, r1, r2, oom1, oom2);
          ghost var s2 := View();
          ReleasePath(r1.nodeid, w1, Key(t, false));
          OnlyFirst(s2.holds, t, treelock);
        }
      }
    }

    /** get_path2() up to the point where it returns or goes to sleep (EAGAIN). */
    method GetPath2(t: Ticket, r1: Request, r2: Request)
      returns (err: Err, path1: string, path2: string, w1: Option<Id>, w2: Option<Id>, ghost oom1: bool,
        ghost oom2: bool)
      requires Inv(View()) && Enabled(View(), GetTwo(t, r1, r2, false, false)) && PathFits(tree, r1)
      requires PathFits(tree, r2)
      modifies this
      ensures Enabled(old(View()), GetTwo(t, r1, r2, oom1, oom2))
      ensures View() == Next(old(View()), GetTwo(t, r1, r2, oom1, oom2))
      ensures Inv(View()) && err == Verdict2(old(Nodes()), r1, r2, oom1, oom2)
      ensures (err == OK <==> t in granted) && (err == EAGAIN <==> !NotQueued(View(), t))
      ensures err == OK ==> w1 == Target(tree, r1) && w2 == Target(tree, r2)
      ensures err == OK ==> path1 == PathOf(tree, r1) && path2 == PathOf(tree, r2)
    {
      hide Inv, Usable, Enabled, Next, PathFits, TryLock2, Target, PathOf, Verdict2, NotQueued;
      ghost var s := View();
      err, path1, path2, w1, w2, oom1, oom2 := TryGetPath2(t, r1, r2);
      GetTwoStep(s, t, r1, r2, oom1, oom2);
      TwoAnswer(s, t, r1, r2, oom1, oom2);
      SettleCall(t, r1, Some(r2), err);
    }
  
    /** The search of dequeue_path() for its element. */
    method Position(t: Ticket) returns (i: int)
      requires exists j :: 0 <= j < |queue| && queue[j].ticket == t
      ensures 0 <= i < |queue| && queue[i].ticket == t && forall j :: 0 <= j < i ==> queue[j].ticket != t
    {
      i := 0;
      while queue[i].ticket != t
        invariant 0 <= i < |queue|
        invariant forall j :: 0 <= j < i ==> queue[j].ticket != t
        invariant exists j :: i <= j < |queue| && queue[j].ticket == t
        decreases |queue| - i
      {
        i := i + 1;
      }
    }

    /** dequeue_path(). */
    method DequeuePath(t: Ticket) returns (q: Elem, ghost i: int)
      requires exists j :: 0 <= j < |queue| && queue[j].ticket == t
      modifies this`queue
      ensures 0 <= i < |old(queue)| && old(queue)[i] == q && q.ticket == t && queue == Dequeued(old(queue), i)
    {
      var k := Position(t);
      q, i := queue[k], k;
      queue := queue[..k] + queue[k + 1..];
    }

    /** The end of wait_path(): the thread of call `t` finds its element done. */
    method WaitPathEnd(t: Ticket, ghost i: int) returns (err: Err)
      requires Inv(View()) && Enabled(View(), Resume(i)) && queue[i].ticket == t
      modifies this
      ensures View() == Next(old(View()), Resume(i)) && Inv(View()) && err == old(queue[i]).err
      ensures err == OK ==> t in granted
    {
      hide Inv, Dequeued;
      ghost var s, q := View(), queue[i];
      NextInv(s, Resume(i));
      TicketAt(s, i);
      var e, k := DequeuePath(t);
      assert k == i;
      err := e.err;
      if err == OK {
        granted := granted[t := Grant(q.r1, q.r2)];
      } else if !(q.first || q.second) {
        calls := calls - {t};
      }
    }
  
    /** The common tail of free_path_wrlock() and free_path2(), once the paths are unlocked. */
    method EndCall(ghost t: Ticket, ghost s: State, always: bool) returns (ghost f: Failures)
      requires Inv(s) && t in s.granted && TargetsKnown(s) && QueueFits(tree, queue)
      requires View() == Release(s, t)
      modifies this
      ensures |f| == |s.queue| && Enabled(s, Free(t, f)) && View() == Next(s, Free(t, f)) && Inv(View())
      ensures AllShut(View(), |queue|)
    {
      hide Inv, TargetsKnown, QueueFits, Enabled, Next, WakeFrom, GiveBack, Others, Shut;
      granted, calls := granted - {t}, calls - {t};
      EndedInv(s, t);
      EndedKnown(s, t);
      assert View() == Ended(s, t);
      f := [];
      if always || queue != [] {
        f := WakeUpQueued();
      } else {
        WakeNobody(View());
      }
      FreeStep(s, t, f);
    }

    method FreePathWrlock(t: Ticket, nodeid: Id, w: Option<Id>) returns (ghost f: Failures)
      requires Inv(View()) && t in granted && granted[t].r2.None? && TargetsKnown(View()) && QueueFits(tree, queue)
      requires Paid(View(), Key(t, false), nodeid, w)
      modifies this
      ensures |f| == |old(queue)| && Enabled(old(View()), Free(t, f)) && View() == Next(old(View()), Free(t, f))
      ensures Inv(View()) && AllShut(View(), |queue|)
    {
      hide Inv, TargetsKnown, QueueFits, Enabled, Next, GiveBackOne, Releasable, Faithful, Paid, AllShut;
      ghost var s := View();
      GrantReleasable(s, Key(t, false), nodeid, w);
      OnePath(s, t);
      ReleasePath(nodeid, w, Key(t, false));
      OnlyFirst(s.holds, t, treelock);
      f := EndCall(t, s, false);
    }

    method FreePath2(t: Ticket, nodeid1: Id, nodeid2: Id, w1: Option<Id>, w2: Option<Id>) returns (ghost f: Failures)
      requires Inv(View()) && t in granted && TargetsKnown(View()) && QueueFits(tree, queue)
      requires Paid(View(), Key(t, false), nodeid1, w1) && Paid(View(), Key(t, true), nodeid2, w2)
      modifies this
      ensures |f| == |old(queue)| && Enabled(old(View()), Free(t, f)) && View() == Next(old(View()), Free(t, f))
      ensures Inv(View()) && AllShut(View(), |queue|)
    {
      hide Inv, TargetsKnown, QueueFits, Enabled, Next, GiveBackOne, Releasable, Faithful, Paid, AllShut;
      ghost var s := View();
      GrantReleasable(s, Key(t, false), nodeid1, w1);
      GrantReleasable(s, Key(t, true), nodeid2, w2);
      ReleasePath(nodeid1, w1, Key(t, false));
      StillReleasable(s.core, s.holds, Key(t, false), Key(t, true), nodeid2, w2, treelock);
      ReleasePath(nodeid2, w2, Key(t, true));
      f := EndCall(t, s, true);
    }
  
    // ---- reference counts ----

    /** unref_node(). `gone` are the nodes whose deletion is under way further up. */
    method UnrefNode(n: Id, ghost gone: set<Id>)
      requires n in tree && n in refctr && n in treelock && n !in gone && Owing(DropAll(Nodes(), gone), n, holds)
      modifies this`tree, this`nlookup, this`refctr, this`treelock
      ensures DropAll(Nodes(), gone) == Unref(DropAll(old(Nodes()), gone), n)
      decreases |tree - gone|, 1
    {
      hide Owing, Unref, Drop, DropAll, Decremented;
      ghost var c := DropAll(Nodes(), gone);
      OwingFacts(c, n, holds);
      DropAllAt(Nodes(), gone, n);
      DropDecremented(Nodes(), gone, n);
      assert refctr[n] > 0;
      refctr := refctr[n := refctr[n] - 1];
      if refctr[n] == 0 {
        DropOneMore(Nodes(), gone, n);
        DeleteNode(n, gone);
      }
    }

    /** delete_node(). */
    method DeleteNode(n: Id, ghost gone: set<Id>)
      requires n in tree && n in treelock && treelock[n] == 0 && n !in gone
      requires tree[n].Linked? ==> Owing(DropAll(Nodes(), gone + {n}), tree[n].parent, holds)
      modifies this`tree, this`nlookup, this`refctr, this`treelock
      ensures var e := DropAll(old(Nodes()), gone + {n});
        DropAll(Nodes(), gone) == if old(tree[n]).Linked? then Unref(e, old(tree[n]).parent) else e
      decreases |tree - gone|, 0
    {
      hide Owing, Unref, DropAll, Cut;
      assert treelock[n] == 0;
      DropOneMore(Nodes(), gone, n);
      Fewer(tree, gone, n);
      UnhashName(n, gone + {n});
      DropOneMore(Nodes(), gone, n);
      tree, nlookup, refctr, treelock := tree - {n}, nlookup - {n}, refctr - {n}, treelock - {n};
    }

    /** unhash_name(). */
    method UnhashName(n: Id, ghost gone: set<Id>)
      requires n in tree
      requires tree[n].Linked? ==> Owing(DropAll(Cut(Nodes(), n), gone), tree[n].parent, holds)
      modifies this`tree, this`nlookup, this`refctr, this`treelock
      ensures DropAll(Nodes(), gone) ==
        if old(tree[n]).Linked? then Unref(DropAll(Cut(old(Nodes()), n), gone), old(tree[n]).parent)
        else DropAll(old(Nodes()), gone)
      decreases |tree - gone|, 2
    {
      hide Owing, Unref;
      if tree[n].Linked? {
        var parent := tree[n].parent;
        OwingFacts(DropAll(Cut(Nodes(), n), gone), parent, holds);
        OwingInTree(DropAll(Cut(Nodes(), n), gone), parent, holds);
        SameSize(tree, n, gone);
        tree := tree[n := Unlinked];
        UnrefNode(parent, gone);
      }
    }
  
    // ---- names ----

    /** hash_name(): names shorter than `inline_name` need no allocation. */
    method HashName(n: Id, parent: Id, name: string) returns (ok: bool)
      requires n in tree && tree[n].Unlinked? && parent in refctr
      modifies this`tree, this`refctr
      ensures Nodes() == if ok then Hash(old(Nodes()), n, parent, name) else old(Nodes())
      ensures |name| < 32 ==> ok
    {
      var enough: bool := *;
      if |name| >= 32 && !enough {
        return false;
      }
      refctr := refctr[parent := refctr[parent] + 1];
      tree := tree[n := Linked(parent, name)];
      return true;
    }

    /** unhash_name() on an entry its caller has locked. */
    method UnhashEntry(x: Id, ghost t: Ticket, ghost dir: Id)
      requires Unhashable(Nodes(), holds, t, x, dir)
      modifies this`tree, this`nlookup, this`refctr, this`treelock
      ensures Nodes() == Unhash(old(Nodes()), x) && Sound(Nodes(), holds) && tree == old(tree)[x := Unlinked]
    {
      hide Sound, WriteLocked, DirectoryOf, Unhashable, Owing, Unref, DropAll, Cut;
      UnhashOwes(Nodes(), holds, t, x, dir);
      DropNone(Nodes());
      DropNone(Cut(Nodes(), x));
      UnhashName(x, {});
      DropNone(Nodes());
    }

    method RemoveNode(t: Ticket, dir: Id, name: string)
      requires Inv(View()) && Enabled(View(), Remove(t, dir, name))
      modifies this
      ensures View() == Next(old(View()), Remove(t, dir, name)) && Inv(View())
    {
      hide Inv, Sound, WellFormed, Lookup, Unhashable, Unhash, MayChange;
      ghost var s := View();
      NextInv(s, Remove(t, dir, name));
      EntryFacts(s, t, dir, name);
      var node := LookupNode(dir, name);
      if node.Some? {
        UnhashEntry(node.value, t, dir);
      }
    }
  
    method RenameNode(t: Ticket, olddir: Id, oldname: string, newdir: Id, newname: string, hiding: bool)
      returns (err: RenameErr, ghost oom: bool)
      requires Inv(View()) && Enabled(View(), Rename(t, olddir, oldname, newdir, newname, hiding, false))
      modifies this
      ensures Enabled(old(View()), Rename(t, olddir, oldname, newdir, newname, hiding, oom))
      ensures View() == Next(old(View()), Rename(t, olddir, oldname, newdir, newname, hiding, oom)) && Inv(View())
      ensures err.RenameBusy? <==>
        hiding && Lookup(old(tree), olddir, oldname).Some? && Lookup(old(tree), newdir, newname).Some?
      ensures err.RenameBusy? ==> View() == old(View())
      ensures err.RenameNoMemory? <==> oom
    {
      hide Inv, Next, Enabled, Sound, WellFormed, Lookup, Unhashable, Unhash, DirectoryOf, Hash;
      ghost var s := View();
      RenameStep(s, t, olddir, oldname, newdir, newname, hiding, false);
      RenameStep(s, t, olddir, oldname, newdir, newname, hiding, true);
      oom := false;
      var node := LookupNode(olddir, oldname);
      var newnode := LookupNode(newdir, newname);
      if node.None? {
        return RenameOk, oom;
      }
      if newnode.Some? {
        if hiding {
          return RenameBusy, oom;
        }
        UnhashEntry(newnode.value, t, newdir);
        StillUnhashable(s.core, Nodes(), holds, t, node.value, olddir, newnode.value);
      }
      UnhashEntry(node.value, t, olddir);
      DirectoryCounted(Nodes(), holds, t, newdir);
      var ok := HashName(node.value, newdir, newname);
      oom := !ok;
      err := if ok then RenameOk else RenameNoMemory;
    }

    /** The first half of exchange_node(): both entries leave the name table. */
    method UnhashBoth(x: Option<Id>, y: Option<Id>, ghost t: Ticket, ghost olddir: Id, ghost newdir: Id)
      requires Sound(Nodes(), holds) && DirectoryOf(holds, t, olddir) && DirectoryOf(holds, t, newdir)
      requires x.Some? ==> Unhashable(Nodes(), holds, t, x.value, olddir)
      requires y.Some? ==> Unhashable(Nodes(), holds, t, y.value, newdir)
      modifies this`tree, this`nlookup, this`refctr, this`treelock
      ensures Nodes() == UnhashAny(UnhashAny(old(Nodes()), x), y)
      ensures olddir in refctr && newdir in refctr
      ensures x.Some? ==> x.value in tree && tree[x.value].Unlinked?
      ensures y.Some? ==> y.value in tree && tree[y.value].Unlinked?
    {
      hide Sound, Unhashable, Unhash, DirectoryOf;
      ghost var c := Nodes();
      if x.Some? {
        UnhashEntry(x.value, t, olddir);
        if y.Some? {
          StillUnhashable(c, Nodes(), holds, t, y.value, newdir, x.value);
        }
      }
      if y.Some? {
        UnhashEntry(y.value, t, newdir);
      }
      DirectoryCounted(Nodes(), holds, t, olddir);
      DirectoryCounted(Nodes(), holds, t, newdir);
    }

    method ExchangeNode(t: Ticket, olddir: Id, oldname: string, newdir: Id, newname: string)
      returns (ok: bool, ghost oom1: bool, ghost oom2: bool)
      requires Inv(View()) && Enabled(View(), Exchange(t, olddir, oldname, newdir, newname, false, false))
      modifies this
      ensures Enabled(old(View()), Exchange(t, olddir, oldname, newdir, newname, oom1, oom2))
      ensures View() == Next(old(View()), Exchange(t, olddir, oldname, newdir, newname, oom1, oom2)) && Inv(View())
      ensures ok <==> !oom1 && !oom2
    {
      hide Inv, Sound, WellFormed, Lookup, Unhashable, Unhash, MayChange, DirectoryOf, Hash;
      ghost var s := View();
      ExchangeFacts(s, t, olddir, oldname, newdir, newname);
      oom1, oom2 := false, false;
      var oldnode := LookupNode(olddir, oldname);
      var newnode := LookupNode(newdir, newname);
      UnhashBoth(oldnode, newnode, t, olddir, newdir);
      if oldnode.Some? {
        if newnode.Some? {
          HashFrame(Nodes(), oldnode.value, newdir, newname, newnode.value, olddir);
        }
        ok := HashName(oldnode.value, newdir, newname);
        if !ok {
          oom1 := true;
          return;
        }
      }
      if newnode.Some? {
        ok := HashName(newnode.value, olddir, oldname);
        if !ok {
          oom2 := true;
          return;
        }
      }
      ok := true;
    }
  
    // ---- forget_node() ----

    /** forget_node() once nothing keeps it waiting. */
    method FinishForget(n: Id, count: int)
      requires Forgettable(Nodes(), holds, n, count)
      modifies this`tree, this`nlookup, this`refctr, this`treelock
      ensures Nodes() == Forgotten(old(Nodes()), n, count)
    {
      hide Forgettable, Owing, Unref, DropAll;
      ForgetOwes(Nodes(), holds, n, count);
      nlookup := nlookup[n := nlookup[n] - count];
      DropNone(Nodes());
      if nlookup[n] == 0 {
        UnrefNode(n, {});
        DropNone(Nodes());
      }
    }

    /** forget_node() up to the point where it returns or goes to sleep. */
    method ForgetNode(t: Ticket, n: Id, count: int) returns (waits: bool)
      requires Inv(View()) && (n != ROOT ==> Enabled(View(), StartForget(t, n, count)))
      modifies this
      ensures Inv(View()) && View() == if n == ROOT then old(View()) else Next(old(View()), StartForget(t, n, count))
      ensures waits <==> n != ROOT && ForgetWaits(old(Nodes()), n, count)
    {
      hide Inv, Enabled, Forgettable, Forgotten, Sound, At;
      if n == ROOT {
        return false;
      }
      StartForgetFacts(View(), t, n, count);
      if nlookup[n] == count && treelock[n] != 0 {
        queue := queue + [Elem.Forget(t, n, count)];
        calls := calls + {t};
        return true;
      }
      FinishForget(n, count);
      return false;
    }

    /** The rest of forget_node() after its wait. */
    method ForgetEnd(t: Ticket, ghost i: int)
      requires Inv(View()) && Enabled(View(), ResumeForget(i)) && queue[i].ticket == t
      modifies this
      ensures View() == Next(old(View()), ResumeForget(i)) && Inv(View())
    {
      hide Inv, Forgettable, Forgotten, Sound, ForgetWaits, NotAwaited, Dequeued;
      ghost var s := View();
      ResumeForgetFacts(s, i);
      TicketAt(s, i);
      var q, k := DequeuePath(t);
      assert k == i;
      FinishForget(q.nodeid, q.count);
      calls := calls - {t};
    }

    // ---- the extra reference of a "." lookup ----

    /** The start of a "." lookup; `false` is the ESTALE answer. */
    method PinDot(n: Id, ghost t: Ticket) returns (found: bool)
      requires Inv(View()) && (n in tree ==> Enabled(View(), Pin(t, n)))
      modifies this
      ensures found <==> n in old(tree)
      ensures Inv(View()) && View() == if found then Next(old(View()), Pin(t, n)) else old(View())
    {
      hide Inv;
      ghost var s := View();
      if n !in tree {
        return false;
      }
      NextInv(s, Pin(t, n));
      InvDomains(s);
      refctr := refctr[n := refctr[n] + 1];
      pinned := pinned[t := n];
      return true;
    }

    method UnpinDot(n: Id, ghost t: Ticket)
      requires Inv(View()) && Enabled(View(), Unpin(t)) && pinned[t] == n
      modifies this
      ensures View() == Next(old(View()), Unpin(t)) && Inv(View())
    {
      hide Inv, Owing, Unref, DropAll;
      ghost var s := View();
      NextInv(s, Unpin(t));
      UnpinOwes(s, t);
      pinned := pinned - {t};
      DropNone(Nodes());
      UnrefNode(n, {});
      DropNone(Nodes());
    }
  
    // ---- find_node() ----

    /** inc_nlookup(). */
    method IncNlookup(n: Id)
      requires n in nlookup && n in refctr
      modifies this`nlookup, this`refctr
      ensures Nodes() == IncLookup(old(Nodes()), n)
    {
      if nlookup[n] == 0 {
        refctr := refctr[n := refctr[n] + 1];
      } else {
        assert refctr == refctr[n := refctr[n] + 0];
      }
      nlookup := nlookup[n := nlookup[n] + 1];
    }

    /** The node is in the cache, or is created with the number next_id() yields; `None` means
        that memory ran out. */
    method FindNode(dir: Id, name: Option<string>) returns (node: Option<Id>, ghost noNode: bool, ghost noName: bool)
      requires Inv(View()) && Enabled(View(), Find(dir, name, false, false)) && InRange(View().ids)
      modifies this
      ensures Enabled(old(View()), Find(dir, name, noNode, noName)) && InRange(View().ids)
      ensures View() == Next(old(View()), Find(dir, name, noNode, noName)) && Inv(View())
      ensures node == if name.None? then Some(dir)
                      else if Lookup(old(tree), dir, name.value).Some? then Lookup(old(tree), dir, name.value)
                      else if noNode || noName then None else Some(NewId(old(View())))
    {
      hide Inv, Next, WellFormed, Lookup, Hash, ValidName, Draw;
      ghost var s := View();
      noNode, noName := false, false;
      FindStep(s, dir, name, false, false);
      FindStep(s, dir, name, true, false);
      node := Some(dir);
      if name.Some? {
        node := LookupNode(dir, name.value);
      }
      if node.None? {
        var enough: bool := *;
        if !enough {
          noNode := true;
          return;
        }
        node, noName := NewNode(dir, name.value, s);
        return;
      }
      IncNlookup(node.value);
    }

    /** alloc_node(), as far as the fields modelled here are concerned. */
    method AllocNode(n: Id)
      modifies this`tree, this`nlookup, this`refctr, this`treelock
      ensures Nodes() == Allocated(old(Nodes()), n)
    {
      tree, nlookup, refctr, treelock := tree[n := Unlinked], nlookup[n := 0], refctr[n := 0], treelock[n := 0];
    }

    /** free_node(). */
    method FreeNode(n: Id)
      modifies this`tree, this`nlookup, this`refctr, this`treelock
      ensures Nodes() == Drop(old(Nodes()), n)
    {
      tree, nlookup, refctr, treelock := tree - {n}, nlookup - {n}, refctr - {n}, treelock - {n};
    }

    /** The branch of find_node() that makes a new node. */
    method NewNode(dir: Id, name: string, ghost s: State) returns (node: Option<Id>, ghost noName: bool)
      requires Inv(s) && s == View() && Enabled(s, Find(dir, Some(name), false, false)) && InRange(s.ids)
      requires Lookup(tree, dir, name).None?
      modifies this
      ensures Enabled(s, Find(dir, Some(name), false, noName)) && InRange(View().ids)
      ensures View() == Next(s, Find(dir, Some(name), false, noName)) && Inv(View())
      ensures node == if noName then None else Some(NewId(s))
    {
      hide Inv, Next, Enabled, WellFormed, Lookup, Hash, Draw, Allocated, Drop, IncLookup, InRange;
      CreateStep(s, dir, name);
      Countable(s, dir, name);
      DrawIsLater(tree, s.ids);
      var n, g := NextId(tree, ctr, generation);
      ctr, generation := n, g;
      AllocNode(n);
      var ok := HashName(n, dir, name);
      noName := !ok;
      if !ok {
        FreeNode(n);
        return None, noName;
      }
      IncNlookup(n);
      node := Some(n);
    }

    /** lookup_path_in_cache(); ENOMEM means that the path could not be copied. */
    method LookupPathInCache(path: string) returns (err: Err, ino: Id)
      requires WellFormed(tree)
      ensures err == OK || err == ENOENT || err == ENOMEM
      ensures err == OK ==> LookupPath(tree, path) == Some(ino)
      ensures err == ENOENT ==> LookupPath(tree, path) == None
    {
      hide WellFormed;
      var enough: bool := *;
      if !enough {
        return ENOMEM, ROOT;
      }
      ino := ROOT;
      var rest := path;
      while rest != ""
        invariant LookupPath(tree, path) == Follow(tree, ino, Tokens(rest))
        decreases |rest|
      {
        if rest[0] == '/' {
          rest := rest[1..];
        } else {
          var k := RunLength(rest);
          var node := LookupNode(ino, rest[..k]);
          if node.None? {
            return ENOENT, ino;
          }
          ino, rest := node.value, rest[k..];
        }
      }
      return OK, ino;
    }
  }
}
