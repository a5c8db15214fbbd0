/** Taking and giving back path locks: try_get_path(), try_get_path2() and unlock_path()
    of lib/fuse.c as functions of the node fields. */
module PathLock {
  import opened Basics
  import opened NodeTree
  import opened TreeLock
  import opened NodeLife

  datatype Err = OK | EAGAIN | ENOENT | ENOMEM

  /** One path a call asks for: the directory, an optional last component and whether the
      child of that name is to be write-locked (the caller passed a `wnode` pointer). */
  datatype Request = Request(nodeid: Id, name: Option<string>, write: bool)

  /** The child to be write-locked, if it is in the cache. */
  ghost function Target(t: Tree, r: Request): Option<Id> {
    if r.write && r.name.Some? then Lookup(t, r.nodeid, r.name.value) else None
  }

  /** The nodes a path lock on `n` reads: from `n` upward, without the end of the walk. */
  ghost function Chain(t: Tree, n: Id): seq<Id> {
    var w := Walk(t, n);
    if w == [] then [] else w[..|w| - 1]
  }

  /** The treelock of `n`. */
  function At(tl: Locks, n: Id): int {
    if n in tl then tl[n] else 0
  }

  /** How the upward walk of try_get_path() ends when it starts with the i-th node of `w`. */
  ghost function Scan(tl: Locks, w: seq<Id>, i: int): Err
    requires 0 <= i
    decreases |w| - i
  {
    if i >= |w| then ENOENT
    else if w[i] == ROOT then OK
    else if i == |w| - 1 then ENOENT
    else if At(tl, w[i]) < 0 then EAGAIN
    else Scan(tl, w, i + 1)
  }

  ghost predicate Usable(c: Core, r: Request) {
    SameDomains(c) && WellFormed(c.tree) && r.nodeid in c.tree
  }

  /** The outcome of try_get_path() when all its allocations succeed. */
  ghost function Outcome(c: Core, r: Request): Err {
    var w := Target(c.tree, r);
    if w.Some? && At(c.treelock, w.value) != 0 then EAGAIN
    else Scan(c.treelock, Walk(c.tree, r.nodeid), 0)
  }

  /** The hold that a successful try_get_path() amounts to. */
  ghost function HoldFor(c: Core, r: Request): Hold {
    Hold(r.nodeid, Chain(c.tree, r.nodeid), Target(c.tree, r))
  }

  /** try_get_path(): its result and the tree locks it leaves. Running out of memory shows
      at any point of the walk, always with the same effect. */
  ghost function TryPath(c: Core, r: Request, oom: bool): (res: (Err, Locks))
    ensures res.1.Keys == c.treelock.Keys
  {
    var w := Target(c.tree, r);
    if oom then (ENOMEM, c.treelock)
    else if w.Some? && At(c.treelock, w.value) != 0 then (EAGAIN, Marked(c.treelock, w.value))
    else
      var e := Outcome(c, r);
      var h := HoldFor(c, r);
      (e, if e == OK then LockPath(c.treelock, h.chain, h.wnode) else c.treelock)
  }

  ghost function Others(holds: Holds, t: Ticket): Holds {
    holds - {Key(t, false)} - {Key(t, true)}
  }

  ghost function GiveBackOne(tl: Locks, holds: Holds, k: Key): (r: Locks)
    ensures r.Keys == tl.Keys
  {
    if k in holds then UnlockPath(tl, holds[k].chain, holds[k].wnode) else tl
  }

  /** unlock_path() on the first and then on the second path of a call. */
  ghost function GiveBack(tl: Locks, holds: Holds, t: Ticket): (r: Locks)
    ensures r.Keys == tl.Keys
  {
    GiveBackOne(GiveBackOne(tl, holds, Key(t, false)), holds - {Key(t, false)}, Key(t, true))
  }

  // ---- what the walk establishes ----

  lemma {:induction false} ScanMeans(c: Core, w: seq<Id>, i: int)
    requires 0 <= i < |w| && SameDomains(c)
    requires IsWalk(c.tree, w[0], w) && ROOT in c.tree && c.tree[ROOT].Unlinked?
    requires forall j :: 0 <= j < i ==> w[j] != ROOT
    ensures Scan(c.treelock, w, i) == OK <==> w[|w| - 1] == ROOT && forall j :: i <= j < |w| - 1 ==>
      c.treelock[w[j]] >= 0
    ensures Scan(c.treelock, w, i) == ENOENT ==> w[|w| - 1] != ROOT
    ensures Scan(c.treelock, w, i) == EAGAIN ==> exists j :: i <= j < |w| - 1 && c.treelock[w[j]] < 0
    ensures Scan(c.treelock, w, i) != ENOMEM
    decreases |w| - i
  {
    if w[i] == ROOT {
      assert c.tree[w[i]].Unlinked?;
    } else if i < |w| - 1 && c.treelock[w[i]] >= 0 {
      ScanMeans(c, w, i + 1);
    }
  }

  /** The hold `h` could be taken now. */
  ghost predicate Open(c: Core, h: Hold) {
    && IsWalk(c.tree, h.nodeid, h.chain + [ROOT])
    && (forall j {:trigger h.chain[j]} :: 0 <= j < |h.chain| ==> At(c.treelock, h.chain[j]) >= 0)
    && (h.wnode.Some? ==> At(c.treelock, h.wnode.value) == 0)
  }

  lemma OpenMembers(c: Core, h: Hold)
    requires Open(c, h) && c.treelock.Keys == c.tree.Keys
    ensures forall n :: n in h.chain ==> n in c.treelock && c.treelock[n] >= 0
  {
    forall n | n in h.chain ensures n in c.treelock && c.treelock[n] >= 0 {
      var j :| 0 <= j < |h.chain| && h.chain[j] == n;
      assert (h.chain + [ROOT])[j] == n;
    }
  }

  /** try_get_path() succeeds iff the walk reaches the root, no node on it has a writer or a
      waiting writer, and the child to be write-locked is free. */
  lemma GrantedIff(c: Core, r: Request)
    requires Usable(c, r)
    ensures Outcome(c, r) == OK <==> Open(c, HoldFor(c, r))
    ensures Outcome(c, r) == ENOENT ==> !ReachesRoot(c.tree, r.nodeid)
    ensures Outcome(c, r) != ENOMEM
  {
    assert HasWalk(c.tree, r.nodeid);
    var w := Walk(c.tree, r.nodeid);
    var chain := HoldFor(c, r).chain;
    assert w == chain + [w[|w| - 1]];
    ScanMeans(c, w, 0);
    assert forall j {:trigger chain[j]} {:trigger w[j]} :: 0 <= j < |chain| ==> chain[j] == w[j];
    if IsWalk(c.tree, r.nodeid, chain + [ROOT]) {
      WalkUnique(c.tree, r.nodeid, w, chain + [ROOT]);
    }
    if ReachesRoot(c.tree, r.nodeid) {
      var v :| IsWalk(c.tree, r.nodeid, v) && v[|v| - 1] == ROOT;
      WalkUnique(c.tree, r.nodeid, w, v);
    }
  }

  // ---- the locks stay faithful ----

  /** What the kernel owes a caller: the directory of the call is kept alive, and a child
      about to be write-locked is one the kernel still remembers. */
  ghost predicate Asked(c: Core, t: Ticket, r: Request) {
    Kept(c, t, r.nodeid) && TargetKnown(c, r)
  }

  ghost predicate TargetKnown(c: Core, r: Request) {
    var w := Target(c.tree, r);
    w.Some? ==> w.value in c.nlookup && c.nlookup[w.value] > 0
  }

  ghost predicate Sound(c: Core, holds: Holds) {
    Counted(c, None) && Locked(c, holds)
  }

  lemma RelockSound(c: Core, tl: Locks, holds: Holds, holds': Holds)
    requires Sound(c, holds) && tl.Keys == c.treelock.Keys && Faithful(tl, holds')
    requires forall k {:trigger holds'[k]} :: k in holds' ==> Intact(c, holds', k)
    ensures Sound(c.(treelock := tl), holds')
  {
    var d := c.(treelock := tl);
    forall n | n in d.tree ensures Exact(d, n, None) {
      assert Exact(c, n, None);
      assert References(d, n) == References(c, n);
    }
    forall k | k in holds' ensures Intact(d, holds', k) {
      assert Intact(c, holds', k);
    }
  }

  lemma HoldsGrow(c: Core, holds: Holds, k: Key, h: Hold, j: Key)
    requires k !in holds && j in holds && Intact(c, holds, j)
    ensures Intact(c, holds[k := h], j)
  {
  }

  lemma HoldsShrink(c: Core, holds: Holds, t: Ticket, j: Key)
    requires j in holds && j.ticket != t && Intact(c, holds, j)
    ensures Intact(c, Others(holds, t), j)
  {
  }

  /** A successful try_get_path() adds exactly its hold. */
  lemma GrantSound(c: Core, holds: Holds, k: Key, r: Request)
    requires Sound(c, holds) && Usable(c, r) && Outcome(c, r) == OK
    requires k !in holds && |holds| < MAX_HOLDS && Asked(c, k.ticket, r)
    ensures Sound(c.(treelock := TryPath(c, r, false).1), holds[k := HoldFor(c, r)])
  {
    var h := HoldFor(c, r);
    var holds' := holds[k := h];
    GrantedIff(c, r);
    OpenMembers(c, h);
    if h.wnode.Some? {
      ChildOffWalk(c.tree, h.wnode.value, r.nodeid, h.chain + [ROOT]);
      assert h.wnode.value !in h.chain by {
        assert forall n :: n in h.chain ==> n in h.chain + [ROOT];
      }
    }
    LockFaithful(c.treelock, holds, k, h);
    assert k == Key(k.ticket, false) || k == Key(k.ticket, true);
    forall j | j in holds' ensures Intact(c, holds', j) {
      if j != k {
        assert Intact(c, holds, j);
        HoldsGrow(c, holds, k, h, j);
      }
    }
    RelockSound(c, TryPath(c, r, false).1, holds, holds');
  }

  /** A failed try_get_path() leaves every hold as it was. */
  lemma FailureSound(c: Core, holds: Holds, r: Request, oom: bool)
    requires Sound(c, holds) && Usable(c, r) && TryPath(c, r, oom).0 != OK
    ensures Sound(c.(treelock := TryPath(c, r, oom).1), holds)
  {
    var w := Target(c.tree, r);
    if w.Some? {
      MarkFaithful(c.treelock, holds, w.value);
    }
    RelockSound(c, TryPath(c, r, oom).1, holds, holds);
  }

  /** Giving back whatever a call holds, first path first, removes exactly its holds. */
  lemma GiveBackSound(c: Core, holds: Holds, t: Ticket)
    requires Sound(c, holds)
    ensures Sound(c.(treelock := GiveBack(c.treelock, holds, t)), Others(holds, t))
  {
    var hs := Others(holds, t);
    GiveBackFaithful(c.treelock, holds, t);
    forall j | j in hs ensures Intact(c, hs, j) {
      assert Intact(c, holds, j);
      HoldsShrink(c, holds, t, j);
    }
    RelockSound(c, GiveBack(c.treelock, holds, t), holds, hs);
  }

  lemma GiveBackFaithful(tl: Locks, holds: Holds, t: Ticket)
    requires Faithful(tl, holds)
    ensures Faithful(GiveBack(tl, holds, t), Others(holds, t))
  {
    var k, l := Key(t, false), Key(t, true);
    GiveBackOneFaithful(tl, holds, k);
    GiveBackOneFaithful(GiveBackOne(tl, holds, k), holds - {k}, l);
  }

  lemma GiveBackOneFaithful(tl: Locks, holds: Holds, k: Key)
    requires Faithful(tl, holds)
    ensures Faithful(GiveBackOne(tl, holds, k), holds - {k})
  {
    if k in holds {
      UnlockFaithful(tl, holds, k);
    } else {
      assert holds - {k} == holds;
    }
  }

  // ---- ENOENT is final; EAGAIN needs a holder ----

  lemma BrokenWalkFree(c: Core, holds: Holds, n: Id, w: seq<Id>, j: int)
    requires Sound(c, holds) && IsWalk(c.tree, n, w) && !ReachesRoot(c.tree, n) && 0 <= j < |w| - 1
    ensures c.treelock[w[j]] == 0
  {
    if c.treelock[w[j]] != 0 {
      LockedReaches(c, holds, w[j]);
      ReachesFromWalk(c.tree, n, w, w[j]);
    }
  }

  lemma BrokenTargetFree(c: Core, holds: Holds, r: Request)
    requires Sound(c, holds) && Usable(c, r) && !ReachesRoot(c.tree, r.nodeid) && Target(c.tree, r).Some?
    ensures c.treelock[Target(c.tree, r).value] == 0
  {
    var x := Target(c.tree, r).value;
    assert HasWalk(c.tree, r.nodeid);
    if c.treelock[x] != 0 {
      LockedReaches(c, holds, x);
      ParentReaches(c.tree, x, Walk(c.tree, r.nodeid));
    }
  }

  /** Where the way to the root is broken, nobody holds or waits for a lock below the break,
      so the answer is ENOENT and not EAGAIN. */
  lemma BrokenIsEnoent(c: Core, holds: Holds, r: Request)
    requires Sound(c, holds) && Usable(c, r) && !ReachesRoot(c.tree, r.nodeid)
    ensures Outcome(c, r) == ENOENT
  {
    assert HasWalk(c.tree, r.nodeid);
    var w := Walk(c.tree, r.nodeid);
    forall j | 0 <= j < |w| - 1 ensures c.treelock[w[j]] == 0 {
      BrokenWalkFree(c, holds, r.nodeid, w, j);
    }
    ScanMeans(c, w, 0);
    if Target(c.tree, r).Some? {
      BrokenTargetFree(c, holds, r);
    }
  }

  /** A linked node whose treelock is not zero is connected to the root. */
  lemma LockedReaches(c: Core, holds: Holds, n: Id)
    requires Sound(c, holds) && n in c.tree && c.tree[n].Linked? && c.treelock[n] != 0
    ensures ReachesRoot(c.tree, n)
  {
    var k := SomeHolder(c.treelock, holds, n);
    assert Intact(c, holds, k);
    if n in holds[k].chain {
      assert n in holds[k].chain + [ROOT];
      OnWalkReaches(c.tree, holds[k].nodeid, holds[k].chain + [ROOT], n);
    } else {
      var t, p := k.ticket, c.tree[n].parent;
      var j := if Key(t, false) in holds && holds[Key(t, false)].nodeid == p then Key(t, false) else Key(t, true);
      assert j in holds && holds[j].nodeid == p && Intact(c, holds, j);
      WalkCons(c.tree, n, holds[j].chain + [ROOT]);
      var v := [n] + (holds[j].chain + [ROOT]);
      assert v[|v| - 1] == ROOT;
    }
  }
}
