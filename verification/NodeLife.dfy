/** Reference counts and deletion of nodes in lib/fuse.c (with `remember` off), together
    with the path locks that must outlive no node. */
module NodeLife {
  import opened Basics
  import opened NodeTree
  import opened TreeLock

  /** The node fields behind the id table. `pinned` records the callers that hold the extra
      reference taken by a "." lookup. */
  datatype Core = Core(
    tree: Tree,
    nlookup: map<Id, int>,
    refctr: map<Id, int>,
    treelock: Locks,
    pinned: map<Ticket, Id>)

  ghost predicate SameDomains(c: Core) {
    c.nlookup.Keys == c.tree.Keys && c.refctr.Keys == c.tree.Keys && c.treelock.Keys == c.tree.Keys
  }

  ghost function Pins(pinned: map<Ticket, Id>, n: Id): set<Ticket> {
    set t | t in pinned && pinned[t] == n
  }

  /** The references that exist to `n`: its children in the name table, one for all kernel
      lookups together, and the pins. */
  ghost function References(c: Core, n: Id): int {
    |Children(c.tree, n)| + (if n in c.nlookup && c.nlookup[n] > 0 then 1 else 0) + |Pins(c.pinned, n)|
  }

  function Parent(link: Link): Option<Id> {
    if link.Linked? then Some(link.parent) else None
  }

  ghost predicate Exact(c: Core, n: Id, debt: Option<Id>)
    requires n in c.refctr && n in c.nlookup
  {
    && c.refctr[n] >= 1 && c.nlookup[n] >= 0
    && c.refctr[n] == References(c, n) + if debt == Some(n) then 1 else 0
  }

  /** Every node counts its references and has at least one. While a reference is being
      given up, `debt` names the node whose counter is still one too high. */
  ghost predicate Counted(c: Core, debt: Option<Id>) {
    && SameDomains(c)
    && WellFormed(c.tree)
    && c.nlookup[ROOT] > 0
    && (forall t {:trigger c.pinned[t]} :: t in c.pinned ==> c.pinned[t] in c.tree)
    && (forall n {:trigger c.refctr[n]} {:trigger Exact(c, n, debt)} :: n in c.tree ==> Exact(c, n, debt))
  }

  /** What keeps the directory of a call alive: it is the root, the kernel remembers it, or
      the caller pinned it. */
  ghost predicate Kept(c: Core, t: Ticket, n: Id) {
    n in c.nlookup && (n == ROOT || c.nlookup[n] > 0 || (t in c.pinned && c.pinned[t] == n))
  }

  ghost predicate DirectoryOf(holds: Holds, t: Ticket, p: Id) {
    || (Key(t, false) in holds && holds[Key(t, false)].nodeid == p)
    || (Key(t, true) in holds && holds[Key(t, true)].nodeid == p)
  }

  /** A hold is intact: the chain locked at the grant is still the way from its directory to
      the root, and the write-locked child is alive and, if linked, sits in a directory that
      the same call has locked. */
  ghost predicate Intact(c: Core, holds: Holds, k: Key)
    requires k in holds
  {
    var h := holds[k];
    && IsWalk(c.tree, h.nodeid, h.chain + [ROOT])
    && Kept(c, k.ticket, h.nodeid)
    && (h.wnode.Some? ==>
          && h.wnode.value in c.tree
          && h.wnode.value in c.nlookup && c.nlookup[h.wnode.value] > 0
          && (c.tree[h.wnode.value].Linked? ==> DirectoryOf(holds, k.ticket, c.tree[h.wnode.value].parent)))
  }

  ghost predicate Locked(c: Core, holds: Holds) {
    && Faithful(c.treelock, holds)
    && forall k {:trigger holds[k]} :: k in holds ==> Intact(c, holds, k)
  }

  // ---- unref_node() and the deletion cascade ----

  ghost function Drop(c: Core, n: Id): Core {
    c.(tree := c.tree - {n}, nlookup := c.nlookup - {n}, refctr := c.refctr - {n}, treelock := c.treelock - {n})
  }

  ghost function Decremented(c: Core, n: Id): Core {
    if n in c.refctr then c.(refctr := c.refctr[n := c.refctr[n] - 1]) else c
  }

  /** unref_node(): give up one reference; a node without references is deleted and gives up
      its own reference to its parent. */
  ghost function Unref(c: Core, n: Id): Core
    decreases |c.tree|
  {
    var d := Decremented(c, n);
    if n !in c.tree || n !in d.refctr || d.refctr[n] != 0 then d
    else
      var e := Drop(d, n);
      if c.tree[n].Linked? then
        assert |e.tree| < |c.tree| by { DropSize(c.tree, n); }
        Unref(e, c.tree[n].parent)
      else e
  }

  lemma DropSize(t: Tree, n: Id)
    requires n in t
    ensures |t - {n}| == |t| - 1
  {
    assert (t - {n}).Keys == t.Keys - {n};
    assert |t| == |t.Keys| && |t - {n}| == |(t - {n}).Keys|;
  }

  lemma KeptReferenced(c: Core, t: Ticket, n: Id)
    requires n in c.tree && SameDomains(c) && Kept(c, t, n) && (n == ROOT ==> c.nlookup[n] > 0)
    ensures References(c, n) > 0
  {
    if t in c.pinned && c.pinned[t] == n {
      assert t in Pins(c.pinned, n);
    }
  }

  /** Nobody holds a node that has no references, so its treelock is zero: the assert of
      delete_node(). */
  lemma UnreferencedUnlocked(c: Core, n: Id, holds: Holds)
    requires SameDomains(c) && n in c.tree && References(c, n) == 0 && Locked(c, holds)
    requires ROOT in c.tree && c.nlookup[ROOT] > 0
    ensures n != ROOT
    ensures c.treelock[n] == 0
    ensures forall k {:trigger holds[k]} :: k in holds ==>
      holds[k].nodeid != n && n !in holds[k].chain && holds[k].wnode != Some(n)
  {
    forall k | k in holds ensures holds[k].nodeid != n && n !in holds[k].chain && holds[k].wnode != Some(n) {
      var h := holds[k];
      assert Intact(c, holds, k);
      if h.nodeid == n {
        KeptReferenced(c, k.ticket, n);
        assert false;
      }
      assert Children(c.tree, n) == {};
      LeafOffWalk(c.tree, n, h.nodeid, h.chain + [ROOT]);
    }
    assert FaithfulAt(c.treelock, holds, n);
    NoUsers(holds, n, false);
    NoUsers(holds, n, true);
  }

  /** Taking `x` out of the tree, or clearing its link, costs its parent one child. */
  lemma ChildLost(t: Tree, t': Tree, x: Id, m: Id)
    requires x in t && (t' == t - {x} || t' == t[x := Unlinked])
    ensures |Children(t', m)| == |Children(t, m)| - if t[x].Linked? && t[x].parent == m then 1 else 0
  {
    var kids := Children(t, m);
    if t[x].Linked? && t[x].parent == m {
      assert Children(t', m) == kids - {x} && x in kids;
    } else {
      assert Children(t', m) == kids;
    }
  }

  lemma DropCounted(c: Core, n: Id)
    requires SameDomains(c) && WellFormed(c.tree) && c.nlookup[ROOT] > 0 && n in c.tree && n != ROOT
    requires forall t {:trigger c.pinned[t]} :: t in c.pinned ==> c.pinned[t] in c.tree
    requires References(c, n) == 0
    requires forall m {:trigger c.refctr[m]} :: m in c.tree && m != n ==> Exact(c, m, None)
    ensures Counted(Drop(c, n), Parent(c.tree[n]))
  {
    var e := Drop(c, n);
    var debt := Parent(c.tree[n]);
    assert Children(c.tree, n) == {} && Pins(c.pinned, n) == {};
    DropWellFormed(c.tree, n);
    forall t | t in e.pinned ensures e.pinned[t] in e.tree {
      assert t !in Pins(c.pinned, n);
    }
    forall m | m in e.tree ensures Exact(e, m, debt) {
      assert Exact(c, m, None);
      DropReferences(c, n, m);
    }
  }

  lemma DropReferences(c: Core, n: Id, m: Id)
    requires n in c.tree && m in c.nlookup && m != n
    ensures References(Drop(c, n), m) == References(c, m) - if c.tree[n].Linked? && c.tree[n].parent == m then 1 else 0
  {
    ChildLost(c.tree, Drop(c, n).tree, n, m);
  }

  lemma DropIntact(c: Core, n: Id, holds: Holds, k: Key)
    requires k in holds && Intact(c, holds, k)
    requires n !in holds[k].chain && n != ROOT && n != holds[k].nodeid && holds[k].wnode != Some(n)
    ensures Intact(Drop(c, n), holds, k)
  {
    var h := holds[k];
    WalkFrame(c.tree, Drop(c, n).tree, h.nodeid, h.chain + [ROOT]);
  }

  lemma DropLocked(c: Core, n: Id, holds: Holds)
    requires SameDomains(c) && n in c.tree && References(c, n) == 0 && Locked(c, holds)
    requires ROOT in c.tree && c.nlookup[ROOT] > 0
    ensures Locked(Drop(c, n), holds)
  {
    UnreferencedUnlocked(c, n, holds);
    forall m | m in Drop(c, n).treelock ensures FaithfulAt(Drop(c, n).treelock, holds, m) {
      assert FaithfulAt(c.treelock, holds, m);
    }
    forall k | k in holds ensures Intact(Drop(c, n), holds, k) {
      DropIntact(c, n, holds, k);
    }
  }

  /** `d` is `c` after some deletions: survivors keep everything but their counters, every
      deleted node was unlocked, and whatever is still wanted survives. */
  ghost predicate Shrunk(c: Core, d: Core) {
    && d.pinned == c.pinned
    && d.tree.Keys <= c.tree.Keys && d.nlookup.Keys <= c.nlookup.Keys && d.treelock.Keys <= c.treelock.Keys
    && (forall n {:trigger d.tree[n]} :: n in d.tree ==> d.tree[n] == c.tree[n])
    && (forall n {:trigger d.nlookup[n]} :: n in d.nlookup ==> d.nlookup[n] == c.nlookup[n])
    && (forall n {:trigger d.treelock[n]} :: n in d.treelock ==> d.treelock[n] == c.treelock[n])
    && (forall n {:trigger c.treelock[n]} :: n in c.treelock && n !in d.treelock ==> c.treelock[n] == 0)
    && (forall t, n {:trigger Kept(c, t, n)} :: Kept(c, t, n) ==> Kept(d, t, n))
  }

  lemma ShrunkTransitive(a: Core, b: Core, c: Core)
    requires Shrunk(a, b) && Shrunk(b, c)
    ensures Shrunk(a, c)
  {
  }

  /** Giving up the one reference that is owed settles all counters, deletes exactly the
      nodes left without references, and never touches a locked path. */
  lemma {:induction false} UnrefSettles(c: Core, n: Id, holds: Holds)
    requires n in c.tree && Counted(c, Some(n)) && Locked(c, holds)
    ensures Counted(Unref(c, n), None) && Locked(Unref(c, n), holds)
    ensures Shrunk(c, Unref(c, n))
    ensures n in Unref(c, n).tree <==> References(c, n) > 0
    ensures References(c, n) > 0 ==> Unref(c, n) == Decremented(c, n)
    decreases |c.tree|
  {
    var d := Decremented(c, n);
    LockedCounters(c, d, holds);
    if References(c, n) > 0 {
      DecrementCounted(c, n);
    } else {
      DropSettles(c, n, holds);
      var e := Drop(d, n);
      if c.tree[n].Linked? {
        DropSize(c.tree, n);
        UnrefSettles(e, c.tree[n].parent, holds);
        ShrunkTransitive(c, e, Unref(e, c.tree[n].parent));
      }
    }
  }

  lemma DecrementCounted(c: Core, n: Id)
    requires n in c.tree && Counted(c, Some(n)) && References(c, n) > 0
    ensures Counted(Decremented(c, n), None) && Shrunk(c, Decremented(c, n))
  {
    var d := Decremented(c, n);
    forall m | m in d.tree ensures Exact(d, m, None) {
      assert Exact(c, m, Some(n));
      assert References(d, m) == References(c, m);
    }
  }

  lemma DropSettles(c: Core, n: Id, holds: Holds)
    requires n in c.tree && Counted(c, Some(n)) && Locked(c, holds) && References(c, n) == 0
    ensures n != ROOT
    ensures Counted(Drop(Decremented(c, n), n), Parent(c.tree[n]))
    ensures c.tree[n].Linked? ==> c.tree[n].parent in Drop(c, n).tree
    ensures Locked(Drop(Decremented(c, n), n), holds)
    ensures Shrunk(c, Drop(Decremented(c, n), n))
  {
    var d := Decremented(c, n);
    LockedCounters(c, d, holds);
    forall m | m in d.tree && m != n ensures Exact(d, m, None) {
      assert Exact(c, m, Some(n));
      assert References(d, m) == References(c, m);
    }
    UnreferencedUnlocked(d, n, holds);
    DropLocked(d, n, holds);
    DropCounted(d, n);
    DropShrinks(c, n);
    LeafNotOwnParent(c.tree, n);
  }

  lemma LeafNotOwnParent(t: Tree, n: Id)
    requires n in t && Children(t, n) == {}
    ensures t[n].Linked? ==> t[n].parent != n
  {
    assert n !in Children(t, n);
  }

  lemma LockedCounters(c: Core, d: Core, holds: Holds)
    requires Locked(c, holds) && d == c.(refctr := d.refctr)
    ensures Locked(d, holds)
  {
    forall k | k in holds ensures Intact(d, holds, k) {
      assert Intact(c, holds, k);
    }
  }

  lemma DropShrinks(c: Core, n: Id)
    requires SameDomains(c) && n in c.tree && n != ROOT && c.treelock[n] == 0 && References(c, n) == 0
    ensures Shrunk(c, Drop(Decremented(c, n), n))
  {
    var e := Drop(Decremented(c, n), n);
    forall t, m | Kept(c, t, m) ensures Kept(e, t, m) {
      if m == n {
        KeptReferenced(c, t, n);
        assert false;
      }
    }
  }
}
