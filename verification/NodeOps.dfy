/** The operations of lib/fuse.c that change the node cache: find_node(), remove_node(),
    rename_node(), exchange_node(), forget_node() and the pin of a "." lookup. Each keeps
    the counters exact and every path lock intact. */
module NodeOps {
  import opened Basics
  import opened NodeTree
  import opened TreeLock
  import opened NodeLife
  import opened PathLock

  // ---- the building blocks unhash_name() and hash_name() ----

  ghost function Cut(c: Core, x: Id): Core {
    c.(tree := c.tree[x := Unlinked])
  }

  /** unhash_name(): a linked node leaves the name table and gives up its parent. */
  ghost function Unhash(c: Core, x: Id): Core {
    if x in c.tree && c.tree[x].Linked? then Unref(Cut(c, x), c.tree[x].parent) else c
  }

  /** hash_name(): an unlinked node enters the name table and takes a reference to its parent. */
  ghost function Hash(c: Core, x: Id, p: Id, name: string): Core {
    if p in c.refctr then c.(tree := c.tree[x := Linked(p, name)], refctr := c.refctr[p := c.refctr[p] + 1]) else c
  }

  ghost predicate OffChains(holds: Holds, x: Id) {
    forall k {:trigger holds[k]} :: k in holds ==> x !in holds[k].chain
  }

  lemma CutIntact(c: Core, x: Id, holds: Holds, k: Key)
    requires k in holds && Intact(c, holds, k) && x !in holds[k].chain && x != ROOT && x in c.tree
    ensures Intact(Cut(c, x), holds, k)
  {
    var h := holds[k];
    WalkFrame(c.tree, Cut(c, x).tree, h.nodeid, h.chain + [ROOT]);
  }

  lemma CutLocked(c: Core, x: Id, holds: Holds)
    requires Locked(c, holds) && x in c.tree && x != ROOT && OffChains(holds, x)
    ensures Locked(Cut(c, x), holds)
  {
    forall k | k in holds ensures Intact(Cut(c, x), holds, k) {
      CutIntact(c, x, holds, k);
    }
  }

  lemma CutCounted(c: Core, x: Id)
    requires Counted(c, None) && x in c.tree && c.tree[x].Linked?
    ensures Counted(Cut(c, x), Some(c.tree[x].parent))
  {
    var d, p := Cut(c, x), c.tree[x].parent;
    UnlinkWellFormed(c.tree, x);
    forall n | n in d.tree ensures Exact(d, n, Some(p)) {
      assert Exact(c, n, None);
      ChildLost(c.tree, d.tree, x, n);
    }
  }

  lemma UnhashSound(c: Core, x: Id, holds: Holds)
    requires Sound(c, holds) && x in c.tree && OffChains(holds, x)
    ensures Sound(Unhash(c, x), holds)
    ensures c.tree[x].Linked? ==> Shrunk(Cut(c, x), Unhash(c, x))
    ensures c.tree[x].Linked? && (exists t :: Kept(c, t, c.tree[x].parent)) ==>
      Unhash(c, x) == Decremented(Cut(c, x), c.tree[x].parent)
  {
    if c.tree[x].Linked? {
      var d, p := Cut(c, x), c.tree[x].parent;
      CutCounted(c, x);
      CutLocked(c, x, holds);
      UnrefSettles(d, p, holds);
      if t :| Kept(c, t, p) {
        KeptReferenced(d, t, p);
      }
    }
  }

  lemma HashIntact(c: Core, x: Id, p: Id, name: string, holds: Holds, k: Key)
    requires k in holds && Intact(c, holds, k) && x !in holds[k].chain && x != ROOT && x in c.tree
    requires holds[k].wnode == Some(x) ==> DirectoryOf(holds, k.ticket, p)
    ensures Intact(Hash(c, x, p, name), holds, k)
  {
    var h := holds[k];
    WalkFrame(c.tree, Hash(c, x, p, name).tree, h.nodeid, h.chain + [ROOT]);
  }

  lemma ChildGained(t: Tree, x: Id, p: Id, name: string, m: Id)
    requires x in t && t[x].Unlinked?
    ensures |Children(t[x := Linked(p, name)], m)| == |Children(t, m)| + if m == p then 1 else 0
  {
    ChildLost(t[x := Linked(p, name)], t, x, m) by {
      assert t[x := Linked(p, name)][x := Unlinked] == t;
    }
  }

  lemma HashCounted(c: Core, x: Id, p: Id, name: string, wp: seq<Id>)
    requires Counted(c, None) && x in c.tree && x != ROOT && c.tree[x].Unlinked?
    requires p in c.tree && IsWalk(c.tree, p, wp) && x !in wp && ValidName(name)
    requires forall n :: n in c.tree ==> c.tree[n] != Linked(p, name)
    ensures Counted(Hash(c, x, p, name), None)
  {
    var d := Hash(c, x, p, name);
    LinkWellFormed(c.tree, x, p, name, wp);
    forall n | n in d.tree ensures Exact(d, n, None) {
      assert Exact(c, n, None);
      ChildGained(c.tree, x, p, name, n);
    }
  }

  lemma HashSound(c: Core, x: Id, p: Id, name: string, wp: seq<Id>, holds: Holds)
    requires Sound(c, holds) && x in c.tree && x != ROOT && c.tree[x].Unlinked? && OffChains(holds, x)
    requires p in c.tree && IsWalk(c.tree, p, wp) && x !in wp && ValidName(name)
    requires forall n :: n in c.tree ==> c.tree[n] != Linked(p, name)
    requires forall k {:trigger holds[k]} :: k in holds && holds[k].wnode == Some(x) ==> DirectoryOf(holds, k.ticket, p)
    ensures Sound(Hash(c, x, p, name), holds)
  {
    HashCounted(c, x, p, name, wp);
    forall k | k in holds ensures Intact(Hash(c, x, p, name), holds, k) {
      HashIntact(c, x, p, name, holds, k);
    }
  }

  // ---- find_node() ----

  ghost function IncLookup(c: Core, n: Id): Core {
    if n in c.nlookup && n in c.refctr then
      c.(nlookup := c.nlookup[n := c.nlookup[n] + 1],
         refctr := c.refctr[n := c.refctr[n] + if c.nlookup[n] == 0 then 1 else 0])
    else c
  }

  /** A node without a name yet, looked up once. */
  ghost function Fresh(c: Core, x: Id): Core {
    c.(tree := c.tree[x := Unlinked], nlookup := c.nlookup[x := 1], refctr := c.refctr[x := 1],
       treelock := c.treelock[x := 0])
  }

  lemma IncLookupSound(c: Core, n: Id, holds: Holds)
    requires Sound(c, holds) && n in c.tree
    ensures Sound(IncLookup(c, n), holds)
  {
    hide WellFormed, Faithful, Exact, Intact;
    var d := IncLookup(c, n);
    forall m | m in d.tree ensures Exact(d, m, None) {
      IncLookupExact(c, n, m);
    }
    forall k | k in holds ensures Intact(d, holds, k) {
      IncLookupIntact(c, n, holds, k);
    }
  }

  lemma IncLookupIntact(c: Core, n: Id, holds: Holds, k: Key)
    requires Counted(c, None) && n in c.tree && k in holds && Intact(c, holds, k)
    ensures Intact(IncLookup(c, n), holds, k)
  {
    hide WellFormed, IsWalk;
    assert Exact(c, n, None);
  }

  lemma IncLookupExact(c: Core, n: Id, m: Id)
    requires Counted(c, None) && n in c.tree && m in c.tree
    ensures Exact(IncLookup(c, n), m, None)
  {
    hide WellFormed;
    assert Exact(c, m, None) && Exact(c, n, None);
  }

  lemma FreshReferences(c: Core, x: Id, m: Id)
    requires Counted(c, None) && x !in c.tree && m in Fresh(c, x).tree
    ensures References(Fresh(c, x), m) == if m == x then 1 else References(c, m)
  {
    var d := Fresh(c, x);
    assert Children(d.tree, m) == Children(c.tree, m);
    if m == x {
      forall y ensures y !in Children(c.tree, x) {
        assert y in c.tree ==> c.tree[y] == c.tree[y];
      }
      forall t ensures t !in Pins(c.pinned, x) {
        assert t in c.pinned ==> c.pinned[t] == c.pinned[t];
      }
    }
  }

  lemma FreshUnheld(c: Core, x: Id, holds: Holds)
    requires Sound(c, holds) && x !in c.tree
    ensures forall k {:trigger holds[k]} :: k in holds ==> x !in holds[k].chain && holds[k].wnode != Some(x)
    ensures Users(holds, x, false) == 0 && Users(holds, x, true) == 0
  {
    forall k | k in holds ensures x !in holds[k].chain && holds[k].wnode != Some(x) {
      assert Intact(c, holds, k);
      var w := holds[k].chain + [ROOT];
      assert forall i :: 0 <= i < |holds[k].chain| ==> w[i] == holds[k].chain[i];
    }
    NoUsers(holds, x, false);
    NoUsers(holds, x, true);
  }

  lemma FreshIntact(c: Core, x: Id, holds: Holds, k: Key)
    requires k in holds && Intact(c, holds, k) && x !in c.tree && holds[k].wnode != Some(x)
    ensures Intact(Fresh(c, x), holds, k)
  {
    WalkFrame(c.tree, Fresh(c, x).tree, holds[k].nodeid, holds[k].chain + [ROOT]);
  }

  lemma FreshCounted(c: Core, x: Id)
    requires Counted(c, None) && x !in c.tree
    ensures Counted(Fresh(c, x), None)
  {
    var d := Fresh(c, x);
    FreshWellFormed(c.tree, x);
    hide WellFormed;
    forall m | m in d.tree ensures Exact(d, m, None) {
      FreshReferences(c, x, m);
      assert m in c.tree ==> Exact(c, m, None);
    }
  }

  lemma FreshSound(c: Core, x: Id, holds: Holds)
    requires Sound(c, holds) && x !in c.tree
    ensures Sound(Fresh(c, x), holds) && OffChains(holds, x)
  {
    hide WellFormed, Exact;
    var d := Fresh(c, x);
    FreshCounted(c, x);
    FreshUnheld(c, x, holds);
    forall m | m in d.treelock ensures FaithfulAt(d.treelock, holds, m) {
      assert m in c.treelock ==> FaithfulAt(c.treelock, holds, m);
    }
    forall k | k in holds ensures Intact(d, holds, k) {
      FreshIntact(c, x, holds, k);
    }
  }

  // ---- forget_node() and pins ----

  ghost function LessLookup(c: Core, n: Id, count: int): Core {
    if n in c.nlookup then c.(nlookup := c.nlookup[n := c.nlookup[n] - count]) else c
  }

  /** forget_node() once it no longer waits. */
  ghost function Forgotten(c: Core, n: Id, count: int): Core {
    var d := LessLookup(c, n, count);
    if n in d.nlookup && d.nlookup[n] == 0 then Unref(d, n) else d
  }

  ghost predicate ForgetWaits(c: Core, n: Id, count: int) {
    n in c.nlookup && c.nlookup[n] == count && At(c.treelock, n) != 0
  }

  lemma LessLookupCounted(c: Core, n: Id, count: int)
    requires Counted(c, None) && n in c.tree && n != ROOT && 0 < count <= c.nlookup[n]
    ensures Counted(LessLookup(c, n, count), if count == c.nlookup[n] then Some(n) else None)
  {
    hide WellFormed;
    var d := LessLookup(c, n, count);
    var debt := if count == c.nlookup[n] then Some(n) else None;
    forall m | m in d.tree ensures Exact(d, m, debt) {
      assert Exact(c, m, None);
      LessLookupReferences(c, n, count, m);
      hide References;
    }
  }

  lemma LessLookupReferences(c: Core, n: Id, count: int, m: Id)
    requires n in c.nlookup && 0 < count <= c.nlookup[n]
    ensures References(LessLookup(c, n, count), m) ==
      References(c, m) - if m == n && count == c.nlookup[n] then 1 else 0
  {
  }

  lemma LessLookupLocked(c: Core, n: Id, count: int, holds: Holds)
    requires Sound(c, holds) && n in c.tree && n != ROOT && 0 < count <= c.nlookup[n] && !ForgetWaits(c, n, count)
    ensures Locked(LessLookup(c, n, count), holds)
  {
    var d := LessLookup(c, n, count);
    if count == c.nlookup[n] {
      FreeNode(c.treelock, holds, n);
    }
    forall k | k in holds ensures Intact(d, holds, k) {
      assert Intact(c, holds, k);
      assert (holds[k].chain + [ROOT])[0] == holds[k].nodeid;
    }
  }

  /** A FORGET that does not have to wait settles the counters without touching a lock. */
  lemma ForgottenSound(c: Core, n: Id, count: int, holds: Holds)
    requires Sound(c, holds) && n in c.tree && n != ROOT && 0 < count <= c.nlookup[n] && !ForgetWaits(c, n, count)
    ensures Sound(Forgotten(c, n, count), holds)
    ensures Shrunk(LessLookup(c, n, count), Forgotten(c, n, count))
  {
    var d := LessLookup(c, n, count);
    LessLookupCounted(c, n, count);
    LessLookupLocked(c, n, count, holds);
    if d.nlookup[n] == 0 {
      UnrefSettles(d, n, holds);
    } else {
      ShrunkReflexive(d);
    }
  }

  lemma ShrunkReflexive(c: Core)
    ensures Shrunk(c, c)
  {
  }

  ghost function Pinned(c: Core, t: Ticket, n: Id): Core {
    if n in c.refctr then c.(pinned := c.pinned[t := n], refctr := c.refctr[n := c.refctr[n] + 1]) else c
  }

  ghost function Unpinned(c: Core, t: Ticket): Core {
    if t in c.pinned then Unref(c.(pinned := c.pinned - {t}), c.pinned[t]) else c
  }

  lemma PinReferences(pinned: map<Ticket, Id>, t: Ticket, n: Id, m: Id)
    requires t !in pinned
    ensures |Pins(pinned[t := n], m)| == |Pins(pinned, m)| + if m == n then 1 else 0
  {
    var s := Pins(pinned, m);
    if m == n {
      assert Pins(pinned[t := n], m) == s + {t};
    } else {
      assert Pins(pinned[t := n], m) == s;
    }
  }

  lemma PinnedExact(c: Core, t: Ticket, n: Id, m: Id)
    requires Counted(c, None) && n in c.tree && m in c.tree && t !in c.pinned
    ensures Exact(Pinned(c, t, n), m, None)
  {
    hide WellFormed;
    assert Exact(c, m, None);
    PinReferences(c.pinned, t, n, m);
  }

  lemma PinnedSound(c: Core, t: Ticket, n: Id, holds: Holds)
    requires Sound(c, holds) && n in c.tree && t !in c.pinned
    ensures Sound(Pinned(c, t, n), holds)
  {
    hide WellFormed, Faithful;
    var d := Pinned(c, t, n);
    forall m | m in d.tree ensures Exact(d, m, None) {
      PinnedExact(c, t, n, m);
    }
    forall k | k in holds ensures Intact(d, holds, k) {
      assert Intact(c, holds, k);
    }
  }

  /** Without its pin a node counts one reference too many. */
  lemma UnpinnedOwes(c: Core, t: Ticket, holds: Holds)
    requires Sound(c, holds) && t in c.pinned
    requires Key(t, false) !in holds && Key(t, true) !in holds
    ensures var d, n := c.(pinned := c.pinned - {t}), c.pinned[t];
      n in d.tree && Counted(d, Some(n)) && Locked(d, holds)
  {
    hide WellFormed, Faithful;
    var n, pinned := c.pinned[t], c.pinned - {t};
    var d := c.(pinned := pinned);
    assert pinned[t := n] == c.pinned;
    forall m | m in d.tree ensures Exact(d, m, Some(n)) {
      assert Exact(c, m, None);
      PinReferences(pinned, t, n, m);
    }
    forall k | k in holds ensures Intact(d, holds, k) {
      assert Intact(c, holds, k);
      assert k == Key(k.ticket, false) || k == Key(k.ticket, true);
    }
  }

  lemma UnpinnedSound(c: Core, t: Ticket, holds: Holds)
    requires Sound(c, holds) && t in c.pinned
    requires Key(t, false) !in holds && Key(t, true) !in holds
    ensures Sound(Unpinned(c, t), holds)
    ensures Shrunk(c.(pinned := c.pinned - {t}), Unpinned(c, t))
  {
    UnpinnedOwes(c, t, holds);
    UnrefSettles(c.(pinned := c.pinned - {t}), c.pinned[t], holds);
  }
}
