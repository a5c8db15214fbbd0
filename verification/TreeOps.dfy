/** remove_node(), rename_node() and exchange_node() of lib/fuse.c under the locks their
    callers hold: every other path lock stays intact and no directory loop appears. */
module TreeOps {
  import opened Basics
  import opened NodeTree
  import opened TreeLock
  import opened NodeLife
  import opened PathLock
  import opened NodeOps

  // ---- the operations ----

  ghost function UnhashAny(c: Core, x: Option<Id>): Core {
    if x.Some? then Unhash(c, x.value) else c
  }

  ghost function Removed(c: Core, dir: Id, name: string): Core {
    UnhashAny(c, Lookup(c.tree, dir, name))
  }

  /** rename_node(); with `hiding` an existing target is refused (EBUSY), and when the new
      name cannot be allocated the node stays without a name (ENOMEM). */
  ghost function Renamed(c: Core, olddir: Id, oldname: string, newdir: Id, newname: string,
                         hiding: bool, oom: bool): Core {
    var x, y := Lookup(c.tree, olddir, oldname), Lookup(c.tree, newdir, newname);
    if x.None? || (y.Some? && hiding) then c
    else
      var d := Unhash(UnhashAny(c, y), x.value);
      if oom then d else Hash(d, x.value, newdir, newname)
  }

  /** exchange_node(); a failed allocation stops it half way. */
  ghost function Exchanged(c: Core, olddir: Id, oldname: string, newdir: Id, newname: string,
                           oom1: bool, oom2: bool): Core {
    var x, y := Lookup(c.tree, olddir, oldname), Lookup(c.tree, newdir, newname);
    var d := UnhashAny(UnhashAny(c, x), y);
    if x.Some? && oom1 then d
    else
      var e := if x.Some? then Hash(d, x.value, newdir, newname) else d;
      if y.Some? && !oom2 then Hash(e, y.value, olddir, oldname) else e
  }

  // ---- what callers must hold ----

  ghost predicate WriteLocked(holds: Holds, t: Ticket, x: Id) {
    || (Key(t, false) in holds && holds[Key(t, false)].wnode == Some(x))
    || (Key(t, true) in holds && holds[Key(t, true)].wnode == Some(x))
  }

  /** The caller has locked the directory, and the entry it is about to change is not in the
      cache or is write-locked by the caller too. */
  ghost predicate MayChange(c: Core, holds: Holds, t: Ticket, dir: Id, name: string) {
    && DirectoryOf(holds, t, dir)
    && var x := Lookup(c.tree, dir, name); x.Some? ==> WriteLocked(holds, t, x.value)
  }

  /** The same for the new name of a rename. One that hides a file (rename_node() called with
      `hide`) needs only the directory, because it gives up when the name exists. */
  ghost predicate MayReplace(c: Core, holds: Holds, t: Ticket, dir: Id, name: string, hiding: bool) {
    if hiding then DirectoryOf(holds, t, dir) else MayChange(c, holds, t, dir, name)
  }

  ghost predicate NameFree(t: Tree, dir: Id, name: string) {
    forall n {:trigger t[n]} :: n in t ==> t[n] != Linked(dir, name)
  }

  /** Nobody who is kept gets lost, and no lookup is forgotten. */
  ghost predicate Quiet(c: Core, d: Core) {
    forall t, n {:trigger Kept(c, t, n)} {:trigger Kept(d, t, n)} :: Kept(c, t, n) ==>
      Kept(d, t, n) && d.nlookup[n] >= c.nlookup[n]
  }

  lemma QuietTransitive(a: Core, b: Core, c: Core)
    requires Quiet(a, b) && Quiet(b, c)
    ensures Quiet(a, c)
  {
    forall t, n | Kept(a, t, n) ensures Kept(c, t, n) && c.nlookup[n] >= a.nlookup[n] {
      assert Kept(b, t, n);
    }
  }

  lemma ShrunkQuiet(c: Core, d: Core, e: Core)
    requires Shrunk(d, e) && d == c.(tree := d.tree, refctr := d.refctr)
    ensures Quiet(c, e)
  {
    forall t, n | Kept(c, t, n) ensures Kept(e, t, n) && e.nlookup[n] >= c.nlookup[n] {
      assert Kept(d, t, n) && Kept(e, t, n);
    }
  }

  // ---- one step ----

  /** A node that a call has write-locked is read by nobody and written by nobody else. */
  lemma WriteLockedAlone(c: Core, holds: Holds, t: Ticket, x: Id)
    requires Sound(c, holds) && WriteLocked(holds, t, x)
    ensures x in c.tree && OffChains(holds, x)
    ensures forall k {:trigger holds[k]} :: k in holds && holds[k].wnode == Some(x) ==> k.ticket == t
  {
    var k := if Key(t, false) in holds && holds[Key(t, false)].wnode == Some(x) then Key(t, false) else Key(t, true);
    assert Intact(c, holds, k);
    WriterExcludes(c.treelock, holds, k, x);
  }

  lemma DirectoryKept(c: Core, holds: Holds, t: Ticket, dir: Id) returns (chain: seq<Id>)
    requires Sound(c, holds) && DirectoryOf(holds, t, dir)
    ensures Kept(c, t, dir) && dir in c.tree && IsWalk(c.tree, dir, chain + [ROOT])
    ensures exists k :: k in holds && holds[k].chain == chain
  {
    var k := if Key(t, false) in holds && holds[Key(t, false)].nodeid == dir then Key(t, false) else Key(t, true);
    assert Intact(c, holds, k);
    chain := holds[k].chain;
  }

  /** Taking a write-locked entry out of its locked directory deletes nothing. */
  lemma UnhashLocked(c: Core, holds: Holds, t: Ticket, x: Id, dir: Id)
    requires Sound(c, holds) && WriteLocked(holds, t, x) && DirectoryOf(holds, t, dir)
    requires x in c.tree && c.tree[x].Linked? ==> c.tree[x].parent == dir
    ensures Sound(Unhash(c, x), holds) && Quiet(c, Unhash(c, x))
    ensures Unhash(c, x).tree == c.tree[x := Unlinked] && x in c.tree
  {
    WriteLockedAlone(c, holds, t, x);
    UnhashSound(c, x, holds);
    if c.tree[x].Linked? {
      var chain := DirectoryKept(c, holds, t, dir);
      ShrunkQuiet(c, Cut(c, x), Unhash(c, x));
    } else {
      assert c.tree[x := Unlinked] == c.tree;
    }
  }

  /** Hanging a write-locked, unlinked node into a locked directory where the name is free. */
  lemma HashLocked(c: Core, holds: Holds, t: Ticket, x: Id, dir: Id, name: string)
    requires Sound(c, holds) && WriteLocked(holds, t, x) && DirectoryOf(holds, t, dir)
    requires x in c.tree && x != ROOT && c.tree[x].Unlinked? && ValidName(name)
    requires NameFree(c.tree, dir, name)
    ensures Sound(Hash(c, x, dir, name), holds) && Quiet(c, Hash(c, x, dir, name))
    ensures Hash(c, x, dir, name).tree == c.tree[x := Linked(dir, name)]
  {
    WriteLockedAlone(c, holds, t, x);
    var chain := DirectoryKept(c, holds, t, dir);
    HashSound(c, x, dir, name, chain + [ROOT], holds);
  }

  lemma QuietReflexive(c: Core)
    ensures Quiet(c, c)
  {
  }

  // ---- what happens to the links ----

  ghost function CutAny(t: Tree, x: Option<Id>): Tree {
    if x.Some? then t[x.value := Unlinked] else t
  }

  ghost function RenamedTree(t: Tree, olddir: Id, oldname: string, newdir: Id, newname: string,
                             hiding: bool, oom: bool): Tree {
    var x, y := Lookup(t, olddir, oldname), Lookup(t, newdir, newname);
    if x.None? || (y.Some? && hiding) then t
    else if oom then CutAny(CutAny(t, y), x)
    else CutAny(CutAny(t, y), x)[x.value := Linked(newdir, newname)]
  }

  ghost function ExchangedTree(t: Tree, olddir: Id, oldname: string, newdir: Id, newname: string,
                               oom1: bool, oom2: bool): Tree {
    var x, y := Lookup(t, olddir, oldname), Lookup(t, newdir, newname);
    var u := CutAny(CutAny(t, x), y);
    if x.Some? && oom1 then u
    else
      var v := if x.Some? then u[x.value := Linked(newdir, newname)] else u;
      if y.Some? && !oom2 then v[y.value := Linked(olddir, oldname)] else v
  }

  lemma OnlyEntry(t: Tree, dir: Id, name: string)
    requires WellFormed(t)
    ensures forall n :: n in t && t[n] == Linked(dir, name) ==> Lookup(t, dir, name) == Some(n)
  {
  }

  lemma CutFrees(t: Tree, dir: Id, name: string)
    requires WellFormed(t)
    ensures NameFree(CutAny(t, Lookup(t, dir, name)), dir, name)
  {
    OnlyEntry(t, dir, name);
  }

  lemma CutKeepsFree(t: Tree, x: Option<Id>, dir: Id, name: string)
    requires NameFree(t, dir, name)
    ensures NameFree(CutAny(t, x), dir, name)
  {
  }

  lemma LinkKeepsFree(t: Tree, x: Id, dir: Id, name: string, dir2: Id, name2: string)
    requires NameFree(t, dir, name) && (dir, name) != (dir2, name2)
    ensures NameFree(t[x := Linked(dir2, name2)], dir, name)
  {
  }

  lemma CutBothFrees(t: Tree, dir1: Id, name1: string, dir2: Id, name2: string)
    requires WellFormed(t)
    ensures var u := CutAny(CutAny(t, Lookup(t, dir1, name1)), Lookup(t, dir2, name2));
      NameFree(u, dir1, name1) && NameFree(u, dir2, name2)
  {
    var x, y := Lookup(t, dir1, name1), Lookup(t, dir2, name2);
    CutFrees(t, dir1, name1);
    CutKeepsFree(CutAny(t, x), y, dir1, name1);
    CutFrees(t, dir2, name2);
    CutKeepsFree(CutAny(t, y), x, dir2, name2);
    assert CutAny(CutAny(t, x), y) == CutAny(CutAny(t, y), x);
  }

  lemma LookupFree(t: Tree, dir: Id, name: string)
    requires NameFree(t, dir, name)
    ensures Lookup(t, dir, name) == None
  {
  }

  lemma LookupLinked(t: Tree, x: Id, dir: Id, name: string)
    requires NameFree(t, dir, name)
    ensures Lookup(t[x := Linked(dir, name)], dir, name) == Some(x)
  {
    var u := t[x := Linked(dir, name)];
    assert u[x] == Linked(dir, name);
    forall n | n in u && n != x ensures u[n] != Linked(dir, name) {
      assert u[n] == t[n];
    }
  }

  lemma LookupElsewhere(t: Tree, y: Id, dir: Id, name: string, dir2: Id, name2: string)
    requires NameFree(t, dir, name) && (dir, name) != (dir2, name2) && (y in t ==> t[y].Unlinked?)
    requires forall a, b {:trigger t[a], t[b]} :: a in t && b in t && t[a].Linked? && t[a] == t[b] ==> a == b
    ensures Lookup(t[y := Linked(dir, name)], dir2, name2) == Lookup(t, dir2, name2)
  {
    var u := t[y := Linked(dir, name)];
    forall n | n in u && n != y ensures u[n] == t[n] {
    }
    assert u[y] == Linked(dir, name);
  }

  /** Neither name leads anywhere any more, and all other links are as before. */
  ghost predicate Forgets(t: Tree, u: Tree, olddir: Id, oldname: string, newdir: Id, newname: string) {
    && Lookup(u, olddir, oldname) == None && Lookup(u, newdir, newname) == None
    && OtherLinks(t, u, olddir, oldname, newdir, newname)
  }

  ghost predicate OtherLinks(t: Tree, u: Tree, olddir: Id, oldname: string, newdir: Id, newname: string) {
    forall n {:trigger u[n]} :: n in t && Some(n) != Lookup(t, olddir, oldname) && Some(n) != Lookup(t, newdir, newname)
      ==> n in u && u[n] == t[n]
  }

  /** A rename moves the entry: afterwards the new name leads to the node, the old one to
      nothing (unless it is the same name), and all other links are as before. */
  lemma RenameMoves(t: Tree, olddir: Id, oldname: string, newdir: Id, newname: string)
    requires WellFormed(t) && Lookup(t, olddir, oldname).Some?
    ensures var u := RenamedTree(t, olddir, oldname, newdir, newname, false, false);
      && Lookup(u, newdir, newname) == Lookup(t, olddir, oldname)
      && ((olddir, oldname) != (newdir, newname) ==> Lookup(u, olddir, oldname) == None)
      && OtherLinks(t, u, olddir, oldname, newdir, newname)
  {
    var x, y := Lookup(t, olddir, oldname), Lookup(t, newdir, newname);
    var v := CutAny(CutAny(t, y), x);
    CutBothFrees(t, newdir, newname, olddir, oldname);
    LookupLinked(v, x.value, newdir, newname);
    if (olddir, oldname) != (newdir, newname) {
      LinkKeepsFree(v, x.value, olddir, oldname, newdir, newname);
      LookupFree(v[x.value := Linked(newdir, newname)], olddir, oldname);
    }
  }

  /** What a rename does otherwise: a missing entry, and a target that must not be replaced,
      leave all links alone; without memory neither name leads anywhere afterwards. */
  lemma RenameFails(t: Tree, olddir: Id, oldname: string, newdir: Id, newname: string, hiding: bool, oom: bool)
    requires WellFormed(t)
    ensures var x, y := Lookup(t, olddir, oldname), Lookup(t, newdir, newname);
      var u := RenamedTree(t, olddir, oldname, newdir, newname, hiding, oom);
      && (x.None? || (hiding && y.Some?) ==> u == t)
      && (x.Some? && !(hiding && y.Some?) && oom ==> Forgets(t, u, olddir, oldname, newdir, newname))
  {
    CutBothFrees(t, newdir, newname, olddir, oldname);
    var v := CutAny(CutAny(t, Lookup(t, newdir, newname)), Lookup(t, olddir, oldname));
    LookupFree(v, olddir, oldname);
    LookupFree(v, newdir, newname);
  }

  /** An exchange that runs out of memory: at its first new name both names lead nowhere, at
      the second the new one leads to the first node and the old one nowhere. */
  lemma ExchangeFails(t: Tree, olddir: Id, oldname: string, newdir: Id, newname: string, oom2: bool)
    requires WellFormed(t) && (olddir, oldname) != (newdir, newname)
    ensures Lookup(t, olddir, oldname).Some? ==>
      Forgets(t, ExchangedTree(t, olddir, oldname, newdir, newname, true, oom2), olddir, oldname, newdir, newname)
    ensures var u := ExchangedTree(t, olddir, oldname, newdir, newname, false, true);
      && Lookup(u, newdir, newname) == Lookup(t, olddir, oldname) && Lookup(u, olddir, oldname) == None
      && OtherLinks(t, u, olddir, oldname, newdir, newname)
  {
    var x, y := Lookup(t, olddir, oldname), Lookup(t, newdir, newname);
    CutBothFrees(t, olddir, oldname, newdir, newname);
    var v := CutAny(CutAny(t, x), y);
    LookupFree(v, olddir, oldname);
    LookupFree(v, newdir, newname);
    if x.Some? {
      LookupLinked(v, x.value, newdir, newname);
      LinkKeepsFree(v, x.value, olddir, oldname, newdir, newname);
      LookupFree(v[x.value := Linked(newdir, newname)], olddir, oldname);
    }
  }

  /** An exchange makes each name lead to the node the other one led to, and all other links
      are as before. */
  lemma ExchangeSwaps(t: Tree, olddir: Id, oldname: string, newdir: Id, newname: string)
    requires WellFormed(t) && (olddir, oldname) != (newdir, newname)
    ensures var u := ExchangedTree(t, olddir, oldname, newdir, newname, false, false);
      && Lookup(u, newdir, newname) == Lookup(t, olddir, oldname)
      && Lookup(u, olddir, oldname) == Lookup(t, newdir, newname)
      && OtherLinks(t, u, olddir, oldname, newdir, newname)
  {
    var x, y := Lookup(t, olddir, oldname), Lookup(t, newdir, newname);
    CutBothFrees(t, olddir, oldname, newdir, newname);
    var v := CutAny(CutAny(t, x), y);
    if x.Some? {
      LookupLinked(v, x.value, newdir, newname);
      LinkKeepsFree(v, x.value, olddir, oldname, newdir, newname);
      v := v[x.value := Linked(newdir, newname)];
    } else {
      LookupFree(v, newdir, newname);
    }
    if y.Some? {
      LookupLinked(v, y.value, olddir, oldname);
      LookupElsewhere(v, y.value, olddir, oldname, newdir, newname);
    } else {
      LookupFree(v, olddir, oldname);
    }
  }

  // ---- the three operations ----

  lemma UnhashAnyLocked(c: Core, holds: Holds, t: Ticket, dir: Id, x: Option<Id>)
    requires Sound(c, holds) && DirectoryOf(holds, t, dir) && (x.Some? ==> WriteLocked(holds, t, x.value))
    requires x.Some? && x.value in c.tree && c.tree[x.value].Linked? ==> c.tree[x.value].parent == dir
    ensures Sound(UnhashAny(c, x), holds) && Quiet(c, UnhashAny(c, x))
    ensures UnhashAny(c, x).tree == CutAny(c.tree, x)
  {
    if x.Some? {
      UnhashLocked(c, holds, t, x.value, dir);
    } else {
      QuietReflexive(c);
    }
  }

  /** remove_node(): exactly the entry goes, the node itself stays. */
  lemma RemovedSound(c: Core, holds: Holds, t: Ticket, dir: Id, name: string)
    requires Sound(c, holds) && MayChange(c, holds, t, dir, name)
    ensures Sound(Removed(c, dir, name), holds) && Quiet(c, Removed(c, dir, name))
    ensures Removed(c, dir, name).tree == CutAny(c.tree, Lookup(c.tree, dir, name))
    ensures Lookup(Removed(c, dir, name).tree, dir, name) == None
  {
    UnhashAnyLocked(c, holds, t, dir, Lookup(c.tree, dir, name));
    CutFrees(c.tree, dir, name);
    assert NameFree(Removed(c, dir, name).tree, dir, name);
  }

  /** Both entries are out of the name table, nothing else changed. */
  lemma BothUnhashed(c: Core, holds: Holds, t: Ticket, dir1: Id, name1: string, dir2: Id, name2: string)
    requires Sound(c, holds) && MayChange(c, holds, t, dir1, name1) && MayChange(c, holds, t, dir2, name2)
    ensures var x, y := Lookup(c.tree, dir1, name1), Lookup(c.tree, dir2, name2);
      var d := UnhashAny(UnhashAny(c, x), y);
      && Sound(d, holds) && Quiet(c, d) && d.tree == CutAny(CutAny(c.tree, x), y)
      && NameFree(d.tree, dir1, name1) && NameFree(d.tree, dir2, name2)
  {
    var x, y := Lookup(c.tree, dir1, name1), Lookup(c.tree, dir2, name2);
    CutBothFrees(c.tree, dir1, name1, dir2, name2);
    hide Sound, Quiet, NameFree, UnhashAny, WriteLocked, DirectoryOf;
    UnhashAnyLocked(c, holds, t, dir1, x);
    UnhashAnyLocked(UnhashAny(c, x), holds, t, dir2, y);
    QuietTransitive(c, UnhashAny(c, x), UnhashAny(UnhashAny(c, x), y));
  }

  lemma EntryWriteLocked(c: Core, holds: Holds, t: Ticket, dir: Id, name: string)
    requires Sound(c, holds) && MayChange(c, holds, t, dir, name)
    ensures DirectoryOf(holds, t, dir)
    ensures Lookup(c.tree, dir, name).Some? ==> var x := Lookup(c.tree, dir, name).value;
      WriteLocked(holds, t, x) && x != ROOT
  {
  }

  /** rename_node(): the links change as RenamedTree() says and every locked path stays; in
      particular no directory loop can arise. */
  lemma RenamedSound(c: Core, holds: Holds, t: Ticket, olddir: Id, oldname: string, newdir: Id, newname: string,
                     hiding: bool, oom: bool)
    requires Sound(c, holds) && MayChange(c, holds, t, olddir, oldname) && ValidName(newname)
    requires MayReplace(c, holds, t, newdir, newname, hiding)
    ensures var d := Renamed(c, olddir, oldname, newdir, newname, hiding, oom);
      && Sound(d, holds) && Quiet(c, d)
      && d.tree == RenamedTree(c.tree, olddir, oldname, newdir, newname, hiding, oom)
      && (hiding && Lookup(c.tree, newdir, newname).Some? ==> d == c)
  {
    hide Sound, Quiet;
    if hiding && Lookup(c.tree, newdir, newname).Some? {
      QuietReflexive(c);
    } else {
      RenamedLocked(c, holds, t, olddir, oldname, newdir, newname, hiding, oom);
    }
  }

  lemma RenamedLocked(c: Core, holds: Holds, t: Ticket, olddir: Id, oldname: string, newdir: Id, newname: string,
                      hiding: bool, oom: bool)
    requires Sound(c, holds) && MayChange(c, holds, t, olddir, oldname) && MayChange(c, holds, t, newdir, newname)
    requires ValidName(newname)
    ensures var d := Renamed(c, olddir, oldname, newdir, newname, hiding, oom);
      && Sound(d, holds) && Quiet(c, d)
      && d.tree == RenamedTree(c.tree, olddir, oldname, newdir, newname, hiding, oom)
  {
    hide Sound, Quiet, NameFree, MayChange, Unhash, Hash, WriteLocked, DirectoryOf, ValidName;
    var x, y := Lookup(c.tree, olddir, oldname), Lookup(c.tree, newdir, newname);
    BothUnhashed(c, holds, t, newdir, newname, olddir, oldname);
    EntryWriteLocked(c, holds, t, olddir, oldname);
    EntryWriteLocked(c, holds, t, newdir, newname);
    QuietReflexive(c);
    if x.Some? {
      var d := UnhashAny(UnhashAny(c, y), x);
      HashLocked(d, holds, t, x.value, newdir, newname);
      QuietTransitive(c, d, Hash(d, x.value, newdir, newname));
    }
  }

  /** exchange_node(): likewise for two entries that trade places. */
  lemma ExchangedSound(c: Core, holds: Holds, t: Ticket, olddir: Id, oldname: string, newdir: Id, newname: string,
                       oom1: bool, oom2: bool)
    requires Sound(c, holds) && MayChange(c, holds, t, olddir, oldname) && MayChange(c, holds, t, newdir, newname)
    requires ValidName(newname) && ValidName(oldname) && (olddir, oldname) != (newdir, newname)
    ensures var d := Exchanged(c, olddir, oldname, newdir, newname, oom1, oom2);
      && Sound(d, holds) && Quiet(c, d)
      && d.tree == ExchangedTree(c.tree, olddir, oldname, newdir, newname, oom1, oom2)
  {
    hide Sound, Quiet, NameFree, MayChange, UnhashAny, Unhash, Hash, WriteLocked, DirectoryOf, ValidName;
    var x, y := Lookup(c.tree, olddir, oldname), Lookup(c.tree, newdir, newname);
    BothUnhashed(c, holds, t, olddir, oldname, newdir, newname);
    EntryWriteLocked(c, holds, t, olddir, oldname);
    EntryWriteLocked(c, holds, t, newdir, newname);
    var d := UnhashAny(UnhashAny(c, x), y);
    var e := d;
    if x.Some? {
      HashLocked(d, holds, t, x.value, newdir, newname);
      e := Hash(d, x.value, newdir, newname);
      QuietTransitive(c, d, e);
      LinkKeepsFree(d.tree, x.value, olddir, oldname, newdir, newname);
    }
    if y.Some? {
      HashLocked(e, holds, t, y.value, olddir, oldname);
      QuietTransitive(c, e, Hash(e, y.value, olddir, oldname));
    }
  }
}
