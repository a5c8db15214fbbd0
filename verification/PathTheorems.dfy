/** What path locks are for: the path string that was built when a path was granted stays the
    right one until the path is given back, whatever other calls do meanwhile. */
module PathTheorems {
  import opened Basics
  import opened NodeTree
  import opened NodeIds
  import opened TreeLock
  import opened NodeLife
  import opened PathLock
  import opened NodeOps
  import opened TreeOps
  import opened PathQueue
  import opened Machine
  import opened MachineRuns
  import opened Theorems
  import opened LostLocks
  import opened PathText

  /** Every node of `chain` has the same parent and name in both trees. */
  ghost predicate SameLinks(t: Tree, u: Tree, chain: seq<Id>) {
    forall n {:trigger n in chain} :: n in chain ==> n in t && n in u && u[n] == t[n]
  }

  lemma {:induction false} SameText(t: Tree, u: Tree, chain: seq<Id>)
    requires SameLinks(t, u, chain)
    ensures Text(u, chain) == Text(t, chain)
    decreases |chain|
  {
    if chain != [] {
      var last, rest := chain[|chain| - 1], chain[..|chain| - 1];
      assert last in chain;
      forall n | n in rest ensures n in t && n in u && u[n] == t[n] {
        assert n in chain;
      }
      SameText(t, u, rest);
    }
  }

  /** A link that is read-locked. */
  lemma ReadLockedNode(s: State, k: Key, n: Id)
    requires Inv(s) && k in s.holds && n in s.holds[k].chain
    ensures n in s.core.tree && n in s.core.treelock && s.core.treelock[n] != 0
  {
    InvParts(s);
    hide Inv;
    assert Intact(s.core, s.holds, k);
    var chain := s.holds[k].chain;
    var j :| 0 <= j < |chain| && chain[j] == n;
    assert (chain + [ROOT])[j] == n;
    HeldEncoding(s.core.treelock, s.holds, k, n);
  }

  lemma EntryOff(s: State, t: Ticket, dir: Id, name: string, k: Key, n: Id)
    requires Inv(s) && MayChange(s.core, s.holds, t, dir, name) && k in s.holds && n in s.holds[k].chain
    ensures Lookup(s.core.tree, dir, name) != Some(n)
  {
    var x := Lookup(s.core.tree, dir, name);
    if x == Some(n) {
      WriteLockedAlone(s.core, s.holds, t, n);
    }
  }

  lemma ReplacedOff(s: State, t: Ticket, dir: Id, name: string, hiding: bool, k: Key, n: Id)
    requires Inv(s) && MayReplace(s.core, s.holds, t, dir, name, hiding) && k in s.holds && n in s.holds[k].chain
    requires hiding ==> Lookup(s.core.tree, dir, name).None?
    ensures Lookup(s.core.tree, dir, name) != Some(n)
  {
    hide Inv;
    if !hiding {
      EntryOff(s, t, dir, name, k, n);
    }
  }

  /** No step changes the link of a node that somebody has read-locked. */
  lemma LinkStable(s: State, e: Event, k: Key, n: Id)
    requires Inv(s) && Enabled(s, e) && k in s.holds && n in s.holds[k].chain
    ensures n in s.core.tree && n in Next(s, e).core.tree && Next(s, e).core.tree[n] == s.core.tree[n]
  {
    hide Inv, Sound, Shrunk, MayChange, MayReplace, ForgetWaits, NotAwaited, Draw;
    ReadLockedNode(s, k, n);
    DeletedWereUnlocked(s, e);
    InvParts(s);
    var d := Next(s, e).core;
    assert n in d.tree;
    match e
    case GetOne(_, _, _) => LockEventNodes(s, e);
    case GetTwo(_, _, _, _, _) => LockEventNodes(s, e);
    case Resume(_) =>
    case Free(_, _) => LockEventNodes(s, e);
    case StartForget(t, m, count) => StartForgetShrinks(s, t, m, count);
    case ResumeForget(i) => ResumeForgetShrinks(s, i);
    case Find(dir, name, noNode, noName) =>
      DrawIsFree(s.core.tree, s.ids);
      FoundLinks(s.core, dir, name, NewId(s), noNode || noName, n);
    case Remove(t, dir, name) =>
      RemovedSound(s.core, s.holds, t, dir, name);
      EntryOff(s, t, dir, name, k, n);
    case Rename(t, olddir, oldname, newdir, newname, hiding, oom) =>
      RenamedSound(s.core, s.holds, t, olddir, oldname, newdir, newname, hiding, oom);
      RenameChanges(s.core.tree, olddir, oldname, newdir, newname, hiding, oom);
      if !(hiding && Lookup(s.core.tree, newdir, newname).Some?) {
        EntryOff(s, t, olddir, oldname, k, n);
        ReplacedOff(s, t, newdir, newname, hiding, k, n);
      }
    case Exchange(t, olddir, oldname, newdir, newname, oom1, oom2) =>
      ExchangedSound(s.core, s.holds, t, olddir, oldname, newdir, newname, oom1, oom2);
      ExchangeChanges(s.core.tree, olddir, oldname, newdir, newname, oom1, oom2);
      EntryOff(s, t, olddir, oldname, k, n);
      EntryOff(s, t, newdir, newname, k, n);
    case Pin(_, _) =>
    case Unpin(t) => UnpinShrinks(s, t);
  }

  lemma FoundLinks(c: Core, dir: Id, name: Option<string>, id: Id, oom: bool, n: Id)
    requires n in c.tree && id !in c.tree
    ensures n in Found(c, dir, name, id, oom).tree && Found(c, dir, name, id, oom).tree[n] == c.tree[n]
  {
  }

  /** The links of the survivors. */
  ghost predicate SurvivorsKeepLinks(t: Tree, u: Tree) {
    forall n {:trigger n in u} :: n in u ==> n in t && u[n] == t[n]
  }

  lemma StartForgetShrinks(s: State, t: Ticket, m: Id, count: int)
    requires Inv(s) && Enabled(s, StartForget(t, m, count))
    ensures SurvivorsKeepLinks(s.core.tree, Next(s, StartForget(t, m, count)).core.tree)
  {
    hide Sound, Inv;
    InvParts(s);
    if !ForgetWaits(s.core, m, count) {
      CountsPositive(s, m);
      SoundDomains(s.core, s.holds);
      ForgottenSound(s.core, m, count, s.holds);
      ShrunkTree(LessLookup(s.core, m, count), Forgotten(s.core, m, count));
    }
  }

  lemma ResumeForgetShrinks(s: State, i: int)
    requires Inv(s) && Enabled(s, ResumeForget(i))
    ensures SurvivorsKeepLinks(s.core.tree, Next(s, ResumeForget(i)).core.tree)
  {
    hide Sound, Inv;
    InvParts(s);
    var q := s.queue[i];
    ResumeForgetCounts(s, i);
    SoundDomains(s.core, s.holds);
    ForgottenSound(s.core, q.nodeid, q.count, s.holds);
    ShrunkTree(LessLookup(s.core, q.nodeid, q.count), Forgotten(s.core, q.nodeid, q.count));
  }

  lemma UnpinShrinks(s: State, t: Ticket)
    requires Inv(s) && Enabled(s, Unpin(t))
    ensures SurvivorsKeepLinks(s.core.tree, Next(s, Unpin(t)).core.tree)
  {
    hide Sound, Inv;
    InvParts(s);
    assert Key(t, false) !in s.holds && Key(t, true) !in s.holds;
    UnpinnedSound(s.core, t, s.holds);
    ShrunkTree(s.core.(pinned := s.core.pinned - {t}), Unpinned(s.core, t));
  }

  /** The path of a held directory is the same before and after every step. */
  lemma PathStable(s: State, e: Event, k: Key)
    requires Inv(s) && Enabled(s, e) && k in s.holds
    ensures var chain, u := s.holds[k].chain, Next(s, e).core.tree;
      SameLinks(s.core.tree, u, chain) && Text(u, chain) == Text(s.core.tree, chain)
  {
    hide Inv, Enabled, Next;
    var chain, u := s.holds[k].chain, Next(s, e).core.tree;
    forall n | n in chain ensures n in s.core.tree && n in u && u[n] == s.core.tree[n] {
      LinkStable(s, e, k, n);
    }
    SameText(s.core.tree, u, chain);
  }

  /** Over any stretch of a run in which a path stays held, its chain and its string are
      those of the grant. */
  lemma {:induction false} PathConstant(ss: seq<State>, es: seq<Event>, i: int, j: int, k: Key)
    requires IsRun(ss, es) && 0 <= i <= j < |ss| && forall m {:trigger ss[m]} :: i <= m <= j ==> k in ss[m].holds
    ensures k in ss[i].holds && k in ss[j].holds && ss[j].holds[k] == ss[i].holds[k]
    ensures Text(ss[j].core.tree, ss[j].holds[k].chain) == Text(ss[i].core.tree, ss[i].holds[k].chain)
    decreases j - i
  {
    hide Inv, Next, Enabled, IsWalk, Text, SameLinks;
    HoldConstant(ss, es, i, j, k);
    if i < j {
      RunStep(ss, es, j - 1);
      RunInv(ss, es, j - 1);
      HoldConstant(ss, es, i, j - 1, k);
      PathConstant(ss, es, i, j - 1, k);
      PathStable(ss[j - 1], es[j - 1], k);
    }
  }
}
