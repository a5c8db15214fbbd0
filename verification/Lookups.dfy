/** How often the kernel has looked a node up: over every run `nlookup` is the number of times
    find_node() has answered with the node, less what was forgotten. */
module Lookups {
  import opened Basics
  import opened NodeTree
  import opened NodeIds
  import opened NodeLife
  import opened PathLock
  import opened NodeOps
  import opened TreeOps
  import opened PathQueue
  import opened Machine
  import opened Theorems

  /** The node that a lookup is answered with. */
  ghost function Answer(s: State, e: Event): Option<Id> {
    if !e.Find? then None
    else if e.entry.None? then Some(e.dir)
    else
      var x := Lookup(s.core.tree, e.dir, e.entry.value);
      if x.Some? then x else if e.noNode || e.noName then None else Some(NewId(s))
  }

  /** How many lookups of `n` the step forgets. */
  ghost function Forgets(s: State, e: Event, n: Id): int {
    match e
    case StartForget(_, m, count) => if m == n && !ForgetWaits(s.core, m, count) then count else 0
    case ResumeForget(i) =>
      if 0 <= i < |s.queue| && s.queue[i].Forget? && s.queue[i].nodeid == n then s.queue[i].count else 0
    case _ => 0
  }

  function Counter(c: map<Id, int>, n: Id): int {
    if n in c then c[n] else 0
  }

  /** The nodes of `d` are nodes of `c` and count the same lookups. */
  ghost predicate SameLookups(c: Core, d: Core) {
    forall n {:trigger d.nlookup[n]} :: n in d.nlookup ==> n in c.nlookup && d.nlookup[n] == c.nlookup[n]
  }

  lemma {:induction false} UnrefLookups(c: Core, n: Id)
    ensures SameLookups(c, Unref(c, n))
    decreases |c.tree|
  {
    hide SameLookups, Drop, Decremented;
    var d := Decremented(c, n);
    DropLookups(c, n);
    if n in c.tree && n in d.refctr && d.refctr[n] == 0 && c.tree[n].Linked? {
      DropTree(c, n);
      DropSize(c.tree, n);
      UnrefLookups(Drop(d, n), c.tree[n].parent);
      SameLookupsOn(c, Drop(d, n), Unref(Drop(d, n), c.tree[n].parent));
    }
  }

  lemma DropTree(c: Core, n: Id)
    ensures Drop(Decremented(c, n), n).tree == c.tree - {n}
  {
  }

  lemma DropLookups(c: Core, n: Id)
    ensures SameLookups(c, Decremented(c, n)) && SameLookups(c, Drop(Decremented(c, n), n))
  {
  }

  lemma SameLookupsOn(a: Core, b: Core, c: Core)
    requires SameLookups(a, b) && SameLookups(b, c)
    ensures SameLookups(a, c)
  {
  }

  lemma UnhashLookups(c: Core, x: Option<Id>)
    ensures SameLookups(c, UnhashAny(c, x))
  {
    if x.Some? && x.value in c.tree && c.tree[x.value].Linked? {
      UnrefLookups(Cut(c, x.value), c.tree[x.value].parent);
    }
  }

  /** Removing, renaming and exchanging entries looks nothing up. */
  lemma TreeOpLookups(s: State, e: Event)
    requires Enabled(s, e) && (e.Remove? || e.Rename? || e.Exchange?)
    ensures SameLookups(s.core, Next(s, e).core)
  {
    hide Unhash, Lookup, MayChange, MayReplace;
    var c := s.core;
    match e
    case Remove(_, dir, name) => UnhashLookups(c, Lookup(c.tree, dir, name));
    case Rename(_, olddir, oldname, newdir, newname, _, _) =>
      var x, y := Lookup(c.tree, olddir, oldname), Lookup(c.tree, newdir, newname);
      UnhashLookups(c, y);
      UnhashLookups(UnhashAny(c, y), x);
    case Exchange(_, olddir, oldname, newdir, newname, _, _) =>
      var x, y := Lookup(c.tree, olddir, oldname), Lookup(c.tree, newdir, newname);
      UnhashLookups(c, x);
      UnhashLookups(UnhashAny(c, x), y);
  }

  lemma ForgottenLookups(c: Core, m: Id, count: int, n: Id)
    requires n in Forgotten(c, m, count).nlookup
    ensures n in c.nlookup && Forgotten(c, m, count).nlookup[n] == c.nlookup[n] - if n == m then count else 0
  {
    UnrefLookups(LessLookup(c, m, count), m);
  }

  lemma FindLookups(s: State, e: Event, n: Id)
    requires Inv(s) && Enabled(s, e) && e.Find? && n in Next(s, e).core.nlookup
    ensures Counter(Next(s, e).core.nlookup, n) == Counter(s.core.nlookup, n) + if Answer(s, e) == Some(n) then 1 else 0
  {
    hide Inv, Lookup, Draw, ValidName, IncLookup, Fresh, Hash, SameDomains, WellFormed;
    var c, id := s.core, NewId(s);
    DrawIsFree(c.tree, s.ids);
    InvDomain(s);
    if e.entry.None? {
      IncLookups(c, e.dir, n);
    } else {
      var x := Lookup(c.tree, e.dir, e.entry.value);
      if x.Some? {
        IncLookups(c, x.value, n);
      } else {
        FreshLookups(c, id, e.dir, e.entry.value, n);
      }
    }
  }

  lemma IncLookups(c: Core, x: Id, n: Id)
    requires SameDomains(c) && x in c.tree
    ensures Counter(IncLookup(c, x).nlookup, n) == Counter(c.nlookup, n) + if n == x then 1 else 0
  {
  }

  lemma FreshLookups(c: Core, id: Id, dir: Id, name: string, n: Id)
    requires SameDomains(c) && id !in c.tree
    ensures Counter(Hash(Fresh(c, id), id, dir, name).nlookup, n) == Counter(c.nlookup, n) + if n == id then 1 else 0
  {
  }

  lemma InvDomain(s: State)
    requires Inv(s)
    ensures SameDomains(s.core) && WellFormed(s.core.tree)
  {
  }

  lemma OtherLookups(s: State, e: Event)
    requires Enabled(s, e) && (e.GetOne? || e.GetTwo? || e.Resume? || e.Free? || e.Pin? || e.Unpin?)
    ensures SameLookups(s.core, Next(s, e).core)
  {
    if e.Free? {
      hide Asked, TargetsKnown, GiveBack, Others, WakeFrom;
      WakeFromLocksOnly(Ended(s, e.t), 0, e.f);
    } else if e.Unpin? {
      hide Asked, TargetsKnown, Unref;
      UnrefLookups(s.core.(pinned := s.core.pinned - {e.t}), s.core.pinned[e.t]);
    } else {
      LockLookups(s, e);
    }
  }

  lemma LockLookups(s: State, e: Event)
    requires Enabled(s, e) && (e.GetOne? || e.GetTwo? || e.Resume? || e.Pin?)
    ensures SameLookups(s.core, Next(s, e).core)
  {
    hide Asked, TargetsKnown, TryPath, GiveBack, Others, NewCall, HoldFor, WakeFrom, Unref;
  }

  /** A step counts one lookup for the node it answers with, and takes back what it forgets. */
  lemma StepLookups(s: State, e: Event, n: Id)
    requires Inv(s) && Enabled(s, e) && n in Next(s, e).core.nlookup
    ensures Counter(Next(s, e).core.nlookup, n) ==
      Counter(s.core.nlookup, n) + (if Answer(s, e) == Some(n) then 1 else 0) - Forgets(s, e, n)
  {
    hide Inv, Next, Enabled;
    match e
    case Find(_, _, _, _) => FindLookups(s, e, n);
    case Remove(_, _, _) => TreeOpLookups(s, e);
    case Rename(_, _, _, _, _, _, _) => TreeOpLookups(s, e);
    case Exchange(_, _, _, _, _, _, _) => TreeOpLookups(s, e);
    case StartForget(_, _, _) => ForgetLookups(s, e, n);
    case ResumeForget(_) => ForgetLookups(s, e, n);
    case _ => OtherLookups(s, e);
  }

  lemma ForgetLookups(s: State, e: Event, n: Id)
    requires Enabled(s, e) && (e.StartForget? || e.ResumeForget?) && n in Next(s, e).core.nlookup
    ensures Counter(Next(s, e).core.nlookup, n) == Counter(s.core.nlookup, n) - Forgets(s, e, n)
  {
    hide Forgotten, NotAwaited, ForgetWaits;
    if e.ResumeForget? {
      ForgottenLookups(s.core, s.queue[e.i].nodeid, s.queue[e.i].count, n);
    } else if !ForgetWaits(s.core, e.n, e.count) {
      ForgottenLookups(s.core, e.n, e.count, n);
    }
  }

  /** The lookups of a node since it was made, less those forgotten; the root is looked up once
      at the start. */
  ghost function Looked(ss: seq<State>, es: seq<Event>, i: int, n: Id): int
    requires 0 <= i < |ss| && |ss| == |es| + 1
    decreases i
  {
    if n !in ss[i].core.tree then 0
    else if i == 0 then 1
    else
      Looked(ss, es, i - 1, n) + (if Answer(ss[i - 1], es[i - 1]) == Some(n) then 1 else 0)
      - Forgets(ss[i - 1], es[i - 1], n)
  }

  /** In every state of every run that is what the node counts. */
  lemma {:induction false} LookupsCounted(ss: seq<State>, es: seq<Event>, i: int, n: Id)
    requires IsRun(ss, es) && 0 <= i < |ss| && n in ss[i].core.tree
    ensures n in ss[i].core.nlookup && ss[i].core.nlookup[n] == Looked(ss, es, i, n)
    decreases i
  {
    hide Inv, Enabled, Next, Answer, Forgets;
    RunInv(ss, es, i);
    InvDomain(ss[i]);
    if i > 0 {
      RunInv(ss, es, i - 1);
      InvDomain(ss[i - 1]);
      RunStep(ss, es, i - 1);
      StepLookups(ss[i - 1], es[i - 1], n);
      if n in ss[i - 1].core.tree {
        LookupsCounted(ss, es, i - 1, n);
      }
    }
  }

  /** A node whose lookups are all forgotten is in the cache only as the parent of a cached node
      or because a "." lookup has pinned it. */
  lemma ForgottenGone(ss: seq<State>, es: seq<Event>, i: int, n: Id)
    requires IsRun(ss, es) && 0 <= i < |ss| && n in ss[i].core.tree && Looked(ss, es, i, n) == 0
    ensures Children(ss[i].core.tree, n) != {} || Pins(ss[i].core.pinned, n) != {}
  {
    hide Inv, Looked;
    LookupsCounted(ss, es, i, n);
    RunInv(ss, es, i);
    Referenced(ss[i], n);
  }

  lemma Referenced(s: State, n: Id)
    requires Inv(s) && n in s.core.tree
    ensures n in s.core.nlookup && References(s.core, n) >= 1
  {
    assert Exact(s.core, n, None);
  }
}
