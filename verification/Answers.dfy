/** What get_path_common() and get_path2() answer at the first attempt, said of the tree and its
    locks and not of the walk that finds it out. */
module Answers {
  import opened Basics
  import opened NodeTree
  import opened TreeLock
  import opened NodeLife
  import opened PathLock
  import opened PathQueue
  import opened Machine
  import opened MachineRuns
  import opened QueueTheorems
  import opened Awake

  /** One path: no memory, no way to the root, the path, or a reason to wait. */
  ghost function Verdict(c: Core, r: Request, oom: bool): Err {
    if oom then ENOMEM
    else if !ReachesRoot(c.tree, r.nodeid) then ENOENT
    else if Open(c, HoldFor(c, r)) then OK
    else EAGAIN
  }

  /** Two paths: the second is judged with the first one taken. */
  ghost function Verdict2(c: Core, r1: Request, r2: Request, oom1: bool, oom2: bool): Err {
    var e := Verdict(c, r1, oom1);
    if e == OK then Verdict(Taken(c, HoldFor(c, r1)), r2, oom2) else e
  }

  lemma TryPathVerdict(c: Core, holds: Holds, r: Request, oom: bool)
    requires Sound(c, holds) && Usable(c, r)
    ensures TryPath(c, r, oom).0 == Verdict(c, r, oom)
    ensures TryPath(c, r, oom).0 == OK ==> TryPath(c, r, oom).1 == Taken(c, HoldFor(c, r)).treelock
  {
    TryPathMeans(c, holds, r, oom);
    OutcomeBroken(c, holds, r);
    hide Sound, Usable, Open, HoldFor, LockPath, ReachesRoot;
  }

  lemma AskedUsable(s: State, t: Ticket, r: Request)
    requires Inv(s) && Asked(s.core, t, r)
    ensures Usable(s.core, r)
  {
  }

  /** A call runs, waits in the queue, or is answered. */
  lemma SettledCall(s: State, t: Ticket, r1: Request, r2: Option<Request>, e: Err)
    requires t !in s.granted && NotQueued(s, t)
    ensures var s' := Settle(s, t, r1, r2, e);
      && (t in s'.granted <==> e == OK) && (NotQueued(s', t) <==> e != EAGAIN)
      && (e == OK ==> s'.granted == s.granted[t := Grant(r1, r2)] && s'.queue == s.queue)
      && (e == EAGAIN ==> s'.granted == s.granted && s'.queue == s.queue + [Waiting(t, r1, r2)])
      && (e != OK && e != EAGAIN ==> s' == s)
  {
    var s' := Settle(s, t, r1, r2, e);
    if e == EAGAIN {
      assert s'.queue[|s.queue|] == Waiting(t, r1, r2);
    }
  }

  lemma NewIsNeither(s: State, t: Ticket)
    requires Inv(s) && NewCall(s, t)
    ensures t !in s.granted && NotQueued(s, t)
  {
  }

  /** get_path_common(): the answer, and what becomes of the call. */
  lemma OneAnswer(s: State, t: Ticket, r: Request, oom: bool)
    requires Inv(s) && Enabled(s, GetOne(t, r, oom))
    ensures var e, s' := Verdict(s.core, r, oom), Next(s, GetOne(t, r, oom));
      && TryLock(s, Key(t, false), r, oom).0 == e
      && (t in s'.granted <==> e == OK) && (NotQueued(s', t) <==> e != EAGAIN)
  {
    NewIsNeither(s, t);
    InvSound(s);
    AskedUsable(s, t, r);
    hide Inv, NotQueued, Sound, Usable, Verdict, TryPath, HoldFor, Asked, NewCall;
    TryPathVerdict(s.core, s.holds, r, oom);
    var (e, s1) := TryLock(s, Key(t, false), r, oom);
    NotQueuedFrame(s, s1, t);
    SettledCall(s1, t, r, None, e);
  }

  /** Taking the first path leaves sound locks for the second attempt. */
  lemma FirstTaken(s: State, t: Ticket, r1: Request, oom1: bool)
    requires Inv(s) && NewCall(s, t) && Asked(s.core, t, r1)
    ensures var (e, s1) := TryLock(s, Key(t, false), r1, oom1);
      Sound(s1.core, s1.holds) && s1.core == s.core.(treelock := s1.core.treelock)
  {
    NewIsNeither(s, t);
    NewOwnsNothing(s, t);
    NewCallInv(s, t);
    hide Inv, NotQueued, Sound, TryPath, HoldFor, Asked;
    var s0 := s.(calls := s.calls + {t});
    NotQueuedFrame(s, s0, t);
    TryLockInv(s0, Key(t, false), r1, oom1);
    InvSound(TryLock(s0, Key(t, false), r1, oom1).1);
  }

  lemma TwoVerdict(s: State, t: Ticket, r1: Request, r2: Request, oom1: bool, oom2: bool)
    requires Inv(s) && NewCall(s, t) && Asked(s.core, t, r1) && Asked(s.core, t, r2)
    ensures TryLock2(s, t, r1, r2, oom1, oom2).0 == Verdict2(s.core, r1, r2, oom1, oom2)
  {
    InvSound(s);
    AskedUsable(s, t, r1);
    AskedUsable(s, t, r2);
    FirstTaken(s, t, r1, oom1);
    hide Inv, Sound, NewCall, Asked, Verdict, TryPath, HoldFor, Release, LockPath;
    TryPathVerdict(s.core, s.holds, r1, oom1);
    var (e1, s1) := TryLock(s, Key(t, false), r1, oom1);
    if e1 == OK {
      assert s1.core == Taken(s.core, HoldFor(s.core, r1));
      TryPathVerdict(s1.core, s1.holds, r2, oom2);
    }
  }

  /** get_path2(): the answer, and what becomes of the call. */
  lemma TwoAnswer(s: State, t: Ticket, r1: Request, r2: Request, oom1: bool, oom2: bool)
    requires Inv(s) && Enabled(s, GetTwo(t, r1, r2, oom1, oom2))
    ensures var e, s' := Verdict2(s.core, r1, r2, oom1, oom2), Next(s, GetTwo(t, r1, r2, oom1, oom2));
      && TryLock2(s, t, r1, r2, oom1, oom2).0 == e
      && (t in s'.granted <==> e == OK) && (NotQueued(s', t) <==> e != EAGAIN)
  {
    NewIsNeither(s, t);
    hide Inv, NotQueued, Verdict2, TryPath, HoldFor, Asked, NewCall, GiveBack, Others;
    TwoVerdict(s, t, r1, r2, oom1, oom2);
    var (e, s1) := TryLock2(s, t, r1, r2, oom1, oom2);
    NotQueuedFrame(s, s1, t);
    SettledCall(s1, t, r1, Some(r2), e);
  }
}
