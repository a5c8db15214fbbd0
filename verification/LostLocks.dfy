/** Over whole runs: a hold never changes while it lasts, and unless memory runs out no
    call loses track of a path it owns. */
module LostLocks {
  import opened Basics
  import opened NodeTree
  import opened NodeIds
  import opened TreeLock
  import opened NodeLife
  import opened PathLock
  import opened NodeOps
  import opened TreeOps
  import opened PathQueue
  import opened QueueSafety
  import opened Machine
  import opened MachineRuns
  import opened Theorems
  import opened QueueTheorems

  // ---- no call loses a path ----

  ghost predicate SameQueue(s: State, s': State) {
    s'.queue == s.queue && s'.granted == s.granted && s'.calls == s.calls && s'.core.tree == s.core.tree
  }

  lemma SameQueueClean(s: State, s': State)
    requires SameQueue(s, s') && AllClean(s) && Accounted(s)
    ensures AllClean(s') && Accounted(s')
  {
    hide CleanElem;
    forall t | t in s'.calls && t !in s'.granted ensures !NotQueued(s', t) {
      NotQueuedSame(s, s', t);
    }
  }

  lemma GrantAccounted(s: State, t: Ticket, g: Grant)
    requires Accounted(s)
    ensures Accounted(s.(granted := s.granted[t := g], calls := s.calls + {t}))
  {
    var s' := s.(granted := s.granted[t := g], calls := s.calls + {t});
    forall u | u in s'.calls && u !in s'.granted ensures !NotQueued(s', u) {
      NotQueuedSame(s, s', u);
    }
  }

  lemma SettleClean(s: State, t: Ticket, r1: Request, r2: Option<Request>, e: Err)
    requires AllClean(s) && Accounted(s)
    ensures AllClean(Settle(s, t, r1, r2, e)) && Accounted(Settle(s, t, r1, r2, e))
  {
    if e == OK {
      GrantAccounted(s, t, Grant(r1, r2));
    } else if e == EAGAIN {
      AppendClean(s, Waiting(t, r1, r2));
      AppendAccounted(s, Waiting(t, r1, r2));
    }
  }

  lemma GetClean(s: State, e: Event)
    requires (e.GetOne? || e.GetTwo?) && Enabled(s, e) && AllClean(s) && Accounted(s)
    ensures AllClean(Next(s, e)) && Accounted(Next(s, e))
  {
    hide AllClean, Accounted, TryPath, HoldFor, GiveBack, Others, Settle, NewCall, Asked;
    if e.GetOne? {
      var (r, s1) := TryLock(s, Key(e.t, false), e.r, e.oom);
      SameQueueClean(s, s1);
      SettleClean(s1, e.t, e.r, None, r);
    } else {
      var (r, s1) := TryLock2(s, e.t, e.r1, e.r2, e.oom1, e.oom2);
      SameQueueClean(s, s1);
      SettleClean(s1, e.t, e.r1, Some(e.r2), r);
    }
  }

  lemma ResumeClean(s: State, i: int)
    requires AllClean(s) && Accounted(s) && 0 <= i < |s.queue| && s.queue[i].Wait? && s.queue[i].done
    ensures AllClean(Resumed(s, i)) && Accounted(Resumed(s, i))
  {
    var q := s.queue[i];
    assert CleanElem(s.core.tree, q);
    DequeueClean(s, i);
    var granted := if q.err == OK then s.granted[q.ticket := Grant(q.r1, q.r2)] else s.granted;
    var calls := if q.err == OK then s.calls else s.calls - {q.ticket};
    DequeueAccounted(s, i, granted, calls);
    hide AllClean, Accounted, Dequeued;
    SameTreeClean(s.(queue := Dequeued(s.queue, i)), Resumed(s, i));
  }

  lemma SameTreeClean(s: State, s': State)
    requires s'.queue == s.queue && s'.core.tree == s.core.tree && AllClean(s)
    ensures AllClean(s')
  {
    hide CleanElem;
  }

  lemma EndedAccounted(s: State, t: Ticket)
    requires Accounted(s)
    ensures Accounted(Ended(s, t))
  {
    var s' := Ended(s, t);
    forall u | u in s'.calls && u !in s'.granted ensures !NotQueued(s', u) {
      NotQueuedSame(s, s', u);
    }
  }

  lemma FreeClean(s: State, t: Ticket, f: Failures)
    requires t in s.granted && |f| == |s.queue| && TargetsKnown(s) && Inv(s) && Succeeds(f) && AllClean(s)
    requires Accounted(s)
    ensures AllClean(WakeFrom(Ended(s, t), 0, f)) && Accounted(WakeFrom(Ended(s, t), 0, f))
  {
    hide AllClean, Accounted, Inv, WakeFrom, TargetsKnown;
    var s1 := Ended(s, t);
    EndedInv(s, t);
    EndedKnown(s, t);
    SameTreeClean(s, s1);
    EndedAccounted(s, t);
    WakeAllClean(s1, 0, f);
    WakeFromLocksOnly(s1, 0, f);
    LocksOnlyAccounted(s1, WakeFrom(s1, 0, f));
  }

  lemma CoreClean(s: State, d: Core)
    requires Inv(s) && AllClean(s) && Accounted(s) && NoNewWays(s.core.tree, d.tree)
    ensures AllClean(s.(core := d)) && Accounted(s.(core := d))
  {
    hide Inv, AllClean, NoNewWays;
    CleanCore(s, d);
    var s' := s.(core := d);
    forall u | u in s'.calls && u !in s'.granted ensures !NotQueued(s', u) {
      NotQueuedSame(s, s', u);
    }
  }

  /** A forget that waits or waited: the tree may shrink while the queue changes. */
  lemma ForgetClean(s: State, e: Event)
    requires (e.StartForget? || e.ResumeForget?) && Inv(s) && Enabled(s, e) && AllClean(s) && Accounted(s)
    ensures AllClean(Next(s, e)) && Accounted(Next(s, e))
  {
    EnoentFinal(s, e);
    hide Inv, AllClean, Accounted, NoNewWays, Forgotten, NotAwaited, NewCall;
    var d := Next(s, e).core;
    CoreClean(s, d);
    var s1 := s.(core := d);
    if e.ResumeForget? {
      DequeueClean(s1, e.i);
      DequeueAccounted(s1, e.i, s.granted, s.calls - {s.queue[e.i].ticket});
      SameTreeClean(s1.(queue := Dequeued(s1.queue, e.i)), Next(s, e));
    } else if ForgetWaits(s.core, e.n, e.count) {
      AppendClean(s1, Elem.Forget(e.t, e.n, e.count)) by { ForgetElemClean(d, e.t, e.n, e.count); }
      AppendAccounted(s1, Elem.Forget(e.t, e.n, e.count));
      SameTreeClean(s1.(queue := s1.queue + [Elem.Forget(e.t, e.n, e.count)]), Next(s, e));
    }
  }

  lemma ForgetElemClean(c: Core, t: Ticket, n: Id, count: int)
    ensures CleanElem(c.tree, Elem.Forget(t, n, count))
  {
  }

  /** Without allocation failures every step keeps all calls accounted for. */
  lemma CleanNext(s: State, e: Event)
    requires Inv(s) && Enabled(s, e) && NoOom(e) && AllClean(s) && Accounted(s)
    ensures AllClean(Next(s, e)) && Accounted(Next(s, e))
  {
    hide Inv, AllClean, Accounted, NoNewWays, NewCall, Asked, TargetsKnown, NotAwaited, MayChange, MayReplace, Draw;
    match e
    case GetOne(_, _, _) => GetClean(s, e);
    case GetTwo(_, _, _, _, _) => GetClean(s, e);
    case Resume(i) => ResumeClean(s, i);
    case Free(t, f) => FreeClean(s, t, f);
    case StartForget(_, _, _) => ForgetClean(s, e);
    case ResumeForget(_) => ForgetClean(s, e);
    case Find(_, _, _, _) =>
      EnoentFinal(s, e);
      CoreClean(s, Next(s, e).core);
      SameQueueClean(s.(core := Next(s, e).core), Next(s, e));
    case Remove(_, _, _) => EnoentFinal(s, e); CoreClean(s, Next(s, e).core);
    case Rename(_, _, _, _, _, _, _) => EnoentFinal(s, e); CoreClean(s, Next(s, e).core);
    case Exchange(_, _, _, _, _, _, _) => EnoentFinal(s, e); CoreClean(s, Next(s, e).core);
    case Pin(_, _) => EnoentFinal(s, e); CoreClean(s, Next(s, e).core);
    case Unpin(_) => EnoentFinal(s, e); CoreClean(s, Next(s, e).core);
  }

  lemma {:induction false} RunClean(ss: seq<State>, es: seq<Event>, i: int)
    requires IsRun(ss, es) && 0 <= i < |ss| && forall j {:trigger es[j]} :: 0 <= j < |es| ==> NoOom(es[j])
    ensures AllClean(ss[i]) && Accounted(ss[i])
    decreases i
  {
    hide Inv, Next, Enabled, AllClean, Accounted, NoOom;
    if i == 0 {
      InitialClean();
    } else {
      RunStep(ss, es, i - 1);
      RunClean(ss, es, i - 1);
      RunInv(ss, es, i - 1);
      CleanNext(ss[i - 1], es[i - 1]);
    }
  }

  lemma InitialClean()
    ensures AllClean(Initial()) && Accounted(Initial())
  {
  }

  predicate Failed(q: Elem) {
    q.Wait? && q.done && q.err != OK
  }

  /** In a run without allocation failures every path lock belongs to a call that runs or
      waits, and a call answered with an error owns nothing. */
  lemma NoLostLocks(ss: seq<State>, es: seq<Event>, i: int)
    requires IsRun(ss, es) && 0 <= i < |ss| && forall j {:trigger es[j]} :: 0 <= j < |es| ==> NoOom(es[j])
    ensures forall k {:trigger k in ss[i].holds} :: k in ss[i].holds ==>
      k.ticket in ss[i].granted || !NotQueued(ss[i], k.ticket)
    ensures forall j {:trigger ss[i].queue[j]} :: 0 <= j < |ss[i].queue| && Failed(ss[i].queue[j]) ==>
      OwnsNothing(ss[i].holds, ss[i].queue[j].ticket)
  {
    var s := ss[i];
    RunInv(ss, es, i);
    RunClean(ss, es, i);
    InvParts(s);
    forall j | 0 <= j < |s.queue| && Failed(s.queue[j])
      ensures OwnsNothing(s.holds, s.queue[j].ticket)
    {
      assert ElemTied(s.core, s.holds, s.queue[j]) && CleanElem(s.core.tree, s.queue[j]);
    }
  }

  // ---- a hold never changes while it lasts ----

  ghost predicate Steady(a: Holds, b: Holds) {
    forall k {:trigger a[k], b[k]} :: k in a && k in b ==> a[k] == b[k]
  }

  lemma WakeupHolds(s: State, i: int, oom1: bool, oom2: bool)
    requires 0 <= i < |s.queue| && s.queue[i].Wait?
    ensures var s1 := WakePath(s, i, false, oom1).1; var s2 := WakePath(s1, i, true, oom2).1;
      var holds, t := Wakeup(s, i, oom1, oom2).holds, s.queue[i].ticket;
      holds == s2.holds || holds == Others(s1.holds, t) || holds == Others(s2.holds, t)
  {
    hide WakePath, UnlockElem, Finish, Others;
    var s1 := WakePath(s, i, false, oom1).1;
    var s2 := WakePath(s1, i, true, oom2).1;
    WakePathTicket(s, i, false, oom1);
    WakePathTicket(s1, i, true, oom2);
    UnlockElemHolds(s1, i, WakePath(s, i, false, oom1).0);
    UnlockElemHolds(s2, i, WakePath(s1, i, true, oom2).0);
    FinishHolds(s2, i, OK);
  }

  lemma WakePathTicket(s: State, i: int, second: bool, oom: bool)
    requires 0 <= i < |s.queue| && s.queue[i].Wait?
    ensures WakePath(s, i, second, oom).1.queue[i].ticket == s.queue[i].ticket
  {
    WakePathOnly(s, i, second, oom);
  }

  lemma FinishHolds(s: State, i: int, e: Err)
    requires 0 <= i < |s.queue| && s.queue[i].Wait?
    ensures Finish(s, i, e).holds == s.holds
  {
  }

  lemma UnlockElemHolds(s: State, i: int, e: Err)
    requires 0 <= i < |s.queue| && s.queue[i].Wait?
    ensures UnlockElem(s, i).holds == Others(s.holds, s.queue[i].ticket)
    ensures Finish(UnlockElem(s, i), i, e).holds == Others(s.holds, s.queue[i].ticket)
  {
  }

  ghost predicate Grows(a: Holds, b: Holds) {
    forall k {:trigger k in a} {:trigger k in b} :: k in a ==> k in b && b[k] == a[k]
  }

  lemma WakePathGrows(s: State, i: int, second: bool, oom: bool)
    requires 0 <= i < |s.queue| && s.queue[i].Wait? && ElemTied(s.core, s.holds, s.queue[i])
    ensures Grows(s.holds, WakePath(s, i, second, oom).1.holds)
  {
    hide TryPath, HoldFor, Target;
  }

  lemma WakeupSteady(s: State, i: int, oom1: bool, oom2: bool)
    requires Tidy(s) && 0 <= i < |s.queue| && ElemKnown(s.core, s.queue[i])
    ensures Steady(s.holds, Wakeup(s, i, oom1, oom2).holds)
  {
    if s.queue[i].Wait? {
      hide Tidy, WakePath, Wakeup, Only, Sound, Owned, ElemTied, ElemKnown;
      var s1 := WakePath(s, i, false, oom1).1;
      TidyParts(s, i);
      WakePathGrows(s, i, false, oom1);
      WakePathTidy(s, i, false, oom1);
      TidyParts(s1, i);
      WakePathGrows(s1, i, true, oom2);
      WakeupHolds(s, i, oom1, oom2);
      var s2, holds := WakePath(s1, i, true, oom2).1, Wakeup(s, i, oom1, oom2).holds;
      forall k | k in s.holds && k in holds ensures s.holds[k] == holds[k] {
        assert k in s1.holds && k in s2.holds;
      }
    }
  }

  lemma {:induction false} WakeFromOthers(s: State, i: int, f: Failures, k: Key)
    requires 0 <= i <= |s.queue| == |f|
    requires forall j {:trigger s.queue[j]} :: i <= j < |s.queue| ==> s.queue[j].ticket != k.ticket
    ensures SameHold(s.holds, WakeFrom(s, i, f).holds, k)
    decreases |f| - i
  {
    if i < |s.queue| {
      var s1 := Wakeup(s, i, f[i].0, f[i].1);
      WakeupLocksOnly(s, i, f[i].0, f[i].1);
      if s.queue[i].Wait? {
        WakeupOnly(s, i, f[i].0, f[i].1);
        assert SameHold(s.holds, s1.holds, k);
      }
      hide Wakeup;
      WakeFromOthers(s1, i + 1, f, k);
    }
  }

  lemma {:induction false} WakeFromSteady(s: State, i: int, f: Failures)
    requires Inv(s) && TargetsKnown(s) && 0 <= i <= |s.queue| == |f|
    ensures Steady(s.holds, WakeFrom(s, i, f).holds)
    decreases |f| - i
  {
    hide Inv, TargetsKnown, Wakeup, Tidy, ElemKnown;
    if i < |s.queue| {
      var s1 := Wakeup(s, i, f[i].0, f[i].1);
      ElemReady(s, i);
      WakeupSteady(s, i, f[i].0, f[i].1);
      WakeupInv(s, i, f[i].0, f[i].1);
      WakeupKnown(s, i, f[i].0, f[i].1);
      WakeupLocksOnly(s, i, f[i].0, f[i].1);
      WakeupFrame(s, i, f[i].0, f[i].1);
      LaterTickets(s, i);
      WakeFromSteady(s1, i + 1, f);
      var last := WakeFrom(s1, i + 1, f).holds;
      forall k | k in s.holds && k in last ensures s.holds[k] == last[k] {
        if k.ticket == s.queue[i].ticket {
          WakeFromOthers(s1, i + 1, f, k);
        } else {
          assert SameHold(s.holds, s1.holds, k);
        }
      }
    }
  }

  lemma ElemReady(s: State, i: int)
    requires Inv(s) && TargetsKnown(s) && 0 <= i < |s.queue|
    ensures Tidy(s) && ElemKnown(s.core, s.queue[i])
  {
  }

  lemma LaterTickets(s: State, i: int)
    requires Inv(s) && 0 <= i < |s.queue|
    ensures forall j {:trigger s.queue[j]} :: i < j < |s.queue| ==> s.queue[j].ticket != s.queue[i].ticket
  {
  }

  lemma WakeupFrame(s: State, i: int, oom1: bool, oom2: bool)
    requires 0 <= i < |s.queue|
    ensures OnlyTicket(s.holds, Wakeup(s, i, oom1, oom2).holds, s.queue[i].ticket)
  {
    if s.queue[i].Wait? {
      WakeupOnly(s, i, oom1, oom2);
    }
  }

  lemma GetSteady(s: State, e: Event)
    requires Inv(s) && Enabled(s, e) && (e.GetOne? || e.GetTwo?)
    ensures Steady(s.holds, Next(s, e).holds)
  {
    hide Inv, Asked, TryLock, TryLock2, OnlyTicket;
    NewOwnsNothing(s, e.t);
    if e.GetOne? {
      TryLockOnlyTicket(s, Key(e.t, false), e.r, e.oom);
    } else {
      TryLock2OnlyTicket(s, e.t, e.r1, e.r2, e.oom1, e.oom2);
    }
    OnlyTicketSteady(s.holds, Next(s, e).holds, e.t);
  }

  lemma TryLockOnlyTicket(s: State, k: Key, r: Request, oom: bool)
    ensures OnlyTicket(s.holds, TryLock(s, k, r, oom).1.holds, k.ticket)
  {
    hide TryPath, HoldFor;
  }

  lemma TryLock2OnlyTicket(s: State, t: Ticket, r1: Request, r2: Request, oom1: bool, oom2: bool)
    ensures OnlyTicket(s.holds, TryLock2(s, t, r1, r2, oom1, oom2).1.holds, t)
  {
    hide TryLock, OnlyTicket, GiveBack, Others;
    var s1 := TryLock(s, Key(t, false), r1, oom1).1;
    var s2 := TryLock(s1, Key(t, true), r2, oom2).1;
    TryLockOnlyTicket(s, Key(t, false), r1, oom1);
    TryLockOnlyTicket(s1, Key(t, true), r2, oom2);
    OnlyTicketTransitive(s.holds, s1.holds, s2.holds, t);
    OthersOnly(s2.holds, t);
    OnlyTicketTransitive(s.holds, s2.holds, Others(s2.holds, t), t);
  }

  lemma OnlyTicketTransitive(a: Holds, b: Holds, c: Holds, t: Ticket)
    requires OnlyTicket(a, b, t) && OnlyTicket(b, c, t)
    ensures OnlyTicket(a, c, t)
  {
    forall k: Key | k.ticket != t ensures SameHold(a, c, k) {
      assert SameHold(a, b, k) && SameHold(b, c, k);
    }
  }

  lemma OnlyTicketSteady(a: Holds, b: Holds, t: Ticket)
    requires OnlyTicket(a, b, t) && OwnsNothing(a, t)
    ensures Steady(a, b)
  {
    forall k | k in a && k in b ensures a[k] == b[k] {
      assert k == Key(k.ticket, false) || k == Key(k.ticket, true);
      assert SameHold(a, b, k);
    }
  }

  /** Over a step a hold that stays is the same hold. */
  lemma NextSteady(s: State, e: Event)
    requires Inv(s) && Enabled(s, e)
    ensures Steady(s.holds, Next(s, e).holds)
  {
    hide Inv, TargetsKnown, WakeFrom, GiveBack;
    if e.GetOne? || e.GetTwo? {
      GetSteady(s, e);
    } else if e.Free? {
      EndedInv(s, e.t);
      EndedKnown(s, e.t);
      WakeFromSteady(Ended(s, e.t), 0, e.f);
      EndedGone(s, e.t, e.f);
      var last := WakeFrom(Ended(s, e.t), 0, e.f).holds;
      forall k | k in s.holds && k in last ensures s.holds[k] == last[k] {
        assert k in Ended(s, e.t).holds;
      }
    }
  }

  /** Waking others does not bring back what the finished call gave up. */
  lemma EndedGone(s: State, t: Ticket, f: Failures)
    requires Inv(s) && t in s.granted && |f| == |s.queue|
    ensures forall k {:trigger k in WakeFrom(Ended(s, t), 0, f).holds} :: k in WakeFrom(Ended(s, t), 0, f).holds ==>
      k.ticket != t
  {
    UngrantInv(s, t);
    var s1 := Ended(s, t);
    NotQueuedSame(s, s1, t);
    OthersOnly(s.holds, t);
    hide Inv, WakeFrom;
    forall k | k in WakeFrom(s1, 0, f).holds ensures k.ticket != t {
      assert k == Key(k.ticket, false) || k == Key(k.ticket, true);
      if k.ticket == t {
        WakeFromOthers(s1, 0, f, k);
      }
    }
  }

  /** From grant to release a hold names the same directory, chain and child, and its chain
      is the way from the directory to the root in every state in between. */
  lemma {:induction false} HoldConstant(ss: seq<State>, es: seq<Event>, i: int, j: int, k: Key)
    requires IsRun(ss, es) && 0 <= i <= j < |ss| && forall m {:trigger ss[m]} :: i <= m <= j ==> k in ss[m].holds
    ensures k in ss[i].holds && k in ss[j].holds && ss[j].holds[k] == ss[i].holds[k]
    ensures IsWalk(ss[j].core.tree, ss[i].holds[k].nodeid, ss[i].holds[k].chain + [ROOT])
    decreases j - i
  {
    hide Inv, Next, Enabled, IsWalk;
    RunInv(ss, es, j);
    HoldIntact(ss[j], k);
    if i < j {
      RunStep(ss, es, j - 1);
      RunInv(ss, es, j - 1);
      HoldConstant(ss, es, i, j - 1, k);
      NextSteady(ss[j - 1], es[j - 1]);
    }
  }

  lemma HoldIntact(s: State, k: Key)
    requires Inv(s) && k in s.holds
    ensures IsWalk(s.core.tree, s.holds[k].nodeid, s.holds[k].chain + [ROOT])
  {
    InvSound(s);
    assert Intact(s.core, s.holds, k);
  }
}
