/** Every run of the machine keeps the invariant. */
module MachineRuns {
  import opened Basics
  import opened NodeTree
  import opened NodeIds
  import opened TreeLock
  import opened NodeLife
  import opened PathLock
  import opened NodeOps
  import opened TreeOps
  import opened PathQueue
  import opened QueueSafety
  import opened Machine

  // ---- calls that come and go ----

  ghost predicate NotQueued(s: State, t: Ticket) {
    forall i {:trigger s.queue[i]} :: 0 <= i < |s.queue| ==> s.queue[i].ticket != t
  }

  ghost predicate OnlyTicket(a: Holds, b: Holds, t: Ticket) {
    forall k: Key {:trigger SameHold(a, b, k)} :: k.ticket != t ==> SameHold(a, b, k)
  }

  /** Changing the locks of one call that neither waits nor runs. */
  lemma RelockInv(s: State, tl: Locks, holds: Holds, t: Ticket)
    requires Inv(s) && t in s.calls && t !in s.granted && NotQueued(s, t) && OnlyTicket(s.holds, holds, t)
    requires Sound(s.core.(treelock := tl), holds)
    ensures Inv(Relock(s, tl, holds))
  {
    hide Sound;
    var s' := Relock(s, tl, holds);
    forall k | k in holds ensures k.ticket in s'.calls {
      assert k.ticket != t ==> SameHold(s.holds, holds, k);
    }
    forall i | 0 <= i < |s'.queue| ensures ElemTied(s'.core, s'.holds, s'.queue[i]) {
      var u := s.queue[i].ticket;
      assert ElemTied(s.core, s.holds, s.queue[i]);
      assert SameHold(s.holds, holds, Key(u, false)) && SameHold(s.holds, holds, Key(u, true));
    }
    forall u | u in s'.granted ensures GrantTied(s', u, s'.granted[u]) {
      assert GrantTied(s, u, s.granted[u]);
      assert SameHold(s.holds, holds, Key(u, false)) && SameHold(s.holds, holds, Key(u, true));
    }
    forall n ensures PendingOk(s', n) {
      assert PendingOk(s, n);
    }
  }

  lemma NewCallInv(s: State, t: Ticket)
    requires Inv(s) && NewCall(s, t)
    ensures Inv(s.(calls := s.calls + {t})) && NotQueued(s, t) && t !in s.granted && OwnsNothing(s.holds, t)
  {
    hide Sound;
    var s' := s.(calls := s.calls + {t});
    forall u | u in s'.granted ensures GrantTied(s', u, s'.granted[u]) {
      assert GrantTied(s, u, s.granted[u]);
    }
    forall n ensures PendingOk(s', n) {
      assert PendingOk(s, n);
    }
  }

  lemma EndCallInv(s: State, t: Ticket)
    requires Inv(s) && t !in s.granted && NotQueued(s, t) && OwnsNothing(s.holds, t)
    ensures Inv(s.(calls := s.calls - {t}))
  {
    hide Sound;
    var s' := s.(calls := s.calls - {t});
    OwnedByOthers(s.holds, s.calls, t);
    RemoveOne(s.calls, t);
    forall u | u in s'.granted ensures GrantTied(s', u, s'.granted[u]) {
      assert GrantTied(s, u, s.granted[u]);
    }
    forall n ensures PendingOk(s', n) {
      assert PendingOk(s, n);
    }
  }

  lemma GrantInv(s: State, t: Ticket, g: Grant)
    requires Inv(s) && t in s.calls && NotQueued(s, t) && GrantTied(s, t, g)
    ensures Inv(s.(granted := s.granted[t := g]))
  {
    hide Sound;
    var s' := s.(granted := s.granted[t := g]);
    forall u | u in s'.granted ensures GrantTied(s', u, s'.granted[u]) {
      assert u != t ==> GrantTied(s, u, s.granted[u]);
    }
    forall n ensures PendingOk(s', n) {
      assert PendingOk(s, n);
    }
  }

  lemma UngrantInv(s: State, t: Ticket)
    requires Inv(s) && t in s.granted
    ensures Inv(s.(granted := s.granted - {t})) && NotQueued(s, t) && t in s.calls
  {
    hide Sound;
    var s' := s.(granted := s.granted - {t});
    forall u | u in s'.granted ensures GrantTied(s', u, s'.granted[u]) {
      assert GrantTied(s, u, s.granted[u]);
    }
    forall n ensures PendingOk(s', n) {
      assert PendingOk(s, n);
    }
  }

  // ---- get_path() and get_path2() ----

  lemma TryLockInv(s: State, k: Key, r: Request, oom: bool)
    requires Inv(s) && k.ticket in s.calls && k.ticket !in s.granted && NotQueued(s, k.ticket)
    requires k !in s.holds && Asked(s.core, k.ticket, r)
    ensures var (e, s') := TryLock(s, k, r, oom);
      && Inv(s') && (e == OK <==> k in s'.holds) && (e == OK ==> s'.holds == s.holds[k := HoldFor(s.core, r)])
      && (e != OK ==> s'.holds == s.holds) && s' == Relock(s, s'.core.treelock, s'.holds)
  {
    hide Inv, Sound, Owned, TryPath, HoldFor, Asked, NotQueued, OnlyTicket;
    var (e, s') := TryLock(s, k, r, oom);
    InvParts(s);
    RoomForOne(s.holds, s.calls, k, HoldFor(s.core, r));
    TryLockSound(s, k, r, oom);
    GrowOnly(s.holds, k, HoldFor(s.core, r));
    RelockInv(s, s'.core.treelock, s'.holds, k.ticket);
  }

  lemma InvParts(s: State)
    requires Inv(s)
    ensures Sound(s.core, s.holds) && Owned(s.holds, s.calls) && |s.calls| <= MAX_CALLS
  {
    hide Sound, Owned;
  }

  lemma GrowOnly(holds: Holds, k: Key, h: Hold)
    ensures OnlyTicket(holds, holds, k.ticket) && OnlyTicket(holds, holds[k := h], k.ticket)
  {
  }

  lemma OthersOnly(holds: Holds, t: Ticket)
    ensures OnlyTicket(holds, Others(holds, t), t) && OwnsNothing(Others(holds, t), t)
  {
  }

  lemma ReleaseInv(s: State, t: Ticket)
    requires Inv(s) && t in s.calls && t !in s.granted && NotQueued(s, t)
    ensures Inv(Release(s, t)) && OwnsNothing(Release(s, t).holds, t)
  {
    hide Inv, Sound, NotQueued, OnlyTicket, Others, GiveBack;
    InvSound(s);
    GiveBackSound(s.core, s.holds, t);
    OthersOnly(s.holds, t);
    RelockInv(s, GiveBack(s.core.treelock, s.holds, t), Others(s.holds, t), t);
  }

  /** The call is registered, its holds are settled: turn it into a running call, a waiting
      one, or none. */
  lemma SettleInv(s: State, t: Ticket, r1: Request, r2: Option<Request>, e: Err)
    requires Inv(s) && t in s.calls && t !in s.granted && NotQueued(s, t)
    requires e == OK ==> GrantTied(s, t, Grant(r1, r2))
    requires e != OK ==> OwnsNothing(s.holds, t)
    requires Kept(s.core, t, r1.nodeid) && (r2.Some? ==> Kept(s.core, t, r2.value.nodeid))
    ensures Inv(Settle(s.(calls := s.calls - {t}), t, r1, r2, e))
  {
    if e == OK {
      GrantInv(s, t, Grant(r1, r2));
      assert s.calls - {t} + {t} == s.calls;
    } else {
      EndCallInv(s, t);
      if e == EAGAIN {
        Shorter(s.calls, t);
        assert |s.calls| <= MAX_CALLS;
        hide Inv;
        Enqueue(s.(calls := s.calls - {t}), Waiting(t, r1, r2));
      }
    }
  }

  lemma Shorter(calls: set<Ticket>, t: Ticket)
    requires t in calls
    ensures |calls - {t}| < |calls|
  {
  }

  lemma GetOneInv(s: State, t: Ticket, r: Request, oom: bool)
    requires Inv(s) && Enabled(s, GetOne(t, r, oom))
    ensures Inv(GetPath(s, t, r, oom))
  {
    hide Inv, NotQueued, TryPath;
    var s0 := s.(calls := s.calls + {t});
    NewCallInv(s, t);
    NotQueuedFrame(s, s0, t);
    TryLockInv(s0, Key(t, false), r, oom);
    var (e, s1) := TryLock(s0, Key(t, false), r, oom);
    NotQueuedFrame(s0, s1, t);
    assert s.calls + {t} - {t} == s.calls;
    SettleInv(s1, t, r, None, e);
  }

  lemma NotQueuedFrame(s: State, s': State, t: Ticket)
    requires NotQueued(s, t) && s'.queue == s.queue
    ensures NotQueued(s', t)
  {
  }

  lemma AskedRelocked(c: Core, tl: Locks, t: Ticket, r: Request)
    requires Asked(c, t, r)
    ensures Asked(c.(treelock := tl), t, r)
  {
  }

  lemma GetTwoInv(s: State, t: Ticket, r1: Request, r2: Request, oom1: bool, oom2: bool)
    requires Inv(s) && Enabled(s, GetTwo(t, r1, r2, oom1, oom2))
    ensures Inv(GetPath2(s, t, r1, r2, oom1, oom2))
  {
    hide Inv, NotQueued, Asked, TryLock2, OwnsNothing, Kept;
    var s0 := s.(calls := s.calls + {t});
    NewCallInv(s, t);
    NotQueuedFrame(s, s0, t);
    TryLock2Inv(s0, t, r1, r2, oom1, oom2);
    TryLock2Calls(s, t, r1, r2, oom1, oom2, s0.calls);
    var (e, s1) := TryLock2(s0, t, r1, r2, oom1, oom2);
    NotQueuedFrame(s0, s1, t);
    assert s.calls + {t} - {t} == s.calls;
    SettleInv(s1, t, r1, Some(r2), e);
  }

  /** Which calls are registered does not matter to try_get_path2(). */
  lemma TryLock2Calls(s: State, t: Ticket, r1: Request, r2: Request, oom1: bool, oom2: bool, calls: set<Ticket>)
    ensures TryLock2(s.(calls := calls), t, r1, r2, oom1, oom2).0 == TryLock2(s, t, r1, r2, oom1, oom2).0
    ensures TryLock2(s.(calls := calls), t, r1, r2, oom1, oom2).1 ==
      TryLock2(s, t, r1, r2, oom1, oom2).1.(calls := calls)
    ensures TryLock2(s, t, r1, r2, oom1, oom2).1.calls == s.calls
  {
    hide TryPath, GiveBack, Others, HoldFor;
  }

  /** try_get_path2(): both paths or neither. */
  lemma TryLock2Inv(s: State, t: Ticket, r1: Request, r2: Request, oom1: bool, oom2: bool)
    requires Inv(s) && t in s.calls && t !in s.granted && NotQueued(s, t) && OwnsNothing(s.holds, t)
    requires Asked(s.core, t, r1) && Asked(s.core, t, r2)
    ensures var (e, s') := TryLock2(s, t, r1, r2, oom1, oom2);
      && Inv(s') && s' == Relock(s, s'.core.treelock, s'.holds)
      && (e == OK ==> GrantTied(s', t, Grant(r1, Some(r2)))) && (e != OK ==> OwnsNothing(s'.holds, t))
      && Kept(s'.core, t, r1.nodeid) && Kept(s'.core, t, r2.nodeid)
  {
    hide Inv, NotQueued, TryPath, TargetKnown, GiveBack, Others;
    var k, l := Key(t, false), Key(t, true);
    TryLockInv(s, k, r1, oom1);
    var (e1, s1) := TryLock(s, k, r1, oom1);
    if e1 == OK {
      NotQueuedFrame(s, s1, t);
      AskedRelocked(s.core, s1.core.treelock, t, r2);
      TryLockInv(s1, l, r2, oom2);
      var (e2, s2) := TryLock(s1, l, r2, oom2);
      if e2 != OK {
        NotQueuedFrame(s1, s2, t);
        ReleaseInv(s2, t);
      }
    }
  }

  // ---- free_path() ----

  lemma EndedInv(s: State, t: Ticket)
    requires Inv(s) && t in s.granted
    ensures Inv(Ended(s, t))
  {
    var s1 := s.(granted := s.granted - {t});
    UngrantInv(s, t);
    NotQueuedFrame(s, s1, t);
    hide Inv, NotQueued;
    ReleaseInv(s1, t);
    NotQueuedFrame(s1, Release(s1, t), t);
    EndCallInv(Release(s1, t), t);
  }

  lemma FreeInv(s: State, t: Ticket, f: Failures)
    requires t in s.granted && |f| == |s.queue| && TargetsKnown(s) && Inv(s)
    ensures Inv(WakeFrom(Ended(s, t), 0, f))
  {
    hide Inv, TargetsKnown;
    EndedInv(s, t);
    EndedKnown(s, t);
    WakeAllInv(Ended(s, t), 0, f);
  }

  lemma EndedKnown(s: State, t: Ticket)
    requires TargetsKnown(s)
    ensures TargetsKnown(Ended(s, t))
  {
    var s1 := Ended(s, t);
    forall i | 0 <= i < |s1.queue| ensures ElemKnown(s1.core, s1.queue[i]) {
      assert ElemKnown(s.core, s.queue[i]);
    }
  }

  // ---- pins ----

  lemma PinInv(s: State, t: Ticket, n: Id)
    requires Inv(s) && Enabled(s, Pin(t, n))
    ensures Inv(Next(s, Pin(t, n)))
  {
    hide Inv, Sound, Quiet, Pinned;
    InvSound(s);
    PinnedSound(s.core, t, n, s.holds);
    PinnedQuiet(s.core, t, n);
    QuietStep(s, Pinned(s.core, t, n));
  }

  lemma PinnedQuiet(c: Core, t: Ticket, n: Id)
    requires t !in c.pinned
    ensures Quiet(c, Pinned(c, t, n))
  {
  }

  lemma UnpinInv(s: State, t: Ticket)
    requires Inv(s) && Enabled(s, Unpin(t))
    ensures Inv(Next(s, Unpin(t)))
  {
    hide Inv, Sound, Unpinned, Needed, Shrunk;
    InvSound(s);
    NewOwnsNothing(s, t);
    UnpinnedSound(s.core, t, s.holds);
    UnpinNeeded(s, t);
    CoreStep(s, Unpinned(s.core, t));
  }

  lemma UnpinNeeded(s: State, t: Ticket)
    requires Inv(s) && t in s.core.pinned && t !in s.calls
    requires Shrunk(s.core.(pinned := s.core.pinned - {t}), Unpinned(s.core, t))
    ensures Needed(s, Unpinned(s.core, t))
  {
    hide Sound, Unpinned, Owned;
    var c, d := s.core.(pinned := s.core.pinned - {t}), Unpinned(s.core, t);
    forall i | 0 <= i < |s.queue| ensures ElemKept(d, s.queue[i]) {
      var q := s.queue[i];
      assert ElemTied(s.core, s.holds, q) && q.ticket != t;
      if q.Wait? {
        assert Kept(c, q.ticket, q.r1.nodeid) && (q.r2.Some? ==> Kept(c, q.ticket, q.r2.value.nodeid));
      }
    }
    forall n | Pending(s.queue, n) > 0 ensures n in d.nlookup && d.nlookup[n] >= Pending(s.queue, n) {
      assert PendingOk(s, n);
      assert Kept(c, t, n);
    }
  }

  // ---- every step, every run ----

  /** Every critical section keeps the invariant. */
  lemma NextInv(s: State, e: Event)
    requires Inv(s) && Enabled(s, e)
    ensures Inv(Next(s, e))
  {
    InvSound(s);
    match e
    case GetOne(t, r, oom) => GetOneInv(s, t, r, oom);
    case GetTwo(t, r1, r2, oom1, oom2) => GetTwoInv(s, t, r1, r2, oom1, oom2);
    case Resume(i) => ResumedInv(s, i);
    case Free(t, f) => FreeInv(s, t, f);
    case StartForget(t, n, count) => StartForgetInv(s, t, n, count);
    case ResumeForget(i) => ResumeForgetInv(s, i);
    case Find(dir, name, noNode, noName) => FindInv(s, dir, name, noNode, noName);
    case Remove(t, dir, name) => RemoveInv(s, t, dir, name);
    case Rename(t, olddir, oldname, newdir, newname, hiding, oom) =>
      RenameInv(s, t, olddir, oldname, newdir, newname, hiding, oom);
    case Exchange(t, olddir, oldname, newdir, newname, oom1, oom2) =>
      ExchangeInv(s, t, olddir, oldname, newdir, newname, oom1, oom2);
    case Pin(t, n) => PinInv(s, t, n);
    case Unpin(t) => UnpinInv(s, t);
  }

  lemma FindInv(s: State, dir: Id, name: Option<string>, noNode: bool, noName: bool)
    requires Inv(s) && Enabled(s, Find(dir, name, noNode, noName))
    ensures Inv(Next(s, Find(dir, name, noNode, noName)))
  {
    hide Inv, Sound, Quiet, Found, Draw, Misses;
    InvSound(s);
    DrawIsFree(s.core.tree, s.ids);
    var d := Found(s.core, dir, name, NewId(s), noNode || noName);
    FoundSound(s.core, s.holds, dir, name, NewId(s), noNode || noName);
    QuietStep(s, d);
    CountersInv(s.(core := d), Next(s, Find(dir, name, noNode, noName)).ids);
  }

  /** The counters that number nodes do not matter to the invariant. */
  lemma CountersInv(s: State, ids: Ids)
    requires Inv(s)
    ensures Inv(s.(ids := ids))
  {
    hide Sound, Owned, ElemTied, Disciplined;
    var s' := s.(ids := ids);
    forall t | t in s'.granted ensures GrantTied(s', t, s'.granted[t]) {
      assert GrantTied(s, t, s.granted[t]);
    }
    forall n ensures PendingOk(s', n) {
      assert PendingOk(s, n);
    }
  }

  lemma RemoveInv(s: State, t: Ticket, dir: Id, name: string)
    requires Inv(s) && Enabled(s, Remove(t, dir, name))
    ensures Inv(Next(s, Remove(t, dir, name)))
  {
    hide Inv, Sound, Quiet, Removed, MayChange;
    InvSound(s);
    RemovedSound(s.core, s.holds, t, dir, name);
    QuietStep(s, Removed(s.core, dir, name));
  }

  lemma RenameInv(s: State, t: Ticket, olddir: Id, oldname: string, newdir: Id, newname: string, hiding: bool,
    oom: bool)
    requires Inv(s) && Enabled(s, Rename(t, olddir, oldname, newdir, newname, hiding, oom))
    ensures Inv(Next(s, Rename(t, olddir, oldname, newdir, newname, hiding, oom)))
  {
    hide Inv, Sound, Quiet, Renamed, MayChange, MayReplace, RenamedTree;
    InvSound(s);
    RenamedSound(s.core, s.holds, t, olddir, oldname, newdir, newname, hiding, oom);
    QuietStep(s, Renamed(s.core, olddir, oldname, newdir, newname, hiding, oom));
  }

  lemma ExchangeInv(s: State, t: Ticket, olddir: Id, oldname: string, newdir: Id, newname: string, oom1: bool,
    oom2: bool)
    requires Inv(s) && Enabled(s, Exchange(t, olddir, oldname, newdir, newname, oom1, oom2))
    ensures Inv(Next(s, Exchange(t, olddir, oldname, newdir, newname, oom1, oom2)))
  {
    hide Inv, Sound, Quiet, Exchanged, MayChange, ExchangedTree;
    InvSound(s);
    ExchangedSound(s.core, s.holds, t, olddir, oldname, newdir, newname, oom1, oom2);
    QuietStep(s, Exchanged(s.core, olddir, oldname, newdir, newname, oom1, oom2));
  }
}
