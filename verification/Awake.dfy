/** Nobody is left asleep: a wakeup finishes exactly the calls whose paths can be taken, and
    once free_path() has gone through the queue no call waits for paths that it could have. */
module Awake {
  import opened TreeLock
  import opened NodeLife
  import opened PathLock
  import opened PathQueue
  import opened QueueSafety
  import opened Machine
  import opened MachineRuns
  import opened QueueTheorems

  // ---- locks that only tighten ----

  /** No node is easier to lock under `tl'` than under `tl`. */
  ghost predicate NoLooser(tl: Locks, tl': Locks) {
    && tl'.Keys == tl.Keys
    && forall n {:trigger tl[n]} {:trigger tl'[n]} :: n in tl ==>
      (tl'[n] >= 0 ==> tl[n] >= 0) && (tl'[n] == 0 ==> tl[n] == 0)
  }

  lemma NoLooserTransitive(a: Locks, b: Locks, c: Locks)
    requires NoLooser(a, b) && NoLooser(b, c)
    ensures NoLooser(a, c)
  {
    forall n | n in a ensures (c[n] >= 0 ==> a[n] >= 0) && (c[n] == 0 ==> a[n] == 0) {
      assert n in b;
      assert c[n] >= 0 ==> b[n] >= 0;
    }
  }

  lemma MarkTightens(tl: Locks, holds: Holds, tl': Locks)
    requires Faithful(tl, holds) && AtMostMarked(tl, tl')
    ensures NoLooser(tl, tl')
  {
    if m :| m in tl && tl[m] > 0 && tl' == Marked(tl, m) {
      assert FaithfulAt(tl, holds, m);
    }
  }

  lemma LockTightens(tl: Locks, h: Hold)
    requires forall n :: n in h.chain ==> n in tl && tl[n] >= 0
    requires h.wnode.Some? ==> h.wnode.value in tl && tl[h.wnode.value] == 0
    ensures NoLooser(tl, LockPath(tl, h.chain, h.wnode))
  {
  }

  /** The same path taken on both sides. */
  lemma LockBoth(tl: Locks, tl': Locks, h: Hold)
    requires NoLooser(tl, tl')
    requires forall n :: n in h.chain && n in tl ==> tl[n] >= 0 && tl'[n] >= 0
    ensures NoLooser(LockPath(tl, h.chain, h.wnode), LockPath(tl', h.chain, h.wnode))
  {
    var a, b := LockPath(tl, h.chain, h.wnode), LockPath(tl', h.chain, h.wnode);
    forall n | n in a ensures (b[n] >= 0 ==> a[n] >= 0) && (b[n] == 0 ==> a[n] == 0) {
      assert n in tl && n in tl';
      assert tl'[n] >= 0 ==> tl[n] >= 0;
    }
  }

  lemma OpenBefore(c: Core, tl: Locks, h: Hold)
    requires NoLooser(c.treelock, tl) && Open(c.(treelock := tl), h)
    ensures Open(c, h)
  {
    forall j | 0 <= j < |h.chain| ensures At(c.treelock, h.chain[j]) >= 0 {
      assert At(tl, h.chain[j]) >= 0;
    }
  }

  // ---- who could go on ----

  ghost function Taken(c: Core, h: Hold): Core {
    c.(treelock := LockPath(c.treelock, h.chain, h.wnode))
  }

  /** The paths that the waiting call still lacks can be taken, one after the other. */
  ghost predicate CouldFinish(c: Core, q: Elem)
    requires q.Wait?
  {
    var h1 := HoldFor(c, q.r1);
    && (!q.first ==> Open(c, h1))
    && (!q.second && q.r2.Some? ==> Open(if q.first then c else Taken(c, h1), HoldFor(c, q.r2.value)))
  }

  /** Tightening lets nobody through. */
  lemma CouldBefore(c: Core, tl: Locks, q: Elem)
    requires c.treelock.Keys == c.tree.Keys
    requires q.Wait? && NoLooser(c.treelock, tl) && CouldFinish(c.(treelock := tl), q)
    ensures CouldFinish(c, q)
  {
    var d, h1 := c.(treelock := tl), HoldFor(c, q.r1);
    assert HoldFor(d, q.r1) == h1;
    assert q.r2.Some? ==> HoldFor(d, q.r2.value) == HoldFor(c, q.r2.value);
    hide HoldFor, Open, NoLooser, LockPath;
    if !q.first {
      OpenBefore(c, tl, h1);
    }
    if !q.second && q.r2.Some? {
      var h2 := HoldFor(c, q.r2.value);
      if q.first {
        OpenBefore(c, tl, h2);
      } else {
        OpenMembers(c, h1);
        NoLooserKeys(c.treelock, tl);
        OpenMembers(d, h1);
        LockBoth(c.treelock, tl, h1);
        OpenBefore(Taken(c, h1), LockPath(tl, h1.chain, h1.wnode), h2);
      }
    }
  }

  lemma NoLooserKeys(tl: Locks, tl': Locks)
    requires NoLooser(tl, tl')
    ensures tl'.Keys == tl.Keys
  {
  }

  // ---- one attempt ----

  /** What an attempt for a path that is still lacking does. */
  lemma Attempt(s: State, i: int, second: bool, oom: bool)
    requires Tidy(s) && 0 <= i < |s.queue| && s.queue[i].Wait?
    requires !Has(s.queue[i], second) && Wanted(s.queue[i], second).Some?
    ensures var (e, s') := WakePath(s, i, second, oom); var q, r := s.queue[i], Wanted(s.queue[i], second).value;
      var h := HoldFor(s.core, r);
      && (e == OK <==> !oom && Open(s.core, h)) && (e == EAGAIN ==> !Open(s.core, h))
      && (e == OK ==> s'.core == Taken(s.core, h) && s'.holds == s.holds[Key(q.ticket, second) := h])
      && (e != OK ==> s'.holds == s.holds && s'.core == s.core.(treelock := s'.core.treelock))
      && (e != OK ==> AtMostMarked(s.core.treelock, s'.core.treelock))
      && (!oom ==> e != ENOMEM)
  {
    var q, r := s.queue[i], Wanted(s.queue[i], second).value;
    TidyParts(s, i);
    KeptUsable(s.core, s.holds, q);
    TryPathMeans(s.core, s.holds, r, oom);
    OneFailureMarks(s.core, r, oom);
    OutcomeBroken(s.core, s.holds, r);
    hide Tidy, Sound, ElemTied, Owned, Usable, Open, AtMostMarked;
  }

  lemma OpenTarget(c: Core, r: Request)
    requires Usable(c, r) && Open(c, HoldFor(c, r))
    ensures var h := HoldFor(c, r); h.wnode.Some? ==>
      h.wnode.value in c.treelock && c.treelock[h.wnode.value] == 0 && h.wnode.value !in h.chain
  {
    GrantedIff(c, r);
    GrantTargetOff(c, r);
  }

  lemma AttemptTightens(s: State, i: int, second: bool, oom: bool)
    requires Tidy(s) && 0 <= i < |s.queue| && s.queue[i].Wait?
    ensures NoLooser(s.core.treelock, WakePath(s, i, second, oom).1.core.treelock)
  {
    var q := s.queue[i];
    if !Has(q, second) && Wanted(q, second).Some? {
      var h := HoldFor(s.core, Wanted(q, second).value);
      Attempt(s, i, second, oom);
      TidyParts(s, i);
      KeptUsable(s.core, s.holds, q);
      SoundFaithful(s.core, s.holds);
      hide WakePath, Tidy, Sound, ElemTied, HoldFor, Open, NoLooser, AtMostMarked, LockPath, Usable, SameDomains,
        Faithful;
      if WakePath(s, i, second, oom).0 == OK {
        OpenMembers(s.core, h);
        OpenTarget(s.core, Wanted(q, second).value);
        LockTightens(s.core.treelock, h);
      } else {
        MarkTightens(s.core.treelock, s.holds, WakePath(s, i, second, oom).1.core.treelock);
      }
    }
  }

  // ---- giving back ----

  lemma GiveBackNothing(tl: Locks, holds: Holds, t: Ticket)
    requires OwnsNothing(holds, t)
    ensures GiveBack(tl, holds, t) == tl
  {
    assert holds - {Key(t, false)} == holds;
  }

  lemma GiveBackSecond(tl: Locks, holds: Holds, t: Ticket, h: Hold)
    requires OwnsNothing(holds, t)
    ensures GiveBack(tl, holds[Key(t, true) := h], t) == UnlockPath(tl, h.chain, h.wnode)
  {
    assert Key(t, false) != Key(t, true);
    var holds' := holds[Key(t, true) := h];
    assert holds' - {Key(t, false)} == holds';
  }

  /** The call in the queue at `i` has nothing yet. */
  ghost predicate EmptyHanded(s: State, i: int) {
    && Tidy(s) && 0 <= i < |s.queue| && s.queue[i].Wait? && ElemKnown(s.core, s.queue[i])
    && !s.queue[i].first && !s.queue[i].second
  }

  lemma EmptyHandedOwns(s: State, i: int)
    requires EmptyHanded(s, i)
    ensures OwnsNothing(s.holds, s.queue[i].ticket)
  {
    TidyParts(s, i);
  }

  lemma UnlockElemLocks(s: State, i: int)
    requires 0 <= i < |s.queue| && s.queue[i].Wait?
    ensures UnlockElem(s, i).core.treelock == GiveBack(s.core.treelock, s.holds, s.queue[i].ticket)
  {
  }

  lemma StillEmptyHanded(s: State, i: int, oom: bool)
    requires EmptyHanded(s, i) && WakePath(s, i, false, oom).0 != OK
    ensures var s1 := WakePath(s, i, false, oom).1;
      EmptyHanded(s1, i) && NoLooser(s.core.treelock, s1.core.treelock) && s1.queue[i] == s.queue[i]
  {
    Attempt(s, i, false, oom);
    AttemptTightens(s, i, false, oom);
    WakePathTidy(s, i, false, oom);
    WakePathElem(s, i, false, oom);
    OnlyKnown(s, WakePath(s, i, false, oom).1, i);
    hide WakePath, Tidy, ElemKnown, NoLooser, HoldFor, Open, AtMostMarked, Only;
  }

  lemma EmptyUnlock(s: State, i: int)
    requires EmptyHanded(s, i)
    ensures UnlockElem(s, i).core.treelock == s.core.treelock
  {
    hide Tidy, ElemKnown, UnlockElem, GiveBack, OwnsNothing;
    EmptyHandedOwns(s, i);
    UnlockElemLocks(s, i);
    GiveBackNothing(s.core.treelock, s.holds, s.queue[i].ticket);
  }

  /** The first path cannot be had: giving back leaves no node easier to lock. */
  lemma FirstMissed(s: State, i: int, oom1: bool, oom2: bool)
    requires EmptyHanded(s, i) && WakePath(s, i, false, oom1).0 != OK
    ensures var s1 := WakePath(s, i, false, oom1).1; var s2 := WakePath(s1, i, true, oom2).1;
      && NoLooser(s.core.treelock, UnlockElem(s1, i).core.treelock)
      && NoLooser(s.core.treelock, UnlockElem(s2, i).core.treelock)
  {
    hide Tidy, ElemKnown, TryLock, UnlockElem, NoLooser;
    var s1 := WakePath(s, i, false, oom1).1;
    StillEmptyHanded(s, i, oom1);
    EmptyUnlock(s1, i);
    if s.queue[i].r2.Some? {
      SecondUndone(s1, i, oom2);
      NoLooserTransitive(s.core.treelock, s1.core.treelock,
                         UnlockElem(WakePath(s1, i, true, oom2).1, i).core.treelock);
    }
  }

  /** A second path alone is given back without a trace. */
  lemma SecondUndone(s: State, i: int, oom: bool)
    requires EmptyHanded(s, i) && s.queue[i].r2.Some?
    ensures NoLooser(s.core.treelock, UnlockElem(WakePath(s, i, true, oom).1, i).core.treelock)
  {
    hide WakePath, UnlockElem, Tidy, Sound, ElemKnown, ElemTied, HoldFor, Open, AtMostMarked, LockPath, UnlockPath,
      Usable, SameDomains, Faithful, GiveBack, OwnsNothing;
    var q, t, h := s.queue[i], s.queue[i].ticket, HoldFor(s.core, s.queue[i].r2.value);
    var (e, s') := WakePath(s, i, true, oom);
    EmptyHandedOwns(s, i);
    Attempt(s, i, true, oom);
    AttemptTightens(s, i, true, oom);
    WakePathElem(s, i, true, oom);
    UnlockElemLocks(s', i);
    if e == OK {
      TidyParts(s, i);
      KeptUsable(s.core, s.holds, q);
      SoundFaithful(s.core, s.holds);
      OpenMembers(s.core, h);
      OpenTarget(s.core, q.r2.value);
      GiveBackSecond(s'.core.treelock, s.holds, t, h);
      UnlockUndoesLock(s.core.treelock, h.chain, h.wnode);
    } else {
      GiveBackNothing(s'.core.treelock, s.holds, t);
    }
  }

  /** The first path is given back because the second cannot be had. */
  lemma SecondMissed(s: State, i: int, oom1: bool, oom2: bool)
    requires EmptyHanded(s, i) && WakePath(s, i, false, oom1).0 == OK
    requires WakePath(WakePath(s, i, false, oom1).1, i, true, oom2).0 != OK
    ensures var s2 := WakePath(WakePath(s, i, false, oom1).1, i, true, oom2).1;
      NoLooser(s.core.treelock, UnlockElem(s2, i).core.treelock)
  {
    var q, t, h, s1 := s.queue[i], s.queue[i].ticket, HoldFor(s.core, s.queue[i].r1), WakePath(s, i, false, oom1).1;
    var s2 := WakePath(s1, i, true, oom2).1;
    EmptyHandedOwns(s, i);
    Attempt(s, i, false, oom1);
    WakePathTidy(s, i, false, oom1);
    WakePathElem(s, i, false, oom1);
    WakePathLacks(s1, i, true, oom2);
    Attempt(s1, i, true, oom2);
    WakePathElem(s1, i, true, oom2);
    TidyParts(s, i);
    KeptUsable(s.core, s.holds, q);
    SoundFaithful(s.core, s.holds);
    UnlockElemLocks(s2, i);
    hide WakePath, UnlockElem, Tidy, Sound, ElemTied, HoldFor, Open, AtMostMarked, LockPath, UnlockPath, Usable,
      SameDomains, Faithful, GiveBack, OwnsNothing;
    OpenMembers(s.core, h);
    OpenTarget(s.core, q.r1);
    GiveBackSingle(s2.core.treelock, s.holds, t, h);
    UnlockAfterMark(s.core.treelock, h.chain, h.wnode, s2.core.treelock);
    MarkTightens(s.core.treelock, s.holds, UnlockPath(s2.core.treelock, h.chain, h.wnode));
  }

  // ---- one wakeup ----

  /** Behind the head a waiting call has nothing or all that it wants. */
  lemma BehindHead(s: State, i: int)
    requires Inv(s) && TargetsKnown(s) && 0 < i < |s.queue| && s.queue[i].Wait?
    ensures EmptyHanded(s, i) || HasAll(s.queue[i])
    ensures !s.queue[i].done ==> EmptyHanded(s, i)
  {
    hide Tidy, ElemKnown;
    assert Disciplined(s.queue[i], false);
    assert ElemKnown(s.core, s.queue[i]);
  }

  predicate HasAll(q: Elem) {
    q.Wait? && q.first && (q.r2.Some? ==> q.second)
  }

  lemma NothingToDo(s: State, i: int, oom1: bool, oom2: bool)
    requires 0 <= i < |s.queue| && HasAll(s.queue[i])
    ensures Wakeup(s, i, oom1, oom2).core == s.core
  {
  }

  /** A wakeup behind the head leaves no node easier to lock. */
  lemma WakeupTightens(s: State, i: int, oom1: bool, oom2: bool)
    requires Inv(s) && TargetsKnown(s) && 0 < i < |s.queue| && s.queue[i].Wait?
    ensures NoLooser(s.core.treelock, Wakeup(s, i, oom1, oom2).core.treelock)
  {
    hide Inv, TargetsKnown, EmptyHanded, Wakeup;
    BehindHead(s, i);
    if HasAll(s.queue[i]) {
      NothingToDo(s, i, oom1, oom2);
    } else {
      EmptyWakeupTightens(s, i, oom1, oom2);
    }
  }

  lemma EmptyWakeupTightens(s: State, i: int, oom1: bool, oom2: bool)
    requires EmptyHanded(s, i) && i != 0
    ensures NoLooser(s.core.treelock, Wakeup(s, i, oom1, oom2).core.treelock)
  {
    hide Tidy, ElemKnown, WakePath, UnlockElem, NoLooser;
    var (e1, s1) := WakePath(s, i, false, oom1);
    var (e2, s2) := WakePath(s1, i, true, oom2);
    if e1 != OK {
      FirstMissed(s, i, oom1, oom2);
    } else if e2 != OK {
      SecondMissed(s, i, oom1, oom2);
    } else {
      EmptyHandedTidy(s, i, oom1);
      AttemptTightens(s, i, false, oom1);
      AttemptTightens(s1, i, true, oom2);
      NoLooserTransitive(s.core.treelock, s1.core.treelock, s2.core.treelock);
    }
  }

  lemma EmptyHandedTidy(s: State, i: int, oom: bool)
    requires EmptyHanded(s, i)
    ensures Tidy(s) && 0 <= i < |s.queue| && s.queue[i].Wait? && Tidy(WakePath(s, i, false, oom).1)
  {
    hide Tidy, ElemKnown, WakePath;
    WakePathTidy(s, i, false, oom);
  }

  /** The call at `i` still sleeps. */
  predicate Asleep(s: State, i: int) {
    0 <= i < |s.queue| && s.queue[i].Wait? && !s.queue[i].done
  }

  /** The call at `i` does not sleep in vain: it is done, or could not finish now. */
  ghost predicate Shut(s: State, i: int) {
    Asleep(s, i) ==> !CouldFinish(s.core, s.queue[i])
  }

  /** How a wakeup ends when the call is not done. */
  lemma NotDone(s: State, i: int, oom1: bool, oom2: bool)
    requires 0 <= i < |s.queue| && s.queue[i].Wait? && Asleep(Wakeup(s, i, oom1, oom2), i)
    ensures var (e1, s1) := WakePath(s, i, false, oom1); var (e2, s2) := WakePath(s1, i, true, oom2);
      && (e1 == EAGAIN || (e1 == OK && e2 == EAGAIN)) && !s.queue[i].done
      && Wakeup(s, i, oom1, oom2) == if i == 0 then s2 else UnlockElem(s2, i)
  {
    hide WakePath;
    WakeupElem(s, i, oom1, oom2);
  }

  /** Whoever is not done after a wakeup could not have finished before it. */
  lemma CouldNotFinish(s: State, i: int, oom1: bool, oom2: bool)
    requires Tidy(s) && 0 <= i < |s.queue| && s.queue[i].Wait? && ElemKnown(s.core, s.queue[i])
    requires Asleep(Wakeup(s, i, oom1, oom2), i)
    ensures !CouldFinish(s.core, s.queue[i])
  {
    hide Tidy, ElemKnown, WakePath, Wakeup, HoldFor, Open, AtMostMarked, LockPath;
    var q := s.queue[i];
    var (e1, s1) := WakePath(s, i, false, oom1);
    NotDone(s, i, oom1, oom2);
    WakePathLacks(s, i, false, oom1);
    if e1 == EAGAIN {
      Attempt(s, i, false, oom1);
    } else {
      WakePathLacks(s1, i, true, oom2);
      WakePathTidy(s, i, false, oom1);
      WakePathResult(s, i, false, oom1);
      Attempt(s1, i, true, oom2);
      if q.first {
        HasIsNoop(s, i, oom1);
      } else {
        Attempt(s, i, false, oom1);
        SameHoldFor(s.core, s1.core, q.r2.value);
      }
    }
  }

  lemma HasIsNoop(s: State, i: int, oom: bool)
    requires 0 <= i < |s.queue| && s.queue[i].Wait? && s.queue[i].first
    ensures WakePath(s, i, false, oom) == (OK, s)
  {
  }

  lemma SameHoldFor(c: Core, d: Core, r: Request)
    requires d == c.(treelock := d.treelock)
    ensures HoldFor(d, r) == HoldFor(c, r)
  {
  }

  /** As long as no allocation fails a wakeup finishes exactly the calls that can have all
      they lack. */
  lemma WakeupFinishesIff(s: State, i: int)
    requires Tidy(s) && Asleep(s, i) && ElemKnown(s.core, s.queue[i])
    ensures var q' := Wakeup(s, i, false, false).queue[i];
      q'.Wait? && (q'.done && q'.err == OK <==> CouldFinish(s.core, s.queue[i]))
  {
    hide Tidy, ElemKnown, WakePath, Wakeup, HoldFor, Open, AtMostMarked, LockPath;
    var q := s.queue[i];
    var (e1, s1) := WakePath(s, i, false, false);
    WakeupElem(s, i, false, false);
    WakePathTidy(s, i, false, false);
    WakePathResult(s, i, false, false);
    if q.first {
      HasIsNoop(s, i, false);
    } else {
      Attempt(s, i, false, false);
    }
    WakePathLacks(s1, i, true, false);
    if e1 == OK && !q.second && q.r2.Some? {
      Attempt(s1, i, true, false);
      SameHoldFor(s.core, s1.core, q.r2.value);
    }
  }

  /** For a call with empty hands this is what try_get_path() or try_get_path2() would say. */
  lemma AskingAgain(s: State, i: int)
    requires EmptyHanded(s, i)
    ensures var q := s.queue[i]; CouldFinish(s.core, q) <==>
      if q.r2.None? then TryLock(s, Key(q.ticket, false), q.r1, false).0 == OK
      else TryLock2(s, q.ticket, q.r1, q.r2.value, false, false).0 == OK
  {
    hide Tidy, ElemKnown, TryPath, HoldFor, Open, AtMostMarked, LockPath, Release;
    var q := s.queue[i];
    var (e1, s1) := WakePath(s, i, false, false);
    Attempt(s, i, false, false);
    if e1 == OK && q.r2.Some? {
      WakePathTidy(s, i, false, false);
      WakePathElem(s, i, false, false);
      Attempt(s1, i, true, false);
      SameHoldFor(s.core, s1.core, q.r2.value);
    }
  }

  /** After its wakeup a call that is not done could not finish. */
  lemma WakeupShuts(s: State, i: int, oom1: bool, oom2: bool)
    requires Inv(s) && TargetsKnown(s) && 0 <= i < |s.queue|
    ensures Shut(Wakeup(s, i, oom1, oom2), i)
  {
    hide Inv, TargetsKnown, Wakeup, CouldFinish;
    var s' := Wakeup(s, i, oom1, oom2);
    if s.queue[i].Wait? && Asleep(s', i) {
      InvElem(s, i);
      CouldNotFinish(s, i, oom1, oom2);
      if i == 0 {
        HeadShut(s, oom1, oom2);
      } else {
        BehindShut(s, i, oom1, oom2);
      }
    } else if s.queue[i].Forget? {
      ForgetStays(s, i, oom1, oom2);
    }
  }

  lemma ForgetStays(s: State, i: int, oom1: bool, oom2: bool)
    requires 0 <= i < |s.queue| && s.queue[i].Forget?
    ensures Wakeup(s, i, oom1, oom2) == s
  {
  }

  lemma InvElem(s: State, i: int)
    requires Inv(s) && TargetsKnown(s) && 0 <= i < |s.queue|
    ensures Tidy(s) && ElemKnown(s.core, s.queue[i])
  {
  }

  lemma BehindShut(s: State, i: int, oom1: bool, oom2: bool)
    requires Inv(s) && TargetsKnown(s) && 0 < i < |s.queue| && s.queue[i].Wait?
    requires Asleep(Wakeup(s, i, oom1, oom2), i)
    requires !CouldFinish(s.core, s.queue[i])
    ensures Shut(Wakeup(s, i, oom1, oom2), i)
  {
    hide Inv, TargetsKnown, Wakeup, WakePath, Sound, Tidy, ElemKnown, HoldFor, Open, NoLooser, Taken;
    var s' := Wakeup(s, i, oom1, oom2);
    WakeupOnly(s, i, oom1, oom2);
    WakeupTightens(s, i, oom1, oom2);
    BehindHead(s, i);
    NotDone(s, i, oom1, oom2);
    InvSound(s);
    SoundFaithful(s.core, s.holds);
    if CouldFinish(s'.core, s'.queue[i]) {
      assert CouldFinish(s'.core, s.queue[i]);
      CouldBefore(s.core, s'.core.treelock, s.queue[i]);
    }
  }

  lemma HeadShut(s: State, oom1: bool, oom2: bool)
    requires Inv(s) && TargetsKnown(s) && |s.queue| > 0 && s.queue[0].Wait?
    requires Asleep(Wakeup(s, 0, oom1, oom2), 0)
    ensures Shut(Wakeup(s, 0, oom1, oom2), 0)
  {
    hide Inv, TargetsKnown, Wakeup, WakePath, Tidy, ElemKnown, HoldFor, Open, NoLooser, Taken, AtMostMarked;
    var q := s.queue[0];
    var (e1, s1) := WakePath(s, 0, false, oom1);
    var s2 := WakePath(s1, 0, true, oom2).1;
    InvElem(s, 0);
    NotDone(s, 0, oom1, oom2);
    WakePathTidy(s, 0, false, oom1);
    WakePathOnly(s1, 0, true, oom2);
    WakePathResult(s, 0, false, oom1);
    WakePathResult(s1, 0, true, oom2);
    AttemptTightens(s1, 0, true, oom2);
    if e1 == EAGAIN {
      WakePathLacks(s, 0, false, oom1);
      Attempt(s, 0, false, oom1);
      AttemptTightens(s, 0, false, oom1);
      NoLooserTransitive(s.core.treelock, s1.core.treelock, s2.core.treelock);
      StaysShut(s.core, s2.core, q.r1);
    } else {
      WakePathLacks(s1, 0, true, oom2);
      Attempt(s1, 0, true, oom2);
      StaysShut(s1.core, s2.core, q.r2.value);
    }
  }

  lemma StaysShut(c: Core, d: Core, r: Request)
    requires d == c.(treelock := d.treelock) && NoLooser(c.treelock, d.treelock) && !Open(c, HoldFor(c, r))
    ensures !Open(d, HoldFor(d, r))
  {
    hide NoLooser, Open;
    SameHoldFor(c, d, r);
    if Open(d, HoldFor(d, r)) {
      OpenBefore(c, d.treelock, HoldFor(c, r));
    }
  }

  // ---- the whole queue ----

  /** No call among the first `m` waits for paths that it could have. */
  ghost predicate AllShut(s: State, m: int)
    requires m <= |s.queue|
  {
    forall i {:trigger s.queue[i]} :: 0 <= i < m ==> Shut(s, i)
  }

  lemma WakeupKeepsShut(s: State, i: int, oom1: bool, oom2: bool)
    requires Inv(s) && TargetsKnown(s) && 0 <= i < |s.queue| && AllShut(s, i)
    ensures AllShut(Wakeup(s, i, oom1, oom2), i + 1)
  {
    hide Inv, TargetsKnown, Wakeup, CouldFinish, NoLooser;
    var s' := Wakeup(s, i, oom1, oom2);
    WakeupShuts(s, i, oom1, oom2);
    forall j | 0 <= j < i ensures Shut(s', j) {
      assert Shut(s, j);
      if s.queue[i].Wait? {
        WakeupTightens(s, i, oom1, oom2);
        WakeupOnly(s, i, oom1, oom2);
        InvSound(s);
        SoundFaithful(s.core, s.holds);
        OtherStaysShut(s, s', i, j);
      } else {
        ForgetStays(s, i, oom1, oom2);
      }
    }
    assert Shut(s', i);
  }

  lemma OtherStaysShut(s: State, s': State, i: int, j: int)
    requires 0 <= i < |s.queue| && s.queue[i].Wait? && Only(s, s', i) && NoLooser(s.core.treelock, s'.core.treelock)
    requires 0 <= j < |s.queue| && j != i && Shut(s, j) && s.core.treelock.Keys == s.core.tree.Keys
    ensures Shut(s', j)
  {
    hide CouldFinish, NoLooser;
    if Asleep(s', j) && CouldFinish(s'.core, s'.queue[j]) {
      CouldBefore(s.core, s'.core.treelock, s.queue[j]);
    }
  }

  lemma {:induction false} WakeFromShuts(s: State, i: int, f: Failures)
    requires Inv(s) && TargetsKnown(s) && 0 <= i <= |s.queue| == |f| && AllShut(s, i)
    ensures |WakeFrom(s, i, f).queue| == |s.queue| && AllShut(WakeFrom(s, i, f), |s.queue|)
    decreases |f| - i
  {
    hide Inv, TargetsKnown, Wakeup, AllShut;
    if i < |s.queue| {
      WakeupInv(s, i, f[i].0, f[i].1);
      WakeupKnown(s, i, f[i].0, f[i].1);
      WakeupKeepsShut(s, i, f[i].0, f[i].1);
      WakeFromShuts(Wakeup(s, i, f[i].0, f[i].1), i + 1, f);
    }
  }

  /** After free_path() no waiting call, first or last in the queue, is left asleep although
      the paths it lacks can be taken. */
  lemma NobodyLeftAsleep(s: State, t: Ticket, f: Failures)
    requires Inv(s) && Enabled(s, Free(t, f))
    ensures var s' := Next(s, Free(t, f)); |s'.queue| == |s.queue| && AllShut(s', |s'.queue|)
  {
    hide Inv, TargetsKnown, WakeFrom;
    EndedInv(s, t);
    EndedKnown(s, t);
    WakeFromShuts(Ended(s, t), 0, f);
  }
}
