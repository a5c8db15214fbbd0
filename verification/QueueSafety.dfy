/** The invariant of the path-lock queue survives every wakeup. */
module QueueSafety {
  import opened Basics
  import opened NodeTree
  import opened TreeLock
  import opened PathLock
  import opened PathQueue

  // ---- how many holds there can be ----

  lemma {:induction false} HoldsBound(holds: Holds, calls: set<Ticket>)
    requires Owned(holds, calls)
    ensures |holds| <= 2 * |calls|
    decreases |calls|
  {
    if t :| t in calls {
      OthersSize(holds, t);
      HoldsBound(Others(holds, t), calls - {t});
    } else {
      assert holds == map[];
    }
  }

  lemma OthersSize(holds: Holds, t: Ticket)
    ensures |holds| <= |Others(holds, t)| + 2
    ensures forall k {:trigger k in Others(holds, t)} :: k in Others(holds, t) <==> k in holds && k.ticket != t
  {
    var k, l := Key(t, false), Key(t, true);
    RemoveSize(holds, k);
    RemoveSize(holds - {k}, l);
    forall j | j in holds && j.ticket == t ensures j == k || j == l {
    }
  }

  lemma RemoveSize(holds: Holds, k: Key)
    ensures |holds| <= |holds - {k}| + 1
  {
    if k in holds {
      Smaller(holds, k);
    } else {
      assert holds - {k} == holds;
    }
  }

  lemma RoomForOne(holds: Holds, calls: set<Ticket>, k: Key, h: Hold)
    requires Owned(holds, calls)
    requires k !in holds && k.ticket in calls && |calls| <= MAX_CALLS
    ensures |holds| < MAX_HOLDS
  {
    var holds' := holds[k := h];
    HoldsBound(holds', calls);
    Smaller(holds', k);
    assert holds' - {k} == holds;
  }

  // ---- frame ----

  lemma {:induction false} PendingUpdate(q: seq<Elem>, i: int, e: Elem, n: Id)
    requires 0 <= i < |q| && q[i].Wait? && e.Wait?
    ensures Pending(q[i := e], n) == Pending(q, n)
    decreases |q|
  {
    var q' := q[i := e];
    if i == |q| - 1 {
      assert q'[..|q| - 1] == q[..|q| - 1];
    } else {
      assert q'[..|q| - 1] == q[..|q| - 1][i := e];
      PendingUpdate(q[..|q| - 1], i, e, n);
    }
  }

  lemma OtherElemTied(s: State, s': State, i: int, j: int)
    requires 0 <= i < |s.queue| && s.queue[i].Wait? && Only(s, s', i)
    requires 0 <= j < |s.queue| && s.queue[j].ticket != s.queue[i].ticket
    requires ElemTied(s.core, s.holds, s.queue[j])
    ensures j != i && ElemTied(s'.core, s'.holds, s'.queue[j])
  {
    var t := s.queue[j].ticket;
    assert SameHold(s.holds, s'.holds, Key(t, false)) && SameHold(s.holds, s'.holds, Key(t, true));
  }

  lemma OtherGrantTied(s: State, s': State, i: int, t: Ticket)
    requires 0 <= i < |s.queue| && s.queue[i].Wait? && Only(s, s', i)
    requires t in s.granted && t != s.queue[i].ticket && GrantTied(s, t, s.granted[t])
    ensures GrantTied(s', t, s'.granted[t])
  {
    assert SameHold(s.holds, s'.holds, Key(t, false)) && SameHold(s.holds, s'.holds, Key(t, true));
  }

  lemma OnlyQueue(s: State, s': State, i: int)
    requires 0 <= i < |s.queue| && s.queue[i].Wait? && Only(s, s', i)
    ensures forall n {:trigger Pending(s'.queue, n)} :: Pending(s'.queue, n) == Pending(s.queue, n)
  {
    assert s'.queue == s.queue[i := s'.queue[i]];
    forall n ensures Pending(s'.queue, n) == Pending(s.queue, n) {
      PendingUpdate(s.queue, i, s'.queue[i], n);
    }
  }

  lemma TidyFrame(s: State, s': State, i: int)
    requires Tidy(s) && 0 <= i < |s.queue| && s.queue[i].Wait? && Only(s, s', i)
    requires Sound(s'.core, s'.holds) && ElemTied(s'.core, s'.holds, s'.queue[i])
    ensures Tidy(s')
  {
    hide Sound, ElemTied, GrantTied;
    var t := s.queue[i].ticket;
    OnlyQueue(s, s', i);
    forall k | k in s'.holds ensures k.ticket in s'.calls {
      if k.ticket != t {
        assert SameHold(s.holds, s'.holds, k);
      }
    }
    forall j | 0 <= j < |s'.queue| ensures ElemTied(s'.core, s'.holds, s'.queue[j]) {
      if j != i {
        OtherElemTied(s, s', i, j);
      }
    }
    forall u | u in s'.granted ensures GrantTied(s', u, s'.granted[u]) {
      OtherGrantTied(s, s', i, u);
    }
    forall n ensures PendingOk(s', n) {
      assert PendingOk(s, n);
    }
  }

  // ---- the parts of a wakeup ----

  lemma TryLockSound(s: State, k: Key, r: Request, oom: bool)
    requires Sound(s.core, s.holds) && k !in s.holds && |s.holds| < MAX_HOLDS && Asked(s.core, k.ticket, r)
    ensures Sound(TryLock(s, k, r, oom).1.core, TryLock(s, k, r, oom).1.holds)
  {
    if TryPath(s.core, r, oom).0 == OK {
      GrantSound(s.core, s.holds, k, r);
    } else {
      FailureSound(s.core, s.holds, r, oom);
    }
  }

  lemma WakePathTidy(s: State, i: int, second: bool, oom: bool)
    requires Tidy(s) && 0 <= i < |s.queue| && s.queue[i].Wait? && ElemKnown(s.core, s.queue[i])
    ensures Tidy(WakePath(s, i, second, oom).1)
    ensures Only(s, WakePath(s, i, second, oom).1, i)
  {
    TidyParts(s, i);
    WakePathSound(s, i, second, oom);
    WakePathTied(s, i, second, oom);
    WakePathOnly(s, i, second, oom);
    hide *;
    TidyFrame(s, WakePath(s, i, second, oom).1, i);
  }

  lemma WakePathSound(s: State, i: int, second: bool, oom: bool)
    requires 0 <= i < |s.queue| && s.queue[i].Wait? && ElemKnown(s.core, s.queue[i])
    requires Sound(s.core, s.holds) && Owned(s.holds, s.calls) && |s.calls| <= MAX_CALLS
    requires ElemTied(s.core, s.holds, s.queue[i]) && s.queue[i].ticket in s.calls
    ensures Sound(WakePath(s, i, second, oom).1.core, WakePath(s, i, second, oom).1.holds)
  {
    hide Sound, Owned;
    var q := s.queue[i];
    var r := Wanted(q, second);
    if !Has(q, second) && r.Some? {
      var k := Key(q.ticket, second);
      RoomForOne(s.holds, s.calls, k, HoldFor(s.core, r.value));
      TryLockSound(s, k, r.value, oom);
    }
  }

  lemma TidyParts(s: State, i: int)
    requires Tidy(s) && 0 <= i < |s.queue|
    ensures Sound(s.core, s.holds) && Owned(s.holds, s.calls) && |s.calls| <= MAX_CALLS
    ensures ElemTied(s.core, s.holds, s.queue[i]) && s.queue[i].ticket in s.calls
  {
  }

  lemma WakePathTied(s: State, i: int, second: bool, oom: bool)
    requires 0 <= i < |s.queue| && s.queue[i].Wait? && ElemTied(s.core, s.holds, s.queue[i])
    ensures var s' := WakePath(s, i, second, oom).1;
      ElemTied(s'.core, s'.holds, s'.queue[i])
  {
    var q := s.queue[i];
    assert Key(q.ticket, false) != Key(q.ticket, true);
  }

  lemma UnlockElemTidy(s: State, i: int)
    requires Tidy(s) && 0 <= i < |s.queue| && s.queue[i].Wait?
    ensures Tidy(UnlockElem(s, i)) && Only(s, UnlockElem(s, i), i)
  {
    hide Tidy, Only, Sound, ElemTied, Owned, GiveBack;
    TidyParts(s, i);
    GiveBackSound(s.core, s.holds, s.queue[i].ticket);
    UnlockElemTied(s, i);
    UnlockElemOnly(s, i);
    TidyFrame(s, UnlockElem(s, i), i);
  }

  lemma UnlockElemTied(s: State, i: int)
    requires 0 <= i < |s.queue| && s.queue[i].Wait? && ElemTied(s.core, s.holds, s.queue[i])
    ensures var s' := UnlockElem(s, i); ElemTied(s'.core, s'.holds, s'.queue[i])
  {
    hide GiveBack;
  }

  lemma FinishTidy(s: State, i: int, e: Err)
    requires Tidy(s) && 0 <= i < |s.queue| && s.queue[i].Wait?
    ensures Tidy(Finish(s, i, e)) && Only(s, Finish(s, i, e), i)
  {
    assert ElemTied(s.core, s.holds, s.queue[i]);
    FinishOnly(s, i, e);
    TidyFrame(s, Finish(s, i, e), i);
  }

  // ---- the wakeup ----

  lemma DisciplineFrame(s: State, s': State, i: int)
    requires Inv(s) && 0 <= i < |s.queue| && s.queue[i].Wait? && Only(s, s', i)
    requires Tidy(s') && Disciplined(s'.queue[i], i == 0)
    ensures Inv(s')
  {
    forall j | 0 <= j < |s'.queue| ensures Disciplined(s'.queue[j], j == 0) {
      assert Disciplined(s.queue[j], j == 0);
    }
  }

  lemma OnlyKnown(s: State, s': State, i: int)
    requires 0 <= i < |s.queue| && s.queue[i].Wait? && Only(s, s', i)
    ensures ElemKnown(s'.core, s'.queue[i]) == ElemKnown(s.core, s.queue[i])
  {
  }

  /** After the attempt the path is held iff the attempt reports success. */
  lemma WakePathResult(s: State, i: int, second: bool, oom: bool)
    requires 0 <= i < |s.queue| && s.queue[i].Wait?
    ensures var (e, s') := WakePath(s, i, second, oom); var q, q' := s.queue[i], s'.queue[i];
      && q'.Wait? && q'.done == q.done && q'.err == q.err && q'.r2 == q.r2
      && Has(q', !second) == Has(q, !second)
      && (Wanted(q, second).Some? ==> (Has(q', second) <==> e == OK))
      && (Wanted(q, second).None? ==> e == OK && q' == q)
  {
  }

  lemma WakeupTidy(s: State, i: int, oom1: bool, oom2: bool)
    requires Tidy(s) && 0 <= i < |s.queue| && s.queue[i].Wait? && ElemKnown(s.core, s.queue[i])
    ensures Tidy(Wakeup(s, i, oom1, oom2))
  {
    hide Tidy, Only, ElemKnown;
    var (e1, s1) := WakePath(s, i, false, oom1);
    WakePathTidy(s, i, false, oom1);
    if e1 != OK && e1 != EAGAIN {
      UnlockElemTidy(s1, i);
      FinishTidy(UnlockElem(s1, i), i, e1);
    } else {
      OnlyKnown(s, s1, i);
      var (e2, s2) := WakePath(s1, i, true, oom2);
      WakePathTidy(s1, i, true, oom2);
      UnlockElemTidy(s2, i);
      FinishTidy(UnlockElem(s2, i), i, e2);
      FinishTidy(s2, i, OK);
    }
  }

  predicate Fatal(e: Err) {
    e != OK && e != EAGAIN
  }

  /** The queue element after a wakeup, given the results of the two attempts. */
  function Woken(q: Elem, i: int, e1: Err, got1: Option<Id>, e2: Err, got2: Option<Id>): Elem
    requires q.Wait?
  {
    if Fatal(e1) then q.(first := false, second := false, done := true, err := e1)
    else
      var q1 := if e1 == OK && !q.first then Got(q, false, got1) else q;
      if Fatal(e2) then q1.(first := false, second := false, done := true, err := e2)
      else
        var q2 := if e2 == OK && !q.second && q.r2.Some? then Got(q1, true, got2) else q1;
        if e1 == OK && e2 == OK then q2.(done := true, err := OK)
        else if i != 0 then q2.(first := false, second := false)
        else q2
  }

  lemma WakeupElem(s: State, i: int, oom1: bool, oom2: bool)
    requires 0 <= i < |s.queue| && s.queue[i].Wait?
    ensures var q, (e1, s1) := s.queue[i], WakePath(s, i, false, oom1);
      var e2 := WakePath(s1, i, true, oom2).0;
      Wakeup(s, i, oom1, oom2).queue[i] ==
        Woken(q, i, e1, Target(s.core.tree, q.r1), e2, if q.r2.Some? then Target(s1.core.tree, q.r2.value) else None)
  {
    var s1 := WakePath(s, i, false, oom1).1;
    WakePathElem(s, i, false, oom1);
    WakePathElem(s1, i, true, oom2);
    hide WakePath, GiveBack, Others, Target;
  }

  lemma WakePathElem(s: State, i: int, second: bool, oom: bool)
    requires 0 <= i < |s.queue| && s.queue[i].Wait?
    ensures var q, r, (e, s') := s.queue[i], Wanted(s.queue[i], second), WakePath(s, i, second, oom);
      s'.queue[i] == if e == OK && !Has(q, second) && r.Some? then Got(q, second, Target(s.core.tree, r.value)) else q
  {
    hide TryPath, HoldFor, Target;
  }

  /** What a wakeup leaves in the queue element. */
  lemma WakeupDisciplined(s: State, i: int, oom1: bool, oom2: bool)
    requires 0 <= i < |s.queue| && s.queue[i].Wait? && Disciplined(s.queue[i], i == 0)
    ensures Disciplined(Wakeup(s, i, oom1, oom2).queue[i], i == 0)
  {
    hide Wakeup, WakePath, Target;
    WakeupElem(s, i, oom1, oom2);
    WakePathLacks(s, i, false, oom1);
    WakePathLacks(WakePath(s, i, false, oom1).1, i, true, oom2);
    WakePathResult(s, i, false, oom1);
  }

  /** An attempt only fails for a path that is asked for and not held yet. */
  lemma WakePathLacks(s: State, i: int, second: bool, oom: bool)
    requires 0 <= i < |s.queue| && s.queue[i].Wait?
    ensures WakePath(s, i, second, oom).0 != OK ==> Wanted(s.queue[i], second).Some? && !Has(s.queue[i], second)
  {
    hide TryPath, HoldFor, Target;
  }

  lemma WakeupInv(s: State, i: int, oom1: bool, oom2: bool)
    requires Inv(s) && 0 <= i < |s.queue| && TargetsKnown(s)
    ensures Inv(Wakeup(s, i, oom1, oom2))
  {
    assert ElemKnown(s.core, s.queue[i]);
    if s.queue[i].Wait? {
      assert Disciplined(s.queue[i], i == 0);
      WakeupOnly(s, i, oom1, oom2);
      WakeupTidy(s, i, oom1, oom2);
      WakeupDisciplined(s, i, oom1, oom2);
      DisciplineFrame(s, Wakeup(s, i, oom1, oom2), i);
    }
  }

  lemma WakeupKnown(s: State, i: int, oom1: bool, oom2: bool)
    requires 0 <= i < |s.queue| && TargetsKnown(s)
    ensures TargetsKnown(Wakeup(s, i, oom1, oom2))
  {
    if s.queue[i].Wait? {
      var s' := Wakeup(s, i, oom1, oom2);
      WakeupOnly(s, i, oom1, oom2);
      forall j | 0 <= j < |s'.queue| ensures ElemKnown(s'.core, s'.queue[j]) {
        assert ElemKnown(s.core, s.queue[j]);
      }
    }
  }

  /** wake_up_queued() keeps the invariant. */
  lemma {:induction false} WakeAllInv(s: State, i: int, f: Failures)
    requires Inv(s) && TargetsKnown(s) && 0 <= i <= |s.queue| == |f|
    ensures Inv(WakeFrom(s, i, f))
    decreases |f| - i
  {
    hide Inv, TargetsKnown, Wakeup;
    if i < |s.queue| {
      WakeupInv(s, i, f[i].0, f[i].1);
      WakeupKnown(s, i, f[i].0, f[i].1);
      WakeAllInv(Wakeup(s, i, f[i].0, f[i].1), i + 1, f);
    }
  }
}
