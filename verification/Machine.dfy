/** The node cache of lib/fuse.c as a machine whose steps are the critical sections of
    `f->lock`, and the invariant of all its runs. */
module Machine {
  import opened Basics
  import opened NodeTree
  import opened NodeIds
  import opened TreeLock
  import opened NodeLife
  import opened PathLock
  import opened NodeOps
  import opened TreeOps
  import opened PathQueue

  /** One critical section. Tickets name calls; the boolean parameters say which memory
      allocations fail; in Find, that of the node and that of its name. */
  datatype Event =
    | GetOne(t: Ticket, r: Request, oom: bool)
    | GetTwo(t: Ticket, r1: Request, r2: Request, oom1: bool, oom2: bool)
    | Resume(i: int)
    | Free(t: Ticket, f: Failures)
    | StartForget(t: Ticket, n: Id, count: int)
    | ResumeForget(i: int)
    | Find(dir: Id, entry: Option<string>, noNode: bool, noName: bool)
    | Remove(t: Ticket, dir: Id, name: string)
    | Rename(t: Ticket, olddir: Id, oldname: string, newdir: Id, newname: string, hiding: bool, oom: bool)
    | Exchange(t: Ticket, olddir: Id, oldname: string, newdir: Id, newname: string, oom1: bool, oom2: bool)
    | Pin(t: Ticket, n: Id)
    | Unpin(t: Ticket)

  // ---- the steps ----

  /** A waiting thread leaves the queue (dequeue_path()). */
  ghost function Dequeued(q: seq<Elem>, i: int): seq<Elem>
    requires 0 <= i < |q|
  {
    q[..i] + q[i + 1..]
  }

  /** The end of wait_path(): the call goes on with its paths, or with an error. */
  ghost function Resumed(s: State, i: int): State
    requires 0 <= i < |s.queue| && s.queue[i].Wait?
  {
    var q, s1 := s.queue[i], s.(queue := Dequeued(s.queue, i));
    if q.err == OK then s1.(granted := s.granted[q.ticket := Grant(q.r1, q.r2)])
    else if q.first || q.second then s1
    else s1.(calls := s.calls - {q.ticket})
  }

  ghost function Ended(s: State, t: Ticket): (s': State)
    ensures s'.queue == s.queue
  {
    Release(s, t).(granted := s.granted - {t}, calls := s.calls - {t})
  }

  ghost function Found(c: Core, dir: Id, name: Option<string>, id: Id, oom: bool): Core {
    if name.None? then IncLookup(c, dir)
    else
      var x := Lookup(c.tree, dir, name.value);
      if x.Some? then IncLookup(c, x.value)
      else if oom then c
      else Hash(Fresh(c, id), id, dir, name.value)
  }

  /** The number a new node gets. */
  ghost function NewId(s: State): Id {
    Draw(s.core.tree, s.ids).ctr
  }

  /** find_node() has to make a node. */
  ghost predicate Misses(c: Core, dir: Id, name: Option<string>) {
    name.Some? && Lookup(c.tree, dir, name.value).None?
  }

  ghost function Next(s: State, e: Event): State
    requires Enabled(s, e)
  {
    match e
    case GetOne(t, r, oom) => GetPath(s, t, r, oom)
    case GetTwo(t, r1, r2, oom1, oom2) => GetPath2(s, t, r1, r2, oom1, oom2)
    case Resume(i) => Resumed(s, i)
    case Free(t, f) => WakeFrom(Ended(s, t), 0, f)
    case StartForget(t, n, count) =>
      if ForgetWaits(s.core, n, count) then s.(queue := s.queue + [Elem.Forget(t, n, count)], calls := s.calls + {t})
      else s.(core := Forgotten(s.core, n, count))
    case ResumeForget(i) =>
      var q := s.queue[i];
      s.(core := Forgotten(s.core, q.nodeid, q.count), queue := Dequeued(s.queue, i), calls := s.calls - {q.ticket})
    case Find(dir, name, noNode, noName) =>
      s.(core := Found(s.core, dir, name, NewId(s), noNode || noName),
         ids := if Misses(s.core, dir, name) && !noNode then Draw(s.core.tree, s.ids) else s.ids)
    case Remove(t, dir, name) => s.(core := Removed(s.core, dir, name))
    case Rename(t, olddir, oldname, newdir, newname, hiding, oom) =>
      s.(core := Renamed(s.core, olddir, oldname, newdir, newname, hiding, oom))
    case Exchange(t, olddir, oldname, newdir, newname, oom1, oom2) =>
      s.(core := Exchanged(s.core, olddir, oldname, newdir, newname, oom1, oom2))
    case Pin(t, n) => s.(core := Pinned(s.core, t, n))
    case Unpin(t) => s.(core := Unpinned(s.core, t))
  }

  // ---- when a step may happen ----

  ghost predicate NewCall(s: State, t: Ticket) {
    t !in s.calls && |s.calls| < MAX_CALLS
  }

  /** The kernel does not forget a node while a waiting call still names it as directory. */
  ghost predicate NotAwaited(s: State, n: Id, count: int) {
    forall i {:trigger s.queue[i]} :: 0 <= i < |s.queue| ==> ElemKept(LessLookup(s.core, n, count), s.queue[i])
  }

  ghost predicate ElemKept(c: Core, q: Elem) {
    q.Wait? ==> Kept(c, q.ticket, q.r1.nodeid) && (q.r2.Some? ==> Kept(c, q.ticket, q.r2.value.nodeid))
  }

  /** What the kernel and the request handlers promise; everything else is up to the code. */
  ghost predicate Enabled(s: State, e: Event) {
    match e
    case GetOne(t, r, _) => NewCall(s, t) && Asked(s.core, t, r)
    case GetTwo(t, r1, r2, _, _) => NewCall(s, t) && Asked(s.core, t, r1) && Asked(s.core, t, r2)
    case Resume(i) => 0 <= i < |s.queue| && s.queue[i].Wait? && s.queue[i].done
    case Free(t, f) => t in s.granted && |f| == |s.queue| && TargetsKnown(s)
    case StartForget(t, n, count) =>
      && NewCall(s, t) && n in s.core.nlookup && n != ROOT && count > 0
      && Pending(s.queue, n) + count <= s.core.nlookup[n] && NotAwaited(s, n, count)
    case ResumeForget(i) =>
      && 0 <= i < |s.queue| && s.queue[i].Forget? && !ForgetWaits(s.core, s.queue[i].nodeid, s.queue[i].count)
      && NotAwaited(s, s.queue[i].nodeid, s.queue[i].count)
    case Find(dir, name, _, _) =>
      dir in s.core.tree && |s.core.tree| < UNKNOWN_INO - 1 && (name.Some? ==> ValidName(name.value))
    case Remove(t, dir, name) => t in s.granted && MayChange(s.core, s.holds, t, dir, name)
    case Rename(t, olddir, oldname, newdir, newname, hiding, _) =>
      && t in s.granted && ValidName(newname)
      && MayChange(s.core, s.holds, t, olddir, oldname) && MayReplace(s.core, s.holds, t, newdir, newname, hiding)
    case Exchange(t, olddir, oldname, newdir, newname, _, _) =>
      && t in s.granted && ValidName(oldname) && ValidName(newname) && (olddir, oldname) != (newdir, newname)
      && MayChange(s.core, s.holds, t, olddir, oldname) && MayChange(s.core, s.holds, t, newdir, newname)
    case Pin(t, n) => t !in s.core.pinned && t !in s.calls && n in s.core.tree
    case Unpin(t) => t in s.core.pinned && t !in s.calls
  }

  // ---- steps that only change the node fields ----

  ghost predicate Needed(s: State, d: Core) {
    && (forall i {:trigger s.queue[i]} :: 0 <= i < |s.queue| ==> ElemKept(d, s.queue[i]))
    && (forall n {:trigger Pending(s.queue, n)} :: Pending(s.queue, n) > 0 ==>
      n in d.nlookup && d.nlookup[n] >= Pending(s.queue, n))
  }

  lemma CoreStep(s: State, d: Core)
    requires Inv(s) && Sound(d, s.holds) && Needed(s, d)
    ensures Inv(s.(core := d))
  {
    hide Sound, Owned;
    var s' := s.(core := d);
    forall i | 0 <= i < |s'.queue| ensures ElemTied(d, s'.holds, s'.queue[i]) {
      assert ElemTied(s.core, s.holds, s.queue[i]) && ElemKept(d, s.queue[i]);
    }
    forall t | t in s'.granted ensures GrantTied(s', t, s'.granted[t]) {
      assert GrantTied(s, t, s.granted[t]);
    }
    forall n ensures PendingOk(s', n) {
    }
  }

  lemma QuietNeeded(s: State, d: Core)
    requires Inv(s) && Quiet(s.core, d)
    ensures Needed(s, d)
  {
    hide Sound, Owned;
    forall i | 0 <= i < |s.queue| ensures ElemKept(d, s.queue[i]) {
      assert ElemTied(s.core, s.holds, s.queue[i]);
    }
    forall n | Pending(s.queue, n) > 0 ensures n in d.nlookup && d.nlookup[n] >= Pending(s.queue, n) {
      assert PendingOk(s, n);
      assert Kept(s.core, 0, n);
    }
  }

  lemma QuietStep(s: State, d: Core)
    requires Inv(s) && Sound(d, s.holds) && Quiet(s.core, d)
    ensures Inv(s.(core := d))
  {
    hide *;
    QuietNeeded(s, d);
    CoreStep(s, d);
  }

  lemma InvSound(s: State)
    requires Inv(s)
    ensures Sound(s.core, s.holds)
  {
  }

  lemma InvKeys(s: State)
    requires Inv(s)
    ensures s.core.nlookup.Keys == s.core.tree.Keys
  {
  }

  lemma FoundSound(c: Core, holds: Holds, dir: Id, name: Option<string>, id: Id, oom: bool)
    requires Sound(c, holds) && dir in c.tree && id !in c.tree && (name.Some? ==> ValidName(name.value))
    ensures var d := Found(c, dir, name, id, oom); Sound(d, holds) && Quiet(c, d)
  {
    var d := Found(c, dir, name, id, oom);
    if name.None? {
      IncLookupSound(c, dir, holds);
    } else {
      var x := Lookup(c.tree, dir, name.value);
      if x.Some? {
        IncLookupSound(c, x.value, holds);
      } else if !oom {
        CreateSound(c, holds, dir, name.value, id);
      }
    }
  }

  /** A new entry: only the new node and its parent's counter change. */
  lemma CreateSound(c: Core, holds: Holds, dir: Id, name: string, id: Id)
    requires Sound(c, holds) && dir in c.tree && id !in c.tree && ValidName(name) && Lookup(c.tree, dir, name) == None
    ensures Sound(Hash(Fresh(c, id), id, dir, name), holds)
  {
    var d := Fresh(c, id);
    FreshSound(c, id, holds);
    FreshUnheld(c, id, holds);
    assert HasWalk(c.tree, dir);
    var w := Walk(c.tree, dir);
    WalkFrame(c.tree, d.tree, dir, w);
    hide Sound, OffChains;
    HashSound(d, id, dir, name, w, holds);
  }

  // ---- leaving and entering the queue ----

  lemma PendingAppend(q: seq<Elem>, e: Elem, n: Id)
    ensures Pending(q + [e], n) == Pending(q, n) + if e.Forget? && e.nodeid == n then e.count else 0
  {
    assert (q + [e])[..|q|] == q;
  }

  lemma {:induction false} PendingDequeued(q: seq<Elem>, i: int, n: Id)
    requires 0 <= i < |q|
    ensures Pending(Dequeued(q, i), n) == Pending(q, n) - if q[i].Forget? && q[i].nodeid == n then q[i].count else 0
    decreases |q|
  {
    var d, last := Dequeued(q, i), |q| - 1;
    if i == last {
      assert d == q[..last];
    } else {
      assert d[..|d| - 1] == Dequeued(q[..last], i);
      assert d[|d| - 1] == q[last];
      PendingDequeued(q[..last], i, n);
    }
  }

  /** An element that holds nothing joins the queue. */
  lemma Enqueue(s: State, q: Elem)
    requires Inv(s) && q.ticket !in s.calls && |s.calls| < MAX_CALLS
    requires ElemTied(s.core, s.holds, q) && Disciplined(q, false)
    requires q.Forget? ==>
      q.nodeid in s.core.nlookup && Pending(s.queue, q.nodeid) + q.count <= s.core.nlookup[q.nodeid]
    ensures Inv(s.(queue := s.queue + [q], calls := s.calls + {q.ticket}))
  {
    hide Sound;
    var s' := s.(queue := s.queue + [q], calls := s.calls + {q.ticket});
    forall i | 0 <= i < |s'.queue|
      ensures ElemTied(s'.core, s'.holds, s'.queue[i]) && Disciplined(s'.queue[i], i == 0)
      ensures s'.queue[i].ticket in s'.calls && s'.queue[i].ticket !in s'.granted
    {
      if i < |s.queue| {
        assert s'.queue[i] == s.queue[i];
      }
    }
    forall t | t in s'.granted ensures GrantTied(s', t, s'.granted[t]) {
      assert GrantTied(s, t, s.granted[t]);
    }
    forall n ensures PendingOk(s', n) {
      assert PendingOk(s, n);
      PendingAppend(s.queue, q, n);
    }
  }

  lemma DequeuedAt(q: seq<Elem>, i: int, j: int)
    requires 0 <= i < |q| && 0 <= j < |q| - 1
    ensures Dequeued(q, i)[j] == q[if j < i then j else j + 1]
  {
  }

  ghost predicate OwnsNothing(holds: Holds, t: Ticket) {
    Key(t, false) !in holds && Key(t, true) !in holds
  }

  lemma LeaveQueue(s: State, i: int, granted: map<Ticket, Grant>, calls: set<Ticket>)
    requires Inv(s) && 0 <= i < |s.queue|
    requires calls == s.calls ||
      (calls == s.calls - {s.queue[i].ticket} && granted == s.granted && OwnsNothing(s.holds, s.queue[i].ticket))
    requires granted == s.granted ||
      (s.queue[i].Wait? && granted == s.granted[s.queue[i].ticket := Grant(s.queue[i].r1, s.queue[i].r2)]
       && GrantTied(s, s.queue[i].ticket, Grant(s.queue[i].r1, s.queue[i].r2)))
    ensures Inv(s.(queue := Dequeued(s.queue, i), granted := granted, calls := calls))
  {
    hide Sound;
    var s', t := s.(queue := Dequeued(s.queue, i), granted := granted, calls := calls), s.queue[i].ticket;
    if calls != s.calls {
      OwnedByOthers(s.holds, s.calls, t);
      RemoveOne(s.calls, t);
    }
    forall j | 0 <= j < |s'.queue|
      ensures ElemTied(s'.core, s'.holds, s'.queue[j]) && Disciplined(s'.queue[j], j == 0)
      ensures s'.queue[j].ticket in s'.calls && s'.queue[j].ticket !in s'.granted
    {
      DequeuedAt(s.queue, i, j);
      var m := if j < i then j else j + 1;
      assert ElemTied(s.core, s.holds, s.queue[m]) && Disciplined(s.queue[m], m == 0);
      assert s.queue[m].ticket != t;
    }
    DequeuedDistinct(s, i);
    forall u | u in s'.granted ensures GrantTied(s', u, s'.granted[u]) {
      assert u in s.granted ==> GrantTied(s, u, s.granted[u]);
    }
    forall n ensures PendingOk(s', n) {
      assert PendingOk(s, n);
      PendingDequeued(s.queue, i, n);
      assert ElemTied(s.core, s.holds, s.queue[i]);
    }
  }

  lemma DequeuedDistinct(s: State, i: int)
    requires 0 <= i < |s.queue|
    requires forall a, b {:trigger s.queue[a], s.queue[b]} :: 0 <= a < b < |s.queue| ==>
      s.queue[a].ticket != s.queue[b].ticket
    ensures var q := Dequeued(s.queue, i);
      forall a, b {:trigger q[a], q[b]} :: 0 <= a < b < |q| ==> q[a].ticket != q[b].ticket
  {
    var q := Dequeued(s.queue, i);
    forall a, b | 0 <= a < b < |q| ensures q[a].ticket != q[b].ticket {
      DequeuedAt(s.queue, i, a);
      DequeuedAt(s.queue, i, b);
    }
  }

  lemma OwnedByOthers(holds: Holds, calls: set<Ticket>, t: Ticket)
    requires Owned(holds, calls) && OwnsNothing(holds, t)
    ensures Owned(holds, calls - {t})
  {
    forall k | k in holds ensures k.ticket in calls - {t} {
      assert k == Key(k.ticket, false) || k == Key(k.ticket, true);
    }
  }

  lemma RemoveOne(calls: set<Ticket>, t: Ticket)
    ensures |calls - {t}| <= |calls|
  {
    if t !in calls {
      assert calls - {t} == calls;
    }
  }

  lemma ResumedInv(s: State, i: int)
    requires Inv(s) && 0 <= i < |s.queue| && s.queue[i].Wait? && s.queue[i].done
    ensures Inv(Resumed(s, i))
  {
    var q := s.queue[i];
    assert ElemTied(s.core, s.holds, q) && Disciplined(q, i == 0);
    hide Inv;
    var granted := if q.err == OK then s.granted[q.ticket := Grant(q.r1, q.r2)] else s.granted;
    var calls := if q.err == OK || q.first || q.second then s.calls else s.calls - {q.ticket};
    LeaveQueue(s, i, granted, calls);
  }

  // ---- forgetting ----

  lemma ForgottenKept(c: Core, n: Id, count: int, holds: Holds, t: Ticket, m: Id)
    requires Shrunk(LessLookup(c, n, count), Forgotten(c, n, count)) && Kept(LessLookup(c, n, count), t, m)
    ensures Kept(Forgotten(c, n, count), t, m)
    ensures Forgotten(c, n, count).nlookup[m] == LessLookup(c, n, count).nlookup[m]
  {
  }

  lemma ForgottenNeeded(s: State, n: Id, count: int)
    requires Inv(s) && n in s.core.nlookup && n != ROOT && count > 0 && !ForgetWaits(s.core, n, count)
    requires Pending(s.queue, n) + count <= s.core.nlookup[n] && NotAwaited(s, n, count)
    requires Shrunk(LessLookup(s.core, n, count), Forgotten(s.core, n, count))
    ensures Needed(s, Forgotten(s.core, n, count))
  {
    var d, e := Forgotten(s.core, n, count), LessLookup(s.core, n, count);
    hide Sound, Owned, Forgotten, Shrunk;
    forall i | 0 <= i < |s.queue| ensures ElemKept(d, s.queue[i]) {
      var q := s.queue[i];
      assert ElemKept(e, q);
      if q.Wait? {
        ForgottenKept(s.core, n, count, s.holds, q.ticket, q.r1.nodeid);
        if q.r2.Some? {
          ForgottenKept(s.core, n, count, s.holds, q.ticket, q.r2.value.nodeid);
        }
      }
    }
    forall m | Pending(s.queue, m) > 0 ensures m in d.nlookup && d.nlookup[m] >= Pending(s.queue, m) {
      assert PendingOk(s, m);
      ForgottenKept(s.core, n, count, s.holds, 0, m);
    }
  }

  lemma ForgottenInv(s: State, n: Id, count: int)
    requires Inv(s) && n in s.core.nlookup && n != ROOT && count > 0 && !ForgetWaits(s.core, n, count)
    requires 0 <= Pending(s.queue, n) && Pending(s.queue, n) + count <= s.core.nlookup[n] && NotAwaited(s, n, count)
    ensures Inv(s.(core := Forgotten(s.core, n, count)))
  {
    hide Inv, Sound, Needed, NotAwaited, Forgotten;
    InvSound(s);
    InvKeys(s);
    ForgottenSound(s.core, n, count, s.holds);
    ForgottenNeeded(s, n, count);
    CoreStep(s, Forgotten(s.core, n, count));
  }

  lemma {:induction false} PendingNonNegative(q: seq<Elem>, n: Id)
    requires forall i {:trigger q[i]} :: 0 <= i < |q| && q[i].Forget? ==> q[i].count > 0
    ensures Pending(q, n) >= 0
    decreases |q|
  {
    if q != [] {
      var r := q[..|q| - 1];
      forall i | 0 <= i < |r| && r[i].Forget? ensures r[i].count > 0 {
        assert r[i] == q[i];
      }
      PendingNonNegative(r, n);
    }
  }

  lemma CountsPositive(s: State, n: Id)
    requires Inv(s)
    ensures Pending(s.queue, n) >= 0
  {
    forall i | 0 <= i < |s.queue| && s.queue[i].Forget? ensures s.queue[i].count > 0 {
      assert ElemTied(s.core, s.holds, s.queue[i]);
    }
    PendingNonNegative(s.queue, n);
  }

  lemma StartForgetInv(s: State, t: Ticket, n: Id, count: int)
    requires Inv(s) && Enabled(s, StartForget(t, n, count))
    ensures Inv(Next(s, StartForget(t, n, count)))
  {
    CountsPositive(s, n);
    if ForgetWaits(s.core, n, count) {
      NewOwnsNothing(s, t);
      hide Inv;
      Enqueue(s, Elem.Forget(t, n, count));
    } else {
      hide Inv, NotAwaited, Forgotten;
      ForgottenInv(s, n, count);
    }
  }

  lemma NewOwnsNothing(s: State, t: Ticket)
    requires Inv(s) && t !in s.calls
    ensures OwnsNothing(s.holds, t) && t !in s.granted
  {
  }

  lemma ResumeForgetInv(s: State, i: int)
    requires Inv(s) && Enabled(s, ResumeForget(i))
    ensures Inv(Next(s, ResumeForget(i)))
  {
    hide Inv, Forgotten, ForgetWaits, GrantTied, NotAwaited, Dequeued;
    var q := s.queue[i];
    var s1 := s.(queue := Dequeued(s.queue, i), calls := s.calls - {q.ticket});
    WaitingForget(s, i);
    LeaveQueue(s, i, s.granted, s.calls - {q.ticket});
    PendingDequeued(s.queue, i, q.nodeid);
    CountsPositive(s1, q.nodeid);
    StillNotAwaited(s, i, q.nodeid, q.count);
    NotAwaitedSame(s.(queue := s1.queue), s1, q.nodeid, q.count);
    ForgottenInv(s1, q.nodeid, q.count);
  }

  lemma WaitingForget(s: State, i: int)
    requires Inv(s) && 0 <= i < |s.queue| && s.queue[i].Forget?
    ensures var q := s.queue[i];
      && q.nodeid != ROOT && q.count > 0 && OwnsNothing(s.holds, q.ticket)
      && Pending(s.queue, q.nodeid) >= 0 && PendingOk(s, q.nodeid)
  {
    hide Sound, Owned;
    assert ElemTied(s.core, s.holds, s.queue[i]);
    CountsPositive(s, s.queue[i].nodeid);
    assert PendingOk(s, s.queue[i].nodeid);
  }

  lemma StillNotAwaited(s: State, i: int, n: Id, count: int)
    requires 0 <= i < |s.queue| && NotAwaited(s, n, count)
    ensures NotAwaited(s.(queue := Dequeued(s.queue, i)), n, count)
  {
    var q := Dequeued(s.queue, i);
    forall j | 0 <= j < |q| ensures ElemKept(LessLookup(s.core, n, count), q[j]) {
      DequeuedAt(s.queue, i, j);
    }
  }

  lemma NotAwaitedSame(s: State, s': State, n: Id, count: int)
    requires NotAwaited(s, n, count) && s'.queue == s.queue && s'.core == s.core
    ensures NotAwaited(s', n, count)
  {
  }
}
