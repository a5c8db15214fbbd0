/** The queue of waiting path requests in lib/fuse.c. Every function here is one critical
    section of `f->lock`, or a part of one, as a map from state to state. */
module PathQueue {
  import opened Basics
  import opened NodeTree
  import opened NodeIds
  import opened TreeLock
  import opened NodeLife
  import opened PathLock

  /** `struct lock_queue_element`: a call waiting for one or two paths, or a FORGET waiting
      for its node to be unlocked (no `path1`). */
  datatype Elem =
    | Wait(ticket: Ticket, r1: Request, r2: Option<Request>, w1: Option<Id>, w2: Option<Id>,
           first: bool, second: bool, done: bool, err: Err)
    | Forget(ticket: Ticket, nodeid: Id, count: int)

  /** A call that owns its paths and runs outside the lock. */
  datatype Grant = Grant(r1: Request, r2: Option<Request>)

  /** `granted` are the calls that own their paths and run outside the lock; `calls` are
      all calls that wait, run, or were answered while still owning a path; `ids` are the
      counters that number new nodes. */
  datatype State = State(
    core: Core,
    holds: Holds,
    queue: seq<Elem>,
    granted: map<Ticket, Grant>,
    calls: set<Ticket>,
    ids: Ids)

  // ---- one path ----

  ghost function Relock(s: State, tl: Locks, holds: Holds): State {
    s.(core := s.core.(treelock := tl), holds := holds)
  }

  ghost function TryLock(s: State, k: Key, r: Request, oom: bool): (Err, State) {
    var (e, tl) := TryPath(s.core, r, oom);
    (e, Relock(s, tl, if e == OK then s.holds[k := HoldFor(s.core, r)] else s.holds))
  }

  ghost function Release(s: State, t: Ticket): State {
    Relock(s, GiveBack(s.core.treelock, s.holds, t), Others(s.holds, t))
  }

  // ---- first attempt: get_path_common() and get_path2() ----

  ghost function Waiting(t: Ticket, r1: Request, r2: Option<Request>): Elem {
    Wait(t, r1, r2, None, None, false, false, false, OK)
  }

  ghost function Settle(s: State, t: Ticket, r1: Request, r2: Option<Request>, e: Err): State {
    if e == OK then s.(granted := s.granted[t := Grant(r1, r2)], calls := s.calls + {t})
    else if e == EAGAIN then s.(queue := s.queue + [Waiting(t, r1, r2)], calls := s.calls + {t})
    else s
  }

  ghost function GetPath(s: State, t: Ticket, r: Request, oom: bool): State {
    var (e, s1) := TryLock(s, Key(t, false), r, oom);
    Settle(s1, t, r, None, e)
  }

  /** try_get_path2(): if the second path cannot be had, the first is given back. */
  ghost function TryLock2(s: State, t: Ticket, r1: Request, r2: Request, oom1: bool, oom2: bool): (Err, State) {
    var (e1, s1) := TryLock(s, Key(t, false), r1, oom1);
    if e1 != OK then (e1, s1)
    else
      var (e2, s2) := TryLock(s1, Key(t, true), r2, oom2);
      (e2, if e2 == OK then s2 else Release(s2, t))
  }

  ghost function GetPath2(s: State, t: Ticket, r1: Request, r2: Request, oom1: bool, oom2: bool): State {
    var (e, s1) := TryLock2(s, t, r1, r2, oom1, oom2);
    Settle(s1, t, r1, Some(r2), e)
  }

  // ---- waking up: queue_element_wakeup() and wake_up_queued() ----

  ghost function Put(s: State, i: int, q: Elem): State
    requires 0 <= i < |s.queue|
  {
    s.(queue := s.queue[i := q])
  }

  ghost function Wanted(q: Elem, second: bool): Option<Request>
    requires q.Wait?
  {
    if second then q.r2 else Some(q.r1)
  }

  predicate Has(q: Elem, second: bool)
    requires q.Wait?
  {
    if second then q.second else q.first
  }

  function Got(q: Elem, second: bool, w: Option<Id>): Elem
    requires q.Wait?
  {
    if second then q.(second := true, w2 := w) else q.(first := true, w1 := w)
  }

  /** One half of queue_element_wakeup(): try for a path the element still lacks. */
  ghost function WakePath(s: State, i: int, second: bool, oom: bool): (res: (Err, State))
    requires 0 <= i < |s.queue| && s.queue[i].Wait?
    ensures |res.1.queue| == |s.queue| && res.1.queue[i].Wait?
  {
    var q := s.queue[i];
    var r := Wanted(q, second);
    if Has(q, second) || r.None? then (OK, s)
    else
      var (e, s1) := TryLock(s, Key(q.ticket, second), r.value, oom);
      (e, if e == OK then Put(s1, i, Got(q, second, Target(s.core.tree, r.value))) else s1)
  }

  /** queue_element_unlock(). */
  ghost function UnlockElem(s: State, i: int): (s': State)
    requires 0 <= i < |s.queue| && s.queue[i].Wait?
    ensures |s'.queue| == |s.queue| && s'.queue[i].Wait?
  {
    var q := s.queue[i];
    Put(Release(s, q.ticket), i, q.(first := false, second := false))
  }

  ghost function Finish(s: State, i: int, e: Err): State
    requires 0 <= i < |s.queue| && s.queue[i].Wait?
  {
    Put(s, i, s.queue[i].(done := true, err := e))
  }

  ghost function Wakeup(s: State, i: int, oom1: bool, oom2: bool): (s': State)
    requires 0 <= i < |s.queue|
    ensures |s'.queue| == |s.queue|
  {
    if s.queue[i].Forget? then s
    else
      var (e1, s1) := WakePath(s, i, false, oom1);
      if e1 != OK && e1 != EAGAIN then Finish(UnlockElem(s1, i), i, e1)
      else
        var (e2, s2) := WakePath(s1, i, true, oom2);
        if e2 != OK && e2 != EAGAIN then Finish(UnlockElem(s2, i), i, e2)
        else if e1 == OK && e2 == OK then Finish(s2, i, OK)
        else if i != 0 then UnlockElem(s2, i)
        else s2
  }

  /** Which of the two attempts for each queue element run out of memory. */
  type Failures = seq<(bool, bool)>

  /** `s'` differs from `s` only in tree locks, in what the i-th waiting call holds, and in
      the progress fields of its queue element. */
  ghost predicate Only(s: State, s': State, i: int)
    requires 0 <= i < |s.queue| && s.queue[i].Wait?
  {
    && s'.core == s.core.(treelock := s'.core.treelock)
    && s'.core.treelock.Keys == s.core.treelock.Keys
    && s'.granted == s.granted && s'.calls == s.calls && s'.ids == s.ids
    && |s'.queue| == |s.queue|
    && (forall j {:trigger s.queue[j]} {:trigger s'.queue[j]} :: 0 <= j < |s.queue| && j != i ==>
      s'.queue[j] == s.queue[j])
    && s'.queue[i].Wait? && s'.queue[i].ticket == s.queue[i].ticket
    && s'.queue[i].r1 == s.queue[i].r1 && s'.queue[i].r2 == s.queue[i].r2
    && (forall k: Key {:trigger s.holds[k]} {:trigger s'.holds[k]} {:trigger SameHold(s.holds, s'.holds, k)} ::
      k.ticket != s.queue[i].ticket ==> SameHold(s.holds, s'.holds, k))
  }

  ghost predicate SameHold(a: Holds, b: Holds, k: Key) {
    (k in a <==> k in b) && (k in a ==> a[k] == b[k])
  }

  lemma OnlyTransitive(a: State, b: State, c: State, i: int)
    requires 0 <= i < |a.queue| && a.queue[i].Wait? && Only(a, b, i) && Only(b, c, i)
    ensures Only(a, c, i)
  {
    forall k: Key | k.ticket != a.queue[i].ticket ensures SameHold(a.holds, c.holds, k) {
      assert SameHold(a.holds, b.holds, k) && SameHold(b.holds, c.holds, k);
    }
  }

  lemma WakePathOnly(s: State, i: int, second: bool, oom: bool)
    requires 0 <= i < |s.queue| && s.queue[i].Wait?
    ensures Only(s, WakePath(s, i, second, oom).1, i)
  {
  }

  lemma UnlockElemOnly(s: State, i: int)
    requires 0 <= i < |s.queue| && s.queue[i].Wait?
    ensures Only(s, UnlockElem(s, i), i)
  {
  }

  lemma FinishOnly(s: State, i: int, e: Err)
    requires 0 <= i < |s.queue| && s.queue[i].Wait?
    ensures Only(s, Finish(s, i, e), i)
  {
  }

  lemma UnlockFinishOnly(s: State, i: int, e: Err)
    requires 0 <= i < |s.queue| && s.queue[i].Wait?
    ensures Only(s, Finish(UnlockElem(s, i), i, e), i)
  {
    UnlockElemOnly(s, i);
    FinishOnly(UnlockElem(s, i), i, e);
    OnlyTransitive(s, UnlockElem(s, i), Finish(UnlockElem(s, i), i, e), i);
  }

  /** A wakeup changes no link, no counter but treelocks, and no other call. */
  lemma WakeupOnly(s: State, i: int, oom1: bool, oom2: bool)
    requires 0 <= i < |s.queue| && s.queue[i].Wait?
    ensures Only(s, Wakeup(s, i, oom1, oom2), i)
  {
    var (e1, s1) := WakePath(s, i, false, oom1);
    WakePathOnly(s, i, false, oom1);
    if e1 != OK && e1 != EAGAIN {
      UnlockFinishOnly(s1, i, e1);
      OnlyTransitive(s, s1, Wakeup(s, i, oom1, oom2), i);
    } else {
      var (e2, s2) := WakePath(s1, i, true, oom2);
      WakePathOnly(s1, i, true, oom2);
      OnlyTransitive(s, s1, s2, i);
      UnlockFinishOnly(s2, i, e2);
      UnlockElemOnly(s2, i);
      FinishOnly(s2, i, OK);
      if Wakeup(s, i, oom1, oom2) != s2 {
        OnlyTransitive(s, s2, Wakeup(s, i, oom1, oom2), i);
      }
    }
  }

  /** wake_up_queued(), from the i-th element on. */
  ghost function WakeFrom(s: State, i: int, f: Failures): State
    requires 0 <= i <= |s.queue| == |f|
    decreases |f| - i
  {
    if i == |s.queue| then s
    else
      WakeFrom(Wakeup(s, i, f[i].0, f[i].1), i + 1, f)
  }

  // ---- the invariant ----

  /** At most this many calls are under way at once; then no treelock can overflow. */
  const MAX_CALLS: int := 0x3fff_ffff

  /** The flag of a queue element says whether the path is held, and by what. */
  ghost predicate Tied(holds: Holds, k: Key, flag: bool, r: Option<Request>, w: Option<Id>) {
    && (flag <==> k in holds)
    && (flag ==> r.Some? && holds[k].nodeid == r.value.nodeid && holds[k].wnode == w)
  }

  ghost predicate ElemTied(c: Core, holds: Holds, q: Elem) {
    if q.Wait? then
      && Kept(c, q.ticket, q.r1.nodeid) && (q.r2.Some? ==> Kept(c, q.ticket, q.r2.value.nodeid))
      && Tied(holds, Key(q.ticket, false), q.first, Some(q.r1), q.w1)
      && Tied(holds, Key(q.ticket, true), q.second, q.r2, q.w2)
    else
      && Key(q.ticket, false) !in holds && Key(q.ticket, true) !in holds
      && q.nodeid != ROOT && q.count > 0
  }

  /** The queue discipline: behind the head only a call that is done without an error owns
      a path, and such a call has all it asked for. */
  predicate Disciplined(q: Elem, head: bool) {
    q.Wait? ==>
      && (!head && !(q.done && q.err == OK) ==> !q.first && !q.second)
      && (q.done && q.err == OK ==> q.first && (q.r2.Some? ==> q.second))
  }

  /** Every hold belongs to a known call. */
  ghost predicate Owned(holds: Holds, calls: set<Ticket>) {
    forall k {:trigger k in holds} :: k in holds ==> k.ticket in calls
  }

  ghost predicate GrantTied(s: State, t: Ticket, g: Grant) {
    && Key(t, false) in s.holds && s.holds[Key(t, false)].nodeid == g.r1.nodeid
    && (Key(t, true) in s.holds <==> g.r2.Some?)
    && (g.r2.Some? ==> s.holds[Key(t, true)].nodeid == g.r2.value.nodeid)
  }

  /** Lookups the kernel has asked to forget and that are still queued. */
  function Pending(q: seq<Elem>, n: Id): int {
    if q == [] then 0
    else Pending(q[..|q| - 1], n) + (var e := q[|q| - 1]; if e.Forget? && e.nodeid == n then e.count else 0)
  }

  ghost predicate PendingOk(s: State, n: Id) {
    Pending(s.queue, n) > 0 ==> n in s.core.nlookup && s.core.nlookup[n] >= Pending(s.queue, n)
  }

  /** Everything but the queue discipline. */
  ghost predicate Tidy(s: State) {
    && Sound(s.core, s.holds)
    && |s.calls| <= MAX_CALLS
    && Owned(s.holds, s.calls)
    && s.granted.Keys <= s.calls
    && (forall i {:trigger s.queue[i]} :: 0 <= i < |s.queue| ==> ElemTied(s.core, s.holds, s.queue[i]))
    && (forall i {:trigger s.queue[i]} :: 0 <= i < |s.queue| ==>
      s.queue[i].ticket in s.calls && s.queue[i].ticket !in s.granted)
    && (forall i, j {:trigger s.queue[i], s.queue[j]} :: 0 <= i < j < |s.queue| ==>
      s.queue[i].ticket != s.queue[j].ticket)
    && (forall t {:trigger s.granted[t]} :: t in s.granted ==> GrantTied(s, t, s.granted[t]))
    && (forall n {:trigger Pending(s.queue, n)} {:trigger PendingOk(s, n)} :: PendingOk(s, n))
  }

  ghost predicate Inv(s: State) {
    && Tidy(s)
    && (forall i {:trigger s.queue[i]} :: 0 <= i < |s.queue| ==> Disciplined(s.queue[i], i == 0))
  }

  /** The children that waiting calls want to write-lock are remembered by the kernel. */
  ghost predicate TargetsKnown(s: State) {
    forall i {:trigger s.queue[i]} :: 0 <= i < |s.queue| ==> ElemKnown(s.core, s.queue[i])
  }

  ghost predicate ElemKnown(c: Core, q: Elem) {
    q.Wait? ==> TargetKnown(c, q.r1) && (q.r2.Some? ==> TargetKnown(c, q.r2.value))
  }
}
