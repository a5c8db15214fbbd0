/** Requests and INTERRUPT messages in lib/fuse_lowlevel.c: two mutexes, two lists and a
    counter. The steps of the machine are the critical sections of `se->lock`; `rlock` says
    who holds the mutex of a request in between. */
module Interrupts {
  import opened Basics

  type Rid = int
  type Tid = int
  type Mid = int

  /** A callback registered with fuse_req_interrupt_func() for the request `rid`. */
  datatype Callback = Callback(rid: Rid, serial: int)

  /** The fields of `struct fuse_req` that matter here. */
  datatype Req = Req(unique: int, ctr: int, interrupted: bool, func: Option<Callback>)

  /** An INTERRUPT message waiting in `se->interrupts` for its request to turn up. */
  datatype Early = Early(mid: Mid, unique: int)

  /** How far a thread has got in find_interrupted(): the request is referenced; it is marked
      and its callback about to be called; the mutex is released. */
  datatype Phase = Entered(mid: Mid) | Marked(func: Option<Callback>) | Released
  datatype Flight = Flight(rid: Rid, phase: Phase)

  /** How far a request's own thread has got in fuse_req_interrupt_func(). */
  datatype Setting = Locked(func: Option<Callback>) | Stored(func: Option<Callback>)

  datatype Holder = Nobody | Thread(t: Tid) | Owner

  datatype Fate = Flagged | Answered | Duplicate

  /** `owned` are the requests not yet given to fuse_free_req(), `called` the callbacks that
      have been called, `created` and `freed` all requests that came and went, `fates` what
      became of each INTERRUPT. */
  datatype State = State(
    reqs: map<Rid, Req>,
    owned: set<Rid>,
    list: seq<Rid>,
    early: seq<Early>,
    flights: map<Tid, Flight>,
    settings: map<Rid, Setting>,
    rlock: map<Rid, Holder>,
    called: set<Callback>,
    created: set<Rid>,
    freed: set<Rid>,
    messages: set<Mid>,
    fates: map<Mid, Fate>)

  datatype Event =
    | Arrive(rid: Rid, unique: int)
    | Interrupt(t: Tid, mid: Mid, unique: int)
    | Mark(t: Tid)
    | Call(t: Tid)
    | Leave(t: Tid)
    | Lock(rid: Rid, func: Option<Callback>)
    | Store(rid: Rid)
    | Check(rid: Rid)
    | Free(rid: Rid)

  // ---- the steps ----

  /** The first message in the list for `unique`; the length of the list if there is none. */
  function FindEarly(early: seq<Early>, unique: int): (i: int)
    ensures 0 <= i <= |early| && (i < |early| ==> early[i].unique == unique)
    ensures forall j :: 0 <= j < i ==> early[j].unique != unique
  {
    if early == [] then 0
    else
      var k := FindEarly(early[..|early| - 1], unique);
      if k < |early| - 1 then k
      else if early[k].unique == unique then k else |early|
  }

  /** The first listed request with that number. */
  function FindReq(list: seq<Rid>, reqs: map<Rid, Req>, unique: int): (i: int)
    ensures 0 <= i <= |list| && (i < |list| ==> list[i] in reqs && reqs[list[i]].unique == unique)
    ensures forall j :: 0 <= j < i ==> list[j] in reqs ==> reqs[list[j]].unique != unique
  {
    if list == [] then 0
    else
      var k := FindReq(list[..|list| - 1], reqs, unique);
      if k < |list| - 1 then k
      else if list[k] in reqs && reqs[list[k]].unique == unique then k else |list|
  }

  function Without<T>(s: seq<T>, i: int): seq<T>
    requires 0 <= i < |s|
  {
    s[..i] + s[i + 1..]
  }

  /** check_interrupt() and list_add_req() for a new request. */
  function Arrived(s: State, rid: Rid, unique: int): State {
    var i := FindEarly(s.early, unique);
    var hit := i < |s.early|;
    var gone := if hit then i else 0;
    s.(reqs := s.reqs[rid := Req(unique, 1, hit, None)],
       owned := s.owned + {rid},
       list := s.list + [rid],
       rlock := s.rlock[rid := Nobody],
       created := s.created + {rid},
       early := if s.early == [] then [] else Without(s.early, gone),
       fates := if s.early == [] then s.fates else s.fates[s.early[gone].mid := if hit then Flagged else Answered])
  }

  /** find_interrupted() has found its request and takes a reference. */
  function Referenced(s: State, t: Tid, mid: Mid, r: Rid): State {
    if r in s.reqs then
      s.(reqs := s.reqs[r := s.reqs[r].(ctr := s.reqs[r].ctr + 1)], flights := s.flights[t := Flight(r, Entered(mid))])
    else s
  }

  /** do_interrupt() with the first part of find_interrupted(). */
  function Interrupted(s: State, t: Tid, mid: Mid, unique: int): State {
    var i := FindReq(s.list, s.reqs, unique);
    var s1 :=
      if i < |s.list| then Referenced(s, t, mid, s.list[i])
      else if FindEarly(s.early, unique) < |s.early| then s.(fates := s.fates[mid := Duplicate])
      else s.(early := s.early + [Early(mid, unique)]);
    s1.(messages := s.messages + {mid})
  }

  /** One user of a request less; the last one frees it. */
  function Dropped(s: State, rid: Rid): State {
    if rid !in s.reqs then s
    else if s.reqs[rid].ctr == 1 then s.(reqs := s.reqs - {rid}, rlock := s.rlock - {rid}, freed := s.freed + {rid})
    else s.(reqs := s.reqs[rid := s.reqs[rid].(ctr := s.reqs[rid].ctr - 1)])
  }

  function Removed(list: seq<Rid>, rid: Rid): seq<Rid> {
    if list == [] then []
    else
      var rest, r := Removed(list[..|list| - 1], rid), list[|list| - 1];
      if r == rid then rest else rest + [r]
  }

  function Calling(called: set<Callback>, func: Option<Callback>): set<Callback> {
    if func.Some? then called + {func.value} else called
  }

  ghost function Next(s: State, e: Event): State
    requires Enabled(s, e)
  {
    match e
    case Arrive(rid, unique) => Arrived(s, rid, unique)
    case Interrupt(t, mid, unique) => Interrupted(s, t, mid, unique)
    case Mark(t) =>
      var f := s.flights[t];
      s.(reqs := s.reqs[f.rid := s.reqs[f.rid].(interrupted := true)],
         flights := s.flights[t := Flight(f.rid, Marked(s.reqs[f.rid].func))],
         rlock := s.rlock[f.rid := Thread(t)],
         fates := s.fates[f.phase.mid := Flagged])
    case Call(t) =>
      var f := s.flights[t];
      s.(called := Calling(s.called, f.phase.func), flights := s.flights[t := Flight(f.rid, Released)],
         rlock := s.rlock[f.rid := Nobody])
    case Leave(t) => Dropped(s, s.flights[t].rid).(flights := s.flights - {t})
    case Lock(rid, func) => s.(settings := s.settings[rid := Locked(func)], rlock := s.rlock[rid := Owner])
    case Store(rid) =>
      s.(reqs := s.reqs[rid := s.reqs[rid].(func := s.settings[rid].func)],
         settings := s.settings[rid := Stored(s.settings[rid].func)])
    case Check(rid) =>
      s.(called := if s.reqs[rid].interrupted then Calling(s.called, s.settings[rid].func) else s.called,
         settings := s.settings - {rid}, rlock := s.rlock[rid := Nobody])
    case Free(rid) =>
      var u := s.(reqs := s.reqs[rid := s.reqs[rid].(func := None)], list := Removed(s.list, rid));
      Dropped(u, rid).(owned := s.owned - {rid})
  }

  /** The kernel numbers requests and messages uniquely; a request's thread runs one call at a
      time; a mutex has one holder. */
  ghost predicate Enabled(s: State, e: Event) {
    match e
    case Arrive(rid, unique) => rid !in s.created && FindReq(s.list, s.reqs, unique) == |s.list|
    case Interrupt(t, mid, unique) => t !in s.flights && mid !in s.messages
    case Mark(t) =>
      && t in s.flights && s.flights[t].phase.Entered? && s.flights[t].rid in s.reqs
      && s.flights[t].rid in s.rlock && s.rlock[s.flights[t].rid] == Nobody
    case Call(t) => t in s.flights && s.flights[t].phase.Marked?
    case Leave(t) => t in s.flights && s.flights[t].phase.Released?
    case Lock(rid, func) =>
      && rid in s.owned && rid !in s.settings && rid in s.rlock && s.rlock[rid] == Nobody
      && (func.Some? ==> func.value.rid == rid && !Known(s, func.value))
    case Store(rid) => rid in s.settings && s.settings[rid].Locked? && rid in s.reqs
    case Check(rid) => rid in s.settings && s.settings[rid].Stored? && rid in s.reqs
    case Free(rid) => rid in s.owned && rid !in s.settings && rid in s.reqs
  }

  /** The callback can still be called. */
  ghost predicate Live(s: State, c: Callback) {
    || (c.rid in s.reqs && s.reqs[c.rid].func == Some(c))
    || (c.rid in s.settings && s.settings[c.rid].func == Some(c))
    || (exists t {:trigger s.flights[t]} :: t in s.flights && s.flights[t].phase == Marked(Some(c)))
  }

  ghost predicate Known(s: State, c: Callback) {
    c in s.called || Live(s, c)
  }

  // ---- lifetimes ----

  ghost function On(flights: map<Tid, Flight>, rid: Rid): set<Tid> {
    set t | t in flights && flights[t].rid == rid
  }

  /** The counter of a request counts its owner and the threads interrupting it. */
  ghost predicate CtrOk(s: State, rid: Rid)
    requires rid in s.reqs
  {
    s.reqs[rid].ctr == |On(s.flights, rid)| + (if rid in s.owned then 1 else 0) && s.reqs[rid].ctr >= 1
  }

  ghost predicate Alive(s: State) {
    && s.owned <= s.reqs.Keys && s.settings.Keys <= s.owned && s.rlock.Keys == s.reqs.Keys
    && s.created == s.reqs.Keys + s.freed && s.reqs.Keys !! s.freed
    && (forall t {:trigger s.flights[t]} :: t in s.flights ==> s.flights[t].rid in s.reqs)
    && (forall rid {:trigger s.reqs[rid]} {:trigger CtrOk(s, rid)} :: rid in s.reqs ==> CtrOk(s, rid))
    && NoRepeats(s.list) && (forall rid {:trigger rid in s.list} :: rid in s.list <==> rid in s.owned)
  }

  lemma FlightAdded(flights: map<Tid, Flight>, t: Tid, f: Flight, rid: Rid)
    requires t !in flights
    ensures |On(flights[t := f], rid)| == |On(flights, rid)| + if f.rid == rid then 1 else 0
  {
    if f.rid == rid {
      assert On(flights[t := f], rid) == On(flights, rid) + {t};
    } else {
      assert On(flights[t := f], rid) == On(flights, rid);
    }
  }

  lemma FlightEnded(flights: map<Tid, Flight>, t: Tid, rid: Rid)
    requires t in flights
    ensures |On(flights - {t}, rid)| == |On(flights, rid)| - if flights[t].rid == rid then 1 else 0
  {
    if flights[t].rid == rid {
      assert On(flights - {t}, rid) == On(flights, rid) - {t} && t in On(flights, rid);
    } else {
      assert On(flights - {t}, rid) == On(flights, rid);
    }
  }

  lemma {:induction false} RemovedMembers(list: seq<Rid>, rid: Rid)
    requires NoRepeats(list)
    ensures NoRepeats(Removed(list, rid)) && forall r {:trigger r in Removed(list, rid)} ::
      r in Removed(list, rid) <==> r in list && r != rid
    decreases |list|
  {
    if list != [] {
      var front, r := list[..|list| - 1], list[|list| - 1];
      assert list == front + [r];
      RemovedMembers(front, rid);
      assert r !in front;
      Appended(Removed(front, rid), r);
      Appended(front, r);
    }
  }

  lemma ArriveAlive(s: State, rid: Rid, unique: int)
    requires Alive(s) && rid !in s.created
    ensures Alive(Arrived(s, rid, unique))
  {
    var s' := Arrived(s, rid, unique);
    assert forall t :: t in s.flights ==> s.flights[t].rid != rid;
    assert On(s.flights, rid) == {};
    forall r | r in s'.reqs ensures CtrOk(s', r) {
      assert r != rid ==> CtrOk(s, r);
    }
    Appended(s.list, rid);
  }

  lemma InterruptAlive(s: State, t: Tid, mid: Mid, unique: int)
    requires Alive(s) && t !in s.flights
    ensures Alive(Interrupted(s, t, mid, unique))
  {
    hide FindReq, FindEarly, Referenced, Alive;
    var s', i := Interrupted(s, t, mid, unique), FindReq(s.list, s.reqs, unique);
    if i < |s.list| {
      ReferencedAlive(s, t, mid, s.list[i]);
      MailAlive(Referenced(s, t, mid, s.list[i]), s');
    } else {
      MailAlive(s, s');
    }
  }

  lemma MailAlive(s: State, s': State)
    requires Alive(s) && s' == s.(early := s'.early, fates := s'.fates, messages := s'.messages)
    ensures Alive(s')
  {
    StayAlive(s, s');
  }

  lemma ReferencedAlive(s: State, t: Tid, mid: Mid, r: Rid)
    requires Alive(s) && t !in s.flights && r in s.reqs
    ensures Alive(Referenced(s, t, mid, r))
  {
    var s' := Referenced(s, t, mid, r);
    forall q | q in s'.reqs ensures CtrOk(s', q) {
      assert CtrOk(s, q);
      FlightAdded(s.flights, t, Flight(r, Entered(mid)), q);
    }
  }

  /** A thread goes on to its next phase, or the fields of a request change. */
  lemma StayAlive(s: State, s': State)
    requires Alive(s) && s'.reqs.Keys == s.reqs.Keys && s'.rlock.Keys == s.rlock.Keys
    requires s'.flights.Keys == s.flights.Keys
    requires s'.owned == s.owned && s'.list == s.list && s'.created == s.created && s'.freed == s.freed
    requires s'.settings.Keys <= s.owned
    requires forall r {:trigger s'.reqs[r]} :: r in s.reqs ==> s'.reqs[r].ctr == s.reqs[r].ctr
    requires forall t {:trigger s'.flights[t]} :: t in s.flights ==> s'.flights[t].rid == s.flights[t].rid
    ensures Alive(s')
  {
    forall r | r in s'.reqs ensures CtrOk(s', r) {
      assert CtrOk(s, r);
      forall t ensures t in On(s'.flights, r) <==> t in On(s.flights, r) {
        assert t in s.flights ==> s'.flights[t].rid == s.flights[t].rid;
      }
      assert On(s'.flights, r) == On(s.flights, r);
    }
  }

  lemma LeaveAlive(s: State, t: Tid)
    requires Alive(s) && Enabled(s, Leave(t))
    ensures Alive(Next(s, Leave(t)))
  {
    var s', rid := Next(s, Leave(t)), s.flights[t].rid;
    assert CtrOk(s, rid);
    FlightEnded(s.flights, t, rid);
    assert t in On(s.flights, rid);
    if s.reqs[rid].ctr == 1 {
      assert On(s'.flights, rid) == {};
      forall u | u in s'.flights ensures s'.flights[u].rid in s'.reqs {
        assert s.flights[u].rid == rid ==> u in On(s'.flights, rid);
      }
    }
    forall r | r in s'.reqs ensures CtrOk(s', r) {
      assert CtrOk(s, r);
      FlightEnded(s.flights, t, r);
    }
  }

  lemma FreeAlive(s: State, rid: Rid)
    requires Alive(s) && Enabled(s, Free(rid))
    ensures Alive(Next(s, Free(rid)))
  {
    var s' := Next(s, Free(rid));
    assert CtrOk(s, rid);
    RemovedMembers(s.list, rid);
    if s.reqs[rid].ctr == 1 {
      assert On(s.flights, rid) == {};
      forall u | u in s'.flights ensures s'.flights[u].rid in s'.reqs {
        assert s.flights[u].rid == rid ==> u in On(s.flights, rid);
      }
    }
    forall r | r in s'.reqs ensures CtrOk(s', r) {
      assert CtrOk(s, r);
    }
  }

  lemma NextAlive(s: State, e: Event)
    requires Alive(s) && Enabled(s, e)
    ensures Alive(Next(s, e))
  {
    hide FindReq, FindEarly;
    match e
    case Arrive(rid, unique) => ArriveAlive(s, rid, unique);
    case Interrupt(t, mid, unique) => InterruptAlive(s, t, mid, unique);
    case Leave(t) => LeaveAlive(s, t);
    case Free(rid) => FreeAlive(s, rid);
    case Mark(_) => StayAlive(s, Next(s, e));
    case Call(_) => StayAlive(s, Next(s, e));
    case Lock(_, _) => StayAlive(s, Next(s, e));
    case Store(_) => StayAlive(s, Next(s, e));
    case Check(_) => StayAlive(s, Next(s, e));
  }

  // ---- mutexes and callbacks ----

  /** Who holds the mutex of a request, and what that says about the phases. */
  ghost predicate HolderOk(s: State, rid: Rid)
    requires rid in s.rlock
  {
    var h := s.rlock[rid];
    && (rid in s.settings <==> h == Owner)
    && (h.Thread? ==> h.t in s.flights && s.flights[h.t].rid == rid && s.flights[h.t].phase.Marked?)
  }

  ghost predicate FlightOk(s: State, t: Tid)
    requires t in s.flights
  {
    var f := s.flights[t];
    f.phase.Marked? ==>
      && f.rid in s.rlock && s.rlock[f.rid] == Thread(t)
      && (f.phase.func.Some? ==> f.phase.func.value.rid == f.rid)
  }

  ghost predicate SettingOk(s: State, rid: Rid)
    requires rid in s.settings
  {
    var p := s.settings[rid];
    && (p.func.Some? ==> p.func.value.rid == rid)
    && (p.Stored? ==> rid in s.reqs && s.reqs[rid].func == p.func)
  }

  /** A callback belongs to a request that is still owned, and is not missed: once the request
      is interrupted it has been called, or whoever holds the mutex is about to call it. */
  ghost predicate FuncOk(s: State, rid: Rid)
    requires rid in s.reqs
  {
    var r := s.reqs[rid];
    r.func.Some? ==>
      && r.func.value.rid == rid && rid in s.owned
      && (r.interrupted && r.func.value !in s.called ==> rid in s.rlock && AboutToCall(s, rid, r.func))
  }

  ghost predicate AboutToCall(s: State, rid: Rid, func: Option<Callback>)
    requires rid in s.rlock
  {
    match s.rlock[rid]
    case Nobody => false
    case Thread(t) => t in s.flights && s.flights[t] == Flight(rid, Marked(func))
    case Owner => rid in s.settings && s.settings[rid] == Stored(func)
  }

  ghost predicate Guarded(s: State) {
    && (forall rid {:trigger s.rlock[rid]} :: rid in s.rlock ==> HolderOk(s, rid))
    && (forall t {:trigger s.flights[t]} :: t in s.flights ==> FlightOk(s, t))
    && (forall rid {:trigger s.settings[rid]} :: rid in s.settings ==> SettingOk(s, rid))
    && (forall rid {:trigger s.reqs[rid]} :: rid in s.reqs ==> FuncOk(s, rid))
  }

  lemma NextGuarded(s: State, e: Event)
    requires Alive(s) && Guarded(s) && Enabled(s, e)
    ensures Guarded(Next(s, e))
  {
    match e
    case Arrive(rid, unique) => ArriveGuarded(s, rid, unique);
    case Interrupt(t, mid, unique) => InterruptGuarded(s, t, mid, unique);
    case Mark(t) => MarkGuarded(s, t);
    case Call(t) => CallGuarded(s, t);
    case Leave(t) => LeaveGuarded(s, t);
    case Lock(rid, func) => LockGuarded(s, rid, func);
    case Store(rid) => StoreGuarded(s, rid);
    case Check(rid) => CheckGuarded(s, rid);
    case Free(rid) => FreeGuarded(s, rid);
  }

  lemma ArriveGuarded(s: State, rid: Rid, unique: int)
    requires Alive(s) && Guarded(s) && Enabled(s, Arrive(rid, unique))
    ensures Guarded(Next(s, Arrive(rid, unique)))
  {
    var s' := Next(s, Arrive(rid, unique));
    forall r | r in s'.rlock ensures HolderOk(s', r) {
      assert r != rid ==> HolderOk(s, r);
    }
    forall r | r in s'.reqs ensures FuncOk(s', r) {
      assert r != rid ==> FuncOk(s, r);
    }
  }

  lemma InterruptGuarded(s: State, t: Tid, mid: Mid, unique: int)
    requires Guarded(s) && t !in s.flights
    ensures Guarded(Interrupted(s, t, mid, unique))
  {
    hide FindReq, FindEarly, Referenced, Guarded;
    var s', i := Interrupted(s, t, mid, unique), FindReq(s.list, s.reqs, unique);
    if i < |s.list| {
      var s1 := Referenced(s, t, mid, s.list[i]);
      ReferencedGuarded(s, t, mid, s.list[i]);
      MailGuarded(s1, s');
    } else {
      MailGuarded(s, s');
    }
  }

  lemma MailGuarded(s: State, s': State)
    requires Guarded(s) && s' == s.(early := s'.early, fates := s'.fates, messages := s'.messages)
    ensures Guarded(s')
  {
    forall r | r in s'.rlock ensures HolderOk(s', r) {
      assert HolderOk(s, r);
    }
    forall u | u in s'.flights ensures FlightOk(s', u) {
      assert FlightOk(s, u);
    }
    forall r | r in s'.settings ensures SettingOk(s', r) {
      assert SettingOk(s, r);
    }
    forall r | r in s'.reqs ensures FuncOk(s', r) {
      assert FuncOk(s, r);
    }
  }

  lemma ReferencedGuarded(s: State, t: Tid, mid: Mid, rid: Rid)
    requires Guarded(s) && t !in s.flights
    ensures Guarded(Referenced(s, t, mid, rid))
  {
    var s' := Referenced(s, t, mid, rid);
    forall r | r in s'.rlock ensures HolderOk(s', r) {
      assert HolderOk(s, r);
    }
    forall u | u in s'.flights ensures FlightOk(s', u) {
      assert u in s.flights ==> FlightOk(s, u);
    }
    forall r | r in s'.settings ensures SettingOk(s', r) {
      assert SettingOk(s, r);
    }
    forall r | r in s'.reqs ensures FuncOk(s', r) {
      assert FuncOk(s, r);
    }
  }

  lemma MarkGuarded(s: State, t: Tid)
    requires Alive(s) && Guarded(s) && Enabled(s, Mark(t))
    ensures Guarded(Next(s, Mark(t)))
  {
    var s', rid := Next(s, Mark(t)), s.flights[t].rid;
    assert HolderOk(s, rid) && FuncOk(s, rid);
    forall r | r in s'.rlock ensures HolderOk(s', r) {
      assert HolderOk(s, r);
    }
    forall u | u in s'.flights ensures FlightOk(s', u) {
      assert FlightOk(s, u);
    }
    forall r | r in s'.settings ensures SettingOk(s', r) {
      assert SettingOk(s, r) && HolderOk(s, r);
    }
    forall r | r in s'.reqs ensures FuncOk(s', r) {
      assert FuncOk(s, r);
    }
  }

  lemma CallGuarded(s: State, t: Tid)
    requires Alive(s) && Guarded(s) && Enabled(s, Call(t))
    ensures Guarded(Next(s, Call(t)))
  {
    var s', rid := Next(s, Call(t)), s.flights[t].rid;
    assert FlightOk(s, t) && HolderOk(s, rid);
    forall r | r in s'.rlock ensures HolderOk(s', r) {
      assert HolderOk(s, r);
    }
    forall u | u in s'.flights ensures FlightOk(s', u) {
      assert FlightOk(s, u);
    }
    forall r | r in s'.settings ensures SettingOk(s', r) {
      assert SettingOk(s, r);
    }
    forall r | r in s'.reqs ensures FuncOk(s', r) {
      assert FuncOk(s, r) && HolderOk(s, r);
    }
  }

  lemma LeaveGuarded(s: State, t: Tid)
    requires Alive(s) && Guarded(s) && Enabled(s, Leave(t))
    ensures Guarded(Next(s, Leave(t)))
  {
    hide Alive;
    LastUser(s, t);
    var s', rid := Next(s, Leave(t)), s.flights[t].rid;
    forall r | r in s'.rlock ensures HolderOk(s', r) {
      assert HolderOk(s, r);
    }
    forall u | u in s'.flights ensures FlightOk(s', u) {
      assert FlightOk(s, u);
    }
    forall r | r in s'.settings ensures SettingOk(s', r) {
      assert SettingOk(s, r);
    }
    forall r | r in s'.reqs ensures FuncOk(s', r) {
      assert FuncOk(s, r) && HolderOk(s, r);
    }
  }

  /** A thread that is the last user of a request. */
  lemma LastUser(s: State, t: Tid)
    requires Alive(s) && t in s.flights
    ensures var rid := s.flights[t].rid;
      && rid in s.reqs && s.rlock.Keys == s.reqs.Keys
      && (s.reqs[rid].ctr == 1 ==>
            rid !in s.settings && forall u {:trigger s.flights[u]} :: u in s.flights && u != t ==>
              s.flights[u].rid != rid)
  {
    var rid := s.flights[t].rid;
    assert CtrOk(s, rid);
    if s.reqs[rid].ctr == 1 {
      FlightEnded(s.flights, t, rid);
      assert t in On(s.flights, rid);
      forall u | u in s.flights && u != t ensures s.flights[u].rid != rid {
        assert u !in On(s.flights - {t}, rid);
      }
    }
  }

  lemma LockGuarded(s: State, rid: Rid, func: Option<Callback>)
    requires Alive(s) && Guarded(s) && Enabled(s, Lock(rid, func))
    ensures Guarded(Next(s, Lock(rid, func)))
  {
    var s' := Next(s, Lock(rid, func));
    assert HolderOk(s, rid) && FuncOk(s, rid);
    forall r | r in s'.rlock ensures HolderOk(s', r) {
      assert HolderOk(s, r);
    }
    forall u | u in s'.flights ensures FlightOk(s', u) {
      assert FlightOk(s, u);
    }
    forall r | r in s'.settings ensures SettingOk(s', r) {
      assert r != rid ==> SettingOk(s, r);
    }
    forall r | r in s'.reqs ensures FuncOk(s', r) {
      assert FuncOk(s, r);
    }
  }

  lemma StoreGuarded(s: State, rid: Rid)
    requires Alive(s) && Guarded(s) && Enabled(s, Store(rid))
    ensures Guarded(Next(s, Store(rid)))
  {
    var s' := Next(s, Store(rid));
    assert SettingOk(s, rid) && HolderOk(s, rid);
    forall r | r in s'.rlock ensures HolderOk(s', r) {
      assert HolderOk(s, r);
    }
    forall u | u in s'.flights ensures FlightOk(s', u) {
      assert FlightOk(s, u);
    }
    forall r | r in s'.settings ensures SettingOk(s', r) {
      assert SettingOk(s, r);
    }
    forall r | r in s'.reqs ensures FuncOk(s', r) {
      assert FuncOk(s, r);
    }
  }

  lemma CheckGuarded(s: State, rid: Rid)
    requires Alive(s) && Guarded(s) && Enabled(s, Check(rid))
    ensures Guarded(Next(s, Check(rid)))
  {
    var s' := Next(s, Check(rid));
    assert SettingOk(s, rid) && HolderOk(s, rid);
    forall r | r in s'.rlock ensures HolderOk(s', r) {
      assert HolderOk(s, r);
    }
    forall u | u in s'.flights ensures FlightOk(s', u) {
      assert FlightOk(s, u);
    }
    forall r | r in s'.settings ensures SettingOk(s', r) {
      assert SettingOk(s, r);
    }
    forall r | r in s'.reqs ensures FuncOk(s', r) {
      assert FuncOk(s, r);
    }
  }

  lemma FreeGuarded(s: State, rid: Rid)
    requires Alive(s) && Guarded(s) && Enabled(s, Free(rid))
    ensures Guarded(Next(s, Free(rid)))
  {
    hide Alive;
    LastOwner(s, rid);
    var s' := Next(s, Free(rid));
    assert HolderOk(s, rid);
    forall r | r in s'.rlock ensures HolderOk(s', r) {
      assert HolderOk(s, r);
    }
    forall u | u in s'.flights ensures FlightOk(s', u) {
      assert FlightOk(s, u);
    }
    forall r | r in s'.settings ensures SettingOk(s', r) {
      assert SettingOk(s, r);
    }
    forall r | r in s'.reqs ensures FuncOk(s', r) {
      assert FuncOk(s, r);
    }
  }

  lemma LastOwner(s: State, rid: Rid)
    requires Alive(s) && rid in s.owned
    ensures rid in s.reqs && s.rlock.Keys == s.reqs.Keys
    ensures s.reqs[rid].ctr == 1 ==> forall u {:trigger s.flights[u]} :: u in s.flights ==> s.flights[u].rid != rid
  {
    assert CtrOk(s, rid);
    if s.reqs[rid].ctr == 1 {
      forall u | u in s.flights ensures s.flights[u].rid != rid {
        assert u !in On(s.flights, rid);
      }
    }
  }

  // ---- every INTERRUPT ends in one way ----

  /** Requests in flight and early messages all have different numbers. */
  ghost predicate Numbered(s: State) {
    && (forall r, q {:trigger s.reqs[r], s.reqs[q]} ::
          r in s.owned && q in s.owned && r in s.reqs && q in s.reqs && r != q ==> s.reqs[r].unique != s.reqs[q].unique)
    && (forall i, j {:trigger s.early[i], s.early[j]} :: 0 <= i < j < |s.early| ==>
      s.early[i].unique != s.early[j].unique)
    && (forall r, j {:trigger s.reqs[r], s.early[j]} ::
          r in s.owned && r in s.reqs && 0 <= j < |s.early| ==> s.reqs[r].unique != s.early[j].unique)
  }

  lemma NotListed(s: State, unique: int)
    requires Alive(s) && FindReq(s.list, s.reqs, unique) == |s.list|
    ensures forall r {:trigger s.reqs[r]} :: r in s.owned && r in s.reqs ==> s.reqs[r].unique != unique
  {
    forall r | r in s.owned && r in s.reqs ensures s.reqs[r].unique != unique {
      assert r in s.list;
      var i :| 0 <= i < |s.list| && s.list[i] == r;
    }
  }

  /** The numbers of the owned requests and of the early messages are among those before. */
  lemma StayNumbered(s: State, s': State)
    requires Numbered(s) && s'.owned <= s.owned && s'.early == s.early
    requires forall r {:trigger s'.reqs[r]} :: r in s'.reqs ==> r in s.reqs && s'.reqs[r].unique == s.reqs[r].unique
    ensures Numbered(s')
  {
    forall r, q | r in s'.owned && q in s'.owned && r in s'.reqs && q in s'.reqs && r != q
      ensures s'.reqs[r].unique != s'.reqs[q].unique
    {
      assert s.reqs[r].unique != s.reqs[q].unique;
    }
    forall r, j | r in s'.owned && r in s'.reqs && 0 <= j < |s'.early| ensures s'.reqs[r].unique != s'.early[j].unique {
      assert s.reqs[r].unique != s.early[j].unique;
    }
  }

  lemma WithoutAt<T>(e: seq<T>, i: int, j: int)
    requires 0 <= i < |e| && 0 <= j < |e| - 1
    ensures Without(e, i)[j] == e[if j < i then j else j + 1]
  {
  }

  lemma ArriveNumbered(s: State, rid: Rid, unique: int)
    requires Alive(s) && Numbered(s) && Enabled(s, Arrive(rid, unique))
    ensures Numbered(Next(s, Arrive(rid, unique)))
  {
    var s' := Next(s, Arrive(rid, unique));
    NotListed(s, unique);
    var i := FindEarly(s.early, unique);
    var gone := if i < |s.early| then i else 0;
    forall j | 0 <= j < |s'.early|
      ensures s'.early[j] == s.early[if j < gone then j else j + 1] && s'.early[j].unique != unique
    {
      WithoutAt(s.early, gone, j);
      var k := if j < gone then j else j + 1;
      assert i < |s.early| ==> s.early[k].unique != s.early[i].unique;
    }
  }

  lemma InterruptNumbered(s: State, t: Tid, mid: Mid, unique: int)
    requires Alive(s) && Numbered(s) && Enabled(s, Interrupt(t, mid, unique))
    ensures Numbered(Next(s, Interrupt(t, mid, unique)))
  {
    hide FindReq, FindEarly;
    var s' := Next(s, Interrupt(t, mid, unique));
    if s'.early == s.early {
      StayNumbered(s, s');
    } else {
      NotListed(s, unique);
    }
  }

  lemma NextNumbered(s: State, e: Event)
    requires Alive(s) && Numbered(s) && Enabled(s, e)
    ensures Numbered(Next(s, e))
  {
    hide FindReq, FindEarly;
    match e
    case Arrive(rid, unique) => ArriveNumbered(s, rid, unique);
    case Interrupt(t, mid, unique) => InterruptNumbered(s, t, mid, unique);
    case Mark(_) => StayNumbered(s, Next(s, e));
    case Call(_) => StayNumbered(s, Next(s, e));
    case Leave(_) => StayNumbered(s, Next(s, e));
    case Lock(_, _) => StayNumbered(s, Next(s, e));
    case Store(_) => StayNumbered(s, Next(s, e));
    case Check(_) => StayNumbered(s, Next(s, e));
    case Free(_) => StayNumbered(s, Next(s, e));
  }

  ghost predicate Waits(early: seq<Early>, m: Mid) {
    exists j {:trigger early[j]} :: 0 <= j < |early| && early[j].mid == m
  }

  ghost predicate Flies(flights: map<Tid, Flight>, m: Mid) {
    exists t {:trigger flights[t]} :: t in flights && flights[t].phase == Entered(m)
  }

  /** A message that has come is waiting for its request, about to mark it, or done with; and
      only one of the three. */
  ghost predicate OnePlace(s: State, m: Mid) {
    && (m in s.fates ==> !Waits(s.early, m) && !Flies(s.flights, m))
    && (Waits(s.early, m) ==> !Flies(s.flights, m))
    && (m in s.messages <==> m in s.fates || Waits(s.early, m) || Flies(s.flights, m))
  }

  ghost predicate Accounted(s: State) {
    && (forall m {:trigger OnePlace(s, m)} :: OnePlace(s, m))
    && (forall i, j {:trigger s.early[i], s.early[j]} :: 0 <= i < j < |s.early| ==> s.early[i].mid != s.early[j].mid)
    && (forall t, u {:trigger s.flights[t], s.flights[u]} ::
          t in s.flights && u in s.flights && t != u && s.flights[t].phase.Entered? ==>
            s.flights[t].phase != s.flights[u].phase)
  }

  lemma StayAccounted(s: State, s': State)
    requires Accounted(s) && s'.messages == s.messages && s'.fates == s.fates && s'.early == s.early
    requires forall t {:trigger s'.flights[t]} :: t in s'.flights ==>
      t in s.flights && (s'.flights[t] == s.flights[t] || !s'.flights[t].phase.Entered?)
    requires forall t {:trigger s.flights[t]} :: t in s.flights && s.flights[t].phase.Entered? ==>
      t in s'.flights && s'.flights[t] == s.flights[t]
    ensures Accounted(s')
  {
    forall m ensures OnePlace(s', m) {
      assert OnePlace(s, m);
      if Flies(s.flights, m) {
        var t :| t in s.flights && s.flights[t].phase == Entered(m);
        assert s'.flights[t].phase == Entered(m);
      }
      if Flies(s'.flights, m) {
        var t :| t in s'.flights && s'.flights[t].phase == Entered(m);
        assert s.flights[t].phase == Entered(m);
      }
    }
    forall t, u | t in s'.flights && u in s'.flights && t != u && s'.flights[t].phase.Entered?
      ensures s'.flights[t].phase != s'.flights[u].phase
    {
      assert s.flights[t].phase.Entered? && u in s.flights;
    }
  }

  lemma ArriveAccounted(s: State, rid: Rid, unique: int)
    requires Accounted(s)
    ensures Accounted(Arrived(s, rid, unique))
  {
    var s', i := Arrived(s, rid, unique), FindEarly(s.early, unique);
    if s.early == [] {
      StayAccounted(s, s');
    } else {
      var gone := if i < |s.early| then i else 0;
      TakenOut(s, s', gone);
    }
  }

  lemma TakenOut(s: State, s': State, gone: int)
    requires Accounted(s) && 0 <= gone < |s.early|
    requires s'.early == Without(s.early, gone) && s'.fates.Keys == s.fates.Keys + {s.early[gone].mid}
    requires s'.messages == s.messages && s'.flights == s.flights
    ensures Accounted(s')
  {
    forall j | 0 <= j < |s'.early| ensures s'.early[j] == s.early[if j < gone then j else j + 1] {
      WithoutAt(s.early, gone, j);
    }
    var x := s.early[gone].mid;
    assert Waits(s.early, x);
    forall m ensures OnePlace(s', m) {
      assert OnePlace(s, m) && OnePlace(s, x);
      if Waits(s.early, m) && m != x {
        var j :| 0 <= j < |s.early| && s.early[j].mid == m;
        assert s'.early[if j < gone then j else j - 1].mid == m;
      }
      if Waits(s'.early, m) {
        var j :| 0 <= j < |s'.early| && s'.early[j].mid == m;
        assert s.early[if j < gone then j else j + 1].mid == m;
      }
    }
  }

  lemma ReferencedShape(s: State, t: Tid, mid: Mid, r: Rid)
    requires r in s.reqs
    ensures var s' := Referenced(s, t, mid, r);
      && s'.early == s.early && s'.fates == s.fates && s'.messages == s.messages
      && s'.flights == s.flights[t := Flight(r, Entered(mid))]
  {
  }

  /** A message enters at most one of the three places. */
  ghost predicate EntersOne(s: State, s': State, t: Tid, mid: Mid) {
    || (s'.early == s.early && s'.fates == s.fates && exists r :: s'.flights == s.flights[t := Flight(r, Entered(mid))])
    || (s'.early == s.early && s'.flights == s.flights && s'.fates == s.fates[mid := Duplicate])
    || (s'.fates == s.fates && s'.flights == s.flights && exists u :: s'.early == s.early + [Early(mid, u)])
  }

  lemma InterruptedShape(s: State, t: Tid, mid: Mid, unique: int)
    ensures var s' := Interrupted(s, t, mid, unique); s'.messages == s.messages + {mid} && EntersOne(s, s', t, mid)
  {
    hide FindReq, FindEarly, Referenced;
    var i := FindReq(s.list, s.reqs, unique);
    if i < |s.list| {
      ReferencedShape(s, t, mid, s.list[i]);
    }
  }

  lemma InterruptAccounted(s: State, t: Tid, mid: Mid, unique: int)
    requires Accounted(s) && t !in s.flights && mid !in s.messages
    ensures Accounted(Interrupted(s, t, mid, unique))
  {
    hide Interrupted, Waits, Flies;
    var s' := Interrupted(s, t, mid, unique);
    InterruptedShape(s, t, mid, unique);
    assert OnePlace(s, mid);
    forall m ensures OnePlace(s', m) {
      assert OnePlace(s, m);
      Arriving(s, s', t, mid, m);
    }
    NotThere(s, mid);
  }

  lemma NotThere(s: State, mid: Mid)
    requires !Waits(s.early, mid) && !Flies(s.flights, mid)
    ensures forall i {:trigger s.early[i]} :: 0 <= i < |s.early| ==> s.early[i].mid != mid
    ensures forall u {:trigger s.flights[u]} :: u in s.flights ==> s.flights[u].phase != Entered(mid)
  {
  }

  lemma Arriving(s: State, s': State, t: Tid, mid: Mid, m: Mid)
    requires t !in s.flights
    requires s'.early == s.early || exists u :: s'.early == s.early + [Early(mid, u)]
    requires s'.flights == s.flights || exists r :: s'.flights == s.flights[t := Flight(r, Entered(mid))]
    ensures Waits(s'.early, m) <==> Waits(s.early, m) || (m == mid && s'.early != s.early)
    ensures Flies(s'.flights, m) <==> Flies(s.flights, m) || (m == mid && s'.flights != s.flights)
    ensures (exists u :: s'.early == s.early + [Early(mid, u)]) ==> s'.early != s.early
    ensures (exists r :: s'.flights == s.flights[t := Flight(r, Entered(mid))]) ==> s'.flights != s.flights
  {
    if Waits(s.early, m) {
      var j :| 0 <= j < |s.early| && s.early[j].mid == m;
      assert s'.early[j].mid == m;
    }
    if Flies(s.flights, m) {
      var u :| u in s.flights && s.flights[u].phase == Entered(m);
      assert s'.flights[u].phase == Entered(m);
    }
    if m == mid && s'.early != s.early {
      assert s'.early[|s.early|].mid == m;
    }
    if m == mid && s'.flights != s.flights {
      assert s'.flights[t].phase == Entered(m);
    }
  }

  lemma MarkAccounted(s: State, t: Tid)
    requires Accounted(s) && Enabled(s, Mark(t))
    ensures Accounted(Next(s, Mark(t)))
  {
    var s', x := Next(s, Mark(t)), s.flights[t].phase.mid;
    assert Flies(s.flights, x);
    forall m ensures OnePlace(s', m) {
      assert OnePlace(s, m) && OnePlace(s, x);
      if Flies(s.flights, m) && m != x {
        var u :| u in s.flights && s.flights[u].phase == Entered(m);
        assert s'.flights[u].phase == Entered(m);
      }
      if Flies(s'.flights, m) {
        var u :| u in s'.flights && s'.flights[u].phase == Entered(m);
        assert s.flights[u].phase == Entered(m);
      }
    }
  }

  lemma NextAccounted(s: State, e: Event)
    requires Accounted(s) && Enabled(s, e)
    ensures Accounted(Next(s, e))
  {
    hide Accounted;
    match e
    case Arrive(rid, unique) => ArriveAccounted(s, rid, unique);
    case Interrupt(t, mid, unique) => InterruptAccounted(s, t, mid, unique);
    case Mark(t) => MarkAccounted(s, t);
    case Call(_) => StayAccounted(s, Next(s, e));
    case Leave(_) => StayAccounted(s, Next(s, e));
    case Lock(_, _) => StayAccounted(s, Next(s, e));
    case Store(_) => StayAccounted(s, Next(s, e));
    case Check(_) => StayAccounted(s, Next(s, e));
    case Free(_) => StayAccounted(s, Next(s, e));
  }

  // ---- runs ----

  ghost predicate Inv(s: State) {
    Alive(s) && Guarded(s) && Numbered(s) && Accounted(s)
  }

  ghost function Initial(): State {
    State(map[], {}, [], [], map[], map[], map[], {}, {}, {}, {}, map[])
  }

  lemma InitialInv()
    ensures Inv(Initial())
  {
    var s := Initial();
    forall m ensures OnePlace(s, m) {
    }
  }

  /** Every step keeps the invariant, however the threads interleave. */
  lemma NextInv(s: State, e: Event)
    requires Inv(s) && Enabled(s, e)
    ensures Inv(Next(s, e))
  {
    hide Alive, Guarded, Numbered, Accounted, Enabled, Next;
    NextAlive(s, e);
    NextGuarded(s, e);
    NextNumbered(s, e);
    NextAccounted(s, e);
  }

  ghost predicate IsRun(ss: seq<State>, es: seq<Event>) {
    && |ss| == |es| + 1 && ss[0] == Initial()
    && forall i {:trigger es[i]} :: 0 <= i < |es| ==> Enabled(ss[i], es[i]) && ss[i + 1] == Next(ss[i], es[i])
  }

  lemma {:induction false} RunInv(ss: seq<State>, es: seq<Event>, i: int)
    requires IsRun(ss, es) && 0 <= i < |ss|
    ensures Inv(ss[i])
    decreases i
  {
    hide Inv, Enabled, Next;
    if i == 0 {
      InitialInv();
    } else {
      RunInv(ss, es, i - 1);
      assert Enabled(ss[i - 1], es[i - 1]);
      NextInv(ss[i - 1], es[i - 1]);
    }
  }

  lemma NoFlight(flights: map<Tid, Flight>, rid: Rid)
    requires forall t {:trigger flights[t]} :: t in flights ==> flights[t].rid != rid
    ensures On(flights, rid) == {}
  {
    forall t ensures t !in On(flights, rid) {
      assert t in flights ==> flights[t].rid != rid;
    }
  }

  /** A request exists exactly as long as its owner has not given it up or a thread is still
      interrupting it, and what has been freed is never freed again or used. */
  lemma ExistsIffUsed(s: State, rid: Rid)
    requires Inv(s) && rid in s.created
    ensures rid in s.reqs <==> rid in s.owned || exists t :: t in s.flights && s.flights[t].rid == rid
    ensures rid in s.freed <==> rid !in s.reqs
  {
    if rid in s.reqs && rid !in s.owned {
      assert CtrOk(s, rid);
      if forall t {:trigger s.flights[t]} :: t in s.flights ==> s.flights[t].rid != rid {
        NoFlight(s.flights, rid);
      }
    }
  }

  /** A callback is not missed, whether the interrupt or the registration came first: when
      nobody is at work on an interrupted request its callback has been called. */
  lemma NotMissed(s: State, rid: Rid)
    requires Inv(s) && rid in s.reqs && rid in s.rlock && s.rlock[rid] == Nobody
    requires s.reqs[rid].interrupted && s.reqs[rid].func.Some?
    ensures s.reqs[rid].func.value in s.called
  {
    assert FuncOk(s, rid);
  }

  /** When fuse_req_interrupt_func() returns, no other callback of the request can still be
      called. */
  lemma UnregisterEnds(s: State, rid: Rid, c: Callback)
    requires Inv(s) && Enabled(s, Check(rid)) && c.rid == rid && s.settings[rid].func != Some(c)
    ensures !Live(Next(s, Check(rid)), c)
  {
    var s' := Next(s, Check(rid));
    assert SettingOk(s, rid) && HolderOk(s, rid);
    forall t | t in s'.flights ensures s'.flights[t].phase != Marked(Some(c)) {
      assert FlightOk(s, t);
    }
  }

  lemma ArrivedFuncs(s: State, rid: Rid, unique: int)
    ensures var s' := Arrived(s, rid, unique);
      && s'.flights == s.flights && s'.settings == s.settings && s'.called == s.called
      && forall r {:trigger s'.reqs[r]} :: r in s'.reqs ==>
        s'.reqs[r].func == if r == rid then None else if r in s.reqs then s.reqs[r].func else None
  {
  }

  lemma InterruptedFuncs(s: State, t: Tid, mid: Mid, unique: int)
    ensures var s' := Interrupted(s, t, mid, unique);
      && s'.settings == s.settings && s'.called == s.called
      && (s'.flights == s.flights || exists r :: s'.flights == s.flights[t := Flight(r, Entered(mid))])
      && SameFuncs(s, s')
  {
    hide FindReq, FindEarly, Referenced;
    var i := FindReq(s.list, s.reqs, unique);
    if i < |s.list| {
      ReferencedFuncs(s, t, mid, s.list[i]);
    }
  }

  ghost predicate SameFuncs(s: State, s': State) {
    s'.reqs.Keys == s.reqs.Keys && forall r {:trigger s'.reqs[r]} :: r in s'.reqs ==> s'.reqs[r].func == s.reqs[r].func
  }

  lemma ReferencedFuncs(s: State, t: Tid, mid: Mid, r: Rid)
    requires r in s.reqs
    ensures var s' := Referenced(s, t, mid, r);
      SameFuncs(s, s') && s'.settings == s.settings && s'.called == s.called &&
        s'.flights == s.flights[t := Flight(r, Entered(mid))]
  {
  }

  /** A callback that cannot be called now will not be called later, unless registered again. */
  lemma DeadStaysDead(s: State, e: Event, c: Callback)
    requires Inv(s) && Enabled(s, e) && !Live(s, c) && !(e.Lock? && e.func == Some(c))
    ensures !Live(Next(s, e), c) && (c in Next(s, e).called <==> c in s.called)
  {
    if e.Arrive? || e.Interrupt? {
      DeadWithMail(s, e, c);
    } else if e.Call? || e.Leave? || e.Free? {
      DeadWithUsers(s, e, c);
    } else {
      DeadWithMutex(s, e, c);
    }
  }

  lemma DeadWithMail(s: State, e: Event, c: Callback)
    requires Enabled(s, e) && !Live(s, c) && (e.Arrive? || e.Interrupt?)
    ensures !Live(Next(s, e), c) && (c in Next(s, e).called <==> c in s.called)
  {
    hide Arrived, Interrupted;
    if e.Arrive? {
      ArrivedFuncs(s, e.rid, e.unique);
    } else {
      InterruptedFuncs(s, e.t, e.mid, e.unique);
    }
  }

  lemma DeadWithUsers(s: State, e: Event, c: Callback)
    requires Enabled(s, e) && !Live(s, c) && (e.Call? || e.Leave? || e.Free?)
    ensures !Live(Next(s, e), c) && (c in Next(s, e).called <==> c in s.called)
  {
  }

  lemma DeadWithMutex(s: State, e: Event, c: Callback)
    requires Inv(s) && Enabled(s, e) && !Live(s, c) && !(e.Lock? && e.func == Some(c))
    requires e.Mark? || e.Lock? || e.Store? || e.Check?
    ensures !Live(Next(s, e), c) && (c in Next(s, e).called <==> c in s.called)
  {
    hide Alive, Numbered, Accounted, HolderOk, FlightOk;
    if e.Store? || e.Check? {
      assert SettingOk(s, e.rid);
    } else if e.Mark? {
      assert FuncOk(s, s.flights[e.t].rid);
    }
  }

  lemma {:induction false} NeverAgain(ss: seq<State>, es: seq<Event>, i: int, j: int, c: Callback)
    requires IsRun(ss, es) && 0 <= i <= j < |ss| && !Live(ss[i], c)
    requires forall k {:trigger es[k]} :: i <= k < j ==> !(es[k].Lock? && es[k].func == Some(c))
    ensures !Live(ss[j], c) && (c in ss[j].called <==> c in ss[i].called)
    decreases j - i
  {
    hide Inv, Enabled, Next, Live;
    if i < j {
      NeverAgain(ss, es, i, j - 1, c);
      RunInv(ss, es, j - 1);
      assert Enabled(ss[j - 1], es[j - 1]);
      DeadStaysDead(ss[j - 1], es[j - 1], c);
    }
  }
}
