/** Over whole runs of the interrupt protocol: what becomes of a callback that is still
    registered when its request is given to fuse_free_req(), and of every INTERRUPT. */
module LateCalls {
  import opened Basics
  import opened Interrupts

  // ---- the fate of a message ----

  /** The fate of a message is settled once and for all. */
  lemma FateStays(s: State, e: Event, m: Mid)
    requires Inv(s) && Enabled(s, e) && m in s.fates
    ensures m in Next(s, e).fates && Next(s, e).fates[m] == s.fates[m]
  {
    hide Alive, Guarded, Numbered, FindReq, FindEarly, Waits, Flies;
    assert OnePlace(s, m);
    if e.Arrive? && s.early != [] {
      var i := FindEarly(s.early, e.unique);
      var gone := if i < |s.early| then i else 0;
      EarlyWaits(s.early, gone);
    } else if e.Mark? {
      EnteredFlies(s.flights, e.t);
    }
  }

  lemma EarlyWaits(early: seq<Early>, j: int)
    requires 0 <= j < |early|
    ensures Waits(early, early[j].mid)
  {
  }

  lemma EnteredFlies(flights: map<Tid, Flight>, t: Tid)
    requires t in flights && flights[t].phase.Entered?
    ensures Flies(flights, flights[t].phase.mid)
  {
  }

  lemma {:induction false} FateConstant(ss: seq<State>, es: seq<Event>, i: int, j: int, m: Mid)
    requires IsRun(ss, es) && 0 <= i <= j < |ss| && m in ss[i].fates
    ensures m in ss[j].fates && ss[j].fates[m] == ss[i].fates[m]
    decreases j - i
  {
    hide Inv, Enabled, Next;
    if i < j {
      FateConstant(ss, es, i, j - 1, m);
      RunInv(ss, es, j - 1);
      assert Enabled(ss[j - 1], es[j - 1]);
      FateStays(ss[j - 1], es[j - 1], m);
    }
  }

  // ---- callbacks after fuse_free_req() ----

  /** The step calls the callback. */
  ghost predicate Calls(s: State, e: Event, c: Callback) {
    || (e.Call? && Holding(s, e.t, c))
    || (e.Check? && e.rid in s.settings && s.settings[e.rid].func == Some(c) && e.rid in s.reqs &&
      s.reqs[e.rid].interrupted)
  }

  /** A thread has picked the callback up and not called it yet. */
  ghost predicate Holding(s: State, t: Tid, c: Callback) {
    t in s.flights && s.flights[t].phase == Marked(Some(c))
  }

  /** The request has been given to fuse_free_req(). */
  ghost predicate Retired(s: State, rid: Rid) {
    rid in s.created && rid !in s.owned && rid !in s.settings && (rid in s.reqs ==> s.reqs[rid].func == None)
  }

  /** A callback enters `called` by such a step and no other. */
  lemma CallsAre(s: State, e: Event, c: Callback)
    requires Enabled(s, e)
    ensures c in Next(s, e).called <==> c in s.called || Calls(s, e, c)
  {
  }

  lemma FreeRetires(s: State, rid: Rid)
    requires Inv(s) && Enabled(s, Free(rid))
    ensures Retired(Next(s, Free(rid)), rid) && Next(s, Free(rid)).flights == s.flights
  {
    hide Guarded, Numbered, Accounted, CtrOk;
  }

  /** No thread picks up a callback of a retired request. */
  lemma StaysRetired(s: State, e: Event, c: Callback, t: Tid)
    requires Inv(s) && Enabled(s, e) && Retired(s, c.rid)
    ensures Retired(Next(s, e), c.rid) && (Holding(Next(s, e), t, c) ==> Holding(s, t, c))
  {
    hide Alive, Numbered, Accounted, Arrived, Interrupted;
    if e.Arrive? {
      ArrivedFuncs(s, e.rid, e.unique);
      ArrivedSets(s, e.rid, e.unique);
    } else if e.Interrupt? {
      InterruptedFuncs(s, e.t, e.mid, e.unique);
      InterruptedSets(s, e.t, e.mid, e.unique);
    } else if e.Mark? {
      assert FuncOk(s, s.flights[e.t].rid);
    }
  }

  lemma ArrivedSets(s: State, rid: Rid, unique: int)
    ensures var s' := Arrived(s, rid, unique); s'.owned == s.owned + {rid} && s'.created == s.created + {rid}
  {
  }

  lemma InterruptedSets(s: State, t: Tid, mid: Mid, unique: int)
    ensures var s' := Interrupted(s, t, mid, unique); s'.owned == s.owned && s'.created == s.created
  {
    hide FindReq, FindEarly;
  }

  lemma {:induction false} HeldSinceFree(ss: seq<State>, es: seq<Event>, i: int, j: int, c: Callback, t: Tid)
    requires IsRun(ss, es) && 0 <= i < j < |ss| && es[i] == Free(c.rid)
    ensures Retired(ss[j], c.rid) && (Holding(ss[j], t, c) ==> Holding(ss[i], t, c))
    decreases j - i
  {
    hide Inv, Enabled, Next, Retired;
    RunInv(ss, es, j - 1);
    assert Enabled(ss[j - 1], es[j - 1]);
    if j == i + 1 {
      FreeRetires(ss[i], c.rid);
    } else {
      HeldSinceFree(ss, es, i, j - 1, c, t);
      StaysRetired(ss[j - 1], es[j - 1], c, t);
    }
  }

  /** Only the call itself ends the phase between picking up a callback and calling it. */
  lemma {:induction false} HeldUntilCall(ss: seq<State>, es: seq<Event>, i: int, j: int, c: Callback, t: Tid)
    requires IsRun(ss, es) && 0 <= i <= j < |ss| && Holding(ss[i], t, c)
    requires forall k {:trigger es[k]} :: i <= k < j ==> es[k] != Call(t)
    ensures Holding(ss[j], t, c)
    decreases j - i
  {
    hide Inv, Enabled, Next;
    if i < j {
      HeldUntilCall(ss, es, i, j - 1, c, t);
      assert Enabled(ss[j - 1], es[j - 1]) && es[j - 1] != Call(t);
      HoldsOn(ss[j - 1], es[j - 1], c, t);
    }
  }

  lemma HoldsOn(s: State, e: Event, c: Callback, t: Tid)
    requires Enabled(s, e) && Holding(s, t, c) && e != Call(t)
    ensures Holding(Next(s, e), t, c)
  {
    hide FindReq, FindEarly;
  }

  lemma {:induction false} FirstCall(es: seq<Event>, t: Tid, i: int, j: int) returns (k: int)
    requires 0 <= i < j < |es| && es[j] == Call(t)
    ensures i < k <= j && es[k] == Call(t) && forall m {:trigger es[m]} :: i < m < k ==> es[m] != Call(t)
    decreases j - i
  {
    if i + 1 == j || es[i + 1] == Call(t) {
      k := i + 1;
    } else {
      k := FirstCall(es, t, i + 1, j);
    }
  }

  /** Some thread was between picking the callback up and calling it when the request was
      freed, and went on to call it. */
  ghost predicate PickedUp(ss: seq<State>, es: seq<Event>, i: int, c: Callback)
    requires 0 <= i < |ss|
  {
    exists t, j {:trigger Holding(ss[i], t, c), es[j]} :: i < j < |es| && Holding(ss[i], t, c) && es[j] == Call(t)
  }

  /** A callback is called after its request was given to fuse_free_req() iff a thread had
      picked it up by then and goes on. */
  lemma LateCallIff(ss: seq<State>, es: seq<Event>, i: int, c: Callback)
    requires IsRun(ss, es) && |ss| == |es| + 1 && 0 <= i < |es| && es[i] == Free(c.rid)
    ensures (exists j :: i < j < |es| && Calls(ss[j], es[j], c)) <==> PickedUp(ss, es, i, c)
  {
    hide IsRun, Calls, PickedUp;
    if j :| i < j < |es| && Calls(ss[j], es[j], c) {
      LateCallPickedUp(ss, es, i, j, c);
    }
    if PickedUp(ss, es, i, c) {
      var k := PickedUpCalls(ss, es, i, c);
    }
  }

  lemma PickedUpCalls(ss: seq<State>, es: seq<Event>, i: int, c: Callback) returns (k: int)
    requires IsRun(ss, es) && 0 <= i < |es| && es[i] == Free(c.rid) && PickedUp(ss, es, i, c)
    ensures i < k < |es| && Calls(ss[k], es[k], c)
  {
    hide Next, Enabled, Holding;
    var t, j :| i < j < |es| && Holding(ss[i], t, c) && es[j] == Call(t);
    k := FirstCall(es, t, i, j);
    HeldUntilCall(ss, es, i, k, c, t);
  }

  lemma LateCallPickedUp(ss: seq<State>, es: seq<Event>, i: int, j: int, c: Callback)
    requires IsRun(ss, es) && 0 <= i < j < |es| && es[i] == Free(c.rid) && Calls(ss[j], es[j], c)
    ensures es[j].Call? && Holding(ss[i], es[j].t, c) && PickedUp(ss, es, i, c)
  {
    hide Inv, Enabled, Next, Holding;
    RunInv(ss, es, j);
    var t := if es[j].Call? then es[j].t else 0;
    HeldSinceFree(ss, es, i, j, c, t);
    if es[j].Check? {
      CheckIsOwn(ss[j], es[j], c);
    }
  }

  /** A registration in progress is one of the request itself. */
  lemma CheckIsOwn(s: State, e: Event, c: Callback)
    requires Inv(s) && Calls(s, e, c) && e.Check?
    ensures c.rid in s.settings
  {
    assert SettingOk(s, e.rid);
  }

  // ---- a run in which it happens ----

  const CB := Callback(1, 0)

  /** The states of the run; `n` counts the users of request 1. */
  ghost function Busy(func: Option<Callback>, n: int, interrupted: bool, owned: set<Rid>, list: seq<Rid>,
                      flights: map<Tid, Flight>, settings: map<Rid, Setting>, holder: Holder): State {
    State(map[1 := Req(7, n, interrupted, func)], owned, list, [], flights, settings, map[1 := holder], {}, {1}, {},
          if flights == map[] then {} else {5}, if interrupted then map[5 := Flagged] else map[])
  }

  ghost function Listed(): State { Busy(None, 1, false, {1}, [1], map[], map[], Nobody) }
  ghost function Registering(): State { Busy(None, 1, false, {1}, [1], map[], map[1 := Locked(Some(CB))], Owner) }
  ghost function Registered(): State { Busy(Some(CB), 1, false, {1}, [1], map[], map[1 := Stored(Some(CB))], Owner) }
  ghost function Ready(): State { Busy(Some(CB), 1, false, {1}, [1], map[], map[], Nobody) }
  ghost function Found(): State {
    Busy(Some(CB), 2, false, {1}, [1], map[9 := Flight(1, Entered(5))], map[], Nobody)
  }
  ghost function Picked(): State {
    Busy(Some(CB), 2, true, {1}, [1], map[9 := Flight(1, Marked(Some(CB)))], map[], Thread(9))
  }
  ghost function Freed(): State {
    Busy(None, 1, true, {}, [], map[9 := Flight(1, Marked(Some(CB)))], map[], Thread(9))
  }
  ghost function Called(): State {
    Freed().(called := {CB}, flights := map[9 := Flight(1, Released)], rlock := map[1 := Nobody])
  }

  lemma RequestArrives()
    ensures Enabled(Initial(), Arrive(1, 7)) && Next(Initial(), Arrive(1, 7)) == Listed()
  {
  }

  lemma HandlerRegisters()
    ensures Enabled(Listed(), Lock(1, Some(CB))) && Next(Listed(), Lock(1, Some(CB))) == Registering()
    ensures Enabled(Registering(), Store(1)) && Next(Registering(), Store(1)) == Registered()
  {
  }

  lemma RegistrationEnds()
    ensures Enabled(Registered(), Check(1)) && Next(Registered(), Check(1)) == Ready()
  {
  }

  lemma InterruptArrives()
    ensures Enabled(Ready(), Interrupt(9, 5, 7)) && Next(Ready(), Interrupt(9, 5, 7)) == Found()
  {
    assert FindReq([1], Ready().reqs, 7) == 0;
  }

  lemma CallbackPicked()
    ensures Enabled(Found(), Mark(9)) && Next(Found(), Mark(9)) == Picked()
  {
  }

  lemma RequestFreed()
    ensures Enabled(Picked(), Free(1)) && Next(Picked(), Free(1)) == Freed()
  {
    assert Removed([1], 1) == [];
  }

  lemma CallbackCalled()
    ensures Enabled(Freed(), Call(9)) && Next(Freed(), Call(9)) == Called()
    ensures CB !in Freed().called && CB in Called().called
  {
  }

  ghost function States(): seq<State> {
    [Initial(), Listed(), Registering(), Registered(), Ready(), Found(), Picked(), Freed(), Called()]
  }

  function Events(): seq<Event> {
    [Arrive(1, 7), Lock(1, Some(CB)), Store(1), Check(1), Interrupt(9, 5, 7), Mark(9), Free(1), Call(9)]
  }

  /** The callback is called for the first time after its request was given to
      fuse_free_req(). */
  lemma CalledAfterFree()
    ensures IsRun(States(), Events()) && Events()[6] == Free(1)
    ensures CB !in States()[7].called && CB in States()[8].called
  {
    hide Next, Enabled, Listed, Registering, Registered, Ready, Found, Picked, Freed, Called, Initial;
    RequestArrives();
    HandlerRegisters();
    RegistrationEnds();
    InterruptArrives();
    CallbackPicked();
    RequestFreed();
    CallbackCalled();
  }
}
