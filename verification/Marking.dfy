/** Over whole runs of the interrupt protocol: an INTERRUPT marks the request it is meant for,
    whichever of the two comes first, so that no callback misses it. */
module Marking {
  import opened Basics
  import opened Interrupts
  import opened LateCalls

  /** The message `m` has marked the request `rid`, if that still exists. */
  ghost predicate HasMarked(s: State, m: Mid, rid: Rid) {
    && m in s.fates && s.fates[m] == Flagged && rid in s.created
    && (rid in s.reqs ==> s.reqs[rid].interrupted)
  }

  /** It has, or a thread is on its way to do so. */
  ghost predicate Aims(s: State, m: Mid, rid: Rid) {
    || HasMarked(s, m, rid)
    || exists t {:trigger s.flights[t]} :: t in s.flights && s.flights[t] == Flight(rid, Entered(m))
  }

  /** A request stays marked. */
  lemma MarkStays(s: State, e: Event, m: Mid, rid: Rid)
    requires Inv(s) && Enabled(s, e) && HasMarked(s, m, rid)
    ensures HasMarked(Next(s, e), m, rid)
  {
    hide Alive, Guarded, Numbered, Accounted, FindReq, FindEarly;
    FateStays(s, e, m);
    CreatedStays(s, e, rid);
  }

  lemma CreatedStays(s: State, e: Event, rid: Rid)
    requires Enabled(s, e) && rid in s.created
    ensures rid in Next(s, e).created
    ensures rid in Next(s, e).reqs ==>
      && rid in s.reqs && Next(s, e).reqs[rid].unique == s.reqs[rid].unique
      && (s.reqs[rid].interrupted ==> Next(s, e).reqs[rid].interrupted)
      && (Next(s, e).reqs[rid].interrupted && !s.reqs[rid].interrupted ==> e.Mark? && s.flights[e.t].rid == rid)
  {
    hide Arrived, Interrupted, Dropped, Live, FindReq, Removed;
    match e
    case Arrive(r, unique) => ArrivedSame(s, r, unique);
    case Interrupt(t, mid, unique) => InterruptedSame(s, t, mid, unique);
    case Leave(t) => DroppedSame(s, s.flights[t].rid);
    case Free(r) =>
      DroppedSame(s.(reqs := s.reqs[r := s.reqs[r].(func := None)], list := Removed(s.list, r)), r);
    case _ =>
  }

  /** The requests of `s'` are requests of `s` with their numbers and marks. */
  ghost predicate SameMarks(s: State, s': State) {
    forall r {:trigger s'.reqs[r]} :: r in s'.reqs ==>
      r in s.reqs && s'.reqs[r].unique == s.reqs[r].unique && s'.reqs[r].interrupted == s.reqs[r].interrupted
  }

  lemma ArrivedSame(s: State, rid: Rid, unique: int)
    ensures Arrived(s, rid, unique).created == s.created + {rid}
    ensures forall r {:trigger Arrived(s, rid, unique).reqs[r]} :: r in Arrived(s, rid, unique).reqs && r != rid ==>
      r in s.reqs && Arrived(s, rid, unique).reqs[r] == s.reqs[r]
  {
    hide FindEarly;
  }

  lemma InterruptedSame(s: State, t: Tid, mid: Mid, unique: int)
    ensures SameMarks(s, Interrupted(s, t, mid, unique)) && Interrupted(s, t, mid, unique).created == s.created
    ensures forall u {:trigger Interrupted(s, t, mid, unique).flights[u]} ::
      u in Interrupted(s, t, mid, unique).flights && u != t ==>
        u in s.flights && Interrupted(s, t, mid, unique).flights[u] == s.flights[u]
    ensures
      var s' := Interrupted(s, t, mid, unique);
      t in s'.flights && t !in s.flights && s'.flights[t].rid in s'.reqs ==> s'.reqs[s'.flights[t].rid].unique == unique
  {
    hide FindEarly, FindReq;
  }

  lemma DroppedSame(s: State, rid: Rid)
    ensures SameMarks(s, Dropped(s, rid)) && Dropped(s, rid).created == s.created
    ensures Dropped(s, rid).flights == s.flights
  {
  }

  /** A thread that has found its request goes on to mark it. */
  lemma AimStays(s: State, e: Event, m: Mid, rid: Rid)
    requires Inv(s) && Enabled(s, e) && Aims(s, m, rid)
    ensures Aims(Next(s, e), m, rid)
  {
    hide Inv, FindReq, FindEarly;
    if HasMarked(s, m, rid) {
      MarkStays(s, e, m, rid);
    } else {
      var t :| t in s.flights && s.flights[t] == Flight(rid, Entered(m));
      if e == Mark(t) {
        FoundCreated(s, t);
      } else {
        assert t in Next(s, e).flights && Next(s, e).flights[t] == s.flights[t];
      }
    }
  }

  lemma FoundCreated(s: State, t: Tid)
    requires Inv(s) && t in s.flights
    ensures s.flights[t].rid in s.created
  {
  }

  lemma {:induction false} AimsOn(ss: seq<State>, es: seq<Event>, i: int, j: int, m: Mid, rid: Rid)
    requires IsRun(ss, es) && 0 <= i <= j < |ss| && Aims(ss[i], m, rid)
    ensures Aims(ss[j], m, rid)
    decreases j - i
  {
    hide Inv, Enabled, Next, Aims;
    if i < j {
      AimsOn(ss, es, i, j - 1, m, rid);
      RunInv(ss, es, j - 1);
      assert Enabled(ss[j - 1], es[j - 1]);
      AimStays(ss[j - 1], es[j - 1], m, rid);
    }
  }

  /** A message whose fate is settled no longer flies. */
  lemma Settled(s: State, m: Mid, rid: Rid)
    requires Inv(s) && Aims(s, m, rid) && m in s.fates
    ensures HasMarked(s, m, rid)
  {
    hide Alive, Guarded, Numbered;
    assert OnePlace(s, m);
  }

  /** The request with that number is found. */
  lemma FindsRequest(s: State, unique: int, rid: Rid)
    requires Inv(s) && rid in s.list && rid in s.reqs && s.reqs[rid].unique == unique
    ensures var i := FindReq(s.list, s.reqs, unique); i < |s.list| && s.list[i] == rid
  {
    hide Guarded, Accounted, CtrOk;
    var i := FindReq(s.list, s.reqs, unique);
    var k :| 0 <= k < |s.list| && s.list[k] == rid;
    assert i <= k && s.list[i] in s.list;
  }

  /** An INTERRUPT for a request that is there: once it is dealt with the request is marked. */
  lemma InterruptMarks(ss: seq<State>, es: seq<Event>, i: int, j: int, rid: Rid)
    requires IsRun(ss, es) && 0 <= i < j < |ss| && es[i].Interrupt?
    requires rid in ss[i].list && rid in ss[i].reqs && ss[i].reqs[rid].unique == es[i].unique
    requires es[i].mid in ss[j].fates
    ensures ss[j].fates[es[i].mid] == Flagged && (rid in ss[j].reqs ==> ss[j].reqs[rid].interrupted)
  {
    hide Inv, FindReq, FindEarly;
    var s, m := ss[i], es[i].mid;
    RunInv(ss, es, i);
    RunInv(ss, es, j);
    FindsRequest(s, es[i].unique, rid);
    assert ss[i + 1] == Next(s, es[i]);
    assert ss[i + 1].flights[es[i].t] == Flight(rid, Entered(m));
    AimsOn(ss, es, i + 1, j, m, rid);
    Settled(ss[j], m, rid);
  }

  /** The early INTERRUPT with that number is found. */
  lemma FindsMessage(s: State, k: int)
    requires Inv(s) && 0 <= k < |s.early|
    ensures FindEarly(s.early, s.early[k].unique) == k
  {
    hide Alive, Guarded, Accounted;
  }

  /** An INTERRUPT that came before its request: the request is marked as soon as it arrives. */
  lemma EarlyMarks(ss: seq<State>, es: seq<Event>, i: int, j: int, k: int)
    requires IsRun(ss, es) && 0 <= i < j < |ss| && es[i].Arrive?
    requires 0 <= k < |ss[i].early| && ss[i].early[k].unique == es[i].unique
    ensures
      var m := ss[i].early[k].mid;
      && m in ss[j].fates && ss[j].fates[m] == Flagged
      && (es[i].rid in ss[j].reqs ==> ss[j].reqs[es[i].rid].interrupted)
  {
    hide Inv, FindEarly, FindReq;
    var m := ss[i].early[k].mid;
    RunInv(ss, es, i);
    FindsMessage(ss[i], k);
    assert ss[i + 1] == Next(ss[i], es[i]);
    assert HasMarked(ss[i + 1], m, es[i].rid);
    FateConstant(ss, es, i + 1, j, m);
    AimsOn(ss, es, i + 1, j, m, es[i].rid);
    RunInv(ss, es, j);
    Settled(ss[j], m, es[i].rid);
  }

  /** A message with that number waits for its request. */
  ghost predicate Awaits(s: State, unique: int) {
    exists k {:trigger s.early[k]} :: 0 <= k < |s.early| && s.early[k].unique == unique
  }

  /** No request with that number is in flight. */
  ghost predicate NotListed(s: State, unique: int) {
    forall k {:trigger s.list[k]} :: 0 <= k < |s.list| && s.list[k] in s.reqs ==> s.reqs[s.list[k]].unique != unique
  }

  lemma InterruptAwaits(s: State, t: Tid, mid: Mid, unique: int)
    requires NotListed(s, unique)
    ensures Awaits(Interrupted(s, t, mid, unique), unique)
  {
    hide FindEarly, FindReq;
    var k := FindEarly(s.early, unique);
    var s' := Interrupted(s, t, mid, unique);
    if k == |s.early| {
      assert s'.early[k] == Early(mid, unique);
    } else {
      assert s'.early[k].unique == unique;
    }
  }

  lemma AwaitsStays(s: State, e: Event, unique: int)
    requires Enabled(s, e) && !e.Arrive? && Awaits(s, unique)
    ensures Awaits(Next(s, e), unique)
  {
    hide FindEarly, FindReq, Live, Removed;
    var k :| 0 <= k < |s.early| && s.early[k].unique == unique;
    assert Next(s, e).early[k] == s.early[k];
  }

  lemma {:induction false} AwaitsOn(ss: seq<State>, es: seq<Event>, i: int, j: int, unique: int)
    requires IsRun(ss, es) && 0 <= i <= j < |ss| && Awaits(ss[i], unique)
    requires forall x {:trigger es[x]} :: i <= x < j ==> !es[x].Arrive?
    ensures Awaits(ss[j], unique)
    decreases j - i
  {
    hide Enabled, Next, Awaits;
    if i < j {
      AwaitsOn(ss, es, i, j - 1, unique);
      assert !es[j - 1].Arrive?;
      assert Enabled(ss[j - 1], es[j - 1]);
      AwaitsStays(ss[j - 1], es[j - 1], unique);
    }
  }

  /** An INTERRUPT that finds no request waits for it: if that is the next one to arrive it is
      marked, and stays so. */
  lemma NextArrivalMarks(ss: seq<State>, es: seq<Event>, i: int, k: int, j: int)
    requires IsRun(ss, es) && 0 <= i < k < j < |ss| && es[i].Interrupt? && NotListed(ss[i], es[i].unique)
    requires es[k].Arrive? && es[k].unique == es[i].unique
    requires forall x {:trigger es[x]} :: i < x < k ==> !es[x].Arrive?
    ensures es[k].rid in ss[j].reqs ==> ss[j].reqs[es[k].rid].interrupted
  {
    hide Enabled, Inv, NotListed, Interrupted;
    assert Enabled(ss[i], es[i]);
    InterruptAwaits(ss[i], es[i].t, es[i].mid, es[i].unique);
    assert ss[i + 1] == Interrupted(ss[i], es[i].t, es[i].mid, es[i].unique);
    AwaitsOn(ss, es, i + 1, k, es[i].unique);
    var m :| 0 <= m < |ss[k].early| && ss[k].early[m].unique == es[i].unique;
    EarlyMarks(ss, es, k, j, m);
  }

  /** A message is sent back with EAGAIN only as the oldest that waits, by the arrival of a
      request for which none waits; and then it is. */
  lemma AnsweredIff(s: State, e: Event, m: Mid)
    requires Inv(s) && Enabled(s, e) && m !in s.fates
    ensures m in Next(s, e).fates && Next(s, e).fates[m] == Answered <==>
      e.Arrive? && !Awaits(s, e.unique) && s.early != [] && s.early[0].mid == m
  {
    hide Inv, FindReq, Live, Removed;
    if e.Arrive? {
      var k := FindEarly(s.early, e.unique);
      hide FindEarly;
      assert Awaits(s, e.unique) <==> k < |s.early| by {
        assert k < |s.early| ==> s.early[k].unique == e.unique;
      }
    }
  }

  /** So a callback is not missed even if it is registered after the INTERRUPT: when the message
      is dealt with and nobody is at work on the request, the callback has been called. */
  lemma CallbackNotMissed(ss: seq<State>, es: seq<Event>, i: int, j: int, rid: Rid)
    requires IsRun(ss, es) && 0 <= i < j < |ss| && es[i].Interrupt?
    requires rid in ss[i].list && rid in ss[i].reqs && ss[i].reqs[rid].unique == es[i].unique
    requires es[i].mid in ss[j].fates && rid in ss[j].reqs && rid in ss[j].rlock && ss[j].rlock[rid] == Nobody
    ensures ss[j].reqs[rid].func.Some? ==> ss[j].reqs[rid].func.value in ss[j].called
  {
    hide Inv, IsRun;
    InterruptMarks(ss, es, i, j, rid);
    RunInv(ss, es, j);
    if ss[j].reqs[rid].func.Some? {
      NotMissed(ss[j], rid);
    }
  }

  // ---- and nothing else does ----

  /** An INTERRUPT for that number was among the first `j` events. */
  ghost predicate Sent(es: seq<Event>, j: int, unique: int) {
    exists i :: 0 <= i < j && i < |es| && es[i].Interrupt? && es[i].unique == unique
  }

  /** Marks, marks on their way and early messages all come from INTERRUPT messages. */
  ghost predicate Caused(s: State, es: seq<Event>, j: int) {
    && (forall k {:trigger s.early[k]} :: 0 <= k < |s.early| ==> Sent(es, j, s.early[k].unique))
    && (forall t {:trigger s.flights[t]} :: t in s.flights && s.flights[t].rid in s.reqs ==>
      Sent(es, j, s.reqs[s.flights[t].rid].unique))
    && (forall r {:trigger s.reqs[r]} :: r in s.reqs && s.reqs[r].interrupted ==> Sent(es, j, s.reqs[r].unique))
  }

  lemma SentOn(es: seq<Event>, j: int, unique: int)
    requires Sent(es, j, unique)
    ensures Sent(es, j + 1, unique)
  {
  }

  lemma SentNow(es: seq<Event>, j: int)
    requires 0 <= j < |es| && es[j].Interrupt?
    ensures Sent(es, j + 1, es[j].unique)
  {
  }

  lemma EarlyCaused(s: State, es: seq<Event>, j: int, k: int)
    requires 0 <= j < |es| && Enabled(s, es[j]) && Caused(s, es, j) && 0 <= k < |Next(s, es[j]).early|
    ensures Sent(es, j + 1, Next(s, es[j]).early[k].unique)
  {
    hide FindReq, FindEarly, Sent, Live;
    var e, s' := es[j], Next(s, es[j]);
    if e.Interrupt? {
      SentNow(es, j);
    }
    if exists i :: 0 <= i < |s.early| && s.early[i] == s'.early[k] {
      var i :| 0 <= i < |s.early| && s.early[i] == s'.early[k];
      SentOn(es, j, s.early[i].unique);
    } else {
      EarlyFrom(s, e, k);
    }
  }

  /** An early message was there before or is the one that has just come. */
  lemma EarlyFrom(s: State, e: Event, k: int)
    requires Enabled(s, e) && 0 <= k < |Next(s, e).early|
    ensures (exists i :: 0 <= i < |s.early| && s.early[i] == Next(s, e).early[k]) ||
      (e.Interrupt? && Next(s, e).early[k].unique == e.unique)
  {
    hide FindReq, Live;
    var s' := Next(s, e);
    if e.Arrive? && s.early != [] {
      var i := FindEarly(s.early, e.unique);
      var gone := if i < |s.early| then i else 0;
      assert s'.early[k] == s.early[if k < gone then k else k + 1];
    } else if k < |s.early| {
      assert s'.early[k] == s.early[k];
    }
  }

  /** A thread was in flight before, for the same request, or has just found it. */
  lemma FlightFrom(s: State, e: Event, t: Tid)
    requires Enabled(s, e) && t in Next(s, e).flights && Next(s, e).flights[t].rid in Next(s, e).reqs
    ensures
      var rid := Next(s, e).flights[t].rid;
      if e.Interrupt? && e.t == t then Next(s, e).reqs[rid].unique == e.unique
      else t in s.flights && s.flights[t].rid == rid
  {
    hide Arrived, Interrupted, Dropped, Live, FindReq, Removed;
    match e
    case Arrive(r, unique) => ArrivedFlights(s, r, unique);
    case Interrupt(u, mid, unique) => InterruptedSame(s, u, mid, unique);
    case Leave(u) => DroppedSame(s, s.flights[u].rid);
    case Free(r) =>
      DroppedSame(s.(reqs := s.reqs[r := s.reqs[r].(func := None)], list := Removed(s.list, r)), r);
    case _ =>
  }

  lemma ArrivedFlights(s: State, rid: Rid, unique: int)
    ensures Arrived(s, rid, unique).flights == s.flights
  {
  }

  lemma FlightCaused(s: State, es: seq<Event>, j: int, t: Tid)
    requires Inv(s) && 0 <= j < |es| && Enabled(s, es[j]) && Caused(s, es, j)
    requires t in Next(s, es[j]).flights && Next(s, es[j]).flights[t].rid in Next(s, es[j]).reqs
    ensures Sent(es, j + 1, Next(s, es[j]).reqs[Next(s, es[j]).flights[t].rid].unique)
  {
    hide Inv, Sent, Next, Enabled;
    var e, s' := es[j], Next(s, es[j]);
    var rid := s'.flights[t].rid;
    FlightFrom(s, e, t);
    if e.Interrupt? && e.t == t {
      SentNow(es, j);
    } else {
      FoundCreated(s, t);
      CreatedStays(s, e, rid);
      SentOn(es, j, s.reqs[rid].unique);
    }
  }

  lemma RequestCaused(s: State, es: seq<Event>, j: int, rid: Rid)
    requires Inv(s) && 0 <= j < |es| && Enabled(s, es[j]) && Caused(s, es, j)
    requires rid in Next(s, es[j]).reqs && Next(s, es[j]).reqs[rid].interrupted
    ensures Sent(es, j + 1, Next(s, es[j]).reqs[rid].unique)
  {
    hide Inv, FindReq, FindEarly, Sent, Live;
    var e := es[j];
    if e.Arrive? && e.rid == rid {
      var i := FindEarly(s.early, e.unique);
      SentOn(es, j, s.early[i].unique);
    } else {
      KnownCreated(s, e, rid);
      CreatedStays(s, e, rid);
      SentOn(es, j, s.reqs[rid].unique);
    }
  }

  lemma KnownCreated(s: State, e: Event, rid: Rid)
    requires Inv(s) && Enabled(s, e) && rid in Next(s, e).reqs && !(e.Arrive? && e.rid == rid)
    ensures rid in s.reqs && rid in s.created
  {
    hide Guarded, Numbered, Accounted, Arrived, Interrupted, Dropped, Live, FindReq, Removed, CtrOk;
    match e
    case Arrive(r, unique) => ArrivedSame(s, r, unique);
    case Interrupt(t, mid, unique) => InterruptedSame(s, t, mid, unique);
    case Leave(t) => DroppedSame(s, s.flights[t].rid);
    case Free(r) =>
      DroppedSame(s.(reqs := s.reqs[r := s.reqs[r].(func := None)], list := Removed(s.list, r)), r);
    case _ =>
  }

  lemma StepCaused(s: State, es: seq<Event>, j: int)
    requires Inv(s) && 0 <= j < |es| && Enabled(s, es[j]) && Caused(s, es, j)
    ensures Caused(Next(s, es[j]), es, j + 1)
  {
    hide Inv, Next, Sent, Enabled;
    var s' := Next(s, es[j]);
    forall k | 0 <= k < |s'.early| ensures Sent(es, j + 1, s'.early[k].unique) {
      EarlyCaused(s, es, j, k);
    }
    forall t | t in s'.flights && s'.flights[t].rid in s'.reqs
      ensures Sent(es, j + 1, s'.reqs[s'.flights[t].rid].unique)
    {
      FlightCaused(s, es, j, t);
    }
    forall r | r in s'.reqs && s'.reqs[r].interrupted ensures Sent(es, j + 1, s'.reqs[r].unique) {
      RequestCaused(s, es, j, r);
    }
  }

  lemma {:induction false} RunCaused(ss: seq<State>, es: seq<Event>, j: int)
    requires IsRun(ss, es) && 0 <= j < |ss|
    ensures Caused(ss[j], es, j)
    decreases j
  {
    hide Inv, Enabled, Next, Sent;
    if j > 0 {
      RunCaused(ss, es, j - 1);
      RunInv(ss, es, j - 1);
      assert Enabled(ss[j - 1], es[j - 1]);
      StepCaused(ss[j - 1], es, j - 1);
    }
  }

  /** A request is marked only if an INTERRUPT for its number has come. */
  lemma MarkedOnlyBy(ss: seq<State>, es: seq<Event>, j: int, rid: Rid)
    requires IsRun(ss, es) && 0 <= j < |ss| && rid in ss[j].reqs && ss[j].reqs[rid].interrupted
    ensures exists i :: 0 <= i < j && es[i].Interrupt? && es[i].unique == ss[j].reqs[rid].unique
  {
    RunCaused(ss, es, j);
    assert Sent(es, j, ss[j].reqs[rid].unique);
  }

  /** A callback is called only if an INTERRUPT for the number of its request has come. */
  lemma CalledOnlyBy(ss: seq<State>, es: seq<Event>, j: int, c: Callback)
    requires IsRun(ss, es) && 0 <= j < |es| && c in ss[j + 1].called && c !in ss[j].called
    ensures c.rid in ss[j].reqs
    ensures exists i :: 0 <= i < j && es[i].Interrupt? && es[i].unique == ss[j].reqs[c.rid].unique
  {
    var s, e := ss[j], es[j];
    RunInv(ss, es, j);
    RunCaused(ss, es, j);
    assert Enabled(s, e);
    hide Inv, Next, Enabled, IsRun, Sent;
    CallsAre(s, e, c);
    CallerKnown(s, e, c);
    assert Sent(es, j, s.reqs[c.rid].unique) by {
      if e.Call? {
        assert s.flights[e.t].rid == c.rid;
      }
    }
    SentBefore(es, j, s.reqs[c.rid].unique);
  }

  lemma CallerKnown(s: State, e: Event, c: Callback)
    requires Inv(s) && Calls(s, e, c)
    ensures c.rid in s.reqs
    ensures if e.Call? then e.t in s.flights && s.flights[e.t].rid == c.rid else s.reqs[c.rid].interrupted
  {
    hide Numbered, Accounted, CtrOk;
    if e.Call? {
      assert FlightOk(s, e.t);
    } else {
      assert SettingOk(s, e.rid);
    }
  }

  lemma SentBefore(es: seq<Event>, j: int, unique: int)
    requires Sent(es, j, unique) && j <= |es|
    ensures exists i :: 0 <= i < j && es[i].Interrupt? && es[i].unique == unique
  {
  }
}
