/** `struct fuse_session` as far as interrupts are concerned, updated in place. Every method
    is one critical section of `se->lock` and is proved to be a step of the machine in module
    Interrupts. */
module SessionObject {
  import opened Basics
  import opened Interrupts

  class Session {
    var reqs: map<Rid, Req>
    var list: seq<Rid>
    var early: seq<Early>
    ghost var owned: set<Rid>
    ghost var flights: map<Tid, Flight>
    ghost var settings: map<Rid, Setting>
    ghost var rlock: map<Rid, Holder>
    ghost var called: set<Callback>
    ghost var created: set<Rid>
    ghost var freed: set<Rid>
    ghost var messages: set<Mid>
    ghost var fates: map<Mid, Fate>

    ghost function View(): State
      reads this
    {
      State(reqs, owned, list, early, flights, settings, rlock, called, created, freed, messages, fates)
    }

    constructor ()
      ensures View() == Initial()
    {
      reqs, list, early := map[], [], [];
      owned, flights, settings, rlock, called := {}, map[], map[], map[], {};
      created, freed, messages, fates := {}, {}, {}, map[];
    }

    method SearchEarly(unique: int) returns (i: int)
      ensures i == FindEarly(early, unique)
    {
      i := 0;
      while i < |early|
        invariant 0 <= i <= |early| && forall j :: 0 <= j < i ==> early[j].unique != unique
      {
        if early[i].unique == unique {
          return;
        }
        i := i + 1;
      }
    }

    method SearchList(unique: int) returns (i: int)
      requires forall k {:trigger list[k]} :: 0 <= k < |list| ==> list[k] in reqs
      ensures i == FindReq(list, reqs, unique)
    {
      i := 0;
      while i < |list|
        invariant 0 <= i <= |list| && forall j :: 0 <= j < i ==> reqs[list[j]].unique != unique
      {
        if reqs[list[i]].unique == unique {
          return;
        }
        i := i + 1;
      }
    }

    /** check_interrupt(): a new request meets the interrupt that came before it, or else
        bounces the oldest early interrupt. */
    method CheckInterrupt(unique: int) returns (interrupted: bool, bounced: Option<Mid>)
      modifies this`early, this`fates
      ensures var i := FindEarly(old(early), unique); var hit := i < |old(early)|; var gone := if hit then i else 0;
        && interrupted == hit
        && bounced == (if hit || old(early) == [] then None else Some(old(early)[0].mid))
        && early == (if old(early) == [] then [] else Without(old(early), gone))
        && fates == if old(early) == [] then old(fates)
          else old(fates)[old(early)[gone].mid := if hit then Flagged else Answered]
    {
      hide FindEarly;
      var i := SearchEarly(unique);
      interrupted, bounced := i < |early|, None;
      if i < |early| {
        fates := fates[early[i].mid := Flagged];
        early := early[..i] + early[i + 1..];
      } else if early != [] {
        bounced := Some(early[0].mid);
        fates := fates[early[0].mid := Answered];
        early := early[..0] + early[1..];
      }
    }

    /** A new request: check_interrupt() and list_add_req(). A bounced interrupt is answered
        with EAGAIN. */
    method Receive(rid: Rid, unique: int) returns (bounced: Option<Mid>)
      requires Inv(View()) && Enabled(View(), Arrive(rid, unique))
      modifies this
      ensures View() == Next(old(View()), Arrive(rid, unique)) && Inv(View())
      ensures bounced.Some? ==> bounced.value in fates && fates[bounced.value] == Answered
    {
      hide Inv, FindEarly, Without;
      NextInv(View(), Arrive(rid, unique));
      var interrupted;
      interrupted, bounced := CheckInterrupt(unique);
      reqs := reqs[rid := Req(unique, 1, interrupted, None)];
      list := list + [rid];
      owned, rlock, created := owned + {rid}, rlock[rid := Nobody], created + {rid};
    }

    /** do_interrupt() up to the point where find_interrupted() drops `se->lock`. */
    method DoInterrupt(mid: Mid, unique: int, ghost t: Tid) returns (target: Option<Rid>)
      requires Inv(View()) && Enabled(View(), Interrupt(t, mid, unique))
      modifies this
      ensures View() == Next(old(View()), Interrupt(t, mid, unique)) && Inv(View())
      ensures target.Some? <==> t in flights
    {
      hide Inv, FindEarly, FindReq, Referenced;
      ghost var s := View();
      NextInv(s, Interrupt(t, mid, unique));
      ListedExist(View());
      var i := SearchList(unique);
      var k := SearchEarly(unique);
      target := None;
      if i < |list| {
        Reference(list[i], mid, t);
        target := Some(list[i]);
      } else if k < |early| {
        fates := fates[mid := Duplicate];
      } else {
        early := early + [Early(mid, unique)];
      }
      messages := messages + {mid};
    }

    /** find_interrupted() takes a reference before it drops `se->lock`. */
    method Reference(r: Rid, mid: Mid, ghost t: Tid)
      requires r in reqs
      modifies this`reqs, this`flights
      ensures View() == Referenced(old(View()), t, mid, r) && t in flights
    {
      reqs := reqs[r := reqs[r].(ctr := reqs[r].ctr + 1)];
      flights := flights[t := Flight(r, Entered(mid))];
    }

    /** find_interrupted() with both mutexes: mark the request and pick up its callback. */
    method MarkInterrupted(rid: Rid, ghost t: Tid) returns (func: Option<Callback>)
      requires Inv(View()) && Enabled(View(), Mark(t)) && flights[t].rid == rid
      modifies this
      ensures View() == Next(old(View()), Mark(t)) && Inv(View()) && func == old(reqs[rid].func)
      ensures rid in reqs && reqs[rid].interrupted
    {
      hide Inv;
      NextInv(View(), Mark(t));
      func := reqs[rid].func;
      reqs := reqs[rid := reqs[rid].(interrupted := true)];
      rlock, fates := rlock[rid := Thread(t)], fates[flights[t].phase.mid := Flagged];
      flights := flights[t := Flight(rid, Marked(func))];
    }

    /** find_interrupted() after the callback: the last user frees the request. */
    method LeaveInterrupted(rid: Rid, ghost t: Tid) returns (destroyed: bool)
      requires Inv(View()) && Enabled(View(), Leave(t)) && flights[t].rid == rid
      modifies this
      ensures View() == Next(old(View()), Leave(t)) && Inv(View())
      ensures destroyed <==> rid in freed
    {
      hide Inv;
      UserCounted(View(), t);
      NextInv(View(), Leave(t));
      flights := flights - {t};
      destroyed := DropUser(rid);
    }

    /** Count one user less and free the request when that was the last. */
    method DropUser(rid: Rid) returns (destroyed: bool)
      requires rid in reqs && rid !in freed
      modifies this`reqs, this`rlock, this`freed
      ensures View() == Dropped(old(View()), rid) && (destroyed <==> rid in freed)
    {
      reqs := reqs[rid := reqs[rid].(ctr := reqs[rid].ctr - 1)];
      destroyed := reqs[rid].ctr == 0;
      if destroyed {
        assert reqs - {rid} == old(reqs) - {rid};
        reqs, rlock, freed := reqs - {rid}, rlock - {rid}, freed + {rid};
      }
    }

    /** fuse_req_interrupt_func() under `se->lock`. */
    method StoreFunc(rid: Rid, func: Option<Callback>)
      requires Inv(View()) && Enabled(View(), Store(rid)) && settings[rid].func == func
      modifies this
      ensures View() == Next(old(View()), Store(rid)) && Inv(View())
    {
      hide Inv;
      NextInv(View(), Store(rid));
      reqs := reqs[rid := reqs[rid].(func := func)];
      settings := settings[rid := Stored(func)];
    }

    /** The rest of fuse_req_interrupt_func(): `true` means that the callback is called. */
    method CheckFunc(rid: Rid, func: Option<Callback>) returns (calls: bool)
      requires Inv(View()) && Enabled(View(), Check(rid)) && settings[rid].func == func
      modifies this
      ensures View() == Next(old(View()), Check(rid)) && Inv(View())
      ensures calls <==> reqs[rid].interrupted && func.Some?
    {
      hide Inv;
      NextInv(View(), Check(rid));
      calls := reqs[rid].interrupted && func.Some?;
      if calls {
        called := called + {func.value};
      }
      settings, rlock := settings - {rid}, rlock[rid := Nobody];
    }

    /** fuse_free_req(). */
    method FreeReq(rid: Rid) returns (destroyed: bool)
      requires Inv(View()) && Enabled(View(), Free(rid))
      modifies this
      ensures View() == Next(old(View()), Free(rid)) && Inv(View())
      ensures destroyed <==> rid in freed
    {
      hide Inv, Removed;
      OwnedNotFreed(View(), rid);
      NextInv(View(), Free(rid));
      reqs := reqs[rid := reqs[rid].(func := None)];
      list := Removed(list, rid);
      destroyed := DropUser(rid);
      owned := owned - {rid};
    }
  }

  lemma ListedExist(s: State)
    requires Inv(s)
    ensures forall k {:trigger s.list[k]} :: 0 <= k < |s.list| ==> s.list[k] in s.reqs
  {
    forall k | 0 <= k < |s.list| ensures s.list[k] in s.reqs {
      var r := s.list[k];
      assert r in s.list;
      assert r in s.owned;
    }
  }

  lemma UserCounted(s: State, t: Tid)
    requires Inv(s) && t in s.flights
    ensures s.flights[t].rid in s.reqs && s.flights[t].rid !in s.freed
  {
  }

  lemma OwnedNotFreed(s: State, rid: Rid)
    requires Inv(s) && rid in s.owned
    ensures rid in s.reqs && rid !in s.freed
  {
  }
}
