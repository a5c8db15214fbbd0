/** The numbers and generations of all nodes that a run creates. */
module Handles {
  import opened NodeTree
  import opened NodeIds
  import opened PathLock
  import opened PathQueue
  import opened Machine
  import opened Theorems

  /** The step makes a node. */
  ghost predicate Creates(s: State, e: Event) {
    e.Find? && Misses(s.core, e.dir, e.entry) && !e.noNode && !e.noName
  }

  /** The number and the generation of that node. */
  ghost function Handle(s: State): Ids {
    Draw(s.core.tree, s.ids)
  }

  /** A new node is numbered, with a number that no node in the cache has and that is neither
      zero nor FUSE_UNKNOWN_INO. */
  lemma CreatedFree(s: State, e: Event)
    requires Inv(s) && Enabled(s, e) && Creates(s, e)
    ensures FreeId(s.core.tree, Handle(s).ctr) && Next(s, e).ids == Handle(s)
    ensures Handle(s).ctr in Next(s, e).core.tree
    ensures Next(s, e).core.tree[Handle(s).ctr] == Linked(e.dir, e.entry.value)
  {
    hide Inv, Draw, Sound;
    InvSound(s);
    SoundDomains(s.core, s.holds);
    DrawIsFree(s.core.tree, s.ids);
  }

  /** The generation counter does not wrap in this step. */
  ghost predicate Climbs(s: State, s': State) {
    s.ids.generation <= s'.ids.generation
  }

  /** Nor in the steps from the i-th state to the j-th. */
  ghost predicate NoWrap(ss: seq<State>, i: int, j: int)
    requires 0 <= i <= j < |ss|
  {
    forall k {:trigger ss[k]} :: i < k <= j ==> Climbs(ss[k - 1], ss[k])
  }

  lemma StepIds(s: State, e: Event)
    requires Enabled(s, e) && InRange(s.ids)
    ensures InRange(Next(s, e).ids)
    ensures Next(s, e).ids == s.ids || (Climbs(s, Next(s, e)) ==> Later(s.ids, Next(s, e).ids))
    ensures Creates(s, e) && Climbs(s, Next(s, e)) ==> Later(s.ids, Next(s, e).ids)
  {
    hide Draw;
    if e.Find? {
      DrawIsLater(s.core.tree, s.ids);
    } else {
      OtherIds(s, e);
    }
  }

  lemma OtherIds(s: State, e: Event)
    requires Enabled(s, e) && !e.Find?
    ensures Next(s, e).ids == s.ids
  {
    if e.Free? {
      WakeFromLocksOnly(Ended(s, e.t), 0, e.f);
    }
  }

  lemma {:induction false} RunInRange(ss: seq<State>, es: seq<Event>, i: int)
    requires IsRun(ss, es) && 0 <= i < |ss|
    ensures InRange(ss[i].ids)
    decreases i
  {
    hide Enabled, Next;
    if i > 0 {
      RunInRange(ss, es, i - 1);
      RunStep(ss, es, i - 1);
      StepIds(ss[i - 1], es[i - 1]);
    }
  }

  /** Over a stretch of a run in which the generation does not wrap the counters only grow. */
  lemma {:induction false} CountersGrow(ss: seq<State>, es: seq<Event>, i: int, j: int)
    requires IsRun(ss, es) && 0 <= i <= j < |ss| && NoWrap(ss, i, j)
    ensures ss[i].ids == ss[j].ids || Later(ss[i].ids, ss[j].ids)
    decreases j - i
  {
    hide Enabled, Next, Climbs;
    if i < j {
      CountersGrow(ss, es, i, j - 1);
      RunStep(ss, es, j - 1);
      RunInRange(ss, es, j - 1);
      StepIds(ss[j - 1], es[j - 1]);
      assert Climbs(ss[j - 1], ss[j]);
    }
  }

  /** Of two nodes created in a run the later one has the greater handle, so no two nodes ever
      share number and generation, unless the generation counter wraps in between. */
  lemma HandlesIncrease(ss: seq<State>, es: seq<Event>, i: int, j: int)
    requires IsRun(ss, es) && 0 <= i < j < |es| && Creates(ss[i], es[i]) && Creates(ss[j], es[j])
    requires NoWrap(ss, i, j + 1)
    ensures Later(Handle(ss[i]), Handle(ss[j])) && Handle(ss[i]) != Handle(ss[j])
  {
    hide Inv, Enabled, Next, Creates, Climbs, Draw;
    RunStep(ss, es, i);
    RunStep(ss, es, j);
    RunInv(ss, es, i);
    RunInv(ss, es, j);
    CreatedFree(ss[i], es[i]);
    CreatedFree(ss[j], es[j]);
    CountersGrow(ss, es, i + 1, j);
    RunInRange(ss, es, j);
    StepIds(ss[j], es[j]);
    assert Climbs(ss[j], ss[j + 1]);
  }
}
