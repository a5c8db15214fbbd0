/** Node numbers: next_id() of lib/fuse.c. A number is reused only together with a new
    generation, so that the pair names one node. */
module NodeIds {
  import opened Basics
  import opened NodeTree

  /** FUSE_UNKNOWN_INO. */
  const UNKNOWN_INO: int := 0xffff_ffff

  /** `ctr` and `generation` of struct fuse; also the number and generation of a node. */
  datatype Ids = Ids(ctr: int, generation: int)

  predicate InRange(a: Ids) {
    0 <= a.ctr < WRAP && 0 <= a.generation < WRAP
  }

  predicate FreeId(t: Tree, id: Id) {
    0 < id < UNKNOWN_INO && id !in t
  }

  /** The counter after `j` increments. */
  function Ahead(ctr: int, j: int): int {
    (ctr + j) % WRAP
  }

  /** How many increments it takes, at least `j`, to come to a free number. */
  function Steps(t: Tree, ctr: int, j: int): (k: int)
    requires j <= WRAP
    ensures j <= k <= WRAP && (k < WRAP ==> FreeId(t, Ahead(ctr, k)))
    ensures forall i {:trigger Ahead(ctr, i)} :: j <= i < k ==> !FreeId(t, Ahead(ctr, i))
    decreases WRAP - j
  {
    if j == WRAP || FreeId(t, Ahead(ctr, j)) then j else Steps(t, ctr, j + 1)
  }

  /** What next_id() makes of the counters: the first free number in cyclic order, and a new
      generation if zero was skipped on the way. */
  function Draw(t: Tree, a: Ids): (b: Ids)
    ensures 0 <= b.ctr < WRAP
  {
    var k := Steps(t, a.ctr, 1);
    Ids(Ahead(a.ctr, k), if a.ctr + k < WRAP then a.generation else (a.generation + 1) % WRAP)
  }

  lemma AheadTo(ctr: int, m: int)
    requires 0 <= m < WRAP
    ensures var d := (m - ctr) % WRAP; Ahead(ctr, if d == 0 then WRAP else d) == m
  {
    var q := (m - ctr) / WRAP;
    assert m - ctr == q * WRAP + (m - ctr) % WRAP;
  }

  /** The number is new as long as one of the 2^32 - 2 numbers is not in use. */
  lemma DrawIsFree(t: Tree, a: Ids)
    requires |t| < UNKNOWN_INO - 1
    ensures FreeId(t, Draw(t, a).ctr)
  {
    FreeIdExists(t);
    var m :| FreeId(t, m);
    var d := (m - a.ctr) % WRAP;
    AheadTo(a.ctr, m);
    assert d > 0 ==> !(1 <= d < Steps(t, a.ctr, 1)) || !FreeId(t, Ahead(a.ctr, d));
  }

  /** A free number exists unless all of them are in use. */
  lemma FreeIdExists(t: Tree)
    requires |t| < UNKNOWN_INO - 1
    ensures exists m :: FreeId(t, m)
  {
    assert |t| == |t.Keys|;
    var m := FreeBelow(t.Keys, UNKNOWN_INO - 1);
    assert FreeId(t, m);
  }

  lemma {:induction false} FreeBelow(used: set<Id>, n: int) returns (m: Id)
    requires |used| < n
    ensures 0 < m <= n && m !in used
    decreases n
  {
    if n !in used {
      m := n;
    } else {
      m := FreeBelow(used - {n}, n - 1);
    }
  }

  /** `b` was drawn after `a`. */
  predicate Later(a: Ids, b: Ids) {
    a.generation < b.generation || (a.generation == b.generation && a.ctr < b.ctr)
  }

  /** Unless the generation counter wraps, a draw is later than the counters it came from. */
  lemma DrawIsLater(t: Tree, a: Ids)
    requires InRange(a)
    ensures InRange(Draw(t, a)) && (Later(a, Draw(t, a)) <==> a.generation <= Draw(t, a).generation)
  {
    hide Steps;
  }

  /** One increment, with the wrap written out. */
  lemma AheadStep(ctr: int, j: int)
    requires 0 <= ctr < WRAP && 0 <= j < WRAP
    ensures Ahead(ctr, 0) == ctr && Ahead(ctr, j + 1) == (Ahead(ctr, j) + 1) % WRAP
    ensures Ahead(ctr, j) == if ctr + j < WRAP then ctr + j else ctr + j - WRAP
    ensures Ahead(ctr, j + 1) == 0 <==> ctr + j + 1 == WRAP
  {
  }

  /** How many numbers lie between `ctr` and `m`, going up and around. */
  function Between(ctr: int, m: int): int {
    if ctr < m then m - ctr - 1 else m - ctr - 1 + WRAP
  }

  lemma BetweenAhead(ctr: int, k: int)
    requires 0 <= ctr < WRAP && 0 < k <= WRAP
    ensures Between(ctr, Ahead(ctr, k)) == k - 1
    ensures ctr < Ahead(ctr, k) <==> ctr + k < WRAP
  {
    AheadStep(ctr, k - 1);
  }

  /** No free number is passed over, and the generation is a new one iff the count went
      around. */
  lemma DrawIsFirst(t: Tree, a: Ids, m: Id)
    requires InRange(a) && FreeId(t, m)
    ensures var b := Draw(t, a);
      && Between(a.ctr, b.ctr) <= Between(a.ctr, m)
      && b.generation == if a.ctr < b.ctr then a.generation else (a.generation + 1) % WRAP
  {
    hide Steps, Ahead;
    var k, d := Steps(t, a.ctr, 1), Between(a.ctr, m) + 1;
    BetweenAhead(a.ctr, k);
    AheadBetween(a.ctr, m);
    assert d < k ==> !FreeId(t, Ahead(a.ctr, d));
  }

  lemma AheadBetween(ctr: int, m: int)
    requires 0 <= ctr < WRAP && 0 <= m < WRAP
    ensures Ahead(ctr, Between(ctr, m) + 1) == m
  {
    var d := Between(ctr, m) + 1;
    if d < WRAP {
      AheadStep(ctr, d);
    } else {
      AheadStep(ctr, d - 1);
    }
  }

  /** The loop of next_id(). */
  method NextId(t: Tree, ctr: int, generation: int) returns (id: Id, gen: int)
    requires 0 <= ctr < WRAP && 0 <= generation < WRAP && |t| < UNKNOWN_INO - 1
    ensures Ids(id, gen) == Draw(t, Ids(ctr, generation)) && FreeId(t, id)
  {
    hide Steps, Ahead;
    ghost var k, a := Steps(t, ctr, 1), Ids(ctr, generation);
    DrawIsFree(t, a);
    AheadStep(ctr, 0);
    id, gen := ctr, generation;
    ghost var j := 0;
    while true
      invariant 0 <= j < k && id == Ahead(ctr, j)
      invariant gen == if ctr + j < WRAP then generation else (generation + 1) % WRAP
      decreases k - j
    {
      AheadStep(ctr, j);
      id, j := (id + 1) % WRAP, j + 1;
      if id == 0 {
        gen := (gen + 1) % WRAP;
      }
      if !(id == 0 || id == UNKNOWN_INO || id in t) {
        return;
      }
    }
  }
}
