/** The slab allocator for nodes in lib/fuse.c: nodes are cut from pages, each page keeps its
    free nodes in a list, and a page without nodes is given back at once. */
module SlabAllocator {
  import opened Basics

  /** The sizes involved; at least one node fits a page behind the slab header. */
  datatype Layout = Layout(page: int, header: int, node: int)

  predicate Fits(l: Layout) {
    0 < l.node && 0 <= l.header && l.node <= l.page - l.header
  }

  function Capacity(l: Layout): int
    requires Fits(l)
  {
    (l.page - l.header) / l.node
  }

  /** The i-th node of the page at `slab`: the nodes fill the page up to its end. */
  function Slot(l: Layout, slab: int, i: int): int
    requires Fits(l)
  {
    slab + l.page - Capacity(l) * l.node + i * l.node
  }

  /** node_to_slab(). */
  function Base(l: Layout, x: int): int
    requires Fits(l)
  {
    x - x % l.page
  }

  lemma CapacityBounds(l: Layout)
    requires Fits(l)
    ensures Capacity(l) >= 1 && Capacity(l) * l.node <= l.page - l.header
  {
    MulStep(0, l.node);
  }

  lemma MulMonotone(a: int, b: int, m: int)
    requires a <= b && m > 0
    ensures a * m <= b * m
  {
  }

  lemma MulStep(a: int, m: int)
    ensures (a + 1) * m == a * m + m
  {
  }

  /** A node lies behind the header and inside its page, and masks back to it. */
  lemma SlotInPage(l: Layout, slab: int, i: int)
    requires Fits(l) && slab % l.page == 0 && 0 <= i < Capacity(l)
    ensures slab + l.header <= Slot(l, slab, i) && Slot(l, slab, i) + l.node <= slab + l.page
    ensures Base(l, Slot(l, slab, i)) == slab
  {
    CapacityBounds(l);
    MulMonotone(0, i, l.node);
    MulMonotone(i + 1, Capacity(l), l.node);
    MulStep(i, l.node);
    ModOfSum(slab, Slot(l, slab, i) - slab, l.page);
  }

  lemma ModOfSum(a: int, r: int, m: int)
    requires m > 0 && a % m == 0 && 0 <= r < m
    ensures (a + r) % m == r
  {
    var q := a / m;
    assert a == m * q;
    var p, s := (a + r) / m, (a + r) % m;
    assert m * q + r == m * p + s;
    if p > q {
      MulMonotone(q + 1, p, m);
      MulStep(q, m);
    } else if p < q {
      MulMonotone(p + 1, q, m);
      MulStep(p, m);
    }
  }

  /** Two nodes of a page do not overlap. */
  lemma SlotsApart(l: Layout, slab: int, i: int, j: int)
    requires Fits(l) && i < j
    ensures Slot(l, slab, i) + l.node <= Slot(l, slab, j)
  {
    MulMonotone(i + 1, j, l.node);
    MulStep(i, l.node);
  }

  function Slots(l: Layout, slab: int, n: int): seq<int>
    requires Fits(l)
  {
    if n <= 0 then [] else Slots(l, slab, n - 1) + [Slot(l, slab, n - 1)]
  }

  predicate IsSlot(l: Layout, slab: int, x: int)
    requires Fits(l)
  {
    exists i {:trigger Slot(l, slab, i)} :: 0 <= i < Capacity(l) && x == Slot(l, slab, i)
  }

  lemma {:induction false} SlotsAre(l: Layout, slab: int, n: int)
    requires Fits(l) && 0 <= n <= Capacity(l)
    ensures |Slots(l, slab, n)| == n && NoRepeats(Slots(l, slab, n))
    ensures forall i {:trigger Slots(l, slab, n)[i]} :: 0 <= i < n ==> Slots(l, slab, n)[i] == Slot(l, slab, i)
    decreases n
  {
    if n > 0 {
      SlotsAre(l, slab, n - 1);
      forall i | 0 <= i < n - 1 ensures Slot(l, slab, i) != Slot(l, slab, n - 1) {
        SlotsApart(l, slab, i, n - 1);
      }
    }
  }

  // ---- the state of the allocator ----

  /** The nodes in use on one page. */
  ghost function In(l: Layout, live: set<int>, slab: int): set<int>
    requires Fits(l)
  {
    set x | x in live && Base(l, x) == slab
  }

  /** `used`, `free` are the fields of the slab headers, `partial` and `full` the two lists of
      struct fuse, `live` the nodes handed out. */
  datatype State = State(used: map<int, int>, free: map<int, seq<int>>, partial: seq<int>, full: seq<int>,
    live: set<int>)

  /** Used and free nodes of a page add up, and are different nodes. */
  ghost predicate SlabOk(l: Layout, s: State, slab: int)
    requires Fits(l) && slab in s.used && slab in s.free
  {
    && slab % l.page == 0
    && s.used[slab] == |In(l, s.live, slab)| && s.used[slab] + |s.free[slab]| == Capacity(l)
    && NoRepeats(s.free[slab])
    && forall x {:trigger x in s.free[slab]} :: x in s.free[slab] ==> IsSlot(l, slab, x) && x !in s.live
  }

  ghost predicate LiveOk(l: Layout, s: State, x: int)
    requires Fits(l)
  {
    Base(l, x) in s.used && IsSlot(l, Base(l, x), x)
  }

  /** Everything but that every page has a node in use. */
  ghost predicate Consistent(l: Layout, s: State)
    requires Fits(l)
  {
    && s.free.Keys == s.used.Keys && NoRepeats(s.partial) && NoRepeats(s.full)
    && (forall b {:trigger b in s.partial} :: b in s.partial <==> b in s.used && s.free[b] != [])
    && (forall b {:trigger b in s.full} :: b in s.full <==> b in s.used && s.free[b] == [])
    && (forall b {:trigger SlabOk(l, s, b)} :: b in s.used ==> SlabOk(l, s, b))
    && (forall x {:trigger LiveOk(l, s, x)} {:trigger x in s.live} :: x in s.live ==> LiveOk(l, s, x))
  }

  ghost predicate Valid(l: Layout, s: State)
    requires Fits(l)
  {
    Consistent(l, s) && forall b {:trigger s.used[b]} :: b in s.used ==> s.used[b] >= 1
  }

  /** Nodes in use overlap neither each other nor a slab header. */
  lemma LiveApart(l: Layout, s: State, x: int, y: int)
    requires Fits(l) && Valid(l, s) && x in s.live && y in s.live
    ensures x != y ==> x + l.node <= y || y + l.node <= x
    ensures y + l.node <= Base(l, x) || Base(l, x) + l.header <= y
  {
    assert LiveOk(l, s, x) && LiveOk(l, s, y);
    var a, b := Base(l, x), Base(l, y);
    var i :| 0 <= i < Capacity(l) && x == Slot(l, a, i);
    var j :| 0 <= j < Capacity(l) && y == Slot(l, b, j);
    assert SlabOk(l, s, a) && SlabOk(l, s, b);
    SlotInPage(l, a, i);
    SlotInPage(l, b, j);
    if a == b {
      if i < j {
        SlotsApart(l, a, i, j);
      } else if j < i {
        SlotsApart(l, a, j, i);
      }
    } else {
      PagesApart(a, b, l.page);
    }
  }

  lemma PagesApart(a: int, b: int, m: int)
    requires m > 0 && a % m == 0 && b % m == 0 && a != b
    ensures a + m <= b || b + m <= a
  {
    var p, q := a / m, b / m;
    assert a == m * p && b == m * q;
    if p < q {
      MulMonotone(p + 1, q, m);
      MulStep(p, m);
    } else if q < p {
      MulMonotone(q + 1, p, m);
      MulStep(q, m);
    }
  }

  lemma NoPage(l: Layout, s: State, b: int)
    requires Fits(l) && Valid(l, s) && s.live == {}
    ensures b !in s.used
  {
    if b in s.used {
      assert SlabOk(l, s, b);
      NoneIn(l, s.live, b);
    }
  }

  lemma NoneIn(l: Layout, live: set<int>, b: int)
    requires Fits(l) && live == {}
    ensures In(l, live, b) == {}
  {
  }

  lemma Listed(l: Layout, s: State)
    requires Fits(l) && Consistent(l, s)
    ensures s.partial != [] ==> var b := s.partial[0]; b in s.used && b in s.free && s.free[b] != [] && SlabOk(l, s, b)
    ensures s.full != [] ==> s.full[0] in s.used
  {
    if s.partial != [] {
      var b := s.partial[0];
      assert b in s.partial;
    }
    if s.full != [] {
      var b := s.full[0];
      assert b in s.full;
    }
  }

  /** When all nodes have been freed both lists are empty. */
  lemma AllFreed(l: Layout, s: State)
    requires Fits(l) && Valid(l, s) && s.live == {}
    ensures s.partial == [] && s.full == [] && s.used == map[]
  {
    forall b ensures b !in s.used {
      NoPage(l, s, b);
    }
    Listed(l, s);
  }

  // ---- the operations ----

  /** list_del(). */
  function Without(list: seq<int>, b: int): seq<int> {
    if list == [] then []
    else
      var rest, x := Without(list[..|list| - 1], b), list[|list| - 1];
      if x == b then rest else rest + [x]
  }

  lemma {:induction false} WithoutMembers(list: seq<int>, b: int)
    requires NoRepeats(list)
    ensures NoRepeats(Without(list, b)) && forall x {:trigger x in Without(list, b)} :: x in Without(list, b) <==>
      x in list && x != b
    decreases |list|
  {
    if list != [] {
      var front, x := list[..|list| - 1], list[|list| - 1];
      assert list == front + [x];
      WithoutMembers(front, b);
      assert x !in front;
      Appended(Without(front, b), x);
      Appended(front, x);
    }
  }

  lemma Tail(list: seq<int>)
    requires NoRepeats(list) && list != []
    ensures NoRepeats(list[1..]) && forall x {:trigger x in list[1..]} :: x in list[1..] <==> x in list && x != list[0]
  {
    forall x | x in list && x != list[0] ensures x in list[1..] {
      var i :| 0 <= i < |list| && list[i] == x;
      assert list[1..][i - 1] == x;
    }
  }

  /** alloc_slab(): all nodes of the new page are free. */
  function NewSlab(l: Layout, s: State, page: int): State
    requires Fits(l)
  {
    s.(used := s.used[page := 0], free := s.free[page := Slots(l, page, Capacity(l))], partial := s.partial + [page])
  }

  lemma NewSlabConsistent(l: Layout, s: State, page: int)
    requires Fits(l) && Valid(l, s) && page !in s.used && page % l.page == 0
    ensures Consistent(l, NewSlab(l, s, page))
    ensures forall b {:trigger s.used[b]} :: b in s.used ==> s.used[b] >= 1
  {
    var s', n := NewSlab(l, s, page), Capacity(l);
    CapacityBounds(l);
    SlotsAre(l, page, n);
    Appended(s.partial, page);
    assert In(l, s.live, page) == {} by {
      forall x ensures x !in In(l, s.live, page) {
        assert x in s.live ==> LiveOk(l, s, x);
      }
    }
    forall b | b in s'.used ensures SlabOk(l, s', b) {
      if b != page {
        assert SlabOk(l, s, b);
      } else {
        forall x | x in s'.free[page] ensures IsSlot(l, page, x) && x !in s.live {
          var i :| 0 <= i < n && Slots(l, page, n)[i] == x;
          assert x == Slot(l, page, i);
          SlotInPage(l, page, i);
          assert x in s.live ==> LiveOk(l, s, x);
        }
      }
    }
    forall x | x in s'.live ensures LiveOk(l, s', x) {
      assert LiveOk(l, s, x);
    }
  }

  /** The rest of alloc_node(), with a page on the partial list. */
  function Taken(l: Layout, s: State): State
    requires s.partial != [] && s.partial[0] in s.free && s.partial[0] in s.used && s.free[s.partial[0]] != []
  {
    var b := s.partial[0];
    var x, rest := s.free[b][0], s.free[b][1..];
    s.(used := s.used[b := s.used[b] + 1], free := s.free[b := rest], live := s.live + {x},
       partial := if rest == [] then Without(s.partial, b) else s.partial,
       full := if rest == [] then s.full + [b] else s.full)
  }

  lemma TakenValid(l: Layout, s: State)
    requires Fits(l) && Consistent(l, s) && s.partial != []
    requires forall b {:trigger s.used[b]} :: b in s.used && b != s.partial[0] ==> s.used[b] >= 1
    ensures s.partial[0] in s.free && s.partial[0] in s.used && s.free[s.partial[0]] != []
    ensures Valid(l, Taken(l, s)) && s.free[s.partial[0]][0] !in s.live
  {
    Listed(l, s);
    var s', b := Taken(l, s), s.partial[0];
    var x := s.free[b][0];
    assert x in s.free[b];
    SlotBase(l, b, x);
    TakenLists(l, s);
    forall c | c in s'.used ensures SlabOk(l, s', c) && s'.used[c] >= 1 {
      assert SlabOk(l, s, c);
      TakenSlab(l, s, c);
    }
    forall y | y in s'.live ensures LiveOk(l, s', y) {
      assert y != x ==> LiveOk(l, s, y);
    }
  }

  lemma TakenLists(l: Layout, s: State)
    requires Fits(l) && Consistent(l, s) && s.partial != []
    requires var b := s.partial[0]; b in s.used && b in s.free && s.free[b] != [] && SlabOk(l, s, b)
    ensures var s' := Taken(l, s);
      && NoRepeats(s'.partial) && NoRepeats(s'.full)
      && (forall c {:trigger c in s'.partial} :: c in s'.partial <==> c in s'.used && s'.free[c] != [])
      && (forall c {:trigger c in s'.full} :: c in s'.full <==> c in s'.used && s'.free[c] == [])
  {
    var b := s.partial[0];
    WithoutMembers(s.partial, b);
    assert b !in s.full;
    Appended(s.full, b);
  }

  lemma TakenSlab(l: Layout, s: State, c: int)
    requires Fits(l) && s.partial != [] && c in s.used && c in s.free && SlabOk(l, s, c)
    requires var b := s.partial[0]; b in s.used && b in s.free && s.free[b] != [] && SlabOk(l, s, b)
    ensures var s' := Taken(l, s);
      SlabOk(l, s', c) && s'.used[c] == s.used[c] + if c == s.partial[0] then 1 else 0
  {
    var s', b := Taken(l, s), s.partial[0];
    var x := s.free[b][0];
    assert x in s.free[b];
    SlotBase(l, b, x);
    Tail(s.free[b]);
    if c == b {
      assert In(l, s'.live, c) == In(l, s.live, c) + {x};
    } else {
      assert In(l, s'.live, c) == In(l, s.live, c);
      OtherPage(l, s, c, x, b);
    }
  }

  lemma SlotBase(l: Layout, b: int, x: int)
    requires Fits(l) && b % l.page == 0 && IsSlot(l, b, x)
    ensures Base(l, x) == b
  {
    var i :| 0 <= i < Capacity(l) && x == Slot(l, b, i);
    SlotInPage(l, b, i);
  }

  /** A free node of another page is another node. */
  lemma OtherPage(l: Layout, s: State, c: int, x: int, b: int)
    requires Fits(l) && c in s.used && c in s.free && SlabOk(l, s, c) && Base(l, x) == b && c != b
    ensures x !in s.free[c]
  {
    if x in s.free[c] {
      SlotBase(l, c, x);
    }
  }

  /** free_node_mem(). */
  function Given(l: Layout, s: State, x: int): State
    requires Fits(l) && Base(l, x) in s.used && Base(l, x) in s.free
  {
    var b := Base(l, x);
    if s.used[b] == 1 then
      s.(used := s.used - {b}, free := s.free - {b}, partial := Without(s.partial, b), full := Without(s.full, b),
        live := s.live - {x})
    else
      s.(used := s.used[b := s.used[b] - 1], free := s.free[b := [x] + s.free[b]], live := s.live - {x},
         partial := if s.free[b] == [] then s.partial + [b] else s.partial,
         full := if s.free[b] == [] then Without(s.full, b) else s.full)
  }

  lemma LessOne(l: Layout, live: set<int>, x: int, c: int)
    requires Fits(l) && x in live
    ensures |In(l, live - {x}, c)| == |In(l, live, c)| - if Base(l, x) == c then 1 else 0
  {
    if Base(l, x) == c {
      assert In(l, live - {x}, c) == In(l, live, c) - {x} && x in In(l, live, c);
    } else {
      assert In(l, live - {x}, c) == In(l, live, c);
    }
  }

  lemma GivenValid(l: Layout, s: State, x: int)
    requires Fits(l) && Valid(l, s) && x in s.live
    ensures Base(l, x) in s.used && Base(l, x) in s.free && Valid(l, Given(l, s, x))
  {
    assert LiveOk(l, s, x);
    var s', b := Given(l, s, x), Base(l, x);
    assert SlabOk(l, s, b) && x !in s.free[b];
    WithoutMembers(s.partial, b);
    WithoutMembers(s.full, b);
    if s.used[b] == 1 {
      GivenLast(l, s, x);
    } else {
      Prepended(s.free[b], x);
      assert s.free[b] == [] ==> b !in s.partial;
      if s.free[b] == [] {
        Appended(s.partial, b);
      }
      forall c | c in s'.used ensures SlabOk(l, s', c) && s'.used[c] >= 1 {
        assert SlabOk(l, s, c);
        LessOne(l, s.live, x, c);
      }
      forall y | y in s'.live ensures LiveOk(l, s', y) {
        assert LiveOk(l, s, y);
      }
    }
  }

  /** The last node of a page goes, and the page with it. */
  lemma GivenLast(l: Layout, s: State, x: int)
    requires Fits(l) && Valid(l, s) && x in s.live && Base(l, x) in s.used && s.used[Base(l, x)] == 1
    ensures Base(l, x) in s.free && Valid(l, Given(l, s, x))
  {
    var s', b := Given(l, s, x), Base(l, x);
    assert SlabOk(l, s, b);
    WithoutMembers(s.partial, b);
    WithoutMembers(s.full, b);
    LessOne(l, s.live, x, b);
    forall c | c in s'.used ensures SlabOk(l, s', c) && s'.used[c] >= 1 {
      assert SlabOk(l, s, c);
      LessOne(l, s.live, x, c);
    }
    NoneLeft(l, s'.live, b);
    forall y | y in s'.live ensures LiveOk(l, s', y) {
      assert LiveOk(l, s, y);
    }
  }

  lemma NoneLeft(l: Layout, live: set<int>, b: int)
    requires Fits(l) && |In(l, live, b)| == 0
    ensures forall y {:trigger Base(l, y)} :: y in live ==> Base(l, y) != b
  {
    forall y | y in live ensures Base(l, y) != b {
      assert y !in In(l, live, b);
    }
  }

  /** The slab lists of struct fuse. */
  class Slabs {
    const layout: Layout
    var used: map<int, int>
    var free: map<int, seq<int>>
    var partial: seq<int>
    var full: seq<int>
    ghost var live: set<int>

    ghost function View(): State
      reads this
    {
      State(used, free, partial, full, live)
    }

    constructor (layout: Layout)
      requires Fits(layout)
      ensures this.layout == layout && Valid(layout, View()) && live == {}
    {
      this.layout := layout;
      used, free, partial, full, live := map[], map[], [], [], {};
    }

    /** alloc_slab(); mmap() may fail. */
    method AllocSlab() returns (ok: bool, ghost page: int)
      requires Fits(layout) && Valid(layout, View())
      modifies this
      ensures live == old(live)
      ensures !ok ==> View() == old(View())
      ensures ok ==> page % layout.page == 0 && page !in old(used) && View() == NewSlab(layout, old(View()), page)
    {
      var mem: int := *;
      page := mem;
      if mem % layout.page != 0 || mem in used {
        return false, page;
      }
      var num := (layout.page - layout.header) / layout.node;
      var start := mem + layout.page - num * layout.node;
      var list := [];
      for i := 0 to num
        invariant list == Slots(layout, mem, i)
      {
        list := list + [start + i * layout.node];
      }
      used, free, partial := used[mem := 0], free[mem := list], partial + [mem];
      return true, page;
    }

    /** alloc_node(): a node that was not in use, or no memory. */
    method AllocNode() returns (node: int, ok: bool)
      requires Fits(layout) && Valid(layout, View())
      modifies this
      ensures Valid(layout, View())
      ensures !ok ==> live == old(live)
      ensures ok ==> node !in old(live) && live == old(live) + {node}
    {
      hide Valid, Consistent, NewSlab, Slots;
      ghost var s := View();
      if partial == [] {
        ghost var page;
        ok, page := AllocSlab();
        if !ok {
          return 0, false;
        }
        NewSlabReady(layout, s, page);
      } else {
        ValidParts(layout, s);
      }
      ghost var t := View();
      TakenValid(layout, t);
      var slab := partial[0];
      used := used[slab := used[slab] + 1];
      node := free[slab][0];
      free := free[slab := free[slab][1..]];
      if free[slab] == [] {
        partial := Without(partial, slab);
        full := full + [slab];
      }
      live := live + {node};
      assert View() == Taken(layout, t);
      ok := true;
    }

    /** free_node_mem(). */
    method FreeNode(node: int)
      requires Fits(layout) && Valid(layout, View()) && node in live
      modifies this
      ensures Valid(layout, View()) && live == old(live) - {node}
    {
      hide Valid, Without;
      ghost var s := View();
      GivenValid(layout, s, node);
      var slab := node - node % layout.page;
      used := used[slab := used[slab] - 1];
      live := live - {node};
      if used[slab] != 0 {
        if free[slab] == [] {
          full := Without(full, slab);
          partial := partial + [slab];
        }
        free := free[slab := [node] + free[slab]];
      } else {
        partial, full := Without(partial, slab), Without(full, slab);
        assert used - {slab} == old(used) - {slab};
        used, free := used - {slab}, free - {slab};
      }
      assert View() == Given(layout, s, node);
    }
  }

  lemma ValidParts(l: Layout, s: State)
    requires Fits(l) && Valid(l, s)
    ensures Consistent(l, s) && forall b {:trigger s.used[b]} :: b in s.used ==> s.used[b] >= 1
  {
  }

  lemma NewSlabReady(l: Layout, s: State, page: int)
    requires Fits(l) && Valid(l, s) && page !in s.used && page % l.page == 0 && s.partial == []
    ensures var t := NewSlab(l, s, page);
      && Consistent(l, t) && t.partial == [page] && forall b {:trigger t.used[b]} :: b in t.used && b != page ==>
        t.used[b] >= 1
  {
    NewSlabConsistent(l, s, page);
    assert [] + [page] == [page];
  }
}
