/** The id and name tables of lib/fuse.c: hash tables that grow and shrink one bucket at a
    time (linear hashing). Both work alike and differ only in the hash function. A table is
    proved to be a map from keys to nodes, whatever splits, merges and failed allocations
    happen, and to keep its chains at most one element long on average. */
module LinearTable {
  import opened Basics

  /** NODE_TABLE_MIN_SIZE. */
  const MIN_SIZE: int := 8192

  /** The size is always the minimum times a power of two. */
  predicate TableSize(n: int) {
    n == MIN_SIZE || (n > MIN_SIZE && n % 2 == 0 && TableSize(n / 2))
  }

  /** The bucket of a hash value when the buckets below `split` have been split. */
  function Slot(h: int, size: int, split: int): int
    requires size >= 2
  {
    var hash := h % size;
    var oldhash := hash % (size / 2);
    if oldhash >= split then oldhash else hash
  }

  lemma MulAtLeast(a: int, m: int)
    requires a >= 1 && m > 0
    ensures a * m >= m
  {
  }

  lemma ModUnique(x: int, m: int, q: int, r: int)
    requires m > 0 && x == q * m + r && 0 <= r < m
    ensures x % m == r
  {
    var p, s := x / m, x % m;
    if q > p {
      MulAtLeast(q - p, m);
    } else if q < p {
      MulAtLeast(p - q, m);
    }
    assert (q - p) * m == q * m - p * m == s - r;
    assert (p - q) * m == p * m - q * m;
  }

  /** A hash value modulo twice the size of a table is its old value or lies half a table
      further up. */
  lemma ModHalf(h: int, half: int)
    requires half > 0
    ensures (h % (2 * half)) % half == h % half
    ensures h % (2 * half) == h % half || h % (2 * half) == h % half + half
    ensures 0 <= h % half < half
  {
    var q, r := h / (2 * half), h % (2 * half);
    assert h == (2 * half) * q + r;
    assert h == (2 * q) * half + r;
    if r < half {
      ModUnique(h, half, 2 * q, r);
      ModUnique(r, half, 0, r);
    } else {
      assert (2 * q + 1) * half == (2 * q) * half + half;
      ModUnique(h, half, 2 * q + 1, r - half);
      ModUnique(r, half, 1, r - half);
    }
  }

  /** Every hash value has a slot among the buckets in use. */
  lemma SlotRange(h: int, size: int, split: int)
    requires size >= 2 && size % 2 == 0 && 0 <= split <= size / 2
    ensures 0 <= Slot(h, size, split) < size / 2 + split
  {
    ModHalf(h, size / 2);
    assert 2 * (size / 2) == size;
  }

  /** Splitting one bucket moves only elements of that bucket, and only to its new half. */
  lemma SlotSplit(h: int, size: int, split: int)
    requires size >= 2 && size % 2 == 0 && 0 <= split < size / 2
    ensures var a, b := Slot(h, size, split), Slot(h, size, split + 1);
      if a == split then b == split || b == split + size / 2 else b == a
  {
    ModHalf(h, size / 2);
    assert 2 * (size / 2) == size;
  }

  /** Doubling the table, or halving it, moves nothing. */
  lemma SlotDouble(h: int, size: int)
    requires size >= 2 && size % 2 == 0
    ensures Slot(h, 2 * size, 0) == Slot(h, size, size / 2) == h % size
  {
    ModHalf(h, size);
    ModHalf(h, size / 2);
    assert (2 * size) / 2 == size && 2 * (size / 2) == size;
  }

  // ---- what the tables hold ----

  /** What the id table or the name table looks for. */
  datatype Key = ById(ino: int) | ByName(parent: int, name: string)

  /** A node in a chain, with the key that it is found by. */
  datatype Entry = Entry(key: Key, node: int)

  /** The arithmetic of id_hash() on 32 bits and of name_hash() on 64 bits. */
  function HashOf(k: Key): int {
    match k
    case ById(ino) => (ino % 0x1_0000_0000) * 2654435761 % 0x1_0000_0000
    case ByName(parent, name) => NameHash(parent, name)
  }

  function NameHash(parent: int, name: string): int {
    if name == "" then parent
    else (NameHash(parent, name[..|name| - 1]) * 31 + name[|name| - 1] as int) % 0x1_0000_0000_0000_0000
  }

  function Power31(n: nat): int {
    if n == 0 then 1 else 31 * Power31(n - 1)
  }

  /** A name as a number in base 31, the first character first. */
  function Base31(name: string): int {
    if name == "" then 0 else name[0] as int * Power31(|name| - 1) + Base31(name[1..])
  }

  lemma {:induction false} Base31Append(name: string, c: char)
    ensures Base31(name + [c]) == 31 * Base31(name) + c as int
    decreases |name|
  {
    if name == "" {
      assert Base31([c]) == c as int * Power31(0) + Base31([c][1..]);
    } else {
      assert (name + [c])[1..] == name[1..] + [c];
      Base31Append(name[1..], c);
      var a, p := name[0] as int, Power31(|name| - 1);
      assert a * (31 * p) == 31 * (a * p);
    }
  }

  lemma ModStep(a: int, b: int, c: int, m: int)
    requires m > 0 && a == b % m
    ensures (a * 31 + c) % m == (b * 31 + c) % m
  {
    var q := b / m;
    assert b * 31 + c == (31 * q) * m + (a * 31 + c);
    ModAdd(a * 31 + c, 31 * q, m);
  }

  lemma ModAdd(x: int, k: int, m: int)
    requires m > 0
    ensures (k * m + x) % m == x % m
  {
    ModUnique(k * m + x, m, k + x / m, x % m);
  }

  /** The hash of a name is a polynomial in 31 of all its characters and the parent's number,
      modulo 2^64. */
  lemma {:induction false} NameHashIs(parent: int, name: string)
    requires 0 <= parent < 0x1_0000_0000_0000_0000
    ensures NameHash(parent, name) == (parent * Power31(|name|) + Base31(name)) % 0x1_0000_0000_0000_0000
    decreases |name|
  {
    if name != "" {
      var front, c, p := name[..|name| - 1], name[|name| - 1], Power31(|name| - 1);
      NameHashIs(parent, front);
      assert name == front + [c];
      Base31Append(front, c);
      ModStep(NameHash(parent, front), parent * p + Base31(front), c as int, 0x1_0000_0000_0000_0000);
      assert parent * (31 * p) == 31 * (parent * p);
    }
  }

  /** The loop of name_hash(). */
  method ComputeNameHash(parent: int, name: string) returns (hash: int)
    ensures hash == NameHash(parent, name)
  {
    hash := parent;
    for i := 0 to |name|
      invariant hash == NameHash(parent, name[..i])
    {
      hash := (hash * 31 + name[i] as int) % 0x1_0000_0000_0000_0000;
      assert name[..i + 1][..i] == name[..i];
    }
    assert name[..|name|] == name;
  }

  function SlotOf(e: Entry, size: int, split: int): int
    requires size >= 2
  {
    Slot(HashOf(e.key), size, split)
  }

  /** A chain holds exactly the elements that belong into bucket `i`, each once. */
  ghost predicate ChainOk(chain: seq<Entry>, elems: set<Entry>, size: int, split: int, i: int)
    requires size >= 2
  {
    NoRepeats(chain) && forall k {:trigger k in chain} :: k in chain <==> k in elems && SlotOf(k, size, split) == i
  }

  ghost predicate Placed(bs: seq<seq<Entry>>, elems: set<Entry>, size: int, split: int)
    requires size >= 2
  {
    size <= |bs| && forall i {:trigger bs[i]} :: 0 <= i < size ==> ChainOk(bs[i], elems, size, split, i)
  }

  predicate Shape(size: int, split: int) {
    TableSize(size) && size >= MIN_SIZE && size % 2 == 0 && 0 <= split <= size / 2
  }

  // ---- splitting a bucket ----

  /** The elements of bucket `split` that stay when it is split, and those that move, in the
      order in which rehash_id() leaves them. */
  function Stay(chain: seq<Entry>, size: int, split: int): seq<Entry>
    requires size >= 2
  {
    if chain == [] then []
    else
      var rest, e := Stay(chain[..|chain| - 1], size, split), chain[|chain| - 1];
      if SlotOf(e, size, split + 1) == split then rest + [e] else rest
  }

  function Move(chain: seq<Entry>, size: int, split: int): seq<Entry>
    requires size >= 2
  {
    if chain == [] then []
    else
      var rest, e := Move(chain[..|chain| - 1], size, split), chain[|chain| - 1];
      if SlotOf(e, size, split + 1) == split then rest else [e] + rest
  }

  ghost predicate Members(s: seq<Entry>, chain: seq<Entry>, size: int, split: int, stay: bool)
    requires size >= 2
  {
    NoRepeats(s) && forall k {:trigger k in s} :: k in s <==>
      k in chain && (SlotOf(k, size, split + 1) == split) == stay
  }

  lemma {:induction false} StayMoveMembers(chain: seq<Entry>, size: int, split: int)
    requires size >= 2 && NoRepeats(chain)
    ensures Members(Stay(chain, size, split), chain, size, split, true)
    ensures Members(Move(chain, size, split), chain, size, split, false)
    decreases |chain|
  {
    if chain != [] {
      var rest, e := chain[..|chain| - 1], chain[|chain| - 1];
      StayMoveMembers(rest, size, split);
      assert chain == rest + [e];
      LastIsNew(chain);
      var stay, move := Stay(rest, size, split), Move(rest, size, split);
      assert e !in stay && e !in move;
      Appended(stay, e);
      Prepended(move, e);
      Appended(rest, e);
      hide NoRepeats, SlotOf;
    }
  }

  lemma LastIsNew(chain: seq<Entry>)
    requires chain != [] && NoRepeats(chain)
    ensures chain[|chain| - 1] !in chain[..|chain| - 1] && NoRepeats(chain[..|chain| - 1])
  {
  }

  lemma SplitPlaced(bs: seq<seq<Entry>>, elems: set<Entry>, size: int, split: int)
    requires Shape(size, split) && split < size / 2 && Placed(bs, elems, size, split)
    ensures var chain := bs[split];
      && bs[split + size / 2] == []
      && Placed(bs[split := Stay(chain, size, split)][split + size / 2 := Move(chain, size, split)],
        elems, size, split + 1)
  {
    var chain, u := bs[split], split + size / 2;
    var bs' := bs[split := Stay(chain, size, split)][u := Move(chain, size, split)];
    UpperEmpty(bs, elems, size, split, u);
    assert ChainOk(chain, elems, size, split, split);
    StayMoveMembers(chain, size, split);
    forall i | 0 <= i < size ensures ChainOk(bs'[i], elems, size, split + 1, i) {
      assert ChainOk(bs[i], elems, size, split, i);
      forall k ensures k in bs'[i] <==> k in elems && SlotOf(k, size, split + 1) == i {
        SlotSplit(HashOf(k.key), size, split);
      }
    }
  }

  /** The buckets above those in use are empty. */
  lemma UpperEmpty(bs: seq<seq<Entry>>, elems: set<Entry>, size: int, split: int, i: int)
    requires Shape(size, split) && Placed(bs, elems, size, split) && size / 2 + split <= i < size
    ensures bs[i] == []
  {
    assert ChainOk(bs[i], elems, size, split, i);
    if bs[i] != [] {
      var k := bs[i][0];
      assert k in bs[i];
      SlotRange(HashOf(k.key), size, split);
    }
  }

  lemma InSplitBucket(bs: seq<seq<Entry>>, elems: set<Entry>, size: int, split: int, p: int)
    requires Shape(size, split) && split < size / 2 && Placed(bs, elems, size, split) && 0 <= p < |bs[split]|
    ensures var b := SlotOf(bs[split][p], size, split + 1); b == split || b == split + size / 2
  {
    var k := bs[split][p];
    assert k in bs[split] && ChainOk(bs[split], elems, size, split, split);
    SlotSplit(HashOf(k.key), size, split);
  }

  lemma OneMore(chain: seq<Entry>, size: int, split: int, p: int)
    requires size >= 2 && 0 <= p < |chain|
    ensures var e := chain[p]; var stays := SlotOf(e, size, split + 1) == split;
      && Stay(chain[..p + 1], size, split) == Stay(chain[..p], size, split) + (if stays then [e] else [])
      && Move(chain[..p + 1], size, split) == (if stays then [] else [e]) + Move(chain[..p], size, split)
  {
    assert chain[..p + 1][..p] == chain[..p];
  }

  /** The buckets when the first `p` elements of the chain have been dealt with. */
  ghost function Halfway(bs: seq<seq<Entry>>, size: int, h: int, p: int): seq<seq<Entry>>
    requires size >= 2 && 0 <= h < h + size / 2 < |bs| && 0 <= p <= |bs[h]|
  {
    var chain := bs[h];
    bs[h := Stay(chain[..p], size, h) + chain[p..]][h + size / 2 := Move(chain[..p], size, h)]
  }

  lemma HalfwayEnds(bs: seq<seq<Entry>>, elems: set<Entry>, size: int, h: int)
    requires Shape(size, h) && h < size / 2 && Placed(bs, elems, size, h)
    ensures Halfway(bs, size, h, 0) == bs && |Stay(bs[h][..0], size, h)| == 0
    ensures Placed(Halfway(bs, size, h, |bs[h]|), elems, size, h + 1)
  {
    SplitPlaced(bs, elems, size, h);
    var chain := bs[h];
    assert chain[..|chain|] == chain && Stay(chain, size, h) + chain[|chain|..] == Stay(chain, size, h);
    assert chain[..0] == [] && [] + chain[0..] == chain;
  }

  lemma HalfwayStep(bs: seq<seq<Entry>>, elems: set<Entry>, size: int, h: int, p: int)
    requires Shape(size, h) && h < size / 2 && Placed(bs, elems, size, h) && 0 <= p < |bs[h]|
    ensures var u, e, cs, ds := h + size / 2, bs[h][p], Halfway(bs, size, h, p), Halfway(bs, size, h, p + 1);
      var i, b := |Stay(bs[h][..p], size, h)|, SlotOf(e, size, h + 1);
      && u < |cs| && i < |cs[h]| && cs[h][i] == e && (b == h || b == u)
      && (b == h ==> ds == cs && |Stay(bs[h][..p + 1], size, h)| == i + 1)
      && (b == u ==>
        ds == cs[h := cs[h][..i] + cs[h][i + 1..]][u := [e] + cs[u]] && |Stay(bs[h][..p + 1], size, h)| == i)
  {
    hide SlotOf, Stay, Move, TableSize;
    var chain := bs[h];
    InSplitBucket(bs, elems, size, h, p);
    OneMore(chain, size, h, p);
    var stay := Stay(chain[..p], size, h);
    assert chain[p..] == [chain[p]] + chain[p + 1..];
    assert (stay + chain[p..])[..|stay|] == stay;
    assert (stay + chain[p..])[|stay| + 1..] == chain[p + 1..];
    assert (stay + [chain[p]]) + chain[p + 1..] == stay + chain[p..];
    assert stay + [] == stay;
    assert [] + Move(chain[..p], size, h) == Move(chain[..p], size, h);
  }

  // ---- the other changes ----

  lemma InsertPlaced(bs: seq<seq<Entry>>, elems: set<Entry>, size: int, split: int, k: Entry)
    requires Shape(size, split) && Placed(bs, elems, size, split) && k !in elems
    ensures var b := SlotOf(k, size, split);
      0 <= b < size && Placed(bs[b := [k] + bs[b]], elems + {k}, size, split)
  {
    SlotRange(HashOf(k.key), size, split);
    var b := SlotOf(k, size, split);
    var bs' := bs[b := [k] + bs[b]];
    forall i | 0 <= i < size ensures ChainOk(bs'[i], elems + {k}, size, split, i) {
      assert ChainOk(bs[i], elems, size, split, i);
      if i == b {
        Prepended(bs[b], k);
      }
    }
  }

  lemma CutOut(s: seq<Entry>, i: int)
    requires 0 <= i < |s| && NoRepeats(s)
    ensures var r := s[..i] + s[i + 1..];
      NoRepeats(r) && forall k {:trigger k in r} :: k in r <==> k in s && k != s[i]
  {
    var r := s[..i] + s[i + 1..];
    forall k | k in s && k != s[i] ensures k in r {
      var j :| 0 <= j < |s| && s[j] == k;
      assert if j < i then r[j] == k else r[j - 1] == k;
    }
  }

  lemma RemovePlaced(bs: seq<seq<Entry>>, elems: set<Entry>, size: int, split: int, b: int, j: int)
    requires Shape(size, split) && Placed(bs, elems, size, split) && 0 <= b < size && 0 <= j < |bs[b]|
    ensures bs[b][j] in elems && Placed(bs[b := bs[b][..j] + bs[b][j + 1..]], elems - {bs[b][j]}, size, split)
  {
    var k := bs[b][j];
    assert k in bs[b] && ChainOk(bs[b], elems, size, split, b);
    var bs' := bs[b := bs[b][..j] + bs[b][j + 1..]];
    forall i | 0 <= i < size ensures ChainOk(bs'[i], elems - {k}, size, split, i) {
      assert ChainOk(bs[i], elems, size, split, i);
      if i == b {
        CutOut(bs[b], j);
      }
    }
  }

  lemma DoublePlaced(bs: seq<seq<Entry>>, bs': seq<seq<Entry>>, elems: set<Entry>, size: int)
    requires Shape(size, size / 2) && Placed(bs, elems, size, size / 2)
    requires |bs'| == 2 * size && forall i {:trigger bs'[i]} :: 0 <= i < 2 * size ==>
      bs'[i] == if i < size then bs[i] else []
    ensures Shape(2 * size, 0) && Placed(bs', elems, 2 * size, 0)
  {
    assert TableSize(2 * size) by {
      assert 2 * size / 2 == size;
    }
    forall i | 0 <= i < 2 * size ensures ChainOk(bs'[i], elems, 2 * size, 0, i) {
      assert i < size ==> ChainOk(bs[i], elems, size, size / 2, i);
      forall k ensures k in bs'[i] <==> k in elems && SlotOf(k, 2 * size, 0) == i {
        SlotDouble(HashOf(k.key), size);
        ModHalf(HashOf(k.key), size);
      }
    }
  }

  lemma HalvePlaced(bs: seq<seq<Entry>>, elems: set<Entry>, size: int)
    requires Shape(size, 0) && Placed(bs, elems, size, 0) && size / 2 >= MIN_SIZE
    ensures Shape(size / 2, size / 4) && Placed(bs, elems, size / 2, size / 4)
  {
    var half := size / 2;
    EvenSize(half);
    assert 2 * half == size && size / 4 == half / 2;
    forall i | 0 <= i < half ensures ChainOk(bs[i], elems, half, half / 2, i) {
      assert ChainOk(bs[i], elems, size, 0, i);
      forall k ensures k in bs[i] <==> k in elems && SlotOf(k, half, half / 2) == i {
        SlotDouble(HashOf(k.key), half);
      }
    }
  }

  lemma SmallestSize(n: int)
    requires TableSize(n) && n / 2 < MIN_SIZE
    ensures n == MIN_SIZE
  {
  }

  lemma EvenSize(n: int)
    requires TableSize(n)
    ensures n % 2 == 0 && n >= MIN_SIZE
  {
  }

  lemma JoinOk(s: seq<Entry>, t: seq<Entry>)
    requires NoRepeats(s) && NoRepeats(t) && forall k {:trigger k in s} :: k in s ==> k !in t
    ensures NoRepeats(s + t)
  {
    var r := s + t;
    forall i, j | 0 <= i < j < |r| ensures r[i] != r[j] {
      if i < |s| <= j {
        assert s[i] in s && t[j - |s|] in t;
      }
    }
  }

  /** Merging the last split bucket with its upper half undoes the split. */
  lemma MergePlaced(bs: seq<seq<Entry>>, elems: set<Entry>, size: int, split: int)
    requires Shape(size, split) && split > 0 && Placed(bs, elems, size, split)
    ensures var lo, hi := split - 1, split - 1 + size / 2;
      Placed(bs[lo := bs[lo] + bs[hi]][hi := []], elems, size, split - 1)
  {
    var lo, hi := split - 1, split - 1 + size / 2;
    var bs' := bs[lo := bs[lo] + bs[hi]][hi := []];
    assert ChainOk(bs[lo], elems, size, split, lo) && ChainOk(bs[hi], elems, size, split, hi);
    JoinOk(bs[lo], bs[hi]);
    forall i | 0 <= i < size ensures ChainOk(bs'[i], elems, size, split - 1, i) {
      assert ChainOk(bs[i], elems, size, split, i);
      forall k ensures k in bs'[i] <==> k in elems && SlotOf(k, size, split - 1) == i {
        SlotSplit(HashOf(k.key), size, split - 1);
        SlotRange(HashOf(k.key), size, split - 1);
      }
    }
  }

  /** The elements are the pairs of the map. */
  ghost predicate Holds(elems: set<Entry>, nodes: map<Key, int>) {
    forall e {:trigger e in elems} :: e in elems <==> e.key in nodes && nodes[e.key] == e.node
  }

  lemma HoldsMore(elems: set<Entry>, nodes: map<Key, int>, e: Entry)
    requires Holds(elems, nodes) && e.key !in nodes
    ensures e !in elems && Holds(elems + {e}, nodes[e.key := e.node]) && |nodes[e.key := e.node]| == |nodes| + 1
  {
    assert nodes[e.key := e.node].Keys == nodes.Keys + {e.key};
  }

  lemma HoldsLess(elems: set<Entry>, nodes: map<Key, int>, e: Entry)
    requires Holds(elems, nodes) && e in elems
    ensures Holds(elems - {e}, nodes - {e.key}) && |nodes - {e.key}| == |nodes| - 1
  {
    assert (nodes - {e.key}).Keys == nodes.Keys - {e.key};
  }

  /** A key is in the map iff it is in the chain of its bucket, with its node. */
  lemma InChain(bs: seq<seq<Entry>>, elems: set<Entry>, nodes: map<Key, int>, size: int, split: int, k: Key)
    requires Shape(size, split) && Placed(bs, elems, size, split) && Holds(elems, nodes)
    ensures
      var b := Slot(HashOf(k), size, split);
      && 0 <= b < size && (k in nodes ==> Entry(k, nodes[k]) in bs[b])
      && forall j {:trigger bs[b][j]} :: 0 <= j < |bs[b]| && bs[b][j].key == k ==>
        k in nodes && bs[b][j].node == nodes[k]
  {
    SlotRange(HashOf(k), size, split);
    var b := Slot(HashOf(k), size, split);
    assert ChainOk(bs[b], elems, size, split, b);
    if k in nodes {
      assert Entry(k, nodes[k]) in elems;
    }
    forall j | 0 <= j < |bs[b]| && bs[b][j].key == k ensures k in nodes && bs[b][j].node == nodes[k] {
      assert bs[b][j] in bs[b];
      assert bs[b][j] in elems;
    }
  }

  /** From `u` buckets to `v`: one to eight fewer, unless there are only half the minimum. */
  predicate Shrunk(u: int, v: int) {
    if u == MIN_SIZE / 2 then v == u else u - 8 <= v < u
  }

  /** `struct node_table`. */
  class Table {
    var buckets: array<seq<Entry>>
    var size: int
    var split: int
    var use: int
    ghost var elems: set<Entry>
    /** What the table stands for. */
    ghost var nodes: map<Key, int>

    /** All buckets are split: the table was to be doubled, and there was no memory. */
    ghost predicate Starved()
      reads this
    {
      split == size / 2
    }

    /** How many buckets are in use. */
    ghost function Used(): int
      reads this
    {
      size / 2 + split
    }

    /** Everything but the bound on the load. */
    ghost predicate Consistent()
      reads this, buckets
    {
      && Shape(size, split) && size <= buckets.Length && Placed(buckets[..], elems, size, split)
      && use == |nodes| && Holds(elems, nodes)
    }

    /** Unless memory ran out, there are at least as many buckets in use as elements. */
    ghost predicate Valid()
      reads this, buckets
    {
      Consistent() && (Starved() || use <= size / 2 + split)
    }

    /** node_table_init(). */
    constructor ()
      ensures Valid() && nodes == map[] && !Starved() && fresh(buckets)
    {
      buckets := new seq<Entry>[MIN_SIZE](i => []);
      size, split, use := MIN_SIZE, 0, 0;
      elems, nodes := {}, map[];
    }

    /** get_node_nocheck() and lookup_node(): walk the chain of one bucket. */
    method Find(k: Key) returns (node: Option<int>)
      requires Valid()
      ensures node == if k in nodes then Some(nodes[k]) else None
    {
      InChain(buckets[..], elems, nodes, size, split, k);
      hide Placed, TableSize, Holds;
      var b := Slot(HashOf(k), size, split);
      var chain, j := buckets[b], 0;
      assert chain == buckets[..][b];
      while j < |chain|
        invariant 0 <= j <= |chain| && forall i {:trigger chain[i]} :: 0 <= i < j ==> chain[i].key != k
      {
        if chain[j].key == k {
          return Some(chain[j].node);
        }
        j := j + 1;
      }
      return None;
    }

    /** hash_id() and hash_name(). */
    method Insert(k: Key, node: int)
      requires Valid() && k !in nodes
      modifies this, buckets
      ensures Valid() && nodes == old(nodes)[k := node] && (buckets == old(buckets) || fresh(buckets))
      ensures old(Starved()) ==> size == old(size) && split == old(split)
      ensures !old(Starved()) && Starved() ==> size == old(size) && split == old(split) + 1
      ensures Used() == old(Used()) + if use >= old(size) / 2 && !old(Starved()) then 1 else 0
    {
      var e := Entry(k, node);
      HoldsMore(elems, nodes, e);
      InsertPlaced(buckets[..], elems, size, split, e);
      hide Placed, SlotOf, TableSize, Holds;
      var b := SlotOf(e, size, split);
      ghost var bs := buckets[..];
      buckets[b] := [e] + buckets[b];
      assert buckets[..] == bs[b := [e] + bs[b]];
      elems, nodes := elems + {e}, nodes[k := node];
      use := use + 1;
      if use >= size / 2 {
        var tried := Rehash();
      }
    }

    /** rehash_id() and rehash_name(): split one more bucket; when all are split doubling is
        tried. Once that has failed it is not tried again before a merge, which leaves a bucket
        to be split. */
    method Rehash() returns (tried: bool)
      requires Consistent() && (Starved() || use <= size / 2 + split + 1)
      modifies this, buckets
      ensures Valid() && elems == old(elems) && nodes == old(nodes) && (buckets == old(buckets) || fresh(buckets))
      ensures tried <==> old(split) + 1 == old(size) / 2
      ensures old(Starved()) ==> size == old(size) && split == old(split) && buckets == old(buckets)
      ensures !old(Starved()) && !tried ==> size == old(size) && split == old(split) + 1
      ensures tried ==> if Starved() then size == old(size) else size == 2 * old(size) && split == 0
    {
      hide Placed, TableSize;
      tried := false;
      if split == size / 2 {
        return;
      }
      SplitBucket();
      if split == size / 2 {
        tried := true;
        Resize();
      }
    }

    method SplitBucket()
      requires Consistent() && split < size / 2
      modifies this`split, buckets
      ensures Consistent() && split == old(split) + 1
    {
      hide TableSize, Placed, SlotOf, Halfway, Stay, Move;
      var h := split;
      ghost var bs, p := buckets[..], 0;
      HalfwayEnds(bs, elems, size, h);
      split := split + 1;
      var i := 0;
      while i < |buckets[h]|
        invariant split == h + 1 && 0 <= p <= |bs[h]| && i == |Stay(bs[h][..p], size, h)|
        invariant buckets[..] == Halfway(bs, size, h, p) && |buckets[h]| == i + |bs[h]| - p
        decreases |bs[h]| - p
      {
        HalfwayStep(bs, elems, size, h, p);
        var node := buckets[h][i];
        var newhash := SlotOf(node, size, split);
        if newhash != h {
          buckets[h] := buckets[h][..i] + buckets[h][i + 1..];
          buckets[newhash] := [node] + buckets[newhash];
        } else {
          i := i + 1;
        }
        p := p + 1;
      }
    }

    /** node_table_resize(); it may fail, and then nothing changes. */
    method Resize()
      requires Consistent() && Starved() && use <= size
      modifies this
      ensures Valid() && elems == old(elems) && nodes == old(nodes) && (buckets == old(buckets) || fresh(buckets))
      ensures if Starved() then size == old(size) else size == 2 * old(size) && split == 0
    {
      hide TableSize, Placed;
      var enough: bool := *;
      if !enough {
        return;
      }
      var larger := new seq<Entry>[2 * size](i => []);
      var bs := buckets[..];
      for i := 0 to size
        modifies larger
        invariant forall j {:trigger larger[j]} :: 0 <= j < 2 * size ==> larger[j] == if j < i then bs[j] else []
      {
        larger[i] := buckets[i];
      }
      DoublePlaced(bs, larger[..], elems, size);
      buckets := larger;
      size, split := 2 * size, 0;
    }

    /** Where in a chain an element is; the length of the chain if it is not there. */
    static method Position(chain: seq<Entry>, e: Entry) returns (j: int)
      ensures 0 <= j <= |chain| && (j < |chain| <==> e in chain) && (j < |chain| ==> chain[j] == e)
    {
      j := 0;
      while j < |chain|
        invariant 0 <= j <= |chain| && e !in chain[..j]
      {
        if chain[j] == e {
          return;
        }
        j := j + 1;
      }
    }

    /** unhash_id() and the table part of unhash_name(): the node itself is looked for. */
    method Remove(k: Key, node: int) returns (found: bool)
      requires Valid()
      modifies this, buckets
      ensures Valid() && buckets == old(buckets)
      ensures if found && use < old(size) / 4 then !Starved() && Shrunk(old(Used()), Used())
              else size == old(size) && split == old(split)
      ensures found <==> k in old(nodes) && old(nodes)[k] == node
      ensures nodes == if found then old(nodes) - {k} else old(nodes)
    {
      var e := Entry(k, node);
      SlotRange(HashOf(k), size, split);
      var b := SlotOf(e, size, split);
      var j := Position(buckets[b], e);
      ghost var bs := buckets[..];
      assert ChainOk(bs[b], elems, size, split, b);
      found := j < |buckets[b]|;
      assert found <==> e in elems;
      if found {
        HoldsLess(elems, nodes, e);
        RemovePlaced(bs, elems, size, split, b, j);
        hide Placed, TableSize, Holds;
        buckets[b] := buckets[b][..j] + buckets[b][j + 1..];
        assert buckets[..] == bs[b := bs[b][..j] + bs[b][j + 1..]];
        elems, nodes := elems - {e}, nodes - {k};
        use := use - 1;
        if use < size / 4 {
          Remerge();
        }
      }
    }

    /** node_table_reduce(): the array may stay larger than the table. */
    method Reduce()
      requires Consistent() && split == 0
      modifies this`size, this`split
      ensures Consistent() && if old(size) == MIN_SIZE then size == old(size) && split == 0
                              else size == old(size) / 2 && split == size / 2
    {
      hide TableSize, Placed;
      var newsize := size / 2;
      if newsize < MIN_SIZE {
        SmallestSize(size);
        return;
      }
      HalvePlaced(buckets[..], elems, size);
      size := newsize;
      split := size / 2;
    }

    /** One turn of the loop below: the last bucket in use joins the one it was split from. */
    method MergeBucket() returns (moved: bool)
      requires Consistent() && split > 0
      modifies this`split, buckets
      ensures Consistent() && split == old(split) - 1
      ensures moved <==> old(buckets[split - 1 + size / 2]) != []
      ensures !moved ==> buckets[..] == old(buckets[..])
    {
      hide TableSize, Placed;
      ghost var bs := buckets[..];
      MergePlaced(bs, elems, size, split);
      split := split - 1;
      var upper := split + size / 2;
      moved := buckets[upper] != [];
      if moved {
        buckets[split] := buckets[split] + buckets[upper];
        buckets[upper] := [];
      } else {
        assert bs[split] + [] == bs[split];
      }
      assert buckets[..] == bs[split := bs[split] + bs[upper]][upper := []];
    }

    /** remerge_id() and remerge_name(): undo one to eight splits, as long as the table is not at
        its minimum; the last one undone is the first that has elements to move. */
    method Remerge()
      requires Consistent() && use < size / 4
      modifies this`size, this`split, buckets
      ensures Consistent() && use <= size / 2 + split && !Starved()
      ensures elems == old(elems) && nodes == old(nodes) && use == old(use)
      ensures Shrunk(old(Used()), Used())
      ensures forall j :: Used() < j < old(Used()) ==> old(buckets[..])[j] == []
      ensures old(Used()) - 8 < Used() < old(Used()) && split > 0 ==> old(buckets[..])[Used()] != []
    {
      hide TableSize, Placed, Holds;
      ghost var was, used := buckets[..], Used();
      if split == 0 {
        Reduce();
      }
      var iter, moved := 8, false;
      while split > 0 && iter > 0 && !moved
        invariant Consistent() && use <= size / 2
        invariant if iter == 8 then !moved && (split == 0 ==> size == MIN_SIZE) else split < size / 2
        invariant 0 <= iter <= 8 && Used() == used - (8 - iter)
        invariant !moved ==> buckets[..] == was
        invariant forall j {:trigger was[j]} :: Used() < j < used ==> was[j] == []
        invariant iter < 8 ==> (moved <==> was[Used()] != [])
        decreases iter
      {
        moved := MergeBucket();
        iter := iter - 1;
      }
    }
  }
}
