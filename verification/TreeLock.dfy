/** The `treelock` integer of lib/fuse.c and the path locks it encodes.

    A path lock read-locks every node from some directory up to, but not including, the
    root and may write-lock one child of that directory. Nothing in the C state records
    who holds what; `Holds` does so here, and `Faithful` says how the integers must look. */
module TreeLock {
  import opened Basics
  import opened NodeTree

  /** TREELOCK_WRITE and TREELOCK_WAIT_OFFSET (INT_MIN). */
  const WRITE: int := -1
  const WAIT: int := -0x8000_0000

  /** With this many readers INT_MIN + readers is still below TREELOCK_WRITE. */
  const MAX_HOLDS: nat := 0x7fff_fffe

  type Ticket = int

  /** One of the two paths of the call that `ticket` stands for. */
  datatype Key = Key(ticket: Ticket, second: bool)

  /** A granted path: the directory, the nodes that were read-locked at the grant (from the
      directory upward, without the root) and the write-locked child. */
  datatype Hold = Hold(nodeid: Id, chain: seq<Id>, wnode: Option<Id>)

  type Holds = map<Key, Hold>

  type Locks = map<Id, int>

  /** `h` reads `n`, or writes it. */
  ghost predicate Uses(h: Hold, n: Id, write: bool) {
    if write then h.wnode == Some(n) else n in h.chain
  }

  ghost function Pick(holds: Holds): (k: Key)
    requires holds != map[]
    ensures k in holds
  {
    var k :| k in holds;
    k
  }

  /** The number of readers, or writers, of a node. */
  ghost function Users(holds: Holds, n: Id, write: bool): (r: int)
    ensures 0 <= r <= |holds|
    decreases |holds|
  {
    if holds == map[] then 0
    else
      var k := Pick(holds);
      assert |holds - {k}| == |holds| - 1 by { Smaller(holds, k); }
      Users(holds - {k}, n, write) + if Uses(holds[k], n, write) then 1 else 0
  }

  lemma Smaller(holds: Holds, k: Key)
    requires k in holds
    ensures |holds - {k}| == |holds| - 1
  {
    assert (holds - {k}).Keys == holds.Keys - {k};
    assert |holds| == |holds.Keys| && |holds - {k}| == |(holds - {k}).Keys|;
  }

  /** `v` stands for `r` readers and `w` writers: free, r readers, r readers with a writer
      waiting, or one writer. */
  predicate Encodes(v: int, r: int, w: int) {
    if w == 0 then v == r || (r > 0 && v == WAIT + r) else w == 1 && r == 0 && v == WRITE
  }

  ghost predicate FaithfulAt(tl: Locks, holds: Holds, n: Id)
    requires n in tl
  {
    Encodes(tl[n], Users(holds, n, false), Users(holds, n, true))
  }

  ghost predicate Faithful(tl: Locks, holds: Holds) {
    && |holds| <= MAX_HOLDS
    && forall n {:trigger FaithfulAt(tl, holds, n)} :: n in tl ==> FaithfulAt(tl, holds, n)
  }

  // ---- the integer updates of try_get_path() and unlock_path() ----

  ghost function LockPath(tl: Locks, chain: seq<Id>, w: Option<Id>): (r: Locks)
    ensures r.Keys == tl.Keys
  {
    map n | n in tl :: if n in chain then tl[n] + 1 else if w == Some(n) then WRITE else tl[n]
  }

  function Released(v: int): int {
    if v - 1 == WAIT then 0 else v - 1
  }

  ghost function UnlockPath(tl: Locks, chain: seq<Id>, w: Option<Id>): (r: Locks)
    ensures r.Keys == tl.Keys
  {
    map n | n in tl :: if n in chain then Released(tl[n]) else if w == Some(n) then 0 else tl[n]
  }

  /** What a failed attempt to write-lock `n` leaves behind. */
  ghost function Marked(tl: Locks, n: Id): (r: Locks)
    ensures r.Keys == tl.Keys
  {
    if n in tl && tl[n] > 0 then tl[n := tl[n] + WAIT] else tl
  }

  // ---- counting ----

  lemma {:induction false} UsersSplit(holds: Holds, k: Key, n: Id, write: bool)
    requires k in holds
    ensures Users(holds, n, write) == Users(holds - {k}, n, write) + if Uses(holds[k], n, write) then 1 else 0
    decreases |holds|
  {
    var j := Pick(holds);
    if j != k {
      Smaller(holds, j);
      Smaller(holds, k);
      UsersSplit(holds - {j}, k, n, write);
      UsersSplit(holds - {k}, j, n, write);
      RemovalsCommute(holds, j, k);
    }
  }

  lemma RemovalsCommute(holds: Holds, j: Key, k: Key)
    ensures holds - {j} - {k} == holds - {k} - {j}
  {
  }

  lemma UsersAdded(holds: Holds, k: Key, h: Hold, n: Id, write: bool)
    requires k !in holds
    ensures Users(holds[k := h], n, write) == Users(holds, n, write) + if Uses(h, n, write) then 1 else 0
  {
    UsersSplit(holds[k := h], k, n, write);
    assert holds[k := h] - {k} == holds;
  }

  lemma {:induction false} NoUsers(holds: Holds, n: Id, write: bool)
    ensures Users(holds, n, write) == 0 <==> forall k {:trigger holds[k]} :: k in holds ==> !Uses(holds[k], n, write)
  {
    if k :| k in holds && Uses(holds[k], n, write) {
      UsersSplit(holds, k, n, write);
    } else {
      Unused(holds, n, write);
    }
  }

  lemma {:induction false} Unused(holds: Holds, n: Id, write: bool)
    requires forall k {:trigger holds[k]} :: k in holds ==> !Uses(holds[k], n, write)
    ensures Users(holds, n, write) == 0
    decreases |holds|
  {
    if holds != map[] {
      var k :| k in holds;
      Smaller(holds, k);
      UsersSplit(holds, k, n, write);
      Unused(holds - {k}, n, write);
    }
  }

  // ---- the encoding is exact under every lock operation ----

  /** A node the encoding shows as free of writers and unmarked can take one more reader. */
  lemma LockFaithful(tl: Locks, holds: Holds, k: Key, h: Hold)
    requires Faithful(tl, holds) && k !in holds && |holds| < MAX_HOLDS
    requires forall n :: n in h.chain ==> n in tl && tl[n] >= 0
    requires h.wnode.Some? ==> h.wnode.value in tl && tl[h.wnode.value] == 0 && h.wnode.value !in h.chain
    ensures Faithful(LockPath(tl, h.chain, h.wnode), holds[k := h])
  {
    var holds', tl' := holds[k := h], LockPath(tl, h.chain, h.wnode);
    Smaller(holds', k);
    assert holds' - {k} == holds;
    forall n | n in tl' ensures FaithfulAt(tl', holds', n) {
      assert FaithfulAt(tl, holds, n);
      UsersAdded(holds, k, h, n, false);
      UsersAdded(holds, k, h, n, true);
    }
  }

  /** The three asserts of unlock_path() hold for every node of a held chain, and the one on
      the write-locked child. */
  lemma HeldEncoding(tl: Locks, holds: Holds, k: Key, n: Id)
    requires Faithful(tl, holds) && k in holds && n in tl
    ensures n in holds[k].chain ==> tl[n] != 0 && tl[n] != WAIT && tl[n] != WRITE && holds[k].wnode != Some(n)
    ensures n in holds[k].chain ==> Users(holds, n, false) > 0 && Users(holds, n, true) == 0
    ensures holds[k].wnode == Some(n) ==> tl[n] == WRITE && Users(holds, n, false) == 0 && Users(holds, n, true) == 1
  {
    assert FaithfulAt(tl, holds, n);
    UsersSplit(holds, k, n, false);
    UsersSplit(holds, k, n, true);
  }

  lemma UnlockFaithful(tl: Locks, holds: Holds, k: Key)
    requires Faithful(tl, holds) && k in holds
    ensures Faithful(UnlockPath(tl, holds[k].chain, holds[k].wnode), holds - {k})
  {
    var h, holds' := holds[k], holds - {k};
    var tl' := UnlockPath(tl, h.chain, h.wnode);
    Smaller(holds, k);
    forall n | n in tl' ensures FaithfulAt(tl', holds', n) {
      assert FaithfulAt(tl, holds, n);
      HeldEncoding(tl, holds, k, n);
      UsersSplit(holds, k, n, false);
      UsersSplit(holds, k, n, true);
    }
  }

  lemma MarkFaithful(tl: Locks, holds: Holds, n: Id)
    requires Faithful(tl, holds) && n in tl
    ensures Faithful(Marked(tl, n), holds)
  {
    forall m | m in tl ensures FaithfulAt(Marked(tl, n), holds, m) {
      assert FaithfulAt(tl, holds, m);
    }
  }

  /** A zero integer means that nobody holds the node. */
  lemma FreeNode(tl: Locks, holds: Holds, n: Id)
    requires Faithful(tl, holds) && n in tl && tl[n] == 0
    ensures forall k {:trigger holds[k]} :: k in holds ==> n !in holds[k].chain && holds[k].wnode != Some(n)
  {
    assert FaithfulAt(tl, holds, n);
    NoUsers(holds, n, false);
    NoUsers(holds, n, true);
    forall k | k in holds ensures n !in holds[k].chain && holds[k].wnode != Some(n) {
      assert !Uses(holds[k], n, false) && !Uses(holds[k], n, true);
    }
  }

  /** A non-zero integer means that somebody holds the node. */
  lemma SomeHolder(tl: Locks, holds: Holds, n: Id) returns (k: Key)
    requires Faithful(tl, holds) && n in tl && tl[n] != 0
    ensures k in holds && (n in holds[k].chain || holds[k].wnode == Some(n))
  {
    assert FaithfulAt(tl, holds, n);
    NoUsers(holds, n, false);
    NoUsers(holds, n, true);
    if Users(holds, n, false) > 0 {
      k :| k in holds && Uses(holds[k], n, false);
    } else {
      k :| k in holds && Uses(holds[k], n, true);
    }
  }

  /** A write lock keeps every reader and every other writer out. */
  lemma WriterExcludes(tl: Locks, holds: Holds, k: Key, n: Id)
    requires Faithful(tl, holds) && k in holds && holds[k].wnode == Some(n) && n in tl
    ensures forall j {:trigger holds[j]} :: j in holds ==> n !in holds[j].chain
    ensures forall j {:trigger holds[j]} :: j in holds && holds[j].wnode == Some(n) ==> j == k
  {
    forall j | j in holds
      ensures n !in holds[j].chain
      ensures holds[j].wnode == Some(n) ==> j == k
    {
      HeldEncoding(tl, holds, k, n);
      HeldEncoding(tl, holds, j, n);
      if j != k && holds[j].wnode == Some(n) {
        UsersSplit(holds, k, n, true);
        UsersSplit(holds - {k}, j, n, true);
      }
    }
  }

  /** Releasing undoes locking. */
  lemma UnlockUndoesLock(tl: Locks, chain: seq<Id>, w: Option<Id>)
    requires forall n :: n in chain ==> n in tl && tl[n] >= 0
    requires w.Some? ==> w.value in tl && tl[w.value] == 0 && w.value !in chain
    ensures UnlockPath(LockPath(tl, chain, w), chain, w) == tl
  {
    var b := UnlockPath(LockPath(tl, chain, w), chain, w);
    assert forall n :: n in tl ==> b[n] == tl[n];
  }

  /** Also when a waiting mark was added in between: what remains is at most the mark, and
      only on a node that still has readers. */
  lemma UnlockUndoesMarkedLock(tl: Locks, chain: seq<Id>, w: Option<Id>, m: Id)
    requires m in tl && forall n :: n in chain ==> n in tl && tl[n] >= 0
    requires w.Some? ==> w.value in tl && tl[w.value] == 0 && w.value !in chain
    ensures UnlockPath(Marked(LockPath(tl, chain, w), m), chain, w) == Marked(tl, m)
  {
    var b := UnlockPath(Marked(LockPath(tl, chain, w), m), chain, w);
    assert forall n :: n in tl ==> b[n] == Marked(tl, m)[n];
  }
}
