/** POSIX record locks of one node: locks_insert(), locks_conflict() and the conversions of
    lib/fuse.c and lib/fuse_lowlevel.c. The list is proved to mean, byte by byte and owner by
    owner, what the lock requests asked for, in the smallest possible number of entries. */
module RecordLocks {

  const OFFSET_MAX: int := 0x7fff_ffff_ffff_ffff

  datatype Kind = Unlck | Rdlck | Wrlck

  datatype Lock = Lock(kind: Kind, start: int, end: int, owner: int, pid: int)

  predicate Proper(l: Lock) {
    0 <= l.start <= l.end <= OFFSET_MAX
  }

  predicate Covers(l: Lock, o: int, x: int) {
    l.owner == o && l.start <= x <= l.end
  }

  /** What owner `o` holds on byte `x`. */
  function KindAt(locks: seq<Lock>, o: int, x: int): Kind {
    if locks == [] then Unlck
    else if Covers(locks[0], o, x) then locks[0].kind
    else KindAt(locks[1..], o, x)
  }

  /** The effect of a request on one byte. */
  function Over(k: Kind, l: Lock, o: int, x: int): Kind {
    if Covers(l, o, x) then l.kind else k
  }

  /** Two entries of one owner come in ascending order, do not overlap, and do not even touch
      when they are of one kind. */
  predicate Apart(a: Lock, b: Lock) {
    a.owner == b.owner ==> a.end < b.start && (a.kind == b.kind ==> a.end + 1 < b.start)
  }

  predicate Sorted(locks: seq<Lock>) {
    && (forall i {:trigger locks[i]} :: 0 <= i < |locks| ==> Proper(locks[i]) && locks[i].kind != Unlck)
    && (forall i, j {:trigger locks[i], locks[j]} :: 0 <= i < j < |locks| ==> Apart(locks[i], locks[j]))
  }

  // ---- meaning of concatenations ----

  lemma {:induction false} KindOfConcat(a: seq<Lock>, b: seq<Lock>, o: int, x: int)
    requires forall i {:trigger a[i]} :: 0 <= i < |a| ==> a[i].kind != Unlck
    ensures KindAt(a + b, o, x) == if KindAt(a, o, x) != Unlck then KindAt(a, o, x) else KindAt(b, o, x)
    decreases |a|
  {
    if a == [] {
      assert a + b == b;
    } else {
      assert (a + b)[1..] == a[1..] + b;
      KindOfConcat(a[1..], b, o, x);
    }
  }

  lemma {:induction false} Uncovered(locks: seq<Lock>, o: int, x: int)
    requires forall i {:trigger locks[i]} :: 0 <= i < |locks| ==> !Covers(locks[i], o, x)
    ensures KindAt(locks, o, x) == Unlck
    decreases |locks|
  {
    if locks != [] {
      Uncovered(locks[1..], o, x);
    }
  }

  lemma {:induction false} CoveredBy(locks: seq<Lock>, o: int, x: int) returns (i: int)
    requires KindAt(locks, o, x) != Unlck
    ensures 0 <= i < |locks| && Covers(locks[i], o, x) && locks[i].kind == KindAt(locks, o, x)
    decreases |locks|
  {
    if Covers(locks[0], o, x) {
      i := 0;
    } else {
      i := CoveredBy(locks[1..], o, x);
      i := i + 1;
    }
  }

  /** The parts of a list around one entry. */
  lemma KindAround(pre: seq<Lock>, mid: seq<Lock>, post: seq<Lock>, o: int, x: int)
    requires Sorted(pre + mid + post)
    ensures KindAt(pre + mid + post, o, x) ==
      if KindAt(pre, o, x) != Unlck then KindAt(pre, o, x)
      else if KindAt(mid, o, x) != Unlck then KindAt(mid, o, x) else KindAt(post, o, x)
  {
    var all := pre + mid + post;
    forall i | 0 <= i < |pre + mid| ensures (pre + mid)[i].kind != Unlck {
      assert all[i] == (pre + mid)[i];
    }
    KindOfConcat(pre + mid, post, o, x);
    forall i | 0 <= i < |pre| ensures pre[i].kind != Unlck {
      assert all[i] == pre[i];
    }
    KindOfConcat(pre, mid, o, x);
  }

  /** A byte covered by one entry is covered by no other entry of the same owner. */
  lemma Alone(pre: seq<Lock>, l: Lock, post: seq<Lock>, o: int, x: int)
    requires Sorted(pre + [l] + post) && Covers(l, o, x)
    ensures KindAt(pre, o, x) == Unlck && KindAt(post, o, x) == Unlck
  {
    var all := pre + [l] + post;
    forall i | 0 <= i < |pre| ensures !Covers(pre[i], o, x) {
      assert all[i] == pre[i] && all[|pre|] == l && Apart(all[i], all[|pre|]);
    }
    forall i | 0 <= i < |post| ensures !Covers(post[i], o, x) {
      assert all[|pre| + 1 + i] == post[i] && all[|pre|] == l && Apart(all[|pre|], all[|pre| + 1 + i]);
    }
    Uncovered(pre, o, x);
    Uncovered(post, o, x);
  }

  // ---- one step of locks_insert() ----

  /** List `a` with request `k` still to come means the same as `b` with `l` still to come. */
  ghost predicate Means(a: seq<Lock>, k: Lock, b: seq<Lock>, l: Lock) {
    forall o, x {:trigger KindAt(a, o, x)} {:trigger KindAt(b, o, x)} ::
      Over(KindAt(a, o, x), k, o, x) == Over(KindAt(b, o, x), l, o, x)
  }

  lemma MeansTransitive(a: seq<Lock>, j: Lock, b: seq<Lock>, k: Lock, c: seq<Lock>, l: Lock)
    requires Means(a, j, b, k) && Means(b, k, c, l)
    ensures Means(a, j, c, l)
  {
    forall o, x ensures Over(KindAt(a, o, x), j, o, x) == Over(KindAt(c, o, x), l, o, x) {
      assert Over(KindAt(a, o, x), j, o, x) == Over(KindAt(b, o, x), k, o, x);
    }
  }

  /** The first `i` entries end before the request. */
  predicate Before(locks: seq<Lock>, i: int, k: Lock)
    requires i <= |locks|
  {
    forall j {:trigger locks[j]} :: 0 <= j < i ==> Apart(locks[j], k)
  }

  /** The entries from the i-th on start after the request. */
  predicate After(locks: seq<Lock>, i: int, k: Lock)
    requires 0 <= i
  {
    forall j {:trigger locks[j]} :: i <= j < |locks| ==> Apart(k, locks[j])
  }

  lemma Single(l: Lock, o: int, x: int)
    ensures KindAt([l], o, x) == (if Covers(l, o, x) then l.kind else Unlck) && KindAt([], o, x) == Unlck
  {
  }

  /** The i-th entry is replaced by `mid` while the request grows from `k` to `k'`. */
  function Replaced(locks: seq<Lock>, i: int, mid: seq<Lock>): seq<Lock>
    requires 0 <= i < |locks|
  {
    locks[..i] + mid + locks[i + 1..]
  }

  predicate Fair(l: Lock, mid: seq<Lock>, k: Lock, k': Lock, o: int, x: int) {
    && (Covers(k, o, x) ==> Covers(k', o, x))
    && (Covers(k', o, x) && !Covers(k, o, x) ==> Covers(l, o, x) && l.kind == k.kind)
    && (!Covers(k', o, x) ==> KindAt(mid, o, x) == KindAt([l], o, x))
  }

  lemma ReplacedMeans(locks: seq<Lock>, i: int, mid: seq<Lock>, k: Lock, k': Lock)
    requires 0 <= i < |locks| && Sorted(locks) && Sorted(Replaced(locks, i, mid)) && k'.kind == k.kind
    requires forall o, x {:trigger KindAt(mid, o, x)} :: Fair(locks[i], mid, k, k', o, x)
    ensures Means(Replaced(locks, i, mid), k', locks, k)
  {
    var pre, l, post := locks[..i], locks[i], locks[i + 1..];
    assert locks == pre + [l] + post;
    forall o, x ensures Over(KindAt(Replaced(locks, i, mid), o, x), k', o, x) == Over(KindAt(locks, o, x), k, o, x) {
      assert Fair(l, mid, k, k', o, x) by { assert KindAt(mid, o, x) == KindAt(mid, o, x); }
      KindAround(pre, [l], post, o, x);
      KindAround(pre, mid, post, o, x);
      if Covers(l, o, x) {
        Alone(pre, l, post, o, x);
      }
    }
  }

  /** Entries may be dropped or made smaller. */
  lemma ShrinkSorted(locks: seq<Lock>, i: int, mid: seq<Lock>)
    requires 0 <= i < |locks| && Sorted(locks) && |mid| <= 2 && Sorted(mid)
    requires forall m {:trigger mid[m]} :: 0 <= m < |mid| ==>
      mid[m].owner == locks[i].owner && mid[m].kind == locks[i].kind && locks[i].start <= mid[m].start &&
        mid[m].end <= locks[i].end
    ensures Sorted(Replaced(locks, i, mid))
  {
    var r, n := Replaced(locks, i, mid), |mid|;
    forall a, b | 0 <= a < b < |r| ensures Apart(r[a], r[b]) {
      var a', b' := Origin(i, n, a), Origin(i, n, b);
      if a' < b' {
        assert Apart(locks[a'], locks[b']);
      }
    }
    forall a | 0 <= a < |r| ensures Proper(r[a]) && r[a].kind != Unlck {
      var a' := Origin(i, n, a);
      assert Proper(locks[a']) && locks[a'].kind != Unlck;
    }
  }

  /** The entry an index comes from. */
  function Origin(i: int, n: int, a: int): int {
    if a < i then a else if a < i + n then i else a - n + 1
  }

  lemma BeforeReplaced(locks: seq<Lock>, i: int, mid: seq<Lock>, k: Lock)
    requires 0 <= i < |locks| && Before(locks, i, k)
    ensures i <= |Replaced(locks, i, mid)| && Before(Replaced(locks, i, mid), i, k)
  {
    var r := Replaced(locks, i, mid);
    assert forall j {:trigger r[j]} :: 0 <= j < i ==> r[j] == locks[j];
  }

  /** An entry of the same kind that overlaps or touches the request becomes part of it. */
  lemma MergeStep(locks: seq<Lock>, i: int, k: Lock, k': Lock)
    requires 0 <= i < |locks| && Sorted(locks) && Proper(k) && Before(locks, i, k)
    requires var l := locks[i];
      && l.owner == k.owner && l.kind == k.kind && k.start - 1 <= l.end && l.start - 1 <= k.end
      && k' == k.(start := if l.start < k.start then l.start else k.start,
        end := if k.end < l.end then l.end else k.end)
    ensures var r := Replaced(locks, i, []);
      Sorted(r) && Proper(k') && i <= |r| && Before(r, i, k') && Means(r, k', locks, k)
  {
    ShrinkSorted(locks, i, []);
    assert Proper(locks[i]);
    forall o, x ensures Fair(locks[i], [], k, k', o, x) {
      Single(locks[i], o, x);
    }
    ReplacedMeans(locks, i, [], k, k');
    forall j | 0 <= j < i ensures Apart(locks[j], k') {
      assert Apart(locks[j], k) && Apart(locks[j], locks[i]);
    }
    BeforeReplaced(locks, i, [], k');
  }

  /** What is left of an entry of another kind when the request is cut out of it. */
  function Rest(l: Lock, k: Lock): seq<Lock> {
    (if l.start < k.start then [l.(end := k.start - 1)] else []) +
      (if k.end < l.end then [l.(start := k.end + 1)] else [])
  }

  lemma TrimStep(locks: seq<Lock>, i: int, k: Lock)
    requires 0 <= i < |locks| && Sorted(locks) && Proper(k) && Before(locks, i, k)
    requires var l := locks[i];
      l.owner == k.owner && l.kind != k.kind && k.start <= l.end && l.start <= k.end
    ensures var r, l := Replaced(locks, i, Rest(locks[i], k)), locks[i];
      && Sorted(r) && Means(r, k, locks, k) && Before(r, i, k)
      && (l.start < k.start ==> Before(r, i + 1, k))
      && (k.end < l.end ==> After(r, if l.start < k.start then i + 1 else i, k))
  {
    var l, mid := locks[i], Rest(locks[i], k);
    assert Proper(l) && l.kind != Unlck;
    assert forall m {:trigger mid[m]} :: 0 <= m < |mid| ==> mid[m].owner == l.owner && mid[m].kind == l.kind;
    ShrinkSorted(locks, i, mid);
    forall o, x ensures Fair(l, mid, k, k, o, x) {
      RestKind(l, k, o, x);
    }
    ReplacedMeans(locks, i, mid, k, k);
    BeforeReplaced(locks, i, mid, k);
    if k.end < l.end {
      RestAfter(locks, i, k);
    }
  }

  lemma RestKind(l: Lock, k: Lock, o: int, x: int)
    requires l.owner == k.owner && k.start <= l.end && l.start <= k.end
    ensures Fair(l, Rest(l, k), k, k, o, x)
  {
    var mid := Rest(l, k);
    Single(l, o, x);
    if |mid| == 2 {
      assert mid[1..] == [mid[1]];
      Single(mid[1], o, x);
    } else if |mid| == 1 {
      assert mid == [mid[0]];
      Single(mid[0], o, x);
    }
  }

  lemma RestAfter(locks: seq<Lock>, i: int, k: Lock)
    requires 0 <= i < |locks| && Sorted(locks)
    requires var l := locks[i];
      l.owner == k.owner && l.kind != k.kind && k.start <= l.end && l.start <= k.end < l.end
    ensures var r := Replaced(locks, i, Rest(locks[i], k)); After(r, if locks[i].start < k.start then i + 1 else i, k)
  {
    var l, mid := locks[i], Rest(locks[i], k);
    var r := Replaced(locks, i, mid);
    forall j | (if l.start < k.start then i + 1 else i) <= j < |r| ensures Apart(k, r[j]) {
      if j < i + |mid| {
        assert r[j] == mid[j - i];
      } else {
        assert r[j] == locks[j - |mid| + 1] && Apart(l, locks[j - |mid| + 1]);
      }
    }
  }

  // ---- the end of locks_insert() ----

  /** `a` is `b` after the request `l`, for every owner and byte. */
  ghost predicate Obeys(a: seq<Lock>, b: seq<Lock>, l: Lock) {
    forall o, x {:trigger KindAt(a, o, x)} {:trigger KindAt(b, o, x)} ::
      KindAt(a, o, x) == Over(KindAt(b, o, x), l, o, x)
  }

  lemma StopHere(locks: seq<Lock>, i: int, k: Lock)
    requires 0 <= i < |locks| && Sorted(locks) && locks[i].owner == k.owner && Apart(k, locks[i])
    ensures After(locks, i, k)
  {
    assert Proper(locks[i]);
    forall j | i <= j < |locks| ensures Apart(k, locks[j]) {
      if j > i {
        assert Apart(locks[i], locks[j]);
      }
    }
  }

  lemma MergesAway(locks: seq<Lock>, i: int, k: Lock)
    requires 0 <= i < |locks| && Before(locks, i, k) && Apart(locks[i], k)
    ensures Before(locks, i + 1, k)
  {
  }

  lemma InsertMeans(locks: seq<Lock>, i: int, k: Lock)
    requires 0 <= i <= |locks| && Sorted(locks) && Proper(k) && k.kind != Unlck && Before(locks, i, k)
    requires After(locks, i, k)
    ensures var r := locks[..i] + [k] + locks[i..]; Sorted(r) && Obeys(r, locks, k)
  {
    var r := locks[..i] + [k] + locks[i..];
    InsertSorted(locks, i, k);
    assert locks == locks[..i] + [] + locks[i..];
    forall o, x ensures KindAt(r, o, x) == Over(KindAt(locks, o, x), k, o, x) {
      KindAround(locks[..i], [k], locks[i..], o, x);
      KindAround(locks[..i], [], locks[i..], o, x);
      Single(k, o, x);
      if Covers(k, o, x) {
        Alone(locks[..i], k, locks[i..], o, x);
      }
    }
  }

  lemma InsertSorted(locks: seq<Lock>, i: int, k: Lock)
    requires 0 <= i <= |locks| && Sorted(locks) && Proper(k) && k.kind != Unlck && Before(locks, i, k)
    requires After(locks, i, k)
    ensures Sorted(locks[..i] + [k] + locks[i..])
  {
    var r := locks[..i] + [k] + locks[i..];
    assert forall j {:trigger r[j]} :: 0 <= j < |r| ==>
      r[j] == if j < i then locks[j] else if j == i then k else locks[j - 1];
  }

  /** Nothing the owner holds is left in the range of an unlock request. */
  lemma UnlockMeans(locks: seq<Lock>, i: int, k: Lock)
    requires 0 <= i <= |locks| && Proper(k) && k.kind == Unlck && Before(locks, i, k) && After(locks, i, k)
    ensures Obeys(locks, locks, k)
  {
    forall o, x ensures KindAt(locks, o, x) == Over(KindAt(locks, o, x), k, o, x) {
      if Covers(k, o, x) {
        forall j | 0 <= j < |locks| ensures !Covers(locks[j], o, x) {
          assert if j < i then Apart(locks[j], k) else Apart(k, locks[j]);
        }
        Uncovered(locks, o, x);
      }
    }
  }

  /** The request is part of an entry of the same kind already. */
  lemma InsideMeans(locks: seq<Lock>, i: int, k: Lock)
    requires 0 <= i < |locks| && Sorted(locks) && locks[i].owner == k.owner && locks[i].kind == k.kind
    requires locks[i].start <= k.start && k.end <= locks[i].end
    ensures Obeys(locks, locks, k)
  {
    var pre, l, post := locks[..i], locks[i], locks[i + 1..];
    assert locks == pre + [l] + post;
    forall o, x ensures KindAt(locks, o, x) == Over(KindAt(locks, o, x), k, o, x) {
      KindAround(pre, [l], post, o, x);
      Single(l, o, x);
      if Covers(k, o, x) {
        Alone(pre, l, post, o, x);
      }
    }
  }

  lemma ObeysTransitive(a: seq<Lock>, b: seq<Lock>, k: Lock, c: seq<Lock>, l: Lock)
    requires Obeys(a, b, k) && Means(b, k, c, l)
    ensures Obeys(a, c, l)
  {
    forall o, x ensures KindAt(a, o, x) == Over(KindAt(c, o, x), l, o, x) {
      assert KindAt(a, o, x) == Over(KindAt(b, o, x), k, o, x);
    }
  }

  predicate EverythingUnlocked(k: Lock) {
    k.kind == Unlck && k.start == 0 && k.end == OFFSET_MAX
  }

  /** After a split only the upper half of the split entry is left to look at. */
  predicate SplitDone(locks: seq<Lock>, i: int, k: Lock)
    requires 0 <= i
  {
    i < |locks| && locks[i].owner == k.owner && locks[i].kind != k.kind && k.end < locks[i].start
  }

  /** What the loop keeps. */
  ghost predicate Going(locks: seq<Lock>, i: int, k: Lock, before: seq<Lock>, lock: Lock) {
    && 0 <= i <= |locks| && Sorted(locks) && Proper(k) && k.kind == lock.kind && k.owner == lock.owner
    && Before(locks, i, k) && Means(locks, k, before, lock)
  }

  lemma GoingSkip(locks: seq<Lock>, i: int, k: Lock, before: seq<Lock>, lock: Lock)
    requires Going(locks, i, k, before, lock) && i < |locks| && Apart(locks[i], k)
    ensures Going(locks, i + 1, k, before, lock)
  {
    MergesAway(locks, i, k);
  }

  lemma GoingMerge(locks: seq<Lock>, i: int, k: Lock, before: seq<Lock>, lock: Lock, k': Lock)
    requires Going(locks, i, k, before, lock) && i < |locks|
    requires var l := locks[i];
      && l.owner == k.owner && l.kind == k.kind && k.start - 1 <= l.end && l.start - 1 <= k.end
      && k' == k.(start := if l.start < k.start then l.start else k.start,
        end := if k.end < l.end then l.end else k.end)
    ensures Going(Replaced(locks, i, []), i, k', before, lock)
  {
    MergeStep(locks, i, k, k');
    MeansTransitive(Replaced(locks, i, []), k', locks, k, before, lock);
  }

  lemma GoingTrim(locks: seq<Lock>, i: int, k: Lock, before: seq<Lock>, lock: Lock)
    requires Going(locks, i, k, before, lock) && i < |locks|
    requires var l := locks[i]; l.owner == k.owner && l.kind != k.kind && k.start <= l.end && l.start <= k.end
    ensures var r, l := Replaced(locks, i, Rest(locks[i], k)), locks[i];
      && Going(r, i, k, before, lock)
      && (l.start < k.start ==> Going(r, i + 1, k, before, lock))
      && (k.end < l.end ==> After(r, if l.start < k.start then i + 1 else i, k))
  {
    TrimStep(locks, i, k);
    MeansTransitive(Replaced(locks, i, Rest(locks[i], k)), k, locks, k, before, lock);
  }

  lemma GoingStart(locks: seq<Lock>, lock: Lock)
    requires Sorted(locks) && Proper(lock)
    ensures Going(locks, 0, lock, locks, lock)
  {
  }

  lemma GoingProper(locks: seq<Lock>, i: int, k: Lock, before: seq<Lock>, lock: Lock)
    requires Going(locks, i, k, before, lock)
    ensures Sorted(locks) && Proper(k) && (i < |locks| ==> Proper(locks[i])) && Means(locks, k, before, lock)
  {
  }

  /** The four forms that cutting a request out of an entry takes in the code. */
  lemma TrimForms(locks: seq<Lock>, i: int, k: Lock)
    requires 0 <= i < |locks|
    ensures var l, r := locks[i], Replaced(locks, i, Rest(locks[i], k));
      && Replaced(locks, i, []) == locks[..i] + locks[i + 1..]
      && (k.start <= l.start && l.end <= k.end ==> r == locks[..i] + locks[i + 1..])
      && (l.start < k.start && l.end <= k.end ==> r == locks[i := l.(end := k.start - 1)])
      && (k.start <= l.start && k.end < l.end ==> r == locks[i := l.(start := k.end + 1)])
      && (l.start < k.start && k.end < l.end ==>
            r == locks[..i] + [l.(end := k.start - 1), l.(start := k.end + 1)] + locks[i + 1..])
  {
    var l := locks[i];
    assert locks[..i] + [] == locks[..i];
    assert Rest(l, k) == [] || |Rest(l, k)| == 1 || Rest(l, k) == [l.(end := k.start - 1), l.(start := k.end + 1)];
  }

  lemma AtEnd(locks: seq<Lock>, k: Lock)
    ensures After(locks, |locks|, k)
  {
  }

  /** The request takes its place, unless it only unlocks. */
  lemma Placed(locks: seq<Lock>, i: int, k: Lock, before: seq<Lock>, lock: Lock)
    requires Going(locks, i, k, before, lock) && After(locks, i, k)
    ensures k.kind != Unlck ==> var r := locks[..i] + [k] + locks[i..]; Sorted(r) && Obeys(r, before, lock)
    ensures k.kind == Unlck ==> Sorted(locks) && Obeys(locks, before, lock)
  {
    hide Means, Sorted, Obeys, Before, After;
    if k.kind != Unlck {
      InsertMeans(locks, i, k);
      ObeysTransitive(locks[..i] + [k] + locks[i..], locks, k, before, lock);
    } else {
      UnlockMeans(locks, i, k);
      ObeysTransitive(locks, locks, k, before, lock);
    }
  }

  // ---- the list is determined by its meaning ----

  /** The entries of one owner. */
  function Of(locks: seq<Lock>, o: int): seq<Lock> {
    if locks == [] then []
    else
      var rest, l := Of(locks[..|locks| - 1], o), locks[|locks| - 1];
      if l.owner == o then rest + [l] else rest
  }

  function Range(l: Lock): (Kind, int, int) {
    (l.kind, l.start, l.end)
  }

  function Ranges(locks: seq<Lock>): seq<(Kind, int, int)> {
    seq(|locks|, i requires 0 <= i < |locks| => Range(locks[i]))
  }

  lemma OfOwner(locks: seq<Lock>, o: int)
    requires Sorted(locks)
    ensures Sorted(Of(locks, o))
    ensures forall i {:trigger Of(locks, o)[i]} :: 0 <= i < |Of(locks, o)| ==> Of(locks, o)[i].owner == o
    ensures forall i {:trigger Of(locks, o)[i]} :: 0 <= i < |Of(locks, o)| ==> Of(locks, o)[i] in locks
    ensures forall x :: KindAt(Of(locks, o), o, x) == KindAt(locks, o, x)
  {
    hide *;
    OfSorted(locks, o);
    forall x ensures KindAt(Of(locks, o), o, x) == KindAt(locks, o, x) {
      OfKind(locks, o, x);
    }
  }

  lemma {:induction false} OfSorted(locks: seq<Lock>, o: int)
    requires Sorted(locks)
    ensures Sorted(Of(locks, o))
    ensures forall i {:trigger Of(locks, o)[i]} :: 0 <= i < |Of(locks, o)| ==> Of(locks, o)[i].owner == o
    ensures forall i {:trigger Of(locks, o)[i]} :: 0 <= i < |Of(locks, o)| ==> Of(locks, o)[i] in locks
    decreases |locks|
  {
    if locks != [] {
      var front, l := locks[..|locks| - 1], locks[|locks| - 1];
      assert locks == front + [l];
      SortedFront(locks);
      OfSorted(front, o);
      var rest := Of(front, o);
      if l.owner == o {
        forall i | 0 <= i < |rest| ensures Apart(rest[i], l) {
          var j :| 0 <= j < |front| && front[j] == rest[i];
          assert Apart(locks[j], locks[|locks| - 1]);
        }
        assert Proper(locks[|locks| - 1]);
      }
    }
  }

  lemma {:induction false} OfKind(locks: seq<Lock>, o: int, x: int)
    requires Sorted(locks)
    ensures KindAt(Of(locks, o), o, x) == KindAt(locks, o, x)
    decreases |locks|
  {
    if locks != [] {
      var front, l := locks[..|locks| - 1], locks[|locks| - 1];
      assert locks == front + [l];
      SortedFront(locks);
      OfKind(front, o, x);
      OfSorted(front, o);
      hide KindAt;
      KindOfConcat(front, [l], o, x);
      KindOfConcat(Of(front, o), [l], o, x);
      Single(l, o, x);
    }
  }

  lemma SortedFront(locks: seq<Lock>)
    requires Sorted(locks) && locks != []
    ensures Sorted(locks[..|locks| - 1])
  {
  }

  lemma SortedTail(locks: seq<Lock>)
    requires Sorted(locks) && locks != []
    ensures Sorted(locks[1..]) && Proper(locks[0]) && locks[0].kind != Unlck
    ensures forall i {:trigger locks[1..][i]} :: 0 <= i < |locks| - 1 ==> Apart(locks[0], locks[1..][i])
  {
    forall i {:trigger locks[1..][i]} | 0 <= i < |locks| - 1 ensures Apart(locks[0], locks[1..][i]) {
      assert locks[1..][i] == locks[i + 1];
    }
  }

  predicate AllOf(locks: seq<Lock>, o: int) {
    forall i {:trigger locks[i]} :: 0 <= i < |locks| ==> locks[i].owner == o
  }

  /** Nothing is held before the first entry, nor on the byte behind it with the same kind. */
  lemma FirstEntry(a: seq<Lock>, o: int, x: int)
    requires a != [] && Sorted(a) && AllOf(a, o)
    ensures x < a[0].start ==> KindAt(a, o, x) == Unlck
    ensures a[0].start <= x <= a[0].end ==> KindAt(a, o, x) == a[0].kind != Unlck && KindAt(a[1..], o, x) == Unlck
    ensures x == a[0].end + 1 ==> KindAt(a, o, x) != a[0].kind
    ensures x > a[0].end ==> KindAt(a, o, x) == KindAt(a[1..], o, x)
    ensures x <= a[0].end ==> KindAt(a[1..], o, x) == Unlck
  {
    SortedTail(a);
    var t := a[1..];
    if KindAt(t, o, x) != Unlck {
      var i := CoveredBy(t, o, x);
      assert Apart(a[0], t[i]) && t[i] == a[i + 1];
    }
  }

  lemma BothHold(a: seq<Lock>, b: seq<Lock>, o: int)
    requires a != [] && Sorted(a) && AllOf(a, o) && forall x {:trigger KindAt(a, o, x)} ::
      KindAt(a, o, x) == KindAt(b, o, x)
    ensures b != []
  {
    SortedTail(a);
    FirstEntry(a, o, a[0].start);
    assert KindAt(a, o, a[0].start) == KindAt(b, o, a[0].start);
  }

  /** Two lists that give an owner the same bytes have the same entries for that owner. */
  lemma {:induction false} SameRanges(a: seq<Lock>, b: seq<Lock>, o: int)
    requires Sorted(a) && Sorted(b) && AllOf(a, o) && AllOf(b, o)
    requires forall x {:trigger KindAt(a, o, x)} :: KindAt(a, o, x) == KindAt(b, o, x)
    ensures Ranges(a) == Ranges(b)
    decreases |a|
  {
    if a == [] {
      if b != [] {
        BothHold(b, a, o);
      }
    } else {
      BothHold(a, b, o);
      SortedTail(a);
      SameFirst(a, b, o);
      SortedTail(b);
      forall x ensures KindAt(a[1..], o, x) == KindAt(b[1..], o, x) {
        FirstEntry(a, o, x);
        FirstEntry(b, o, x);
      }
      assert AllOf(a[1..], o) && AllOf(b[1..], o) by {
        assert forall i {:trigger a[1..][i]} :: 0 <= i < |a| - 1 ==> a[1..][i] == a[i + 1];
        assert forall i {:trigger b[1..][i]} :: 0 <= i < |b| - 1 ==> b[1..][i] == b[i + 1];
      }
      SameRanges(a[1..], b[1..], o);
      RangesCons(a);
      RangesCons(b);
    }
  }

  lemma RangesCons(a: seq<Lock>)
    requires a != []
    ensures Ranges(a) == [Range(a[0])] + Ranges(a[1..])
  {
  }

  lemma SameFirst(a: seq<Lock>, b: seq<Lock>, o: int)
    requires a != [] && b != [] && Sorted(a) && Sorted(b) && AllOf(a, o) && AllOf(b, o)
    requires forall x {:trigger KindAt(a, o, x)} :: KindAt(a, o, x) == KindAt(b, o, x)
    ensures Range(a[0]) == Range(b[0])
  {
    SortedTail(a);
    SortedTail(b);
    FirstEntry(a, o, a[0].start);
    FirstEntry(b, o, a[0].start);
    FirstEntry(a, o, b[0].start);
    FirstEntry(b, o, b[0].start);
    assert KindAt(a, o, a[0].start) == KindAt(b, o, a[0].start) && KindAt(a, o, b[0].start) == KindAt(b, o, b[0].start);
    var y, z := a[0].end + 1, b[0].end + 1;
    FirstEntry(a, o, y);
    FirstEntry(b, o, y);
    FirstEntry(a, o, z);
    FirstEntry(b, o, z);
    assert KindAt(a, o, y) == KindAt(b, o, y) && KindAt(a, o, z) == KindAt(b, o, z);
  }

  /** The list is a function of its meaning: whatever requests led to it, each owner has the
      entries that any other list with the same meaning has. */
  lemma Canonical(a: seq<Lock>, b: seq<Lock>, o: int)
    requires Sorted(a) && Sorted(b) && forall x {:trigger KindAt(a, o, x)} :: KindAt(a, o, x) == KindAt(b, o, x)
    ensures Ranges(Of(a, o)) == Ranges(Of(b, o))
  {
    OfOwner(a, o);
    OfOwner(b, o);
    forall x ensures KindAt(Of(a, o), o, x) == KindAt(Of(b, o), o, x) {
      assert KindAt(a, o, x) == KindAt(b, o, x);
    }
    SameRanges(Of(a, o), Of(b, o), o);
  }

  // ---- conflicts ----

  predicate Conflicts(l: Lock, lock: Lock) {
    && l.owner != lock.owner && lock.start <= l.end && l.start <= lock.end
    && (l.kind == Wrlck || lock.kind == Wrlck)
  }

  /** Some byte of the request is held by another owner in a way that excludes it. */
  ghost predicate Clash(locks: seq<Lock>, lock: Lock) {
    exists o, x {:trigger KindAt(locks, o, x)} ::
      && o != lock.owner && lock.start <= x <= lock.end
      && (KindAt(locks, o, x) == Wrlck || (KindAt(locks, o, x) == Rdlck && lock.kind == Wrlck))
  }

  lemma ConflictIsClash(locks: seq<Lock>, lock: Lock)
    requires Sorted(locks) && Proper(lock)
    ensures (exists j :: 0 <= j < |locks| && Conflicts(locks[j], lock)) <==> Clash(locks, lock)
  {
    if j :| 0 <= j < |locks| && Conflicts(locks[j], lock) {
      var l, pre, post := locks[j], locks[..j], locks[j + 1..];
      var x := if l.start < lock.start then lock.start else l.start;
      assert Proper(locks[j]) && locks[j].kind != Unlck;
      assert locks == pre + [l] + post;
      KindAround(pre, [l], post, l.owner, x);
      Single(l, l.owner, x);
      Alone(pre, l, post, l.owner, x);
      assert KindAt(locks, l.owner, x) == l.kind;
    } else if Clash(locks, lock) {
      var o, x :| && o != lock.owner && lock.start <= x <= lock.end
                  && (KindAt(locks, o, x) == Wrlck || (KindAt(locks, o, x) == Rdlck && lock.kind == Wrlck));
      var i := CoveredBy(locks, o, x);
      assert Conflicts(locks[i], lock);
    }
  }

  /** No byte that one owner has for writing is held by another. */
  ghost predicate Compatible(locks: seq<Lock>) {
    forall o, p, x {:trigger KindAt(locks, o, x), KindAt(locks, p, x)} ::
      o != p && KindAt(locks, o, x) == Wrlck ==> KindAt(locks, p, x) == Unlck
  }

  /** Granting a request keeps the locks compatible iff it unlocks or does not clash. */
  lemma CompatibleIff(a: seq<Lock>, b: seq<Lock>, lock: Lock)
    requires Obeys(a, b, lock) && Compatible(b)
    ensures Compatible(a) <==> lock.kind == Unlck || !Clash(b, lock)
  {
    if lock.kind != Unlck && Clash(b, lock) {
      var o, x :| && o != lock.owner && lock.start <= x <= lock.end
                  && (KindAt(b, o, x) == Wrlck || (KindAt(b, o, x) == Rdlck && lock.kind == Wrlck));
      assert KindAt(a, o, x) == KindAt(b, o, x) && KindAt(a, lock.owner, x) == lock.kind;
    } else {
      forall o, p, x | o != p && KindAt(a, o, x) == Wrlck ensures KindAt(a, p, x) == Unlck {
        assert KindAt(a, o, x) == Over(KindAt(b, o, x), lock, o, x);
        assert KindAt(a, p, x) == Over(KindAt(b, p, x), lock, p, x);
      }
    }
  }

  /** If every read or write request is granted only when it does not clash, no run ever
      lets one owner's write lock overlap another owner's lock. */
  lemma {:induction false} CompatibleRun(lists: seq<seq<Lock>>, requests: seq<Lock>, i: int)
    requires |lists| == |requests| + 1 && lists[0] == [] && 0 <= i < |lists|
    requires forall j {:trigger requests[j]} :: 0 <= j < |requests| ==>
      Obeys(lists[j + 1], lists[j], requests[j]) && (requests[j].kind == Unlck || !Clash(lists[j], requests[j]))
    ensures Compatible(lists[i])
    decreases i
  {
    hide Obeys, Clash;
    if i > 0 {
      CompatibleRun(lists, requests, i - 1);
      assert Obeys(lists[i], lists[i - 1], requests[i - 1]);
      CompatibleIff(lists[i], lists[i - 1], requests[i - 1]);
    }
  }

  // ---- conversions ----

  /** `struct fuse_file_lock` as the kernel sends it and `struct flock`. */
  datatype FileLock = FileLock(kind: Kind, start: int, end: int, pid: int)
  datatype Flock = Flock(kind: Kind, start: int, len: int, pid: int)

  /** convert_fuse_file_lock() and lock_to_flock(). */
  function ToFlock(kind: Kind, start: int, end: int, pid: int): Flock {
    Flock(kind, start, if end == OFFSET_MAX then 0 else end - start + 1, pid)
  }

  /** The last byte, as flock_to_lock() and fuse_reply_lock() compute it. */
  function LastByte(f: Flock): int {
    if f.len != 0 then f.start + f.len - 1 else OFFSET_MAX
  }

  /** fuse_reply_lock(). */
  function Reply(f: Flock): FileLock {
    if f.kind == Unlck then FileLock(Unlck, 0, 0, f.pid) else FileLock(f.kind, f.start, LastByte(f), f.pid)
  }

  /** The last byte survives the way from the kernel into a lock unless it is the one right before
      the start: such a range turns into one up to the end. A conflicting lock survives the way
      back. */
  lemma RangeSurvivesIff(kind: Kind, start: int, end: int, pid: int)
    ensures LastByte(ToFlock(kind, start, end, pid)) == end <==> end == OFFSET_MAX || end + 1 != start
    ensures kind != Unlck && start <= end ==> Reply(ToFlock(kind, start, end, pid)) == FileLock(kind, start, end, pid)
    ensures 0 <= start <= end <= OFFSET_MAX ==> 0 <= ToFlock(kind, start, end, pid).len <= OFFSET_MAX
  {
  }

  // ---- process ids ----

  /** A part of an entry, with its kind, owner and process id. */
  predicate Part(e: Lock, l: Lock) {
    e == l.(start := e.start, end := e.end) && l.start <= e.start && e.end <= l.end
  }

  ghost predicate AllParts(locks: seq<Lock>, olds: seq<Lock>) {
    forall i {:trigger locks[i]} :: 0 <= i < |locks| ==> PartOf(locks[i], olds)
  }

  ghost predicate PartOf(e: Lock, olds: seq<Lock>) {
    exists j :: 0 <= j < |olds| && Part(e, olds[j])
  }

  /** The entry that a request turned into, with what it was merged with. */
  predicate Made(e: Lock, lock: Lock) {
    e == lock.(start := e.start, end := e.end) && e.start <= lock.start && lock.end <= e.end
  }

  /** The request asks for nothing that the owner does not have in one entry. */
  predicate Contains(l: Lock, lock: Lock) {
    l.owner == lock.owner && l.kind == lock.kind && l.start <= lock.start && lock.end <= l.end
  }

  ghost predicate Contained(olds: seq<Lock>, lock: Lock) {
    exists j :: 0 <= j < |olds| && Contains(olds[j], lock)
  }

  /** Which process id each entry carries: that of the request if the request made it, else that
      of the entry it is left of. */
  ghost predicate Signed(locks: seq<Lock>, olds: seq<Lock>, lock: Lock) {
    && (Contained(olds, lock) ==> locks == olds)
    && (!Contained(olds, lock) && lock.kind != Unlck ==> exists i :: 0 <= i < |locks| && Made(locks[i], lock))
    && (forall i {:trigger locks[i]} :: 0 <= i < |locks| ==> Made(locks[i], lock) || PartOf(locks[i], olds))
  }

  lemma AllOwnParts(locks: seq<Lock>)
    requires Sorted(locks)
    ensures AllParts(locks, locks)
  {
    forall i | 0 <= i < |locks| ensures PartOf(locks[i], locks) {
      assert Part(locks[i], locks[i]);
    }
  }

  lemma PartsCut(locks: seq<Lock>, olds: seq<Lock>, i: int, mid: seq<Lock>)
    requires AllParts(locks, olds) && 0 <= i < |locks|
    requires forall m {:trigger mid[m]} :: 0 <= m < |mid| ==> Part(mid[m], locks[i])
    ensures AllParts(locks[..i] + mid + locks[i + 1..], olds)
  {
    var r := locks[..i] + mid + locks[i + 1..];
    forall m | 0 <= m < |r| ensures PartOf(r[m], olds) {
      if m < i {
        assert PartOf(locks[m], olds);
      } else if m < i + |mid| {
        assert PartOf(locks[i], olds);
        var j :| 0 <= j < |olds| && Part(locks[i], olds[j]);
        assert Part(mid[m - i], locks[i]) && Part(r[m], olds[j]);
      } else {
        assert PartOf(locks[m - |mid| + 1], olds);
      }
    }
  }

  /** What the loop of locks_insert() keeps about process ids: `k` is what the request has grown
      into, and an entry that contains the request is still ahead. */
  ghost predicate Tracked(locks: seq<Lock>, i: int, k: Lock, olds: seq<Lock>, lock: Lock) {
    && AllParts(locks, olds) && Made(k, lock)
    && (Contained(olds, lock) ==>
      locks == olds && k == lock && exists j :: 0 <= j < |olds| && i <= j && Contains(olds[j], lock))
  }

  lemma TrackStart(locks: seq<Lock>, lock: Lock)
    requires Sorted(locks)
    ensures Tracked(locks, 0, lock, locks, lock)
  {
    AllOwnParts(locks);
  }

  lemma TrackSkip(locks: seq<Lock>, i: int, k: Lock, olds: seq<Lock>, lock: Lock)
    requires Tracked(locks, i, k, olds, lock) && 0 <= i < |locks| && Proper(lock)
    requires locks[i].owner != k.owner || locks[i].end < k.start
    ensures Tracked(locks, i + 1, k, olds, lock)
  {
    if Contained(olds, lock) {
      var j :| 0 <= j < |olds| && i <= j && Contains(olds[j], lock);
      assert j != i;
    }
  }

  /** An entry of the owner that reaches the request and does not contain it: no entry does. */
  lemma TrackLeaves(locks: seq<Lock>, i: int, k: Lock, olds: seq<Lock>, lock: Lock)
    requires Tracked(locks, i, k, olds, lock) && 0 <= i < |locks| && Proper(lock) && Sorted(olds)
    requires locks[i].owner == k.owner && !Contains(locks[i], k)
    requires if locks[i].kind == k.kind then locks[i].end >= k.start - 1 else locks[i].end >= k.start
    ensures !Contained(olds, lock)
  {
    if Contained(olds, lock) {
      var j :| 0 <= j < |olds| && i <= j && Contains(olds[j], lock);
      BeforeContainer(olds, i, j, lock);
    }
  }

  lemma BeforeContainer(olds: seq<Lock>, i: int, j: int, lock: Lock)
    requires Sorted(olds) && 0 <= i <= j < |olds| && Contains(olds[j], lock) && olds[i].owner == lock.owner
    ensures Contains(olds[i], lock) || olds[i].end < lock.start - (if olds[i].kind == lock.kind then 1 else 0)
  {
    assert i < j ==> Apart(olds[i], olds[j]);
  }

  /** The entry is replaced by parts of it, or removed, and the request may grow. */
  lemma TrackCut(locks: seq<Lock>, i: int, k: Lock, k': Lock, mid: seq<Lock>, n: int, olds: seq<Lock>, lock: Lock)
    requires Tracked(locks, i, k, olds, lock) && 0 <= i < |locks| && !Contained(olds, lock) && Made(k', lock)
    requires forall m {:trigger mid[m]} :: 0 <= m < |mid| ==> Part(mid[m], locks[i])
    ensures Tracked(locks[..i] + mid + locks[i + 1..], n, k', olds, lock)
  {
    PartsCut(locks, olds, i, mid);
  }

  /** The entry goes away and the request grows by it. */
  lemma TrackMerge(locks: seq<Lock>, i: int, k: Lock, olds: seq<Lock>, lock: Lock)
    requires Tracked(locks, i, k, olds, lock) && 0 <= i < |locks| && !Contained(olds, lock)
    ensures
      var l := locks[i];
      var k' := k.(start := if l.start < k.start then l.start else k.start,
        end := if k.end < l.end then l.end else k.end);
      Tracked(locks[..i] + locks[i + 1..], i, k', olds, lock)
  {
    var l := locks[i];
    var k' := k.(start := if l.start < k.start then l.start else k.start, end := if k.end < l.end then l.end
      else k.end);
    TrackCut(locks, i, k, k', [], i, olds, lock);
    assert locks[..i] + [] + locks[i + 1..] == locks[..i] + locks[i + 1..];
  }

  /** The request is cut out of the entry. */
  lemma TrackTrim(locks: seq<Lock>, i: int, k: Lock, olds: seq<Lock>, lock: Lock)
    requires Tracked(locks, i, k, olds, lock) && 0 <= i < |locks| && !Contained(olds, lock)
    requires k.start <= locks[i].end && locks[i].start <= k.end
    ensures
      var l := locks[i];
      var low, high := l.(end := k.start - 1), l.(start := k.end + 1);
      && Tracked(locks[..i] + locks[i + 1..], i, k, olds, lock)
      && Tracked(locks[i := low], i + 1, k, olds, lock) && Tracked(locks[i := high], i, k, olds, lock)
      && Tracked(locks[..i] + [low, high] + locks[i + 1..], i + 1, k, olds, lock)
  {
    hide Tracked, Contained, Made;
    TrackMade(locks, i, k, olds, lock);
    var l := locks[i];
    var low, high := l.(end := k.start - 1), l.(start := k.end + 1);
    TrackCut(locks, i, k, k, [], i, olds, lock);
    assert locks[..i] + [] + locks[i + 1..] == locks[..i] + locks[i + 1..];
    TrackCut(locks, i, k, k, [low], i + 1, olds, lock);
    assert locks[..i] + [low] + locks[i + 1..] == locks[i := low];
    TrackCut(locks, i, k, k, [high], i, olds, lock);
    assert locks[..i] + [high] + locks[i + 1..] == locks[i := high];
    TrackCut(locks, i, k, k, [low, high], i + 1, olds, lock);
  }

  lemma TrackMade(locks: seq<Lock>, i: int, k: Lock, olds: seq<Lock>, lock: Lock)
    requires Tracked(locks, i, k, olds, lock)
    ensures Made(k, lock)
  {
  }

  lemma SignedUnchanged(locks: seq<Lock>, i: int, k: Lock, olds: seq<Lock>, lock: Lock)
    requires Tracked(locks, i, k, olds, lock) && 0 <= i < |locks| && Contains(locks[i], k)
    ensures Signed(locks, olds, lock)
  {
    assert PartOf(locks[i], olds);
    var j :| 0 <= j < |olds| && Part(locks[i], olds[j]);
    assert Contains(olds[j], lock);
  }

  lemma SignedPlaced(locks: seq<Lock>, i: int, k: Lock, olds: seq<Lock>, lock: Lock)
    requires Tracked(locks, i, k, olds, lock) && 0 <= i <= |locks| && (i == |locks| || !Contained(olds, lock))
    ensures Signed(if k.kind != Unlck then locks[..i] + [k] + locks[i..] else locks, olds, lock)
  {
    var r := locks[..i] + [k] + locks[i..];
    assert r[i] == k;
    forall m | 0 <= m < |r| ensures Made(r[m], lock) || PartOf(r[m], olds) {
      if m != i {
        assert PartOf(locks[if m < i then m else m - 1], olds);
      }
    }
  }

  /** The locks of one node. */
  class LockList {
    var locks: seq<Lock>

    /** locks_insert(): the list obeys the request and stays minimal; `false` (ENOLCK) means
        that memory ran out, and then nothing has changed. */
    method Insert(lock: Lock) returns (ok: bool)
      requires Proper(lock) && Sorted(locks)
      modifies this
      ensures Sorted(locks)
      ensures ok ==> Obeys(locks, old(locks), lock) && Signed(locks, old(locks), lock)
      ensures !ok ==> locks == old(locks) && !EverythingUnlocked(lock)
    {
      hide Means, Sorted, Before, After, Obeys, Going, Tracked, Signed, Contained, Made, AllParts;
      ghost var before := locks;
      var enough: bool := *;
      var spare := !EverythingUnlocked(lock);
      if spare && !enough {
        return false;
      }
      var k, i := lock, 0;
      GoingStart(locks, lock);
      TrackStart(locks, lock);
      while i < |locks|
        invariant 0 <= i <= |locks| && Going(locks, i, k, before, lock) && Tracked(locks, i, k, before, lock)
        invariant spare || EverythingUnlocked(k) || SplitDone(locks, i, k)
        invariant k.owner == lock.owner && k.kind == lock.kind
        decreases spare, |locks| - i
      {
        var l := locks[i];
        GoingProper(locks, i, k, before, lock);
        TrimForms(locks, i, k);
        if l.owner != k.owner {
          GoingSkip(locks, i, k, before, lock);
          TrackSkip(locks, i, k, before, lock);
          i := i + 1;
        } else if l.kind == k.kind {
          if l.end < k.start - 1 {
            GoingSkip(locks, i, k, before, lock);
            TrackSkip(locks, i, k, before, lock);
            i := i + 1;
          } else if k.end < l.start - 1 {
            StopHere(locks, i, k);
            TrackLeaves(locks, i, k, before, lock);
            break;
          } else if l.start <= k.start && k.end <= l.end {
            InsideMeans(locks, i, k);
            ObeysTransitive(locks, locks, k, before, lock);
            SignedUnchanged(locks, i, k, before, lock);
            return true;
          } else {
            TrackLeaves(locks, i, k, before, lock);
            TrackMerge(locks, i, k, before, lock);
            ghost var k0 := k;
            if l.start < k.start {
              k := k.(start := l.start);
            }
            if k.end < l.end {
              k := k.(end := l.end);
            }
            GoingMerge(locks, i, k0, before, lock, k);
            locks := locks[..i] + locks[i + 1..];
          }
        } else {
          if l.end < k.start {
            GoingSkip(locks, i, k, before, lock);
            TrackSkip(locks, i, k, before, lock);
            i := i + 1;
          } else if k.end < l.start {
            StopHere(locks, i, k);
            TrackLeaves(locks, i, k, before, lock);
            break;
          } else {
            GoingTrim(locks, i, k, before, lock);
            TrackLeaves(locks, i, k, before, lock);
            TrackTrim(locks, i, k, before, lock);
            if k.start <= l.start && l.end <= k.end {
              locks := locks[..i] + locks[i + 1..];
            } else if l.end <= k.end {
              locks := locks[i := l.(end := k.start - 1)];
              i := i + 1;
            } else if k.start <= l.start {
              locks := locks[i := l.(start := k.end + 1)];
              break;
            } else {
              assert spare;
              locks := locks[..i] + [l.(end := k.start - 1), l.(start := k.end + 1)] + locks[i + 1..];
              spare := false;
              i := i + 1;
            }
          }
        }
      }
      AtEnd(locks, k);
      Placed(locks, i, k, before, lock);
      SignedPlaced(locks, i, k, before, lock);
      if k.kind != Unlck {
        locks := locks[..i] + [k] + locks[i..];
      }
      return true;
    }

    /** locks_conflict(): the first entry in conflict with the request. */
    method Conflict(lock: Lock) returns (i: int)
      requires Proper(lock) && Sorted(locks)
      ensures 0 <= i <= |locks| && (i == |locks| <==> !Clash(locks, lock))
      ensures i < |locks| ==> Conflicts(locks[i], lock) && forall j :: 0 <= j < i ==> !Conflicts(locks[j], lock)
    {
      ConflictIsClash(locks, lock);
      hide Clash, Sorted;
      i := 0;
      while i < |locks|
        invariant 0 <= i <= |locks| && forall j :: 0 <= j < i ==> !Conflicts(locks[j], lock)
      {
        if Conflicts(locks[i], lock) {
          return;
        }
        i := i + 1;
      }
    }
  }
}
