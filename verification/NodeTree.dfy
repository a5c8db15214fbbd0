/** The directory tree cached by lib/fuse.c: which node hangs under which parent and
    name, and the walks that follow parent pointers upward from a node. */
module NodeTree {
  import opened Basics

  type Id = int

  /** FUSE_ROOT_ID. */
  const ROOT: Id := 1

  /** The `name` and `parent` fields of a node. They are set and cleared together; the
      root node has no parent and is never in the name table, so it is `Unlinked` too. */
  datatype Link = Unlinked | Linked(parent: Id, name: string)

  type Tree = map<Id, Link>

  /** A file name as the kernel sends it: one path component. */
  predicate ValidName(name: string) {
    name != "" && '/' !in name
  }

  /** `w` follows parent pointers from `n` until a node without a parent. */
  ghost predicate IsWalk(t: Tree, n: Id, w: seq<Id>) {
    && |w| > 0 && w[0] == n
    && (forall i :: 0 <= i < |w| ==> w[i] in t)
    && (forall i {:trigger t[w[i]]} :: 0 <= i < |w| - 1 ==> t[w[i]].Linked? && t[w[i]].parent == w[i + 1])
    && t[w[|w| - 1]].Unlinked?
  }

  ghost predicate HasWalk(t: Tree, n: Id) {
    exists w :: IsWalk(t, n, w)
  }

  ghost predicate WellFormed(t: Tree) {
    && ROOT in t && t[ROOT].Unlinked?
    && (forall n {:trigger t[n]} :: n in t && t[n].Linked? ==> t[n].parent in t && ValidName(t[n].name))
    && (forall a, b {:trigger t[a], t[b]} :: a in t && b in t && t[a].Linked? && t[a] == t[b] ==> a == b)
    && (forall n {:trigger HasWalk(t, n)} :: n in t ==> HasWalk(t, n))
  }

  /** The walk from `n`, or nothing when parent pointers run in a circle. */
  ghost function Walk(t: Tree, n: Id): (w: seq<Id>)
    ensures HasWalk(t, n) ==> IsWalk(t, n, w)
  {
    if HasWalk(t, n) then var w :| IsWalk(t, n, w); w else []
  }

  /** The walk from `n` ends at the root rather than at an unlinked node. */
  ghost predicate ReachesRoot(t: Tree, n: Id) {
    exists w :: IsWalk(t, n, w) && w[|w| - 1] == ROOT
  }

  /** The node lookup_node() finds for (parent, name), if any. */
  ghost function Lookup(t: Tree, parent: Id, name: string): (r: Option<Id>)
    ensures r.Some? ==> r.value in t && t[r.value] == Linked(parent, name)
    ensures r.None? ==> forall n :: n in t ==> t[n] != Linked(parent, name)
  {
    if exists n :: n in t && t[n] == Linked(parent, name) then
      var n :| n in t && t[n] == Linked(parent, name);
      Some(n)
    else None
  }

  ghost function Children(t: Tree, n: Id): set<Id> {
    set c | c in t && t[c].Linked? && t[c].parent == n
  }

  lemma {:induction false} WalkUnique(t: Tree, n: Id, v: seq<Id>, w: seq<Id>)
    requires IsWalk(t, n, v) && IsWalk(t, n, w)
    ensures v == w
    decreases |v|
  {
    if |v| > 1 && |w| > 1 {
      assert v[1] == t[v[0]].parent == w[1];
      WalkTail(t, n, v);
      WalkTail(t, n, w);
      WalkUnique(t, v[1], v[1..], w[1..]);
      assert v == [v[0]] + v[1..] && w == [w[0]] + w[1..];
    }
  }

  lemma WalkTail(t: Tree, n: Id, w: seq<Id>)
    requires IsWalk(t, n, w) && |w| > 1
    ensures IsWalk(t, w[1], w[1..])
  {
    WalkSuffix(t, n, w, 1);
  }

  lemma WalkSuffix(t: Tree, n: Id, w: seq<Id>, i: nat)
    requires IsWalk(t, n, w) && i < |w|
    ensures IsWalk(t, w[i], w[i..])
  {
    var s := w[i..];
    forall j | 0 <= j < |s| - 1
      ensures t[s[j]].Linked? && t[s[j]].parent == s[j + 1]
    {
      assert s[j] == w[i + j] && s[j + 1] == w[i + j + 1];
    }
  }

  /** No node occurs twice on a walk. */
  lemma WalkDistinct(t: Tree, n: Id, w: seq<Id>, i: nat, j: nat)
    requires IsWalk(t, n, w) && i < j < |w|
    ensures w[i] != w[j]
  {
    if w[i] == w[j] {
      WalkSuffix(t, n, w, i);
      WalkSuffix(t, n, w, j);
      WalkUnique(t, w[i], w[i..], w[j..]);
      assert false;
    }
  }

  lemma WalkCons(t: Tree, n: Id, w: seq<Id>)
    requires n in t && t[n].Linked? && IsWalk(t, t[n].parent, w)
    ensures IsWalk(t, n, [n] + w)
  {
    var v := [n] + w;
    forall i | 0 <= i < |v| - 1
      ensures t[v[i]].Linked? && t[v[i]].parent == v[i + 1]
    {
      if i > 0 {
        assert v[i] == w[i - 1] && v[i + 1] == w[i];
      }
    }
  }

  /** A node hanging under the start of a walk is not on that walk. */
  lemma ChildOffWalk(t: Tree, c: Id, n: Id, w: seq<Id>)
    requires c in t && t[c].Linked? && t[c].parent == n && IsWalk(t, n, w)
    ensures c !in w
  {
    WalkCons(t, c, w);
    if c in w {
      var j :| 0 <= j < |w| && w[j] == c;
      WalkDistinct(t, c, [c] + w, 0, j + 1);
      assert false;
    }
  }

  /** A walk survives any change to the links of nodes that are not on it. */
  lemma WalkFrame(t: Tree, t': Tree, n: Id, w: seq<Id>)
    requires IsWalk(t, n, w)
    requires forall i :: 0 <= i < |w| ==> w[i] in t' && t'[w[i]] == t[w[i]]
    ensures IsWalk(t', n, w)
  {
  }

  /** A node on a walk that ends at the root reaches the root itself. */
  lemma OnWalkReaches(t: Tree, n: Id, w: seq<Id>, m: Id)
    requires IsWalk(t, n, w) && w[|w| - 1] == ROOT && m in w
    ensures ReachesRoot(t, m)
  {
    var i :| 0 <= i < |w| && w[i] == m;
    WalkSuffix(t, n, w, i);
    assert w[i..][|w[i..]| - 1] == ROOT;
  }

  /** If any node on the walk from `n` reaches the root, `n` does. */
  lemma ReachesFromWalk(t: Tree, n: Id, w: seq<Id>, m: Id)
    requires IsWalk(t, n, w) && m in w && ReachesRoot(t, m)
    ensures w[|w| - 1] == ROOT && ReachesRoot(t, n)
  {
    var i :| 0 <= i < |w| && w[i] == m;
    WalkSuffix(t, n, w, i);
    var v :| IsWalk(t, m, v) && v[|v| - 1] == ROOT;
    WalkUnique(t, m, v, w[i..]);
  }

  lemma ParentReaches(t: Tree, n: Id, w: seq<Id>)
    requires n in t && t[n].Linked? && ReachesRoot(t, n) && IsWalk(t, t[n].parent, w)
    ensures w[|w| - 1] == ROOT && ReachesRoot(t, t[n].parent)
  {
    WalkCons(t, n, w);
    var v :| IsWalk(t, n, v) && v[|v| - 1] == ROOT;
    WalkUnique(t, n, v, [n] + w);
  }

  /** If the links of `t` and `u` agree on a walk of `u` up to a node from which `t` reaches
      the root, then `t` reaches the root from the start of the walk. */
  lemma {:induction false} PrefixReaches(t: Tree, u: Tree, n: Id, w: seq<Id>, i: int)
    requires IsWalk(u, n, w) && 0 <= i < |w| && ReachesRoot(t, w[i])
    requires forall j {:trigger w[j]} :: 0 <= j < i ==> w[j] in t && t[w[j]] == u[w[j]]
    ensures ReachesRoot(t, n)
    decreases i
  {
    if i > 0 {
      var v :| IsWalk(t, w[i], v) && v[|v| - 1] == ROOT;
      assert u[w[i - 1]].parent == w[i];
      WalkCons(t, w[i - 1], v);
      assert ([w[i - 1]] + v)[|v|] == ROOT;
      PrefixReaches(t, u, n, w, i - 1);
    }
  }

  // ---- what tree updates do to walks and well-formedness ----

  /** Clearing the link of one node cuts walks at that node and leaves the others alone. */
  lemma UnlinkWalk(t: Tree, x: Id, n: Id, w: seq<Id>)
    requires x in t && IsWalk(t, n, w)
    ensures HasWalk(t[x := Unlinked], n)
    ensures x !in w ==> IsWalk(t[x := Unlinked], n, w)
  {
    var t' := t[x := Unlinked];
    if x in w {
      var i :| 0 <= i < |w| && w[i] == x;
      var v := w[..i + 1];
      forall j | 0 <= j < |v| - 1
        ensures t'[v[j]].Linked? && t'[v[j]].parent == v[j + 1]
      {
        WalkDistinct(t, n, w, j, i);
      }
      assert IsWalk(t', n, v);
    } else {
      WalkFrame(t, t', n, w);
    }
  }

  lemma UnlinkWellFormed(t: Tree, x: Id)
    requires WellFormed(t) && x in t
    ensures WellFormed(t[x := Unlinked])
  {
    var t' := t[x := Unlinked];
    forall n | n in t' ensures HasWalk(t', n) {
      UnlinkWalk(t, x, n, Walk(t, n));
    }
  }

  /** Hanging an unlinked node under a directory whose walk avoids it. */
  lemma LinkWalk(t: Tree, x: Id, p: Id, name: string, wp: seq<Id>, n: Id, w: seq<Id>)
    requires x in t && t[x].Unlinked? && IsWalk(t, p, wp) && x !in wp && IsWalk(t, n, w)
    ensures HasWalk(t[x := Linked(p, name)], n)
    ensures x !in w ==> IsWalk(t[x := Linked(p, name)], n, w)
  {
    var t' := t[x := Linked(p, name)];
    if x in w {
      var i :| 0 <= i < |w| && w[i] == x;
      assert i == |w| - 1;
      var v := w + wp;
      forall j | 0 <= j < |v| - 1
        ensures t'[v[j]].Linked? && t'[v[j]].parent == v[j + 1]
      {
        if j < |w| - 1 {
          WalkDistinct(t, n, w, j, i);
        } else if j >= |w| {
          assert v[j] == wp[j - |w|] && v[j + 1] == wp[j + 1 - |w|];
        }
      }
      assert v[|v| - 1] == wp[|wp| - 1];
      assert IsWalk(t', n, v);
    } else {
      WalkFrame(t, t', n, w);
    }
  }

  lemma LinkWellFormed(t: Tree, x: Id, p: Id, name: string, wp: seq<Id>)
    requires WellFormed(t) && x in t && x != ROOT && t[x].Unlinked?
    requires p in t && IsWalk(t, p, wp) && x !in wp
    requires ValidName(name) && forall n :: n in t ==> t[n] != Linked(p, name)
    ensures WellFormed(t[x := Linked(p, name)])
  {
    var t' := t[x := Linked(p, name)];
    forall n | n in t' ensures HasWalk(t', n) {
      LinkWalk(t, x, p, name, wp, n, Walk(t, n));
    }
  }

  /** A fresh, still unlinked node. */
  lemma FreshWellFormed(t: Tree, x: Id)
    requires WellFormed(t) && x !in t
    ensures WellFormed(t[x := Unlinked])
    ensures forall n, w :: IsWalk(t, n, w) ==> IsWalk(t[x := Unlinked], n, w)
  {
    var t' := t[x := Unlinked];
    forall n, w | IsWalk(t, n, w) ensures IsWalk(t', n, w) {
      WalkFrame(t, t', n, w);
    }
    forall n | n in t' ensures HasWalk(t', n) {
      if n == x {
        assert IsWalk(t', x, [x]);
      } else {
        assert IsWalk(t', n, Walk(t, n));
      }
    }
  }

  /** Only the walk that starts at a childless node passes through it. */
  lemma LeafOffWalk(t: Tree, x: Id, n: Id, w: seq<Id>)
    requires Children(t, x) == {} && IsWalk(t, n, w) && n != x
    ensures x !in w
  {
    forall i | 0 < i < |w| ensures w[i] != x {
      assert w[i - 1] in Children(t, w[i]);
    }
  }

  lemma DropWellFormed(t: Tree, x: Id)
    requires WellFormed(t) && x in t && x != ROOT && Children(t, x) == {}
    ensures WellFormed(t - {x})
  {
    var t' := t - {x};
    forall n | n in t' && t'[n].Linked? ensures t'[n].parent in t' {
      assert n in Children(t, t[n].parent);
    }
    forall n | n in t' ensures HasWalk(t', n) {
      LeafOffWalk(t, x, n, Walk(t, n));
      WalkFrame(t, t', n, Walk(t, n));
    }
  }
}
