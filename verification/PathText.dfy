/** Path strings: the buffer that try_get_path() fills from the back, and the lookup of a
    path in the cache. The two undo each other. */
module PathText {
  import opened Basics
  import opened NodeTree

  function NameOf(t: Tree, n: Id): string {
    if n in t && t[n].Linked? then t[n].name else ""
  }

  /** The path along a chain of nodes, the last one nearest to the root. */
  function Text(t: Tree, chain: seq<Id>): string {
    if chain == [] then ""
    else "/" + NameOf(t, chain[|chain| - 1]) + Text(t, chain[..|chain| - 1])
  }

  function Tail(name: Option<string>): string {
    if name.Some? then "/" + name.value else ""
  }

  /** The string handed out: the root is "/". */
  function Printed(s: string): string {
    if s == "" then "/" else s
  }

  // ---- add_name() ----

  /** One turn of the loop that looks for a new buffer size. */
  function Grow(size: int): int {
    if size >= 0x8000_0000 then UINT_MAX else size * 2
  }

  function Grown(size: int, turns: nat): int
    decreases turns
  {
    if turns == 0 then size else Grown(Grow(size), turns - 1)
  }

  lemma {:induction false} GrownBound(size: int, turns: nat)
    requires 0 < size <= UINT_MAX
    ensures 0 < Grown(size, turns) <= UINT_MAX
    decreases turns
  {
    if turns > 0 {
      GrownBound(Grow(size), turns - 1);
    }
  }

  lemma {:induction false} GrowsToLargest(size: int) returns (turns: nat)
    requires 0 < size <= UINT_MAX
    ensures Grown(size, turns) == UINT_MAX
    decreases UINT_MAX - size
  {
    if size == UINT_MAX {
      turns := 0;
    } else {
      turns := GrowsToLargest(Grow(size));
      turns := turns + 1;
    }
  }

  /** The loop of add_name() ends iff what is needed fits an unsigned int; else it goes on for
      ever with the largest one. */
  lemma GrowthEndsIff(size: int, need: int)
    requires 0 < size <= UINT_MAX
    ensures (exists turns: nat :: need <= Grown(size, turns)) <==> need <= UINT_MAX
  {
    if need <= UINT_MAX {
      var turns := GrowsToLargest(size);
      assert need <= Grown(size, turns);
    }
    forall turns: nat ensures Grown(size, turns) <= UINT_MAX {
      GrownBound(size, turns);
    }
  }

  /** `buf`, `bufsize` and `s` of try_get_path(): a NUL-terminated string that ends at the end
      of the buffer. */
  class PathBuffer {
    var buf: array<char>
    var s: int

    ghost predicate Valid()
      reads this, buf
    {
      0 <= s < buf.Length <= UINT_MAX && buf[buf.Length - 1] == '\0'
    }

    ghost function Contents(): string
      requires Valid()
      reads this, buf
    {
      buf[s..buf.Length - 1]
    }

    constructor ()
      ensures Valid() && Contents() == "" && fresh(buf)
    {
      buf := new char[256];
      s := 255;
      new;
      buf[255] := '\0';
    }

    /** The string handed out. */
    method Print() returns (path: string)
      requires Valid()
      ensures path == Printed(Contents())
    {
      path := if s == buf.Length - 1 then "/" else buf[s..buf.Length - 1];
    }

    /** The size realloc() is asked for: doubled until `need` bytes fit, capped at the largest
        unsigned value. */
    method GrownSize(size: int, need: int) returns (newsize: int)
      requires 0 < size <= UINT_MAX && need <= UINT_MAX
      ensures size <= newsize <= UINT_MAX && need <= newsize
      ensures size >= need ==> newsize == size
    {
      newsize := size;
      while newsize < need
        invariant size <= newsize <= UINT_MAX
        invariant size >= need ==> newsize == size
        decreases UINT_MAX - newsize
      {
        if newsize >= 0x8000_0000 {
          newsize := UINT_MAX;
        } else {
          newsize := newsize * 2;
        }
      }
    }

    /** add_name(): put "/name" in front. `false` means that realloc() failed; a path whose
        length does not fit an unsigned int would make the C loop spin for ever. */
    method AddName(name: string) returns (ok: bool)
      requires Valid() && |Contents()| + |name| + 2 <= UINT_MAX
      modifies this, buf
      ensures Valid() && (buf == old(buf) || fresh(buf))
      ensures Contents() == if ok then "/" + name + old(Contents()) else old(Contents())
    {
      var len := |name|;
      if s - len <= 0 {
        var pathlen := buf.Length - s;
        var newsize := GrownSize(buf.Length, pathlen + len + 1);
        var enough: bool := *;
        if !enough {
          return false;
        }
        Regrow(newsize, pathlen);
      }
      Prepend(name);
      ok := true;
    }

    method Prepend(name: string)
      requires Valid() && |name| < s
      modifies this`s, buf
      ensures Valid() && Contents() == "/" + name + old(Contents())
    {
      s := s - |name|;
      CopyIn(name);
      s := s - 1;
      buf[s] := '/';
      assert buf[s..s + 1 + |name|] == "/" + name;
      assert buf[s..buf.Length - 1] == buf[s..s + 1 + |name|] + buf[s + 1 + |name|..buf.Length - 1];
    }

    /** realloc() and memmove(): the string moves to the end of the larger buffer. */
    method Regrow(newsize: int, pathlen: int)
      requires Valid() && pathlen == buf.Length - s && buf.Length <= newsize <= UINT_MAX
      modifies this
      ensures Valid() && fresh(buf) && buf.Length == newsize && s == newsize - pathlen
      ensures Contents() == old(Contents())
    {
      var newbuf := new char[newsize];
      var start := newsize - pathlen;
      for i := 0 to pathlen
        modifies newbuf
        invariant newbuf[start..start + i] == buf[s..s + i]
      {
        newbuf[start + i] := buf[s + i];
      }
      assert newbuf[start..newsize][..pathlen - 1] == newbuf[start..newsize - 1];
      assert buf[s..buf.Length][..pathlen - 1] == buf[s..buf.Length - 1];
      assert newbuf[start..newsize][pathlen - 1] == newbuf[newsize - 1];
      buf := newbuf;
      s := start;
    }

    method CopyIn(name: string)
      requires 0 <= s && s + |name| < buf.Length
      modifies buf
      ensures buf[s..s + |name|] == name
      ensures forall j :: s + |name| <= j < buf.Length ==> buf[j] == old(buf[j])
    {
      for i := 0 to |name|
        modifies buf
        invariant buf[s..s + i] == name[..i]
        invariant forall j :: s + |name| <= j < buf.Length ==> buf[j] == old(buf[j])
      {
        buf[s + i] := name[i];
      }
    }
  }

  // ---- strtok_r() and lookup_path_in_cache() ----

  /** The pieces strtok_r() yields for the separator "/": maximal runs of other characters. */
  function Tokens(s: string): seq<string> {
    if s == "" then []
    else if s[0] == '/' then Tokens(s[1..])
    else
      var k := RunLength(s);
      [s[..k]] + Tokens(s[k..])
  }

  function RunLength(s: string): (k: nat)
    ensures k <= |s| && forall j :: 0 <= j < k ==> s[j] != '/'
    ensures k < |s| ==> s[k] == '/'
    ensures s != "" && s[0] != '/' ==> k > 0
  {
    if s == "" || s[0] == '/' then 0 else RunLength(s[1..]) + 1
  }

  /** Follow names from a directory. */
  ghost function Follow(t: Tree, from: Id, names: seq<string>): Option<Id>
    decreases |names|
  {
    if names == [] then Some(from)
    else
      var n := Lookup(t, from, names[0]);
      if n.None? then None else Follow(t, n.value, names[1..])
  }

  ghost function LookupPath(t: Tree, path: string): Option<Id> {
    Follow(t, ROOT, Tokens(path))
  }

  function Names(t: Tree, chain: seq<Id>): seq<string> {
    if chain == [] then []
    else [NameOf(t, chain[|chain| - 1])] + Names(t, chain[..|chain| - 1])
  }

  lemma {:induction false} RunStops(a: string, b: string)
    requires '/' !in a && (b == "" || b[0] == '/')
    ensures RunLength(a + b) == |a|
    decreases |a|
  {
    if a != "" {
      assert (a + b)[1..] == a[1..] + b;
      RunStops(a[1..], b);
    }
  }

  lemma TokensCons(name: string, rest: string)
    requires ValidName(name) && (rest == "" || rest[0] == '/')
    ensures Tokens("/" + name + rest) == [name] + Tokens(rest)
  {
    var s := "/" + name + rest;
    assert s[1..] == name + rest;
    RunStops(name, rest);
    assert (name + rest)[..|name|] == name && (name + rest)[|name|..] == rest;
  }

  ghost predicate ValidNames(t: Tree, chain: seq<Id>) {
    forall i {:trigger chain[i]} :: 0 <= i < |chain| ==> ValidName(NameOf(t, chain[i]))
  }

  lemma TextUnfold(t: Tree, chain: seq<Id>, tail: string)
    requires chain != [] && ValidNames(t, chain)
    ensures var last, rest := chain[|chain| - 1], chain[..|chain| - 1];
      && ValidName(NameOf(t, last)) && ValidNames(t, rest)
      && Text(t, chain) + tail == "/" + NameOf(t, last) + (Text(t, rest) + tail)
      && Names(t, chain) == [NameOf(t, last)] + Names(t, rest)
  {
    var rest := chain[..|chain| - 1];
    forall i | 0 <= i < |rest| ensures ValidName(NameOf(t, rest[i])) {
      assert rest[i] == chain[i];
    }
  }

  lemma TextEmpty(t: Tree, tail: string)
    ensures Text(t, []) + tail == tail && Names(t, []) + Tokens(tail) == Tokens(tail)
  {
  }

  /** Splitting a printed path gives back the names along the chain. */
  lemma {:induction false} TokensText(t: Tree, chain: seq<Id>, tail: string)
    requires ValidNames(t, chain) && (tail == "" || tail[0] == '/')
    ensures Tokens(Text(t, chain) + tail) == Names(t, chain) + Tokens(tail)
    decreases |chain|
  {
    hide *;
    if chain == [] {
      TextEmpty(t, tail);
    } else {
      var name, rest := NameOf(t, chain[|chain| - 1]), chain[..|chain| - 1];
      TextUnfold(t, chain, tail);
      TokensText(t, rest, tail);
      TextStart(t, rest);
      TokensCons(name, Text(t, rest) + tail);
      assert [name] + (Names(t, rest) + Tokens(tail)) == Names(t, chain) + Tokens(tail);
    }
  }

  lemma TextStart(t: Tree, chain: seq<Id>)
    ensures Text(t, chain) == "" || Text(t, chain)[0] == '/'
  {
  }

  lemma ChainValid(t: Tree, n: Id, chain: seq<Id>)
    requires WellFormed(t) && IsWalk(t, n, chain + [ROOT])
    ensures ValidNames(t, chain)
  {
    var w := chain + [ROOT];
    forall i | 0 <= i < |chain| ensures ValidName(NameOf(t, chain[i])) {
      assert chain[i] == w[i];
      var m := w[i];
      assert t[m].Linked?;
    }
  }

  lemma {:induction false} FollowAppend(t: Tree, from: Id, a: seq<string>, b: seq<string>)
    requires Follow(t, from, a).Some?
    ensures Follow(t, from, a + b) == Follow(t, Follow(t, from, a).value, b)
    decreases |a|
  {
    if a == [] {
      assert a + b == b;
    } else {
      assert (a + b)[1..] == a[1..] + b;
      FollowAppend(t, Lookup(t, from, a[0]).value, a[1..], b);
    }
  }

  /** Following the names of a chain from the root arrives at its first node. */
  lemma {:induction false} FollowChain(t: Tree, n: Id, chain: seq<Id>)
    requires WellFormed(t) && IsWalk(t, n, chain + [ROOT])
    ensures Follow(t, ROOT, Names(t, chain)) == Some(n)
    decreases |chain|
  {
    var w := chain + [ROOT];
    if chain != [] {
      NamesFront(t, chain);
      assert w[0] == n && chain[0] == n;
      WalkTail(t, n, w);
      assert w[1..] == chain[1..] + [ROOT];
      FollowChain(t, w[1], chain[1..]);
      FollowAppend(t, ROOT, Names(t, chain[1..]), [NameOf(t, n)]);
      assert t[n] == Linked(w[1], NameOf(t, n));
      var m := Lookup(t, w[1], NameOf(t, n)).value;
      assert t[m] == t[n];
    }
  }

  lemma {:induction false} NamesFront(t: Tree, chain: seq<Id>)
    requires chain != []
    ensures Names(t, chain) == Names(t, chain[1..]) + [NameOf(t, chain[0])]
    decreases |chain|
  {
    if |chain| > 1 {
      var rest := chain[..|chain| - 1];
      NamesFront(t, rest);
      assert rest[1..] == chain[1..][..|chain| - 2];
      assert chain[1..][|chain| - 2] == chain[|chain| - 1];
    }
  }

  /** Looking up the printed path of a node finds the node, and the printed path of an entry
      finds whatever the cache holds under that name. */
  lemma PathRoundTrip(t: Tree, n: Id, chain: seq<Id>, name: Option<string>)
    requires WellFormed(t) && IsWalk(t, n, chain + [ROOT]) && (name.Some? ==> ValidName(name.value))
    ensures LookupPath(t, Printed(Text(t, chain) + Tail(name))) ==
      if name.Some? then Lookup(t, n, name.value) else Some(n)
  {
    ChainValid(t, n, chain);
    TokensText(t, chain, Tail(name));
    FollowChain(t, n, chain);
    PrintedTokens(Text(t, chain) + Tail(name));
    TailTokens(name);
    FollowAppend(t, ROOT, Names(t, chain), Tokens(Tail(name)));
  }

  lemma PrintedTokens(s: string)
    ensures Tokens(Printed(s)) == Tokens(s)
  {
    assert "/"[1..] == "";
    assert Tokens("/") == Tokens("");
  }

  lemma TailTokens(name: Option<string>)
    requires name.Some? ==> ValidName(name.value)
    ensures Tokens(Tail(name)) == if name.Some? then [name.value] else []
  {
    if name.Some? {
      TokensCons(name.value, "");
      assert "/" + name.value + "" == Tail(name);
    }
  }
}
