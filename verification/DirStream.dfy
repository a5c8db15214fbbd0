/** Directory streams: fuse_add_direntry() and fuse_add_direntry_plus() of
    lib/fuse_lowlevel.c and the paging of a cached directory list in lib/fuse.c. Whoever
    reads on from the offset of the last entry decodes every entry once and in order. */
module DirStream {
  import opened Basics
  import opened Memcpy

  /** A cached directory entry; `name` are the bytes of a C string. */
  datatype Entry = Entry(ino: int, kind: int, name: seq<int>)

  /** Everything in front of the name: inode, offset, name length and type. */
  const HEADER: int := 24

  /** sizeof(struct fuse_entry_out), the part a "plus" record has in front. */
  const PLUS: int := 128

  function Power(k: nat): int {
    if k == 0 then 1 else 256 * Power(k - 1)
  }

  predicate Encodable(e: Entry) {
    0 <= e.ino < Power(8) && 0 <= e.kind < 16 && |e.name| < Power(4)
  }

  // ---- integers ----

  /** `n` in `k` bytes, least significant first. */
  function Bytes(n: int, k: nat): (r: seq<int>)
    ensures |r| == k
    decreases k
  {
    if k == 0 then [] else [n % 256] + Bytes(n / 256, k - 1)
  }

  function Number(b: seq<int>): int {
    if b == [] then 0 else b[0] + 256 * Number(b[1..])
  }

  lemma {:induction false} NumberOfBytes(n: int, k: nat)
    requires 0 <= n < Power(k)
    ensures Number(Bytes(n, k)) == n
    decreases k
  {
    if k > 0 {
      NumberOfBytes(n / 256, k - 1);
      assert Bytes(n, k)[1..] == Bytes(n / 256, k - 1);
    }
  }

  function Zeros(k: nat): (r: seq<int>)
    ensures |r| == k
  {
    seq(k, i => 0)
  }

  /** FUSE_DIRENT_ALIGN. */
  function Align(n: int): (r: int)
    ensures n <= r < n + 8 && r % 8 == 0
  {
    (n + 7) / 8 * 8
  }

  // ---- records ----

  /** The length of a record behind `p` bytes of prefix. */
  function RecordLength(p: int, e: Entry): int {
    Align(p + HEADER + |e.name|)
  }

  /** The record of an entry; `off` is where reading goes on after it. */
  function Encode(prefix: seq<int>, e: Entry, off: int): (r: seq<int>)
    ensures |r| == RecordLength(|prefix|, e)
  {
    prefix + Bytes(e.ino, 8) + Bytes(off, 8) + Bytes(|e.name|, 4) + Bytes(e.kind, 4) + e.name
    + Zeros(RecordLength(|prefix|, e) - (|prefix| + HEADER + |e.name|))
  }

  datatype Decoded = Decoded(entry: Entry, off: int, len: int) | Garbled

  /** One record at the front of `b`. */
  function DecodeOne(p: nat, b: seq<int>): (r: Decoded)
    ensures r.Decoded? ==> 0 < r.len <= |b|
  {
    if |b| < p + HEADER then Garbled
    else
      var namelen := Number(b[p + 16..p + 20]);
      var len := Align(p + HEADER + namelen);
      if namelen < 0 || |b| < len then Garbled
      else
        Decoded(Entry(Number(b[p..p + 8]), Number(b[p + 20..p + 24]), b[p + 24..p + 24 + namelen]),
          Number(b[p + 8..p + 16]), len)
  }

  /** A whole reply. */
  function Decode(p: nat, b: seq<int>): seq<(Entry, int)>
    decreases |b|
  {
    if b == [] then []
    else
      var d := DecodeOne(p, b);
      if d.Garbled? then [] else [(d.entry, d.off)] + Decode(p, b[d.len..])
  }

  lemma Front(a: seq<int>, b: seq<int>)
    ensures (a + b)[0..|a|] == a && (a + b)[..|a|] == a && (a + b)[|a|..] == b
  {
  }

  /** Where the fields of a record are. */
  lemma Fields(p: seq<int>, i: seq<int>, o: seq<int>, n: seq<int>, k: seq<int>, name: seq<int>, rest: seq<int>)
    requires |i| == 8 && |o| == 8 && |n| == 4 && |k| == 4
    ensures var b := p + (i + (o + (n + (k + (name + rest)))));
      && b[|p|..|p| + 8] == i && b[|p| + 8..|p| + 16] == o && b[|p| + 16..|p| + 20] == n && b[|p| + 20..|p| + 24] == k
      && b[|p| + 24..|p| + 24 + |name|] == name && b[|p| + 24 + |name|..] == rest
  {
    var b := p + (i + (o + (n + (k + (name + rest)))));
    var p1 := p + i;
    var p2 := p1 + o;
    var p3 := p2 + n;
    var p4 := p3 + k;
    Regroup(p, i, o + (n + (k + (name + rest))));
    Regroup(p1, o, n + (k + (name + rest)));
    Regroup(p2, n, k + (name + rest));
    Regroup(p3, k, name + rest);
    Regroup(p4, name, rest);
  }

  lemma Regroup(a: seq<int>, b: seq<int>, c: seq<int>)
    ensures a + (b + c) == (a + b) + c
    ensures (a + (b + c))[|a|..|a| + |b|] == b && (a + (b + c))[|a| + |b|..] == c
  {
  }

  lemma RecordParts(prefix: seq<int>, e: Entry, off: int, rest: seq<int>)
    ensures var b, p := Encode(prefix, e, off) + rest, |prefix|;
      && p + HEADER + |e.name| <= |b|
      && b[p..p + 8] == Bytes(e.ino, 8) && b[p + 8..p + 16] == Bytes(off, 8)
      && b[p + 16..p + 20] == Bytes(|e.name|, 4) && b[p + 20..p + 24] == Bytes(e.kind, 4)
      && b[p + 24..p + 24 + |e.name|] == e.name
      && b[RecordLength(p, e)..] == rest
  {
    hide Bytes, Zeros;
    var p := |prefix|;
    var i, o, n, k := Bytes(e.ino, 8), Bytes(off, 8), Bytes(|e.name|, 4), Bytes(e.kind, 4);
    var z := Zeros(RecordLength(p, e) - (p + HEADER + |e.name|));
    assert Encode(prefix, e, off) + rest == prefix + (i + (o + (n + (k + (e.name + (z + rest))))));
    Fields(prefix, i, o, n, k, e.name, z + rest);
    Front(Encode(prefix, e, off), rest);
  }

  /** Decoding undoes encoding. */
  lemma DecodeEncoded(prefix: seq<int>, e: Entry, off: int, rest: seq<int>)
    requires Encodable(e) && 0 <= off < Power(8)
    ensures DecodeOne(|prefix|, Encode(prefix, e, off) + rest) == Decoded(e, off, RecordLength(|prefix|, e))
    ensures (Encode(prefix, e, off) + rest)[RecordLength(|prefix|, e)..] == rest
  {
    hide Encode, Bytes, Number, Power, Align;
    RecordParts(prefix, e, off, rest);
    NumberOfBytes(e.ino, 8);
    NumberOfBytes(off, 8);
    NumberOfBytes(|e.name|, 4);
    KindFits(e.kind);
    NumberOfBytes(e.kind, 4);
  }

  lemma KindFits(k: int)
    requires 0 <= k < 16
    ensures 0 <= k < Power(4)
  {
    assert Power(4) == 256 * Power(3) && Power(3) == 256 * Power(2) && Power(2) == 256 * Power(1) &&
      Power(1) == 256 * Power(0);
  }

  // ---- pages ----

  /** What a "plus" record has in front of the entry, or nothing. */
  type Prefix = Entry -> seq<int>

  ghost predicate Prefixed(pre: Prefix, p: nat) {
    (p == 0 || p == PLUS) && forall e {:trigger pre(e)} :: |pre(e)| == p
  }

  predicate AllEncodable(entries: seq<Entry>) {
    |entries| < Power(8) && forall i {:trigger entries[i]} :: 0 <= i < |entries| ==> Encodable(entries[i])
  }

  /** The records that fit into `room` bytes, from the i-th entry on. */
  function Page(pre: Prefix, entries: seq<Entry>, i: nat, room: int): seq<int>
    decreases |entries| - i
  {
    if i >= |entries| then []
    else
      var r := Encode(pre(entries[i]), entries[i], i + 1);
      if |r| > room then [] else r + Page(pre, entries, i + 1, room - |r|)
  }

  /** The first entry that is not on the page. */
  function Stop(p: int, entries: seq<Entry>, i: nat, room: int): (j: nat)
    ensures i <= j && (i <= |entries| ==> j <= |entries|)
    decreases |entries| - i
  {
    if i >= |entries| then i
    else
      var n := RecordLength(p, entries[i]);
      if n > room then i else Stop(p, entries, i + 1, room - n)
  }

  /** The entries from the i-th to the j-th, each with the offset behind it. */
  function Listing(entries: seq<Entry>, i: nat, j: nat): seq<(Entry, int)>
    decreases j - i
  {
    if i >= j || i >= |entries| then [] else [(entries[i], i + 1)] + Listing(entries, i + 1, j)
  }

  /** A page stays within the room, is a multiple of eight bytes long, and decodes to the
      entries that are on it. */
  lemma {:induction false} DecodePage(pre: Prefix, p: nat, entries: seq<Entry>, i: nat, room: int)
    requires Prefixed(pre, p) && AllEncodable(entries) && 0 <= room
    ensures |Page(pre, entries, i, room)| <= room && |Page(pre, entries, i, room)| % 8 == 0
    ensures Decode(p, Page(pre, entries, i, room)) == Listing(entries, i, Stop(p, entries, i, room))
    decreases |entries| - i
  {
    hide Encode, Power, Align, Decode, Encodable, Page;
    PageStep(pre, entries, i, room);
    DecodeNothing(p);
    if i < |entries| {
      var e := entries[i];
      var r := Encode(pre(e), e, i + 1);
      if |r| <= room {
        DecodePage(pre, p, entries, i + 1, room - |r|);
        DecodeRecord(pre(e), e, i + 1, Page(pre, entries, i + 1, room - |r|));
      }
    }
  }

  lemma DecodeNothing(p: nat)
    ensures Decode(p, []) == []
  {
  }

  lemma DecodeRecord(prefix: seq<int>, e: Entry, off: int, rest: seq<int>)
    requires Encodable(e) && 0 <= off < Power(8)
    ensures Decode(|prefix|, Encode(prefix, e, off) + rest) == [(e, off)] + Decode(|prefix|, rest)
  {
    hide Encode, Power, Align, DecodeOne, Encodable;
    DecodeEncoded(prefix, e, off, rest);
    assert |Encode(prefix, e, off)| > 0;
  }

  lemma {:induction false} ListingJoin(entries: seq<Entry>, i: nat, j: nat, k: nat)
    requires i <= j <= k
    ensures Listing(entries, i, j) + Listing(entries, j, k) == Listing(entries, i, k)
    decreases j - i
  {
    if i < j && i < |entries| {
      ListingJoin(entries, i + 1, j, k);
    } else if i < j {
      assert Listing(entries, j, k) == [] == Listing(entries, i, k);
    }
  }

  lemma {:induction false} ListingLast(entries: seq<Entry>, i: nat, j: nat)
    requires i <= j <= |entries|
    ensures |Listing(entries, i, j)| == j - i && (i < j ==> Listing(entries, i, j)[j - i - 1].1 == j)
    ensures forall k :: 0 <= k < j - i ==> Listing(entries, i, j)[k] == (entries[i + k], i + k + 1)
    decreases j - i
  {
    if i < j {
      ListingLast(entries, i + 1, j);
      var all, rest := Listing(entries, i, j), Listing(entries, i + 1, j);
      assert all == [(entries[i], i + 1)] + rest;
      forall k | 0 <= k < j - i ensures all[k] == (entries[i + k], i + k + 1) {
        if k > 0 {
          assert all[k] == rest[k - 1];
        }
      }
    }
  }

  /** A reader that asks for pages of the given sizes, each time from the offset of the last
      entry it has seen. */
  function ReadOn(pre: Prefix, p: nat, entries: seq<Entry>, off: nat, sizes: seq<nat>): seq<(Entry, int)>
    decreases |sizes|
  {
    if sizes == [] then []
    else
      var got := Decode(p, Page(pre, entries, off, sizes[0]));
      var next := if got == [] || got[|got| - 1].1 < 0 then off else got[|got| - 1].1;
      got + ReadOn(pre, p, entries, next, sizes[1..])
  }

  /** How far that reader gets. */
  function Reached(p: nat, entries: seq<Entry>, off: nat, sizes: seq<nat>): nat
    decreases |sizes|
  {
    if sizes == [] then off else Reached(p, entries, Stop(p, entries, off, sizes[0]), sizes[1..])
  }

  /** Whatever the page sizes, the reader sees consecutive entries, each once and in order. */
  lemma {:induction false} ReadsInOrder(pre: Prefix, p: nat, entries: seq<Entry>, off: nat, sizes: seq<nat>)
    requires Prefixed(pre, p) && AllEncodable(entries) && off <= |entries|
    ensures off <= Reached(p, entries, off, sizes) <= |entries|
    ensures ReadOn(pre, p, entries, off, sizes) == Listing(entries, off, Reached(p, entries, off, sizes))
    decreases |sizes|
  {
    hide Page, Decode, AllEncodable, Listing, Stop, Prefixed;
    ListingLast(entries, off, off);
    if sizes != [] {
      var stop := Stop(p, entries, off, sizes[0]);
      DecodePage(pre, p, entries, off, sizes[0]);
      ListingLast(entries, off, stop);
      ReadsInOrder(pre, p, entries, stop, sizes[1..]);
      ListingJoin(entries, off, stop, Reached(p, entries, off, sizes));
    }
  }

  /** Each page has room for the next entry, as long as there is one. */
  predicate RoomForNext(p: nat, entries: seq<Entry>, off: nat, sizes: seq<nat>)
    decreases |sizes|
  {
    if sizes == [] || off >= |entries| then true
    else
      && RecordLength(p, entries[off]) <= sizes[0]
      && RoomForNext(p, entries, Stop(p, entries, off, sizes[0]), sizes[1..])
  }

  /** With room for the next entry on every page, as many pages as there are entries are
      enough to see them all. */
  lemma {:induction false} ReadsAll(pre: Prefix, p: nat, entries: seq<Entry>, off: nat, sizes: seq<nat>)
    requires Prefixed(pre, p) && AllEncodable(entries) && off <= |entries| <= off + |sizes|
    requires RoomForNext(p, entries, off, sizes)
    ensures Reached(p, entries, off, sizes) == |entries|
    ensures ReadOn(pre, p, entries, off, sizes) == Listing(entries, off, |entries|)
    decreases |sizes|
  {
    hide Page, Decode, AllEncodable;
    ReadsInOrder(pre, p, entries, off, sizes);
    if sizes != [] {
      var stop := Stop(p, entries, off, sizes[0]);
      if off < |entries| {
        assert stop > off;
        ReadsAll(pre, p, entries, stop, sizes[1..]);
      } else {
        ReachedEnd(p, entries, off, sizes);
      }
    }
  }

  lemma {:induction false} ReachedEnd(p: nat, entries: seq<Entry>, off: nat, sizes: seq<nat>)
    requires off == |entries|
    ensures Reached(p, entries, off, sizes) == off
    decreases |sizes|
  {
    if sizes != [] {
      ReachedEnd(p, entries, off, sizes[1..]);
    }
  }

  // ---- fuse_add_direntry() and readdir_fill_from_list() ----

  /** fuse_add_direntry() and fuse_add_direntry_plus(): the length of the record, which is
      written only if it fits. */
  method AddDirentry(buf: array<int>, at: int, bufsize: int, prefix: seq<int>, e: Entry, off: int) returns (entlen: int)
    requires 0 <= at && 0 <= bufsize && at + bufsize <= buf.Length
    modifies buf
    ensures entlen == RecordLength(|prefix|, e)
    ensures buf[..] == if entlen <= bufsize then Pasted(old(buf[..]), at, Encode(prefix, e, off)) else old(buf[..])
  {
    hide Pasted, Bytes, Zeros;
    ghost var before := buf[..];
    var unpadded := |prefix| + HEADER + |e.name|;
    entlen := Align(unpadded);
    if entlen <= bufsize {
      var header := prefix + Bytes(e.ino, 8) + Bytes(off, 8) + Bytes(|e.name|, 4) + Bytes(e.kind, 4);
      Put(buf, at, header);
      Put(buf, at + |header|, e.name);
      Put(buf, at + unpadded, Zeros(entlen - unpadded));
      PastedMore(before, at, header, e.name);
      PastedMore(before, at, header + e.name, Zeros(entlen - unpadded));
      assert header + e.name + Zeros(entlen - unpadded) == Encode(prefix, e, off);
    }
  }

  /** `struct fuse_dh` with a filled list. */
  class DirHandle {
    var contents: array<int>
    var len: int
    var needlen: int
    var entries: seq<Entry>

    ghost predicate Valid()
      reads this
    {
      0 <= len <= contents.Length <= UINT_MAX && 0 <= needlen <= UINT_MAX
    }

    /** extend_contents(): room for `minsize` bytes, or no memory. */
    method ExtendContents(minsize: int) returns (ok: bool)
      requires Valid() && 0 <= minsize <= UINT_MAX
      modifies this`contents
      ensures Valid() && (contents == old(contents) || fresh(contents))
      ensures ok ==> contents.Length >= minsize && contents.Length >= old(contents.Length)
      ensures ok ==> contents[..old(contents.Length)] == old(contents[..])
      ensures !ok ==> contents == old(contents)
    {
      if minsize > contents.Length {
        var newsize := if contents.Length == 0 then 1024 else contents.Length;
        while newsize < minsize
          invariant contents.Length <= newsize <= UINT_MAX && 0 < newsize
          decreases UINT_MAX - newsize
        {
          if newsize >= 0x8000_0000 {
            newsize := UINT_MAX;
          } else {
            newsize := newsize * 2;
          }
        }
        var enough: bool := *;
        if !enough {
          return false;
        }
        var larger := new int[newsize];
        Put(larger, 0, contents[..]);
        PastedFront(larger[..], 0, contents[..]);
        assert larger[..contents.Length] == contents[..];
        contents := larger;
      }
      return true;
    }

    /** One turn of the loop of readdir_fill_from_list(): `false` means that it ends. The record
        is written only if it fits, but the loop goes by the length, which can wrap. */
    method AppendEntry(pos: nat, prefix: seq<int>) returns (more: bool)
      requires Valid() && pos < |entries| && len <= needlen <= contents.Length
      modifies this`len, contents
      ensures
        var r := Encode(prefix, entries[pos], pos + 1);
        var newlen := (old(len) + |r|) % WRAP;
        && (more <==> newlen <= needlen) && len == (if more then newlen else old(len)) && 0 <= len <= needlen
        && contents[..] == Written(old(contents[..]), old(len), needlen, r)
        && contents[..old(len)] == old(contents[..len])
        && (|r| <= needlen - old(len) ==> more && len == old(len) + |r| && contents[..len] == old(contents[..len]) + r)
    {
      hide Encode, Pasted, Align;
      var e := entries[pos];
      ghost var before, room := contents[..], needlen - len;
      var entlen := AddDirentry(contents, len, needlen - len, prefix, e, pos + 1);
      var thislen := entlen % WRAP;
      var newlen := (len + thislen) % WRAP;
      LengthWraps(len, entlen);
      ghost var r := Encode(prefix, e, pos + 1);
      if entlen <= room {
        PastedFront(before, len, r);
        assert contents[..len + entlen] == contents[..][..len + entlen];
        assert (before[..len] + r)[..len] == before[..len];
      }
      assert contents[..len] == contents[..][..len];
      if newlen > needlen {
        return false;
      }
      len := newlen;
      return true;
    }

    /** readdir_fill_from_list(): the reply is the page at that offset, unless the length of the
        first record that does not fit wraps around and the loop goes on. In either case the
        memory, which was `mem` when the loop began, is as the turns of the loop leave it. */
    method FillFromList(off: nat, pre: Prefix) returns (ok: bool, ghost mem: seq<int>)
      requires Valid()
      modifies this, contents
      ensures Valid() && entries == old(entries) && needlen == old(needlen)
      ensures contents == old(contents) || fresh(contents)
      ensures ok ==> needlen <= |mem| && old(contents[..]) <= mem
      ensures
        var first := if off < |entries| then off else |entries|;
        ok ==>
          && len == FilledLength(pre, entries, first, needlen, 0) <= needlen
          && contents[..] == Filled(pre, entries, first, needlen, 0, mem)
          && (NoWrap(pre, entries, first, needlen, 0) ==> contents[..len] == Page(pre, entries, first, needlen))
    {
      hide Encode, Page, Align, RecordLength, FilledLength, Filled, NoWrap;
      len := 0;
      ok := ExtendContents(needlen);
      mem := contents[..];
      if !ok {
        return;
      }
      assert mem[..old(contents.Length)] == contents[..old(contents.Length)];
      var pos: nat := 0;
      while pos < off && pos < |entries|
        invariant pos <= off && pos <= |entries|
      {
        pos := pos + 1;
      }
      FillFrom(pos, pre);
    }

    method FillFrom(first: nat, pre: Prefix)
      requires Valid() && len == 0 && first <= |entries| && needlen <= contents.Length
      modifies this`len, contents
      ensures len == FilledLength(pre, entries, first, needlen, 0) && 0 <= len <= needlen
      ensures contents[..] == Filled(pre, entries, first, needlen, 0, old(contents[..]))
      ensures NoWrap(pre, entries, first, needlen, 0) ==> contents[..len] == Page(pre, entries, first, needlen)
    {
      hide Encode, Page, Align, RecordLength, Made, FilledLength, Filled, NoWrap, Written;
      var pos := first;
      ghost var made, sound := [], NoWrap(pre, entries, first, needlen, 0);
      MadeStart(pre, entries, first, needlen);
      while pos < |entries|
        invariant pos <= |entries| && 0 <= len <= needlen
        invariant FilledLength(pre, entries, first, needlen, 0) == FilledLength(pre, entries, pos, needlen, len)
        invariant Filled(pre, entries, first, needlen, 0, old(contents[..])) ==
          Filled(pre, entries, pos, needlen, len, contents[..])
        invariant sound ==> NoWrap(pre, entries, pos, needlen, len)
        invariant sound ==> contents[..len] == made && Made(pre, entries, first, needlen, pos, made)
        decreases |entries| - pos
      {
        FillStep(pre, entries, pos, needlen, len);
        FilledStep(pre, entries, pos, needlen, len, contents[..]);
        var more := AppendEntry(pos, pre(entries[pos]));
        if !more {
          if sound {
            MadeAll(pre, entries, first, needlen, pos, made);
          }
          return;
        }
        if sound {
          MadeMore(pre, entries, first, needlen, pos, made);
        }
        made := contents[..len];
        pos := pos + 1;
      }
      FillEnd(pre, entries, pos, needlen, len, contents[..]);
      if sound {
        MadeAll(pre, entries, first, needlen, pos, made);
      }
    }
  }

  /** A record is written at `len` only if it fits the room. */
  function Written(mem: seq<int>, len: int, room: int, record: seq<int>): (r: seq<int>)
    requires 0 <= len <= room <= |mem|
    ensures |r| == |mem|
  {
    if |record| <= room - len then Pasted(mem, len, record) else mem
  }

  // ---- lengths are of type unsigned int ----

  lemma LengthWraps(len: int, n: int)
    requires 0 <= len <= UINT_MAX && 0 <= n
    ensures (len + n % WRAP) % WRAP == (len + n) % WRAP && (len + n <= UINT_MAX ==> (len + n) % WRAP == len + n)
  {
    assert n == n / WRAP * WRAP + n % WRAP;
  }

  /** The length of the reply when the loop comes to entry `i` with `len` bytes. */
  function FilledLength(pre: Prefix, entries: seq<Entry>, i: nat, room: int, len: int): int
    decreases |entries| - i
  {
    if i >= |entries| then len
    else
      var newlen := (len + |Encode(pre(entries[i]), entries[i], i + 1)|) % WRAP;
      if newlen > room then len else FilledLength(pre, entries, i + 1, room, newlen)
  }

  /** The memory when the loop has ended. */
  function Filled(pre: Prefix, entries: seq<Entry>, i: nat, room: int, len: int, mem: seq<int>): (r: seq<int>)
    requires 0 <= len <= room <= |mem|
    ensures |r| == |mem|
    decreases |entries| - i
  {
    if i >= |entries| then mem
    else
      var record := Encode(pre(entries[i]), entries[i], i + 1);
      var newlen := (len + |record|) % WRAP;
      var written := Written(mem, len, room, record);
      if newlen > room then written else Filled(pre, entries, i + 1, room, newlen, written)
  }

  lemma FilledStep(pre: Prefix, entries: seq<Entry>, i: nat, room: int, len: int, mem: seq<int>)
    requires i < |entries| && 0 <= len <= room <= |mem|
    ensures
      var record := Encode(pre(entries[i]), entries[i], i + 1);
      var newlen := (len + |record|) % WRAP;
      var written := Written(mem, len, room, record);
      Filled(pre, entries, i, room, len, mem) ==
        if newlen > room then written else Filled(pre, entries, i + 1, room, newlen, written)
  {
  }

  /** The first entry from the i-th on that does not fit into `room` bytes with those before. */
  function FirstOut(pre: Prefix, entries: seq<Entry>, i: nat, room: int): (k: nat)
    ensures i <= k && (k < |entries| || k == |entries| || k == i)
    decreases |entries| - i
  {
    if i >= |entries| then i
    else
      var n := |Encode(pre(entries[i]), entries[i], i + 1)|;
      if n > room then i else FirstOut(pre, entries, i + 1, room - n)
  }

  /** All records fit behind `len` bytes, or the length of the first one that does not takes the
      sum, as an unsigned int, beyond the room. */
  predicate NoWrap(pre: Prefix, entries: seq<Entry>, i: nat, room: int, len: int) {
    var k := FirstOut(pre, entries, i, room - len);
    k >= |entries| ||
    (len + |Page(pre, entries, i, room - len)| + |Encode(pre(entries[k]), entries[k], k + 1)|) % WRAP > room
  }

  lemma FillStep(pre: Prefix, entries: seq<Entry>, i: nat, room: int, len: int)
    requires i < |entries| && 0 <= len <= room <= UINT_MAX
    ensures
      var n := |Encode(pre(entries[i]), entries[i], i + 1)|;
      var newlen := (len + n) % WRAP;
      && FilledLength(pre, entries, i, room, len) ==
        (if newlen > room then len else FilledLength(pre, entries, i + 1, room, newlen))
      && (NoWrap(pre, entries, i, room, len) ==>
        if n <= room - len then newlen == len + n && NoWrap(pre, entries, i + 1, room, newlen) else newlen > room)
  {
    hide Encode;
    var n := |Encode(pre(entries[i]), entries[i], i + 1)|;
    LengthWraps(len, n);
    assert room - len - n == room - (len + n);
  }

  lemma FillEnd(pre: Prefix, entries: seq<Entry>, i: nat, room: int, len: int, mem: seq<int>)
    requires i >= |entries| && 0 <= len <= room <= |mem|
    ensures FilledLength(pre, entries, i, room, len) == len && Filled(pre, entries, i, room, len, mem) == mem
  {
  }

  /** The loop arrives at the first entry that does not fit with the length of the page. */
  lemma {:induction false} FilledUpTo(pre: Prefix, entries: seq<Entry>, i: nat, room: int, len: int)
    requires 0 <= len <= room <= UINT_MAX
    ensures
      var k, page := FirstOut(pre, entries, i, room - len), Page(pre, entries, i, room - len);
      && len + |page| <= room &&
        FilledLength(pre, entries, i, room, len) == FilledLength(pre, entries, k, room, len + |page|)
      && (k < |entries| ==> |Encode(pre(entries[k]), entries[k], k + 1)| > room - len - |page|)
    decreases |entries| - i
  {
    hide Encode, Page, FilledLength, NoWrap;
    PageStep(pre, entries, i, room - len);
    if i < |entries| {
      var n := |Encode(pre(entries[i]), entries[i], i + 1)|;
      LengthWraps(len, n);
      if n <= room - len {
        FillStep(pre, entries, i, room, len);
        FilledUpTo(pre, entries, i + 1, room, len + n);
        assert room - len - n == room - (len + n);
      }
    }
  }

  /** When nothing wraps the reply is as long as the page. */
  lemma FilledIsPage(pre: Prefix, entries: seq<Entry>, i: nat, room: int)
    requires 0 <= room <= UINT_MAX && NoWrap(pre, entries, i, room, 0)
    ensures FilledLength(pre, entries, i, room, 0) == |Page(pre, entries, i, room)|
  {
    hide Encode;
    FilledUpTo(pre, entries, i, room, 0);
  }

  /** If the room and any record together fit an unsigned int, nothing wraps. */
  lemma SmallNeverWraps(pre: Prefix, entries: seq<Entry>, i: nat, room: int, len: int)
    requires 0 <= len <= room
    requires forall j {:trigger entries[j]} :: 0 <= j < |entries| ==>
      room + RecordLength(|pre(entries[j])|, entries[j]) <= UINT_MAX
    ensures NoWrap(pre, entries, i, room, len)
  {
    hide Encode, RecordLength;
    var k := FirstOut(pre, entries, i, room - len);
    if k < |entries| {
      var n := RecordLength(|pre(entries[k])|, entries[k]);
      assert room + n <= UINT_MAX;
      FilledUpTo(pre, entries, i, room, len);
      LengthWraps(len + |Page(pre, entries, i, room - len)|, n);
    }
  }

  lemma WrapsOnce(len: int, n: int)
    requires 0 <= len <= UINT_MAX && 0 <= n <= UINT_MAX
    ensures (len + n) % WRAP == if len + n <= UINT_MAX then len + n else len + n - WRAP
  {
  }

  lemma FilledAll(pre: Prefix, entries: seq<Entry>, room: int, len: int)
    ensures FilledLength(pre, entries, |entries|, room, len) == len
  {
  }

  /** If the last record is the first that does not fit, and its length wraps to one that does,
      the reply is cut off in front of the end of the page. */
  lemma WrapCuts(pre: Prefix, entries: seq<Entry>, i: nat, room: int)
    requires 0 <= room <= UINT_MAX && FirstOut(pre, entries, i, room) == |entries| - 1
    requires |Encode(pre(entries[|entries| - 1]), entries[|entries| - 1], |entries|)| <= UINT_MAX
    ensures NoWrap(pre, entries, i, room, 0) <==>
      FilledLength(pre, entries, i, room, 0) == |Page(pre, entries, i, room)|
    ensures !NoWrap(pre, entries, i, room, 0) ==>
      FilledLength(pre, entries, i, room, 0) < |Page(pre, entries, i, room)|
  {
    hide Encode, Page, FirstOut, FilledLength;
    FilledUpTo(pre, entries, i, room, 0);
    var k, len := |entries| - 1, |Page(pre, entries, i, room)|;
    var n := |Encode(pre(entries[k]), entries[k], k + 1)|;
    FillStep(pre, entries, k, room, len);
    WrapsOnce(len, n);
    FilledAll(pre, entries, room, (len + n) % WRAP);
  }

  /** An entry whose record takes 2^31 bytes. */
  function LongEntry(): Entry {
    Entry(1, 0, seq(0x8000_0000 - HEADER, i => 97))
  }

  /** Two such entries and all the room there can be: the first record fits, and the second one
      wraps the length to zero, so that the reply is empty. */
  lemma WrapExample()
    ensures
      var pre, entries := (e: Entry) => [], [LongEntry(), LongEntry()];
      && |Page(pre, entries, 0, UINT_MAX)| == 0x8000_0000 && !NoWrap(pre, entries, 0, UINT_MAX, 0)
      && FilledLength(pre, entries, 0, UINT_MAX, 0) == 0
  {
    hide Encode, LongEntry;
    var pre, e := (e: Entry) => [], LongEntry();
    var entries: seq<Entry> := [e, e];
    assert RecordLength(0, e) == 0x8000_0000 by { LongRecord(); }
    assert |Encode(pre(e), e, 1)| == 0x8000_0000 && |Encode(pre(e), e, 2)| == 0x8000_0000;
    PageStep(pre, entries, 0, UINT_MAX);
    PageStep(pre, entries, 1, UINT_MAX - 0x8000_0000);
    assert FirstOut(pre, entries, 1, UINT_MAX - 0x8000_0000) == 1;
    assert FirstOut(pre, entries, 0, UINT_MAX) == 1;
    FilledUpTo(pre, entries, 0, UINT_MAX, 0);
    FillStep(pre, entries, 1, UINT_MAX, 0x8000_0000);
  }

  lemma LongRecord()
    ensures RecordLength(0, LongEntry()) == 0x8000_0000
  {
  }

  /** What has been written is the page up to entry `pos`. */
  ghost predicate Made(pre: Prefix, entries: seq<Entry>, first: nat, room: int, pos: nat, made: seq<int>) {
    made + Page(pre, entries, pos, room - |made|) == Page(pre, entries, first, room)
  }

  lemma MadeStart(pre: Prefix, entries: seq<Entry>, first: nat, room: int)
    ensures Made(pre, entries, first, room, first, [])
  {
    hide Page;
    assert [] + Page(pre, entries, first, room) == Page(pre, entries, first, room);
  }

  /** Nothing more comes, or nothing more fits. */
  lemma MadeAll(pre: Prefix, entries: seq<Entry>, first: nat, room: int, pos: nat, made: seq<int>)
    requires Made(pre, entries, first, room, pos, made)
    requires pos < |entries| ==> |Encode(pre(entries[pos]), entries[pos], pos + 1)| > room - |made|
    ensures made == Page(pre, entries, first, room)
  {
    hide Encode, Page;
    PageStep(pre, entries, pos, room - |made|);
    assert made + [] == made;
  }

  lemma MadeMore(pre: Prefix, entries: seq<Entry>, first: nat, room: int, pos: nat, made: seq<int>)
    requires Made(pre, entries, first, room, pos, made) && pos < |entries|
    requires |Encode(pre(entries[pos]), entries[pos], pos + 1)| <= room - |made|
    ensures Made(pre, entries, first, room, pos + 1, made + Encode(pre(entries[pos]), entries[pos], pos + 1))
  {
    hide Encode, Page;
    var r := Encode(pre(entries[pos]), entries[pos], pos + 1);
    PageStep(pre, entries, pos, room - |made|);
    Regroup(made, r, Page(pre, entries, pos + 1, room - |made| - |r|));
    assert room - |made| - |r| == room - |made + r|;
  }

  lemma PageStep(pre: Prefix, entries: seq<Entry>, i: nat, room: int)
    ensures i >= |entries| ==> Page(pre, entries, i, room) == []
    ensures i < |entries| ==>
      var r := Encode(pre(entries[i]), entries[i], i + 1);
      Page(pre, entries, i, room) == if |r| > room then [] else r + Page(pre, entries, i + 1, room - |r|)
  {
  }

  lemma PastedFront(d: seq<int>, at: int, bytes: seq<int>)
    requires 0 <= at && at + |bytes| <= |d|
    ensures Pasted(d, at, bytes)[..at + |bytes|] == d[..at] + bytes
  {
  }
}
