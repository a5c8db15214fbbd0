/** fuse_buf_copy() of lib/buffer.c: copying between two vectors of buffers, each of them
    memory or a file descriptor. The memory (or the file ranges) of a vector lie back to back
    in one array, so a cursor is one position in it; the two vectors do not overlap. Splice is
    not used (FUSE_BUF_NO_SPLICE). */
module BufCopy {
  import opened Memcpy

  /** Memory, or a file descriptor with the flags FD_SEEK and FD_RETRY. */
  datatype Kind = Memory | File(seek: bool, retry: bool)

  function Total(sizes: seq<int>): int {
    if sizes == [] then 0 else Total(sizes[..|sizes| - 1]) + sizes[|sizes| - 1]
  }

  predicate Sizes(sizes: seq<int>) {
    forall i {:trigger sizes[i]} :: 0 <= i < |sizes| ==> sizes[i] >= 0
  }

  lemma TotalStep(sizes: seq<int>, i: int)
    requires 0 <= i < |sizes|
    ensures Total(sizes[..i + 1]) == Total(sizes[..i]) + sizes[i]
  {
    assert sizes[..i + 1][..i] == sizes[..i];
  }

  lemma {:induction false} TotalNonNegative(sizes: seq<int>)
    requires Sizes(sizes)
    ensures Total(sizes) >= 0
    decreases |sizes|
  {
    if sizes != [] {
      TotalNonNegative(sizes[..|sizes| - 1]);
    }
  }

  lemma {:induction false} TotalUpTo(sizes: seq<int>, i: int, j: int)
    requires Sizes(sizes) && 0 <= i <= j <= |sizes|
    ensures 0 <= Total(sizes[..i]) <= Total(sizes[..j])
    decreases j - i
  {
    if i < j {
      TotalStep(sizes, j - 1);
      TotalUpTo(sizes, i, j - 1);
    } else {
      TotalNonNegative(sizes[..i]);
    }
  }

  /** `struct fuse_bufvec` as a value: the buffers and the cursor. */
  datatype Vec = Vec(sizes: seq<int>, kinds: seq<Kind>, idx: int, off: int)
  {
    ghost predicate Valid() {
      Sizes(sizes) && |kinds| == |sizes| && 0 <= idx && (idx < |sizes| ==> 0 <= off <= sizes[idx])
    }

    predicate AtEnd() {
      idx >= |sizes|
    }

    /** Buffer `i` is a descriptor that is read from wherever it stands. */
    predicate Stream(i: int) {
      0 <= i < |kinds| && kinds[i].File? && !kinds[i].seek
    }

    /** Where stream `j` stands if the current one is `over` bytes past the cursor. */
    function Stands(j: int, over: int): int {
      if 0 <= j < idx && j < |sizes| then sizes[j] else if j == idx then off + over else 0
    }

    /** What is left in the current buffer. */
    function Room(): int {
      if 0 <= idx < |sizes| then sizes[idx] - off else 0
    }

    /** What is left in the last buffer. */
    function LastLeft(): int {
      if 0 <= idx < |sizes| - 1 then sizes[|sizes| - 1] else Room()
    }

    /** The cursor `n` bytes on, within the current buffer. */
    function Moved(n: int): Vec {
      if idx < 0 || idx >= |sizes| then this
      else if off + n < sizes[idx] then this.(off := off + n)
      else this.(idx := idx + 1, off := if idx + 1 == |sizes| then off + n else 0)
    }

    function Start(i: int): int {
      if 0 <= i <= |sizes| then Total(sizes[..i]) else 0
    }

    /** The cursor as a position in the memory. */
    function Pos(): int {
      if 0 <= idx < |sizes| then Start(idx) + off else Total(sizes)
    }

    function Left(): int {
      Total(sizes) - Pos()
    }
  }

  lemma WithinBuffer(v: Vec)
    requires v.Valid() && !v.AtEnd()
    ensures 0 <= v.Start(v.idx) <= v.Pos() <= v.Start(v.idx) + v.sizes[v.idx] <= Total(v.sizes)
    ensures v.Start(v.idx) + v.sizes[v.idx] == v.Start(v.idx + 1)
  {
    TotalStep(v.sizes, v.idx);
    TotalUpTo(v.sizes, v.idx + 1, |v.sizes|);
    TotalUpTo(v.sizes, 0, v.idx);
    assert v.sizes[..|v.sizes|] == v.sizes && v.sizes[..0] == [];
  }

  lemma PosRange(v: Vec)
    requires v.Valid()
    ensures 0 <= v.Pos() <= Total(v.sizes) && (v.AtEnd() ==> v.Pos() == Total(v.sizes))
  {
    if v.AtEnd() {
      TotalNonNegative(v.sizes);
    } else {
      WithinBuffer(v);
    }
  }

  lemma LastIsPart(v: Vec)
    requires v.Valid()
    ensures 0 <= v.LastLeft() <= v.Left()
    ensures v.idx == |v.sizes| - 1 ==> v.LastLeft() == v.Left()
  {
    if v.AtEnd() {
      TotalNonNegative(v.sizes);
    } else {
      WithinBuffer(v);
      var last := |v.sizes| - 1;
      TotalStep(v.sizes, last);
      assert v.sizes[..last + 1] == v.sizes;
      TotalUpTo(v.sizes, v.idx, last);
      if v.idx < last {
        TotalUpTo(v.sizes, v.idx + 1, last);
      }
    }
  }

  lemma MovedPos(v: Vec, n: int)
    requires v.Valid() && !v.AtEnd() && 0 <= n <= v.Room()
    ensures v.Moved(n).Valid() && v.Moved(n).Pos() == v.Pos() + n && 0 <= v.Pos() && n <= v.Left()
    ensures v.Moved(n).sizes == v.sizes && v.Moved(n).kinds == v.kinds && v.Moved(n).idx <= |v.sizes|
  {
    WithinBuffer(v);
    assert v.sizes[..|v.sizes|] == v.sizes;
  }

  lemma LastMoved(v: Vec, n: int)
    requires v.Valid() && !v.AtEnd() && 0 <= n <= v.Room()
    ensures if v.Moved(n).AtEnd() then n == v.LastLeft() == v.Left()
      else (v.Moved(n).LastLeft() == 0 <==> v.LastLeft() == 0)
  {
    LastIsPart(v);
  }

  /** `taken[j]` bytes have been read from buffer `j`: from buffer `from` on, the streams stand
      at the cursor, the current one `over` bytes past it. */
  ghost predicate Standing(v: Vec, taken: seq<int>, from: int, over: int) {
    && |taken| == |v.sizes| == |v.kinds|
    && forall j {:trigger taken[j]} :: 0 <= j && from <= j < |v.sizes| && v.Stream(j) ==> taken[j] == v.Stands(j, over)
  }

  /** The stream is read, `over` bytes too far, and the cursor follows. */
  lemma StandsOn(v: Vec, taken: seq<int>, taken': seq<int>, from: int, n: int, over: int)
    requires v.Valid() && !v.AtEnd() && Standing(v, taken, from, 0) && 0 <= n <= v.Room()
    requires n == v.Room() ==> over == 0
    requires taken' == Taken(v, taken, v.off + n + over)
    ensures Standing(v.Moved(n), taken', from, over) && v.Moved(n).Valid()
    ensures n == 0 ==> Standing(v, taken', from, over)
  {
  }

  /** `struct fuse_bufvec`. */
  class BufVec {
    const sizes: seq<int>
    const kinds: seq<Kind>
    const mem: array<int>
    var idx: int
    var off: int
    /** How much has been read from each buffer that is a stream. */
    var taken: seq<int>

    constructor (sizes: seq<int>, kinds: seq<Kind>, mem: array<int>, idx: int, off: int)
      requires Sizes(sizes) && |kinds| == |sizes| && mem.Length == Total(sizes)
      requires 0 <= idx && (idx < |sizes| ==> 0 <= off <= sizes[idx])
      ensures Valid() && this.mem == mem && View() == Vec(sizes, kinds, idx, off) && Streams(idx, 0)
    {
      this.sizes, this.kinds, this.mem, this.idx, this.off := sizes, kinds, mem, idx, off;
      this.taken := seq(|sizes|, i => if i == idx then off else 0);
    }

    ghost predicate Valid()
      reads this
    {
      && Sizes(sizes) && |kinds| == |sizes| == |taken| && mem.Length == Total(sizes)
      && 0 <= idx && (idx < |sizes| ==> 0 <= off <= sizes[idx])
    }

    function View(): Vec
      reads this
    {
      Vec(sizes, kinds, idx, off)
    }

    /** From buffer `from` on, the streams stand at the cursor, the current one `over` past it. */
    ghost predicate Streams(from: int, over: int)
      reads this
    {
      Standing(View(), taken, from, over)
    }

    function Start(i: int): int {
      if 0 <= i <= |sizes| then Total(sizes[..i]) else 0
    }

    /** The cursor as a position in the memory. */
    function Pos(): int
      reads this
    {
      View().Pos()
    }

    function Left(): int
      reads this
    {
      View().Left()
    }

    /** What is left in the last buffer. */
    function LastLeft(): int
      reads this
    {
      View().LastLeft()
    }

    lemma InBuffer()
      requires Valid() && idx < |sizes|
      ensures 0 <= Start(idx) <= Pos() <= Start(idx) + sizes[idx] <= mem.Length && Pos() == Start(idx) + off
    {
      WithinBuffer(View());
    }

    /** fuse_bufvec_advance(): its two asserts hold; `false` means the end is reached. */
    method Advance(len: int) returns (more: bool)
      requires Valid() && idx < |sizes| && 0 <= len <= sizes[idx] - off
      modifies this`idx, this`off
      ensures Valid() && (more <==> idx < |sizes|)
      ensures View() == old(View()).Moved(len) && idx <= |sizes|
    {
      off := off + len;
      assert off <= sizes[idx];
      if off == sizes[idx] {
        assert idx < |sizes|;
        idx := idx + 1;
        if idx == |sizes| {
          return false;
        }
        off := 0;
      }
      return true;
    }
  }

  // ---- system calls ----

  /** `n` bytes of `s` from position `from` on. */
  function Slice(s: seq<int>, from: int, n: int): (r: seq<int>)
    requires 0 <= from && 0 <= n && from + n <= |s|
    ensures |r| == n
  {
    s[from..from + n]
  }

  lemma SliceMore(s: seq<int>, from: int, a: int, b: int)
    requires 0 <= from && 0 <= a && 0 <= b && from + a + b <= |s|
    ensures Slice(s, from, a) + Slice(s, from + a, b) == Slice(s, from, a + b)
  {
  }

  function Count(res: int): int {
    if res < 0 then 0 else res
  }

  /** What a system call on at most `limit` bytes answers: -1 or a number of bytes. The
      `script` holds the answers to come; any sequence of answers is possible. */
  function Answer(script: seq<int>, limit: int): (r: int)
    requires 0 <= limit
    ensures -1 <= r <= limit
  {
    if script == [] || script[0] > limit then limit else if script[0] < 0 then -1 else script[0]
  }

  function Later(script: seq<int>): seq<int> {
    if script == [] then [] else script[1..]
  }

  /** The kernel, which decides how far each call gets. */
  class Kernel {
    var script: seq<int>

    constructor (script: seq<int>)
      ensures this.script == script
    {
      this.script := script;
    }

    method Decide(limit: int) returns (res: int)
      requires 0 <= limit
      modifies this
      ensures res == Answer(old(script), limit) && script == Later(old(script))
    {
      res := Answer(script, limit);
      script := Later(script);
    }

    /** pwrite() or write(): fails, or takes some of the bytes. */
    method SysWrite(d: array<int>, at: int, bytes: seq<int>) returns (res: int)
      requires 0 <= at && at + |bytes| <= d.Length
      modifies this, d
      ensures res == Answer(old(script), |bytes|) && script == Later(old(script))
      ensures d[..] == Pasted(old(d[..]), at, Slice(bytes, 0, Count(res)))
    {
      res := Decide(|bytes|);
      Put(d, at, Slice(bytes, 0, Count(res)));
    }

    /** pread() at the offset `off` of the current buffer, or read() from where it stands,
        which moves it: fails, or yields some of the bytes asked for. */
    method SysRead(src: BufVec, off: int, len: int) returns (res: int, bytes: seq<int>)
      requires Readable(src, off, len)
      modifies this, src`taken
      ensures res == Answer(old(script), len) && script == Later(old(script)) && src.Valid()
      ensures 0 <= src.Start(src.idx) + off && src.Start(src.idx) + off + len <= src.mem.Length
      ensures bytes == Slice(src.mem[..], src.Start(src.idx) + off, Count(res))
      ensures src.taken == Taken(src.View(), old(src.taken), off + Count(res))
    {
      src.InBuffer();
      res := Decide(len);
      var at := src.Start(src.idx) + if src.kinds[src.idx].seek then off else src.taken[src.idx];
      bytes := src.mem[at..at + Count(res)];
      assert bytes == src.mem[..][at..at + Count(res)];
      if !src.kinds[src.idx].seek {
        src.taken := src.taken[src.idx := src.taken[src.idx] + Count(res)];
      }
    }
  }

  /** The current buffer is a descriptor and, if it is a stream, stands at `off`. */
  ghost predicate Readable(src: BufVec, off: int, len: int)
    reads src
  {
    && src.Valid() && src.idx < |src.sizes| && src.kinds[src.idx].File?
    && 0 <= off && 0 <= len && off + len <= src.sizes[src.idx]
    && (!src.kinds[src.idx].seek ==> src.taken[src.idx] == off)
  }

  /** The current buffer, if it is a stream, stands at `to`. */
  function Taken(v: Vec, taken: seq<int>, to: int): seq<int>
    requires 0 <= v.idx < |v.sizes| && |v.kinds| == |v.sizes| == |taken|
  {
    if v.Stream(v.idx) then taken[v.idx := to] else taken
  }

  lemma Reading(src: BufVec, off: int, len: int)
    requires Readable(src, off, len)
    ensures src.Valid() && !src.View().AtEnd() && src.kinds[src.idx].File?
    ensures src.taken == Taken(src.View(), src.taken, off)
    ensures 0 <= off && 0 <= len && off + len <= src.sizes[src.idx]
    ensures 0 <= src.Start(src.idx) && src.Start(src.idx) + off + len <= src.mem.Length
  {
    src.InBuffer();
  }

  /** After `copied` bytes the rest, or its first part, can be read. */
  lemma ReadOn(src: BufVec, taken: seq<int>, off: int, copied: int, len: int)
    requires src.Valid() && src.idx < |src.sizes| && src.kinds[src.idx].File? && |taken| == |src.sizes|
    requires 0 <= off && 0 <= copied < len && off + len <= src.sizes[src.idx]
    requires src.taken == Taken(src.View(), taken, off + copied)
    ensures 0 < Least(BUFFER, len - copied) <= len - copied && Least(BUFFER, len - copied) <= BUFFER
    ensures Readable(src, off + copied, Least(BUFFER, len - copied))
    ensures forall to {:trigger Taken(src.View(), taken, to)} ::
      Taken(src.View(), src.taken, to) == Taken(src.View(), taken, to)
  {
  }

  // ---- what the calls add up to ----

  datatype Transfer = Transfer(res: int, script: seq<int>)

  /** A loop of calls on `len` bytes, of which `copied` have been transferred. */
  function Transferred(script: seq<int>, copied: int, len: int, retry: bool): (r: Transfer)
    requires 0 <= copied <= len
    ensures -1 <= r.res <= len && copied <= Count(r.res) && (copied == len ==> r.res == len)
    decreases len - copied
  {
    if copied == len then Transfer(copied, script)
    else
      var n := Answer(script, len - copied);
      if n == -1 then Transfer(if copied == 0 then -1 else copied, Later(script))
      else if n == 0 || !retry then Transfer(copied + n, Later(script))
      else Transferred(Later(script), copied + n, len, retry)
  }

  /** `rest` is what is left of the script. */
  predicate Rests(script: seq<int>, rest: seq<int>) {
    |rest| <= |script| && rest == script[|script| - |rest|..]
  }

  /** One of the answers used up was zero or a failure. */
  ghost predicate Refused(script: seq<int>, rest: seq<int>) {
    exists k :: 0 <= k < |script| - |rest| && script[k] <= 0
  }

  lemma RestsOn(a: seq<int>, b: seq<int>, c: seq<int>)
    requires Rests(a, b) && Rests(b, c)
    ensures Rests(a, c) && (Refused(a, b) || Refused(b, c) <==> Refused(a, c))
  {
    var n := |a| - |b|;
    assert forall k {:trigger b[k]} :: 0 <= k < |b| ==> b[k] == a[n + k];
    if Refused(b, c) {
      var k :| 0 <= k < |b| - |c| && b[k] <= 0;
      assert a[n + k] <= 0;
    }
    if Refused(a, c) && !Refused(a, b) {
      var k :| 0 <= k < |a| - |c| && a[k] <= 0;
      assert b[k - n] <= 0;
    }
  }

  /** One answer is used up, and it is a refusal if it says so. */
  lemma AnswerUsed(script: seq<int>, limit: int)
    requires 0 < limit
    ensures Rests(script, Later(script)) && (Answer(script, limit) <= 0 <==> Refused(script, Later(script)))
  {
    if script != [] && script[0] <= 0 {
      assert Refused(script, Later(script));
    }
  }

  lemma NothingUsed(script: seq<int>)
    ensures Rests(script, script) && !Refused(script, script)
  {
  }

  /** With FD_RETRY the transfer falls short only if the kernel refused. */
  lemma {:induction false} TransferredFull(script: seq<int>, copied: int, len: int, retry: bool)
    requires 0 <= copied <= len
    ensures
      var t := Transferred(script, copied, len, retry);
      Rests(script, t.script) && (retry ==> (Count(t.res) < len <==> Refused(script, t.script)))
    decreases len - copied
  {
    hide Answer, Later, Rests, Refused;
    if copied == len {
      NothingUsed(script);
    } else {
      var n := Answer(script, len - copied);
      AnswerUsed(script, len - copied);
      if n > 0 && retry {
        TransferredFull(Later(script), copied + n, len, retry);
        RestsOn(script, Later(script), Transferred(Later(script), copied + n, len, retry).script);
      }
    }
  }

  /** Without it there is one call. */
  lemma TransferredOnce(script: seq<int>, len: int)
    requires 0 < len
    ensures Transferred(script, 0, len, false) == Transfer(Answer(script, len), Later(script))
  {
  }

  const BUFFER: int := 4096

  function Least(a: int, b: int): int {
    if a < b then a else b
  }

  /** The outcome of a transfer, with the bytes of the last read that came to anything and how
      many of them were written. */
  datatype Crossing = Crossing(res: int, read: int, wrote: int, script: seq<int>)
  {
    /** The bytes that were read and then not written. */
    function Over(): int {
      read - wrote
    }
  }

  /** Reads and writes by turns, when `copied` of `len` bytes have got across and the last turn
      read and wrote `last` bytes. */
  function Crossed(script: seq<int>, copied: int, len: int, sretry: bool, dretry: bool, last: int): (r: Crossing)
    requires 0 <= copied <= len && 0 <= last
    ensures -1 <= r.res <= len && copied <= Count(r.res) && 0 <= r.wrote <= r.read
    ensures r.res == len ==> r.wrote == r.read
    ensures copied == len ==> r.res == len
    decreases len - copied
  {
    if copied == len then Crossing(copied, last, last, script)
    else
      var thisLen := Least(BUFFER, len - copied);
      var r := Transferred(script, 0, thisLen, sretry);
      if r.res <= 0 then Crossing(if r.res < 0 && copied == 0 then -1 else copied, last, last, r.script)
      else
        var w := Transferred(r.script, 0, r.res, dretry);
        if w.res <= 0 then Crossing(if w.res < 0 && copied == 0 then -1 else copied, r.res, 0, w.script)
        else if w.res < thisLen then Crossing(copied + w.res, r.res, w.res, w.script)
        else Crossed(w.script, copied + w.res, len, sretry, dretry, w.res)
  }

  /** One more transfer after `copied` bytes. */
  lemma Onward(before: seq<int>, at: int, s: seq<int>, from: int, copied: int, n: int)
    requires 0 <= copied && 0 <= n && 0 <= at && at + copied + n <= |before| && 0 <= from && from + copied + n <= |s|
    ensures Pasted(Pasted(before, at, Slice(s, from, copied)), at + copied, Slice(s, from + copied, n)) ==
      Pasted(before, at, Slice(s, from, copied + n))
  {
    PastedMore(before, at, Slice(s, from, copied), Slice(s, from + copied, n));
    SliceMore(s, from, copied, n);
  }

  lemma NothingYet(before: seq<int>, at: int, s: seq<int>, from: int)
    requires 0 <= at <= |before| && 0 <= from <= |s|
    ensures Pasted(before, at, Slice(s, from, 0)) == before
  {
    PastedNothing(before, at);
  }

  /** fuse_buf_write(): the bytes that are counted have arrived, and no others. */
  method FdWrite(k: Kernel, d: array<int>, at: int, bytes: seq<int>, retry: bool) returns (res: int)
    requires 0 <= at && at + |bytes| <= d.Length
    modifies k, d
    ensures Transfer(res, k.script) == Transferred(old(k.script), 0, |bytes|, retry)
    ensures retry ==> (Count(res) < |bytes| <==> Refused(old(k.script), k.script))
    ensures !retry && bytes != [] ==> res == Answer(old(k.script), |bytes|) && k.script == Later(old(k.script))
    ensures d[..] == Pasted(old(d[..]), at, Slice(bytes, 0, Count(res)))
  {
    hide Pasted, Slice, Answer, Later, Refused, Rests;
    ghost var before := d[..];
    TransferredFull(k.script, 0, |bytes|, retry);
    var copied := 0;
    NothingYet(before, at, bytes, 0);
    while copied < |bytes|
      invariant 0 <= copied <= |bytes| && d[..] == Pasted(before, at, Slice(bytes, 0, copied))
      invariant Transferred(old(k.script), 0, |bytes|, retry) == Transferred(k.script, copied, |bytes|, retry)
    {
      var n := k.SysWrite(d, at + copied, bytes[copied..]);
      Rest(bytes, copied, Count(n));
      Onward(before, at, bytes, 0, copied, Count(n));
      if n == -1 {
        return if copied == 0 then -1 else copied;
      }
      copied := copied + n;
      if n == 0 || !retry {
        return copied;
      }
    }
    return copied;
  }

  lemma Rest(s: seq<int>, from: int, n: int)
    requires 0 <= from && 0 <= n && from + n <= |s|
    ensures Slice(s[from..], 0, n) == Slice(s, from, n)
  {
  }

  /** fuse_buf_read(). */
  method FdRead(k: Kernel, d: array<int>, at: int, src: BufVec, off: int, len: int) returns (res: int)
    requires d != src.mem && Readable(src, off, len) && 0 <= at && at + len <= d.Length
    modifies k, d, src`taken
    ensures Transfer(res, k.script) == Transferred(old(k.script), 0, len, src.kinds[src.idx].retry) && src.Valid()
    ensures src.kinds[src.idx].retry ==> (Count(res) < len <==> Refused(old(k.script), k.script))
    ensures !src.kinds[src.idx].retry && len > 0 ==>
      res == Answer(old(k.script), len) && k.script == Later(old(k.script))
    ensures 0 <= src.Start(src.idx) + off && src.Start(src.idx) + off + len <= src.mem.Length
    ensures d[..] == Pasted(old(d[..]), at, Slice(src.mem[..], src.Start(src.idx) + off, Count(res)))
    ensures src.taken == Taken(src.View(), old(src.taken), off + Count(res))
  {
    hide Pasted, Slice, Answer, Later, Total, Sizes, Refused, Rests;
    TransferredFull(k.script, 0, len, src.kinds[src.idx].retry);
    ghost var before, from := d[..], src.Start(src.idx) + off;
    var copied, retry := 0, src.kinds[src.idx].retry;
    src.InBuffer();
    NothingYet(before, at, src.mem[..], from);
    while copied < len
      invariant 0 <= copied <= len && src.Valid() && src.taken == Taken(src.View(), old(src.taken), off + copied)
      invariant d[..] == Pasted(before, at, Slice(src.mem[..], from, copied))
      invariant Transferred(old(k.script), 0, len, retry) == Transferred(k.script, copied, len, retry)
    {
      var n, bytes := k.SysRead(src, off + copied, len - copied);
      Put(d, at + copied, bytes);
      Onward(before, at, src.mem[..], from, copied, Count(n));
      if n == -1 {
        return if copied == 0 then -1 else copied;
      }
      copied := copied + n;
      if n == 0 || !retry {
        return copied;
      }
    }
    return copied;
  }

  lemma Temporary(before: seq<int>, t: seq<int>, s: seq<int>, from: int, n: int, m: int)
    requires 0 <= m <= n <= |before| && 0 <= from && from + n <= |s| && t == Pasted(before, 0, Slice(s, from, n))
    ensures Slice(t[..n], 0, m) == Slice(s, from, m)
  {
  }

  /** From descriptor to descriptor, with FD_RETRY on both sides. */
  lemma {:induction false} CrossedFull(script: seq<int>, copied: int, len: int, sretry: bool, dretry: bool, last: int)
    requires 0 <= copied <= len && 0 <= last
    ensures
      var x := Crossed(script, copied, len, sretry, dretry, last);
      Rests(script, x.script) && (sretry && dretry ==> (Count(x.res) < len <==> Refused(script, x.script)))
    decreases len - copied
  {
    hide Transferred, Rests, Refused;
    if copied == len {
      NothingUsed(script);
    } else {
      var thisLen := Least(BUFFER, len - copied);
      var r := Transferred(script, 0, thisLen, sretry);
      TransferredFull(script, 0, thisLen, sretry);
      if r.res > 0 {
        var w := Transferred(r.script, 0, r.res, dretry);
        TransferredFull(r.script, 0, r.res, dretry);
        RestsOn(script, r.script, w.script);
        if w.res == thisLen {
          CrossedFull(w.script, copied + w.res, len, sretry, dretry, w.res);
          RestsOn(script, w.script, Crossed(w.script, copied + w.res, len, sretry, dretry, w.res).script);
        }
      }
    }
  }

  /** One turn through the buffer. */
  lemma CrossedStep(script: seq<int>, copied: int, len: int, sretry: bool, dretry: bool, last: int)
    requires 0 <= copied < len && 0 <= last
    ensures
      var thisLen := Least(BUFFER, len - copied);
      var r := Transferred(script, 0, thisLen, sretry);
      Crossed(script, copied, len, sretry, dretry, last) ==
        if r.res <= 0 then Crossing(if r.res < 0 && copied == 0 then -1 else copied, last, last, r.script)
        else
          var w := Transferred(r.script, 0, r.res, dretry);
          if w.res < 0 && copied == 0 then Crossing(-1, r.res, 0, w.script)
          else if w.res < thisLen then Crossing(copied + Count(w.res), r.res, Count(w.res), w.script)
          else Crossed(w.script, copied + w.res, len, sretry, dretry, w.res)
  {
  }

  lemma CrossedEnd(script: seq<int>, len: int, sretry: bool, dretry: bool, last: int)
    requires 0 <= len && 0 <= last
    ensures Crossed(script, len, len, sretry, dretry, last) == Crossing(len, last, last, script)
  {
  }

  /** One read into the buffer and one write out of it. */
  method ThroughBuffer(k: Kernel, tmp: array<int>, d: array<int>, at: int, src: BufVec, off: int, len: int,
    dretry: bool)
    returns (n: int, m: int)
    requires Readable(src, off, len) && tmp != src.mem && d != src.mem && tmp != d && len <= tmp.Length
    requires 0 <= at && at + len <= d.Length
    modifies k, tmp, d, src`taken
    ensures
      var r := Transferred(old(k.script), 0, len, src.kinds[src.idx].retry);
      && n == r.res && src.Valid()
      && (n <= 0 ==> m == 0 && k.script == r.script)
      && (n > 0 ==> Transfer(m, k.script) == Transferred(r.script, 0, n, dretry))
    ensures 0 <= src.Start(src.idx) + off && src.Start(src.idx) + off + len <= src.mem.Length
    ensures d[..] == Pasted(old(d[..]), at, Slice(src.mem[..], src.Start(src.idx) + off, Count(m)))
    ensures src.taken == Taken(src.View(), old(src.taken), off + Count(n))
  {
    hide Pasted, Slice, Transferred, Total, Sizes, Taken, Readable;
    Reading(src, off, len);
    ghost var stale, from := tmp[..], src.Start(src.idx) + off;
    n := FdRead(k, tmp, 0, src, off, len);
    m := 0;
    NothingYet(d[..], at, src.mem[..], from);
    if n > 0 {
      ghost var filled := tmp[..];
      m := FdWrite(k, d, at, tmp[..n], dretry);
      assert filled[..n] == tmp[..n];
      Temporary(stale, filled, src.mem[..], from, n, Count(m));
    }
  }

  /** fuse_buf_fd_to_fd(): through a buffer of 4096 bytes. The stream ends where the bytes that
      arrived end, and beyond that by what the last read brought and the last write left. */
  method FdToFd(k: Kernel, d: array<int>, at: int, src: BufVec, off: int, len: int, dretry: bool)
    returns (res: int, ghost read: int, ghost wrote: int)
    requires d != src.mem && Readable(src, off, len) && 0 <= at && at + len <= d.Length
    modifies k, d, src`taken
    ensures Crossing(res, read, wrote, k.script) ==
      Crossed(old(k.script), 0, len, src.kinds[src.idx].retry, dretry, 0) && src.Valid()
    ensures 0 <= src.Start(src.idx) + off && src.Start(src.idx) + off + len <= src.mem.Length
    ensures d[..] == Pasted(old(d[..]), at, Slice(src.mem[..], src.Start(src.idx) + off, Count(res)))
    ensures src.taken == Taken(src.View(), old(src.taken), off + Count(res) + read - wrote)
  {
    hide Pasted, Slice, Transferred, Crossed, Total, Sizes, Taken, Readable, Least;
    Reading(src, off, len);
    ghost var before, from := d[..], src.Start(src.idx) + off;
    var copied, sretry := 0, src.kinds[src.idx].retry;
    var tmp := new int[BUFFER];
    read, wrote := 0, 0;
    NothingYet(before, at, src.mem[..], from);
    while copied < len
      invariant 0 <= copied <= len && src.Valid() && src.taken == Taken(src.View(), old(src.taken), off + copied)
      invariant 0 <= read == wrote && d[..] == Pasted(before, at, Slice(src.mem[..], from, copied))
      invariant Crossed(old(k.script), 0, len, sretry, dretry, 0) ==
        Crossed(k.script, copied, len, sretry, dretry, read)
    {
      CrossedStep(k.script, copied, len, sretry, dretry, read);
      ReadOn(src, old(src.taken), off, copied, len);
      var thisLen := Least(BUFFER, len - copied);
      var n, m := ThroughBuffer(k, tmp, d, at + copied, src, off + copied, thisLen, dretry);
      Onward(before, at, src.mem[..], from, copied, Count(m));
      if n < 0 {
        return if copied == 0 then -1 else copied, read, wrote;
      }
      if n == 0 {
        return copied, read, wrote;
      }
      read, wrote := n, Count(m);
      if m < 0 {
        return if copied == 0 then -1 else copied, read, wrote;
      }
      copied := copied + m;
      if m < thisLen {
        return copied, read, wrote;
      }
    }
    CrossedEnd(k.script, len, sretry, dretry, read);
    return copied, read, wrote;
  }

  // ---- fuse_buf_size() ----

  const SIZE_MAX: int := 0xffff_ffff_ffff_ffff

  const WORD: int := SIZE_MAX + 1

  /** Buffer `k` is the last one of unknown size, or `k` is -1 and there is none. */
  ghost predicate LastUnknown(sizes: seq<int>, k: int) {
    && -1 <= k < |sizes| && (k >= 0 ==> sizes[k] == SIZE_MAX)
    && forall i {:trigger sizes[i]} :: k < i < |sizes| ==> sizes[i] != SIZE_MAX
  }

  lemma Wrapped(a: int, b: int)
    ensures (a % WORD + b) % WORD == (a + b) % WORD
  {
    assert a == a / WORD * WORD + a % WORD;
  }

  /** What is added up: SIZE_MAX stands for everything up to the last unknown size. */
  ghost function Sum(sizes: seq<int>, k: int): int
    requires -1 <= k < |sizes|
  {
    (if k < 0 then 0 else SIZE_MAX) + Total(sizes[k + 1..])
  }

  lemma NoneKnown(sizes: seq<int>)
    ensures LastUnknown(sizes[..0], -1) && Sum(sizes[..0], -1) == 0
  {
  }

  lemma UnknownStep(sizes: seq<int>, i: int, k: int)
    requires 0 <= i < |sizes| && -1 <= k < i && LastUnknown(sizes[..i], k)
    ensures if sizes[i] == SIZE_MAX then LastUnknown(sizes[..i + 1], i) && Sum(sizes[..i + 1], i) == SIZE_MAX
      else LastUnknown(sizes[..i + 1], k) && Sum(sizes[..i + 1], k) == Sum(sizes[..i], k) + sizes[i]
  {
    var t := sizes[..i + 1];
    assert t[..i] == sizes[..i];
    assert forall j {:trigger t[j]} :: 0 <= j < i ==> t[j] == sizes[..i][j];
    if sizes[i] != SIZE_MAX {
      assert t[k + 1..][..i - k - 1] == sizes[..i][k + 1..];
    } else {
      assert t[i + 1..] == [];
    }
  }

  lemma Unknowns(sizes: seq<int>, k: int, j: int)
    requires LastUnknown(sizes, k) && LastUnknown(sizes, j)
    ensures k == j
  {
  }

  /** fuse_buf_size() on 64 bits: the sum, wrapped. An unknown size only replaces the sum so
      far, so what follows it is added to SIZE_MAX and wraps around. */
  method BufSize(sizes: seq<int>) returns (size: int)
    requires Sizes(sizes)
    ensures forall k :: LastUnknown(sizes, k) ==> size == Sum(sizes, k) % WORD
  {
    hide LastUnknown, Sum, Sizes;
    size := 0;
    ghost var k := -1;
    NoneKnown(sizes);
    for i := 0 to |sizes|
      invariant -1 <= k < i && LastUnknown(sizes[..i], k)
      invariant size == Sum(sizes[..i], k) % WORD
    {
      UnknownStep(sizes, i, k);
      if sizes[i] == SIZE_MAX {
        size := SIZE_MAX;
        k := i;
      } else {
        Wrapped(Sum(sizes[..i], k), sizes[i]);
        size := (size + sizes[i]) % WORD;
      }
    }
    assert sizes[..|sizes|] == sizes;
    forall j | LastUnknown(sizes, j) ensures j == k {
      Unknowns(sizes, k, j);
    }
  }

  // ---- fuse_buf_copy() ----

  /** A buffer that is transferred as far as the kernel goes. */
  predicate Willing(kind: Kind) {
    kind.File? ==> kind.retry
  }

  predicate AllWilling(kinds: seq<Kind>) {
    forall i {:trigger kinds[i]} :: 0 <= i < |kinds| ==> Willing(kinds[i])
  }

  predicate AllMemory(kinds: seq<Kind>) {
    forall i {:trigger kinds[i]} :: 0 <= i < |kinds| ==> kinds[i].Memory?
  }

  /** Two vectors that share nothing. */
  ghost predicate Apart(dst: BufVec, src: BufVec)
    reads dst, src
  {
    dst != src && dst.mem != src.mem && dst.Valid() && src.Valid()
  }

  /** What copying `len` bytes from one buffer to another comes to. */
  function Once(dk: Kind, sk: Kind, len: int, script: seq<int>): (r: Crossing)
    requires 0 <= len
    ensures -1 <= r.res <= len && 0 <= r.wrote <= r.read && (r.res == len ==> r.wrote == r.read)
    ensures len == 0 || (sk.Memory? && dk.Memory?) ==> r.res == len
    ensures r.Over() > 0 ==> dk.File? && sk.File?
  {
    if sk.Memory? && dk.Memory? then Crossing(len, 0, 0, script)
    else if sk.File? && dk.File? then Crossed(script, 0, len, sk.retry, dk.retry, 0)
    else
      var t := Transferred(script, 0, len, if sk.Memory? then dk.retry else sk.retry);
      Crossing(t.res, 0, 0, t.script)
  }

  lemma OnceFull(dk: Kind, sk: Kind, len: int, script: seq<int>)
    requires 0 <= len
    ensures
      var x := Once(dk, sk, len, script);
      && Rests(script, x.script) && (dk.Memory? && sk.Memory? ==> x.script == script)
      && (Willing(dk) && Willing(sk) ==> (Count(x.res) < len <==> Refused(script, x.script)))
  {
    hide Transferred, Crossed, Rests, Refused;
    NothingUsed(script);
    if sk.File? && dk.File? {
      CrossedFull(script, 0, len, sk.retry, dk.retry, 0);
    } else if sk.File? || dk.File? {
      TransferredFull(script, 0, len, if sk.Memory? then dk.retry else sk.retry);
    }
  }

  /** fuse_buf_copy_one(). */
  method CopyOne(k: Kernel, dst: BufVec, src: BufVec, len: int) returns (res: int, ghost read: int, ghost wrote: int)
    requires Apart(dst, src) && dst.idx < |dst.sizes| && src.idx < |src.sizes| && src.Streams(src.idx, 0)
    requires 0 <= len <= dst.sizes[dst.idx] - dst.off && len <= src.sizes[src.idx] - src.off
    modifies k, dst.mem, src`taken
    ensures Apart(dst, src)
    ensures Crossing(res, read, wrote, k.script) == Once(dst.kinds[dst.idx], src.kinds[src.idx], len, old(k.script))
    ensures 0 <= dst.Pos() <= dst.Pos() + len <= dst.mem.Length && 0 <= src.Pos() <= src.Pos() + len <= src.mem.Length
    ensures dst.mem[..] == Pasted(old(dst.mem[..]), dst.Pos(), Slice(src.mem[..], src.Pos(), Count(res)))
    ensures src.taken == Taken(src.View(), old(src.taken), src.off + Count(res) + read - wrote)
  {
    hide Pasted, Slice, Total, Transferred, Crossed, Sizes;
    dst.InBuffer();
    src.InBuffer();
    var at, from := dst.Start(dst.idx) + dst.off, src.Start(src.idx) + src.off;
    var dk, sk := dst.kinds[dst.idx], src.kinds[src.idx];
    SliceArray(src.mem, from, len);
    read, wrote := 0, 0;
    if sk.Memory? && dk.Memory? {
      Put(dst.mem, at, src.mem[from..from + len]);
      res := len;
    } else if sk.Memory? {
      res := FdWrite(k, dst.mem, at, src.mem[from..from + len], dk.retry);
      SliceAgain(src.mem[..], from, len, Count(res));
    } else if dk.Memory? {
      res := FdRead(k, dst.mem, at, src, src.off, len);
    } else {
      res, read, wrote := FdToFd(k, dst.mem, at, src, src.off, len, dk.retry);
    }
  }

  lemma SliceArray(a: array<int>, from: int, n: int)
    requires 0 <= from && 0 <= n && from + n <= a.Length
    ensures a[from..from + n] == Slice(a[..], from, n)
  {
  }

  lemma SliceAgain(s: seq<int>, from: int, n: int, m: int)
    requires 0 <= from && 0 <= m <= n && from + n <= |s|
    ensures Slice(Slice(s, from, n), 0, m) == Slice(s, from, m)
  {
  }

  datatype Turn = Turn(n: int, dst: Vec, src: Vec, read: int, wrote: int, script: seq<int>, stop: bool)

  /** One turn of the loop of fuse_buf_copy(). The advance of the destination is skipped when
      the source has come to its end. */
  function Turned(dst: Vec, src: Vec, script: seq<int>): (t: Turn)
    requires dst.Valid() && src.Valid() && !dst.AtEnd() && !src.AtEnd()
    ensures t.dst.Valid() && t.src.Valid() && -1 <= t.n && (t.n < 0 ==> t.stop) && 0 <= t.wrote <= t.read
    ensures t.src.sizes == src.sizes && t.dst.sizes == dst.sizes && t.src.kinds == src.kinds && t.dst.kinds == dst.kinds
    ensures src.idx <= t.src.idx && dst.idx <= t.dst.idx
    ensures !t.stop ==> !t.dst.AtEnd() && !t.src.AtEnd() && t.read == t.wrote
    ensures !t.stop ==> t.src.idx + t.dst.idx > src.idx + dst.idx
  {
    var len := Least(src.Room(), dst.Room());
    var x := Once(dst.kinds[dst.idx], src.kinds[src.idx], len, script);
    if x.res < 0 then Turn(x.res, dst, src, x.read, x.wrote, x.script, true)
    else
      var s := src.Moved(x.res);
      if s.AtEnd() then Turn(x.res, dst, s, x.read, x.wrote, x.script, true)
      else
        var d := dst.Moved(x.res);
        Turn(x.res, d, s, x.read, x.wrote, x.script, d.AtEnd() || x.res < len)
  }

  lemma TurnedIs(dst: Vec, src: Vec, script: seq<int>)
    requires dst.Valid() && src.Valid() && !dst.AtEnd() && !src.AtEnd()
    ensures
      var len := Least(src.Room(), dst.Room());
      var x := Once(dst.kinds[dst.idx], src.kinds[src.idx], len, script);
      Turned(dst, src, script) ==
        if x.res < 0 then Turn(x.res, dst, src, x.read, x.wrote, x.script, true)
        else if src.Moved(x.res).AtEnd() then Turn(x.res, dst, src.Moved(x.res), x.read, x.wrote, x.script, true)
        else
          var d := dst.Moved(x.res);
          Turn(x.res, d, src.Moved(x.res), x.read, x.wrote, x.script, d.AtEnd() || x.res < len)
  {
  }

  /** The bytes counted are within both vectors, and the source cursor moves over them. */
  lemma TurnedMoves(dst: Vec, src: Vec, script: seq<int>)
    requires dst.Valid() && src.Valid() && !dst.AtEnd() && !src.AtEnd()
    ensures
      var t := Turned(dst, src, script);
      && Count(t.n) <= dst.Left() && Count(t.n) <= src.Left() && 0 <= dst.Pos() && 0 <= src.Pos()
      && t.src.Pos() == src.Pos() + Count(t.n)
      && t.dst.Pos() == dst.Pos() + (if t.src.AtEnd() then 0 else Count(t.n))
      && (t.src.AtEnd() ==> t.stop && t.src.idx == |src.sizes| && t.n == src.LastLeft())
      && (!t.src.AtEnd() ==> (t.src.LastLeft() == 0 <==> src.LastLeft() == 0))
  {
    hide Total, Sizes, Once, Vec.Pos, Vec.Left, Vec.Moved, Vec.LastLeft;
    var x := Once(dst.kinds[dst.idx], src.kinds[src.idx], Least(src.Room(), dst.Room()), script);
    MovedPos(dst, Count(x.res));
    MovedPos(src, Count(x.res));
    LastMoved(src, Count(x.res));
  }

  lemma EndIsEnd(v: Vec)
    requires v.Valid() && v.AtEnd()
    ensures v.Left() == 0
  {
  }

  /** A turn in which the kernel does not refuse, if it is asked at all. */
  lemma TurnedFull(dst: Vec, src: Vec, script: seq<int>)
    requires dst.Valid() && src.Valid() && !dst.AtEnd() && !src.AtEnd()
    ensures
      var t := Turned(dst, src, script);
      && Rests(script, t.script)
      && (dst.kinds[dst.idx].Memory? && src.kinds[src.idx].Memory? ==> t.script == script)
      && (Willing(dst.kinds[dst.idx]) && Willing(src.kinds[src.idx]) && !Refused(script, t.script) ==>
        && t.n >= 0 && t.read == t.wrote && (t.src.AtEnd() ==> t.n == src.Left())
        && (!t.src.AtEnd() && t.stop ==> t.dst.Left() == 0))
  {
    hide Total, Sizes, Once, Vec.Left, Vec.LastLeft, Rests, Refused;
    var len := Least(src.Room(), dst.Room());
    OnceFull(dst.kinds[dst.idx], src.kinds[src.idx], len, script);
    LastMoved(src, len);
    if dst.Moved(len).AtEnd() && dst.Moved(len).Valid() {
      EndIsEnd(dst.Moved(len));
    }
  }

  method Step(k: Kernel, dst: BufVec, src: BufVec, ghost first: int)
    returns (n: int, stop: bool, ghost read: int, ghost wrote: int)
    requires Apart(dst, src) && dst.idx < |dst.sizes| && src.idx < |src.sizes|
    requires first <= src.idx && src.Streams(first, 0)
    modifies k, dst.mem, dst`idx, dst`off, src`idx, src`off, src`taken
    ensures Apart(dst, src)
    ensures Turn(n, dst.View(), src.View(), read, wrote, k.script, stop) ==
      Turned(old(dst.View()), old(src.View()), old(k.script))
    ensures src.Streams(first, read - wrote)
    ensures 0 <= old(dst.Pos()) && old(dst.Pos()) + Count(n) <= dst.mem.Length
    ensures 0 <= old(src.Pos()) && old(src.Pos()) + Count(n) <= src.mem.Length
    ensures dst.mem[..] == Pasted(old(dst.mem[..]), old(dst.Pos()), Slice(src.mem[..], old(src.Pos()), Count(n)))
  {
    hide Pasted, Slice, Total, Sizes, Once, Standing, Vec.Moved, Vec.Pos, Taken, Turned;
    dst.InBuffer();
    src.InBuffer();
    ghost var v, was := src.View(), src.taken;
    var srcLen, dstLen := src.sizes[src.idx] - src.off, dst.sizes[dst.idx] - dst.off;
    var len := Least(srcLen, dstLen);
    StreamsFrom(v, was, first, src.idx);
    n, read, wrote := CopyOne(k, dst, src, len);
    StandsOn(v, was, src.taken, first, Count(n), read - wrote);
    TurnedIs(dst.View(), v, old(k.script));
    if n < 0 {
      return n, true, read, wrote;
    }
    var more := src.Advance(n);
    if !more {
      return n, true, read, wrote;
    }
    more := dst.Advance(n);
    return n, !more || n < len, read, wrote;
  }

  lemma StreamsFrom(v: Vec, taken: seq<int>, from: int, to: int)
    requires Standing(v, taken, from, 0) && from <= to
    ensures Standing(v, taken, to, 0)
  {
  }

  datatype Ending = Ending(res: int, dst: Vec, src: Vec, read: int, wrote: int, script: seq<int>)

  /** The turns of fuse_buf_copy() after `copied` bytes. */
  function Turns(dst: Vec, src: Vec, copied: int, script: seq<int>): Ending
    requires dst.Valid() && src.Valid() && 0 <= copied
    decreases |src.sizes| + |dst.sizes| - src.idx - dst.idx
  {
    if dst.AtEnd() || src.AtEnd() then Ending(copied, dst, src, 0, 0, script)
    else
      var t := Turned(dst, src, script);
      if t.n < 0 then Ending(if copied == 0 then -1 else copied, t.dst, t.src, t.read, t.wrote, t.script)
      else if t.stop then Ending(copied + t.n, t.dst, t.src, t.read, t.wrote, t.script)
      else Turns(t.dst, t.src, copied + t.n, t.script)
  }

  lemma TurnsEnd(dst: Vec, src: Vec, copied: int, script: seq<int>)
    requires dst.Valid() && src.Valid() && 0 <= copied
    ensures dst.AtEnd() || src.AtEnd() ==> Turns(dst, src, copied, script) == Ending(copied, dst, src, 0, 0, script)
  {
  }

  lemma TurnsStep(dst: Vec, src: Vec, copied: int, script: seq<int>)
    requires dst.Valid() && src.Valid() && !dst.AtEnd() && !src.AtEnd() && 0 <= copied
    ensures
      var t := Turned(dst, src, script);
      Turns(dst, src, copied, script) ==
        if t.n < 0 && copied == 0 then Ending(-1, t.dst, t.src, t.read, t.wrote, t.script)
        else if t.stop then Ending(copied + Count(t.n), t.dst, t.src, t.read, t.wrote, t.script)
        else Turns(t.dst, t.src, copied + t.n, t.script)
  {
  }

  /** The source cursor moves by exactly what is counted. The destination cursor does too, unless
      the source is used up and had something left in its last buffer. */
  lemma {:induction false} TurnsMove(dst: Vec, src: Vec, copied: int, script: seq<int>)
    requires dst.Valid() && src.Valid() && 0 <= copied
    ensures
      var e := Turns(dst, src, copied, script);
      var n := Count(e.res) - copied;
      && e.dst.Valid() && e.src.Valid() && -1 <= e.res && 0 <= n <= dst.Left() && n <= src.Left()
      && e.src.Pos() == src.Pos() + n && e.dst.Pos() <= dst.Pos() + n
      && (e.dst.Pos() < dst.Pos() + n <==> e.src.idx == |src.sizes| && src.LastLeft() > 0)
    decreases |src.sizes| + |dst.sizes| - src.idx - dst.idx
  {
    hide Turned, Vec.Pos, Vec.LastLeft, Sizes, Total;
    PosRange(dst);
    PosRange(src);
    LastIsPart(src);
    if !dst.AtEnd() && !src.AtEnd() {
      var t := Turned(dst, src, script);
      TurnedMoves(dst, src, script);
      LastIsPart(t.src);
      if !t.stop {
        TurnsMove(t.dst, t.src, copied + t.n, t.script);
      }
    }
  }

  /** With FD_RETRY on every descriptor, everything that fits is copied unless the kernel
      refuses; between memory buffers it is not even asked. */
  lemma {:induction false} TurnsFull(dst: Vec, src: Vec, copied: int, script: seq<int>)
    requires dst.Valid() && src.Valid() && 0 <= copied
    ensures
      var e := Turns(dst, src, copied, script);
      && Rests(script, e.script) && (AllMemory(dst.kinds) && AllMemory(src.kinds) ==> e.script == script)
      && (AllWilling(dst.kinds) && AllWilling(src.kinds) && !Refused(script, e.script) ==>
        e.res == copied + Least(src.Left(), dst.Left()))
    decreases |src.sizes| + |dst.sizes| - src.idx - dst.idx
  {
    hide Turned, Vec.Pos, Vec.LastLeft, Sizes, Total, Rests, Refused;
    PosRange(dst);
    PosRange(src);
    NothingUsed(script);
    if !dst.AtEnd() && !src.AtEnd() {
      var t := Turned(dst, src, script);
      TurnedMoves(dst, src, script);
      TurnedFull(dst, src, script);
      if !t.stop {
        TurnsFull(t.dst, t.src, copied + t.n, t.script);
        RestsOn(script, t.script, Turns(t.dst, t.src, copied + t.n, t.script).script);
      }
    }
  }

  /** Between memory buffers everything that fits is copied, and the destination cursor is exact
      iff the source has more left than that or nothing in its last buffer. */
  lemma {:induction false} TurnsMemory(dst: Vec, src: Vec, copied: int, script: seq<int>)
    requires dst.Valid() && src.Valid() && 0 <= copied && AllMemory(dst.kinds) && AllMemory(src.kinds)
    ensures
      var e := Turns(dst, src, copied, script);
      && e.res == copied + Least(src.Left(), dst.Left()) && e.dst.Valid()
      && (e.dst.Pos() == dst.Pos() + e.res - copied <==> src.Left() > dst.Left() || src.LastLeft() == 0)
    decreases |src.sizes| + |dst.sizes| - src.idx - dst.idx
  {
    hide Turned, Vec.Pos, Vec.LastLeft, Sizes, Total, Rests, Refused;
    PosRange(dst);
    PosRange(src);
    LastIsPart(src);
    if !dst.AtEnd() && !src.AtEnd() {
      var t := Turned(dst, src, script);
      TurnedMoves(dst, src, script);
      TurnedFull(dst, src, script);
      NothingUsed(script);
      LastIsPart(t.src);
      if !t.stop {
        TurnsMemory(t.dst, t.src, copied + t.n, t.script);
      }
    }
  }

  /** The loop of fuse_buf_copy(). */
  method Loop(k: Kernel, dst: BufVec, src: BufVec) returns (res: int, ghost read: int, ghost wrote: int)
    requires Apart(dst, src) && src.Streams(src.idx, 0)
    modifies k, dst.mem, dst`idx, dst`off, src`idx, src`off, src`taken
    ensures Apart(dst, src) && 0 <= wrote <= read && src.Streams(old(src.idx), read - wrote)
    ensures Ending(res, dst.View(), src.View(), read, wrote, k.script) ==
      Turns(old(dst.View()), old(src.View()), 0, old(k.script))
    ensures 0 <= old(dst.Pos()) && old(dst.Pos()) + Count(res) <= dst.mem.Length
    ensures 0 <= old(src.Pos()) && old(src.Pos()) + Count(res) <= src.mem.Length
    ensures dst.mem[..] == Pasted(old(dst.mem[..]), old(dst.Pos()), Slice(src.mem[..], old(src.Pos()), Count(res)))
  {
    hide Pasted, Slice, Total, Sizes, Vec.LastLeft, Vec.Pos, Turned, Turns, Standing;
    ghost var before, d0, s0, first := dst.mem[..], dst.Pos(), src.Pos(), src.idx;
    ghost var goal := Turns(dst.View(), src.View(), 0, k.script);
    PosRange(dst.View());
    PosRange(src.View());
    NothingYet(before, d0, src.mem[..], s0);
    TurnsEnd(dst.View(), src.View(), 0, k.script);
    var copied, stop := 0, !(src.idx < |src.sizes|) || !(dst.idx < |dst.sizes|);
    read, wrote := 0, 0;
    while !stop
      invariant Apart(dst, src) && first <= src.idx && 0 <= wrote <= read && src.Streams(first, read - wrote)
      invariant 0 <= copied && s0 + copied <= src.mem.Length && d0 + copied <= dst.mem.Length
      invariant dst.mem[..] == Pasted(before, d0, Slice(src.mem[..], s0, copied))
      invariant !stop ==> src.idx < |src.sizes| && dst.idx < |dst.sizes| && read == wrote
      invariant !stop ==> src.Pos() == s0 + copied && dst.Pos() == d0 + copied
      invariant !stop ==> goal == Turns(dst.View(), src.View(), copied, k.script)
      invariant stop ==> goal == Ending(copied, dst.View(), src.View(), read, wrote, k.script)
      decreases !stop, |src.sizes| + |dst.sizes| - src.idx - dst.idx
    {
      TurnsStep(dst.View(), src.View(), copied, k.script);
      TurnedMoves(dst.View(), src.View(), k.script);
      var n;
      n, stop, read, wrote := Step(k, dst, src, first);
      Onward(before, d0, src.mem[..], s0, copied, Count(n));
      if n < 0 {
        return if copied == 0 then -1 else copied, read, wrote;
      }
      copied := copied + n;
    }
    return copied, read, wrote;
  }

  lemma Viewed(dst: BufVec, src: BufVec)
    requires Apart(dst, src)
    ensures dst.Valid() && src.Valid() && dst.View().Valid() && src.View().Valid()
    ensures dst.Pos() == dst.View().Pos() && src.Pos() == src.View().Pos() && src.LastLeft() == src.View().LastLeft()
    ensures dst.Left() == dst.View().Left() && src.Left() == src.View().Left()
    ensures dst.View().kinds == dst.kinds && src.View().kinds == src.kinds && src.View().sizes == src.sizes
    ensures src.View().idx == src.idx && 0 <= src.idx && 0 <= dst.idx && dst.View().idx == dst.idx
  {
  }

  /** fuse_buf_copy(): the destination receives exactly the bytes that are counted and the
      source cursor moves by exactly that much. The destination cursor lags behind iff the source
      is used up and had something left in its last buffer. The source streams stand at the cursor too, except that
      the one in use is ahead by what the last read brought and the last write left. */
  method Copy(k: Kernel, dst: BufVec, src: BufVec) returns (res: int, ghost read: int, ghost wrote: int)
    requires Apart(dst, src) && src.Streams(src.idx, 0)
    modifies k, dst.mem, dst`idx, dst`off, src`idx, src`off, src`taken
    ensures Apart(dst, src) && -1 <= res
    ensures Ending(res, dst.View(), src.View(), read, wrote, k.script) ==
      Turns(old(dst.View()), old(src.View()), 0, old(k.script))
    ensures 0 <= wrote <= read && src.Streams(old(src.idx), read - wrote)
    ensures Count(res) <= old(dst.Left()) && Count(res) <= old(src.Left())
    ensures 0 <= old(dst.Pos()) && old(dst.Pos()) + Count(res) <= dst.mem.Length
    ensures 0 <= old(src.Pos()) && old(src.Pos()) + Count(res) <= src.mem.Length
    ensures dst.mem[..] == Pasted(old(dst.mem[..]), old(dst.Pos()), Slice(src.mem[..], old(src.Pos()), Count(res)))
    ensures src.Pos() == old(src.Pos()) + Count(res)
    ensures dst.Pos() <= old(dst.Pos()) + Count(res)
    ensures dst.Pos() < old(dst.Pos()) + Count(res) <==> src.idx == |src.sizes| && old(src.LastLeft()) > 0
    ensures AllWilling(dst.kinds) && AllWilling(src.kinds) && !Refused(old(k.script), k.script) ==>
      res == Least(old(src.Left()), old(dst.Left()))
    ensures AllMemory(dst.kinds) && AllMemory(src.kinds) ==>
      && res == Least(old(src.Left()), old(dst.Left()))
      && (dst.Pos() == old(dst.Pos()) + res <==> old(src.Left()) > old(dst.Left()) || old(src.LastLeft()) == 0)
  {
    hide *;
    var d, v := dst.View(), src.View();
    Viewed(dst, src);
    PosRange(d);
    PosRange(v);
    TurnsMove(d, v, 0, k.script);
    TurnsFull(d, v, 0, k.script);
    if AllMemory(dst.kinds) && AllMemory(src.kinds) {
      TurnsMemory(d, v, 0, k.script);
    }
    res, read, wrote := Loop(k, dst, src);
    Viewed(dst, src);
  }

  // ---- examples ----

  /** One byte copied into one byte of room: the destination cursor stays where it was. */
  method LagExample() returns (copied: int, at: int)
    ensures copied == 1 && at == 0
  {
    var a, b := new int[1], new int[1];
    assert Total([1]) == 1 by { assert [1][..0] == []; }
    var k := new Kernel([]);
    var dst := new BufVec([1], [Memory], a, 0, 0);
    var src := new BufVec([1], [Memory], b, 0, 0);
    ghost var read, wrote;
    copied, read, wrote := Copy(k, dst, src);
    PosRange(dst.View());
    assert [1][..0] == [];
    at := dst.Pos();
  }

  /** A stream yields two bytes and the destination takes one of them: the source cursor is
      at one and the stream at two. */
  method OverreadExample() returns (copied: int, cursor: int, stream: int)
    ensures copied == 1 && cursor == 1 && stream == 2
  {
    hide Turns, Pasted, Slice, Sizes;
    var a, b := new int[2], new int[2];
    assert Total([2]) == 2 by { assert [2][..0] == []; }
    var k := new Kernel([2, 1]);
    var dst := new BufVec([2], [File(true, false)], a, 0, 0);
    var src := new BufVec([2], [File(false, false)], b, 0, 0);
    OverreadTurn(dst.View(), src.View(), k.script);
    ghost var read, wrote;
    copied, read, wrote := Copy(k, dst, src);
    cursor, stream := src.off, src.taken[0];
  }

  /** The answers 2 and 1 for one buffer each of two bytes. */
  lemma OverreadTurn(dst: Vec, src: Vec, script: seq<int>)
    requires dst == Vec([2], [File(true, false)], 0, 0) && src == Vec([2], [File(false, false)], 0, 0)
    requires |script| == 2 && script[0] == 2 && script[1] == 1
    ensures dst.Valid() && src.Valid()
    ensures Turns(dst, src, 0, script) == Ending(1, dst.(off := 1), src.(off := 1), 2, 1, [])
  {
    hide Once, Turns, Crossed, Transferred;
    OverreadOnce(dst.kinds[0], src.kinds[0], 2, script);
    TurnsStep(dst, src, 0, script);
    TurnedIs(dst, src, script);
  }

  lemma OverreadOnce(dk: Kind, sk: Kind, len: int, script: seq<int>)
    requires dk.File? && !dk.retry && sk.File? && !sk.retry && len == 2
    requires |script| == 2 && script[0] == 2 && script[1] == 1
    ensures Once(dk, sk, len, script) == Crossing(1, 2, 1, [])
  {
    hide Transferred, Crossed;
    TransferredOnce(script, len);
    TransferredOnce(Later(script), len);
    CrossedStep(script, 0, len, sk.retry, dk.retry, 0);
    assert Later(Later(script)) == [];
  }
}
