/** Writing a run of bytes into memory. */
module Memcpy {

  /** `d` with `bytes` put at position `at`. */
  function Pasted(d: seq<int>, at: int, bytes: seq<int>): (r: seq<int>)
    requires 0 <= at && at + |bytes| <= |d|
    ensures |r| == |d|
  {
    d[..at] + bytes + d[at + |bytes|..]
  }

  lemma PastedNothing(d: seq<int>, at: int)
    requires 0 <= at <= |d|
    ensures Pasted(d, at, []) == d
  {
  }

  lemma PastedMore(d: seq<int>, at: int, a: seq<int>, b: seq<int>)
    requires 0 <= at && at + |a| + |b| <= |d|
    ensures Pasted(Pasted(d, at, a), at + |a|, b) == Pasted(d, at, a + b)
  {
    var e, f := Pasted(Pasted(d, at, a), at + |a|, b), Pasted(d, at, a + b);
    assert forall i :: 0 <= i < |d| ==> e[i] == f[i];
  }

  lemma PastedOne(d: seq<int>, at: int, bytes: seq<int>, i: int)
    requires 0 <= at && 0 <= i < |bytes| && at + |bytes| <= |d|
    ensures Pasted(d, at, bytes[..i])[at + i := bytes[i]] == Pasted(d, at, bytes[..i + 1])
  {
    var e, f := Pasted(d, at, bytes[..i])[at + i := bytes[i]], Pasted(d, at, bytes[..i + 1]);
    assert forall j :: 0 <= j < |d| ==> e[j] == f[j];
  }

  /** memcpy(). */
  method Put(d: array<int>, at: int, bytes: seq<int>)
    requires 0 <= at && at + |bytes| <= d.Length
    modifies d
    ensures d[..] == Pasted(old(d[..]), at, bytes)
  {
    hide Pasted;
    ghost var before := d[..];
    PastedNothing(before, at);
    for i := 0 to |bytes|
      invariant d[..] == Pasted(before, at, bytes[..i])
    {
      PastedOne(before, at, bytes, i);
      ghost var now := d[..];
      d[at + i] := bytes[i];
      assert d[..] == now[at + i := bytes[i]];
    }
    assert bytes[..|bytes|] == bytes;
  }
}
