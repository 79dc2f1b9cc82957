// Bytes of memory, and what a copy between two places leaves of them.
module Bytes {
  type Byte = b: int | 0 <= b < 256

  // A number in `bytes` bytes, the least significant first
  function Little(n: nat, bytes: nat): (r: seq<Byte>)
    ensures |r| == bytes
  {
    if bytes == 0 then [] else [n % 256] + Little(n / 256, bytes - 1)
  }

  // The bytes with `data` written at p
  function Written(a: seq<Byte>, p: nat, data: seq<Byte>): (b: seq<Byte>)
    requires p + |data| <= |a|
    ensures |b| == |a|
    ensures forall k {:trigger b[k]} :: 0 <= k < |a| ==> b[k] == if p <= k < p + |data| then data[k - p] else a[k]
  {
    a[..p] + data + a[p + |data|..]
  }

  // The n bytes that were at `from` are now at `to`.
  ghost predicate Carried(a: seq<Byte>, b: seq<Byte>, from: nat, to: nat, n: nat) {
    && from + n <= |a| && to + n <= |b|
    && (forall k {:trigger b[k]} :: to <= k < to + n ==> b[k] == a[k - to + from])
  }

  // Nothing but those n bytes has changed.
  ghost predicate OnlyCopied(a: seq<Byte>, b: seq<Byte>, from: nat, to: nat, n: nat) {
    && Carried(a, b, from, to, n) && |a| == |b|
    && (forall k {:trigger b[k]} :: 0 <= k < |a| && !(to <= k < to + n) ==> b[k] == a[k])
  }

  // The memory that several objects write to
  class Memory {
    var bytes: seq<Byte>

    constructor (size: nat)
      ensures |bytes| == size
    {
      bytes := seq(size, _ => 0);
    }

    method Write(p: nat, data: seq<Byte>)
      requires p + |data| <= |bytes|
      modifies this
      ensures bytes == Written(old(bytes), p, data)
    {
      bytes := Written(bytes, p, data);
    }
  }
}
