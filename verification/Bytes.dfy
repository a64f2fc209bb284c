/** Octets, and numbers written as octets in network order. */
module Bytes {
  type byte = x: int | 0 <= x < 0x100

  datatype Option<+T> = None | Some(value: T)

  function Pack2(a: byte, b: byte): nat {
    0x100 * a + b
  }

  function Pack4(a: byte, b: byte, c: byte, d: byte): nat {
    0x1_0000 * Pack2(a, b) + Pack2(c, d)
  }

  function Unpack2(x: nat): (s: seq<byte>)
    requires x < 0x1_0000
    ensures |s| == 2
  {
    [x / 0x100, x % 0x100]
  }

  function Unpack4(x: nat): (s: seq<byte>)
    requires x < 0x1_0000_0000
    ensures |s| == 4
  {
    Unpack2(x / 0x1_0000) + Unpack2(x % 0x1_0000)
  }

  /** Packing and unpacking undo each other. */
  lemma PackUnpack(x: nat, y: nat, a: byte, b: byte, c: byte, d: byte)
    ensures x < 0x1_0000 ==> Pack2(Unpack2(x)[0], Unpack2(x)[1]) == x
    ensures y < 0x1_0000_0000 ==> var s := Unpack4(y); Pack4(s[0], s[1], s[2], s[3]) == y
    ensures Pack2(a, b) < 0x1_0000 && Unpack2(Pack2(a, b)) == [a, b]
    ensures Pack4(a, b, c, d) < 0x1_0000_0000 && Unpack4(Pack4(a, b, c, d)) == [a, b, c, d]
  {
    assert Pack4(a, b, c, d) / 0x1_0000 == Pack2(a, b) && Pack4(a, b, c, d) % 0x1_0000 == Pack2(c, d);
  }

  lemma Unpack2Injective(x: nat, y: nat)
    requires x < 0x1_0000 && y < 0x1_0000 && Unpack2(x) == Unpack2(y)
    ensures x == y
  {
    assert Unpack2(x)[0] == Unpack2(y)[0] && Unpack2(x)[1] == Unpack2(y)[1];
  }

  method Unpack2Into(buf: array<byte>, i: nat, val: nat) returns (next: nat)
    requires i + 2 <= buf.Length && val < 0x1_0000
    modifies buf
    ensures next == i + 2 && [buf[i], buf[i + 1]] == Unpack2(val)
    ensures forall k | 0 <= k < buf.Length && k != i && k != i + 1 :: buf[k] == old(buf[k])
  {
    buf[i] := val / 0x100;
    buf[i + 1] := val % 0x100;
    next := i + 2;
  }

  /** The last position of `c` among the first `size` items, scanning backwards. */
  method Memrchr<T(==)>(buf: seq<T>, c: T, size: nat) returns (r: Option<nat>)
    requires size <= |buf|
    ensures r.None? ==> c !in buf[..size]
    ensures r.Some? ==> r.value < size && buf[r.value] == c && c !in buf[r.value + 1..size]
  {
    var i := size - 1;
    while i >= 0
      invariant -1 <= i < size
      invariant forall k | i < k < size :: buf[k] != c
    {
      if buf[i] == c {
        return Some(i);
      }
      i := i - 1;
    }
    r := None;
  }
}
