/**
 * Python's `bytearray` as the encoders use it: slice assignment may run past the end and
 * then grows the array, while `struct.pack_into` and index assignment must stay inside.
 */
module ByteArrays {
  import opened Octets

  /** d with src laid over it from off on. */
  function Overlay(d: Bytes, off: nat, src: Bytes): (r: Bytes)
    requires off <= |d|
    ensures |r| == if |d| >= off + |src| then |d| else off + |src|
  {
    d[..off] + src + (if off + |src| <= |d| then d[off + |src|..] else [])
  }

  /** Two writes one after the other are one write. */
  lemma OverlayCompose(d: Bytes, off: nat, a: Bytes, b: Bytes)
    requires off <= |d|
    ensures Overlay(Overlay(d, off, a), off + |a|, b) == Overlay(d, off, a + b)
  {
    assert Overlay(d, off, a)[..off + |a|] == d[..off] + a;
  }

  lemma OverlayNothing(d: Bytes, off: nat)
    requires off <= |d|
    ensures Overlay(d, off, []) == d
  {
  }

  lemma OverlayPrefix(d: Bytes, off: nat, src: Bytes)
    requires off <= |d|
    ensures Overlay(d, off, src)[..off + |src|] == d[..off] + src
    ensures forall i | off + |src| <= i < |d| :: Overlay(d, off, src)[i] == d[i]
  {
  }

  class ByteArray {
    var data: Bytes

    constructor (n: nat)
      ensures data == Zeros(n)
    {
      data := Zeros(n);
    }

    /** `buf[off : off + len(src)] = src` */
    method SetSlice(off: nat, src: Bytes)
      requires off <= |data|
      modifies this
      ensures data == Overlay(old(data), off, src)
    {
      data := data[..off] + src + (if off + |src| <= |data| then data[off + |src|..] else []);
    }

    /** `struct.pack_into` of one unsigned big-endian integer; !ok is struct.error. */
    method PackInto(off: nat, n: nat, width: nat) returns (ok: bool)
      requires off <= |data|
      modifies this
      ensures ok <==> n < Pow256(width) && off + width <= |old(data)|
      ensures data == if ok then Overlay(old(data), off, BigEndian(n, width)) else old(data)
    {
      ok := n < Pow256(width) && off + width <= |data|;
      if ok {
        data := data[..off] + BigEndian(n, width) + data[off + width..];
      }
    }

    /** `buf[off] = n`; !ok is IndexError or ValueError. */
    method SetByte(off: nat, n: nat) returns (ok: bool)
      requires off <= |data|
      modifies this
      ensures ok <==> n < 256 && off < |old(data)|
      ensures data == if ok then Overlay(old(data), off, [n]) else old(data)
    {
      ok := n < 256 && off < |data|;
      if ok {
        data := data[..off] + [n] + data[off + 1..];
      }
    }
  }
}
