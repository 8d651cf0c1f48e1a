/**
 * Byte sequences and the effect of the block operations the driver uses on
 * its storage: `memcpy`/`copy_from_user` (Overlay), `memset(.., 0, ..)`
 * (Zeros) and the index loop that builds the mirror (Reversed).
 */
module Bytes {

  /** One 8-bit cell of the device buffer. */
  newtype byte = x: int | 0 <= x < 256

  /** The kernel's `min` on two integers. */
  function Min(a: int, b: int): (m: int)
    ensures m <= a && m <= b
    ensures m == a || m == b
  {
    if a <= b then a else b
  }

  /** `n` zero bytes, what `memset(p, 0, n)` stores. */
  function Zeros(n: nat): (z: seq<byte>)
    ensures |z| == n
    ensures forall i :: 0 <= i < n ==> z[i] == 0
  {
    seq(n, _ => 0)
  }

  /**
   * The storage `s` after the bytes `d` are copied over it at offset `off`:
   * the window `[off, off + |d|)` holds `d`, every other byte is kept.
   */
  function Overlay(s: seq<byte>, off: nat, d: seq<byte>): (r: seq<byte>)
    requires off + |d| <= |s|
    ensures |r| == |s|
    ensures r[off..off + |d|] == d
    ensures forall i :: 0 <= i < |d| ==> r[off + i] == d[i]
    ensures forall i :: 0 <= i < |s| && (i < off || off + |d| <= i) ==> r[i] == s[i]
  {
    s[..off] + d + s[off + |d|..]
  }

  /** Copying `d1` and then `d2` right behind it is one copy of `d1 + d2`. */
  lemma OverlayAdjacent(s: seq<byte>, off: nat, d1: seq<byte>, d2: seq<byte>)
    requires off + |d1| + |d2| <= |s|
    ensures Overlay(Overlay(s, off, d1), off + |d1|, d2) == Overlay(s, off, d1 + d2)
  {
  }

  /** `s` back to front: the last byte first. */
  function Reversed(s: seq<byte>): (r: seq<byte>)
    ensures |r| == |s|
  {
    if s == [] then [] else [s[|s| - 1]] + Reversed(s[..|s| - 1])
  }

  /** Byte `i` of the reversal is byte `|s| - 1 - i` of the original. */
  lemma {:induction false} ReversedAt(s: seq<byte>, i: nat)
    requires i < |s|
    ensures Reversed(s)[i] == s[|s| - 1 - i]
  {
    if i > 0 {
      ReversedAt(s[..|s| - 1], i - 1);
    }
  }

  /** Reversal is its own inverse. */
  lemma ReversedTwice(s: seq<byte>)
    ensures Reversed(Reversed(s)) == s
  {
    var r := Reversed(s);
    forall i | 0 <= i < |s|
      ensures Reversed(r)[i] == s[i]
    {
      ReversedAt(r, i);
      ReversedAt(s, |s| - 1 - i);
    }
  }
}
