/**
 * Clients of the device: call sequences a user program issues, each with
 * the outcome the driver's contracts force.
 */
module Scenarios {
  import opened Bytes
  import opened CharDevice

  const A: byte := 65
  const B: byte := 66
  const C: byte := 67
  const D: byte := 68
  const E: byte := 69
  const H: byte := 72
  const L: byte := 76
  const O: byte := 79

  /**
   * On a fresh device in overwrite mode: write "HELLO", ask for the status,
   * clear bytes 0..1. The status is (5, 1019); the used bytes become
   * "\0\0LLO" and stay counted.
   */
  method HelloThenClearRange() returns (usedBytes: int, freeBytes: int, content: seq<byte>)
    ensures usedBytes == 5 && freeBytes == 1019
    ensures content == [0, 0, L, L, O]
  {
    var dev := new Device(false);
    var w := dev.Write([H, E, L, L, O], Complete);
    assert dev.buffer[..5] == [H, E, L, L, O];
    var s;
    s, usedBytes, freeBytes := dev.GetStatus(Complete);
    var c := dev.ClearRange(0, 1, Complete);
    content := dev.buffer[..dev.used];
    assert dev.used == 5;
    assert content == [0, 0, L, L, O] by {
      assert content[0] == dev.buffer[0] && content[2] == dev.buffer[2];
      assert content[1] == dev.buffer[1] && content[3] == dev.buffer[3] && content[4] == dev.buffer[4];
    }
  }

  /** Append mode: "AB" then "CD" leaves "ABCD", four bytes used. */
  method AppendTwice() returns (usedBytes: int, content: seq<byte>)
    ensures usedBytes == 4 && content == [A, B, C, D]
  {
    var dev := new Device(true);
    var b0 := dev.buffer[..];
    var w1 := dev.Write([A, B], Complete);
    var w2 := dev.Write([C, D], Complete);
    OverlayAdjacent(b0, 0, [A, B], [C, D]);
    assert [A, B] + [C, D] == [A, B, C, D];
    usedBytes := dev.used;
    content := dev.buffer[..dev.used];
  }

  /** Overwrite mode: "AB" then "CD" leaves "CD", two bytes used. */
  method OverwriteTwice() returns (usedBytes: int, content: seq<byte>)
    ensures usedBytes == 2 && content == [C, D]
  {
    var dev := new Device(false);
    var w1 := dev.Write([A, B], Complete);
    var w2 := dev.Write([C, D], Complete);
    usedBytes := dev.used;
    content := dev.buffer[..dev.used];
  }

  /**
   * A zero-length write is refused with ENOSPC although the buffer has
   * room, and an append into a full buffer is refused the same way.
   */
  method WritesWithoutRoom() returns (empty: int, full: int, usedBytes: int)
    ensures empty == -ENOSPC && full == -ENOSPC
    ensures usedBytes == DefaultBufferSize
  {
    var dev := new Device(true);
    empty := dev.Write([], Complete);
    var filled := dev.Write(Zeros(DefaultBufferSize), Complete);
    full := dev.Write([A], Complete);
    usedBytes := dev.used;
  }

  /** Mirror of "ABC" is "CBA"; the mirror of an empty device is empty. */
  method MirrorOfAbc() returns (before: seq<byte>, after: seq<byte>)
    ensures before == [] && after == [C, B, A]
  {
    var dev := new Device(false);
    var r0, r1;
    r0, before := dev.GetMirror(Complete);
    var w := dev.Write([A, B, C], Complete);
    r1, after := dev.GetMirror(Complete);
    assert after == [C, B, A] by {
      assert dev.buffer[..3] == [A, B, C];
      ReversedAt(dev.buffer[..3], 0);
      ReversedAt(dev.buffer[..3], 1);
      ReversedAt(dev.buffer[..3], 2);
    }
  }

  /**
   * Two files opened on one device read with independent cursors: after
   * the first reads "AB", the second still reads "ABC" from the start, and
   * the first continues with "C" and then gets 0 bytes.
   */
  method IndependentCursors() returns (first: seq<byte>, second: seq<byte>, rest: seq<byte>, atEnd: int)
    ensures first == [A, B] && second == [A, B, C] && rest == [C] && atEnd == 0
  {
    var dev := new Device(false);
    var o1 := dev.Open(1, false);
    var o2 := dev.Open(2, false);
    var w := dev.Write([A, B, C], Complete);
    assert dev.buffer[..3] == [A, B, C];
    var r1, r2, r3;
    r1, first := dev.Read(1, 2, Complete);
    assert first == dev.buffer[..3][0..2];
    r2, second := dev.Read(2, 10, Complete);
    r3, rest := dev.Read(1, 10, Complete);
    assert rest == dev.buffer[..3][2..3];
    var empty;
    atEnd, empty := dev.Read(1, 10, Complete);
  }

  /**
   * A reset-offset command rewinds only the file it is issued on: file 8,
   * which had read one byte, continues with the second. A resize that
   * shrinks below a cursor leaves that file at the end of the data.
   */
  method ResetAndShrink() returns (again: seq<byte>, other: seq<byte>, afterShrink: int)
    ensures again == [A, B] && other == [B] && afterShrink == 0
  {
    var dev := new Device(false);
    var o7 := dev.Open(7, false);
    var o8 := dev.Open(8, false);
    var w := dev.Write([A, B, C, D], Complete);
    assert dev.buffer[..4] == [A, B, C, D];
    var r1, s1 := dev.Read(7, 3, Complete);
    var r2, s2 := dev.Read(8, 1, Complete);
    var z := dev.ResetOffset(7);
    var r3, r4;
    r3, again := dev.Read(7, 2, Complete);
    assert again == dev.buffer[..4][0..2];
    r4, other := dev.Read(8, 1, Complete);
    assert other == dev.buffer[..4][1..2];
    var r5, s5 := dev.Read(7, 1, Complete);
    var rs := dev.SetBufferSize(2, false);
    var empty;
    afterShrink, empty := dev.Read(7, 5, Complete);
  }

  /**
   * Resizing to 0 or 9000 is refused with EINVAL; resizing to 2048 keeps the
   * data, and shrinking back to 1024 restores the original buffer size with
   * the data and its used length intact.
   */
  method ResizeGrowAndShrink() returns (zero: int, tooBig: int, grown: int, content: seq<byte>, bufferSize: int)
    ensures zero == -EINVAL && tooBig == -EINVAL && grown == 0
    ensures content == [H, E, L, L, O] && bufferSize == DefaultBufferSize
  {
    var dev := new Device(false);
    var w := dev.Write([H, E, L, L, O], Complete);
    assert dev.buffer[..5] == [H, E, L, L, O];
    zero := dev.SetBufferSize(0, false);
    tooBig := dev.SetBufferSize(9000, false);
    grown := dev.SetBufferSize(2048, false);
    assert dev.buffer[..5] == dev.buffer[..1024][..5];
    var shrunk := dev.SetBufferSize(DefaultBufferSize, false);
    assert dev.buffer[..5] == dev.buffer[..1024][..5];
    content := dev.buffer[..dev.used];
    bufferSize := dev.size;
  }

  /**
   * After `n` open/release pairs, one more open whose cursor allocation
   * fails, the open count is `n + 1`: releases never lower it and a failed
   * open still raises it.
   */
  method OpenCountAfter(n: nat) returns (count: int)
    ensures count == n + 1
  {
    var dev := new Device(false);
    var i := 0;
    while i < n
      invariant 0 <= i <= n
      invariant dev.Valid() && dev.openCount == i
    {
      var o := dev.Open(i, false);
      var c := dev.Release(i);
      i := i + 1;
    }
    var failed := dev.Open(n, true);
    var r;
    r, count := dev.GetOpenCount(Complete);
  }
}
