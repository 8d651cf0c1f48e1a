/**
 * The character device: one shared, resizable byte buffer, its used length,
 * the write mode, the count of opens, and one private read cursor per open
 * file. Each handler of the driver is a method of `Device`; the ioctl
 * commands are methods too, and `Ioctl` dispatches a request to them.
 */
module CharDevice {
  import opened Bytes

  const DefaultBufferSize: nat := 1024
  const MaxBufferSize: nat := 8192

  /** Linux error numbers; the driver returns them negated. */
  const ENOMEM: int := 12
  const EFAULT: int := 14
  const EINVAL: int := 22
  const ENOSPC: int := 28

  /** Bytes moved across the user boundary by the fixed-size ioctl arguments. */
  const StatusBytes: nat := 8     // int status[2]
  const CountBytes: nat := 4      // int open_count
  const RangeBytes: nat := 8      // int range[2]

  /** Identity of an open file; the kernel keys its private cursor by it. */
  type FileHandle = nat

  /**
   * Outcome of a copy across the user/kernel boundary (`copy_to_user`,
   * `copy_from_user`): it completes, or the user memory faults once
   * `reached` bytes have been copied.
   */
  datatype Transfer = Complete | FaultAfter(reached: nat) {
    /** A copy of `n` bytes runs to completion (the copy routine returns 0). */
    predicate Delivers(n: nat) {
      Complete? || n <= reached
    }
  }

  /** An ioctl command with the arguments the caller passes along with it. */
  datatype Request =
    | ReqClearBuffer
    | ReqGetStatus(statusXfer: Transfer)
    | ReqResetOffset
    | ReqSetBufferSize(newSize: int, allocFails: bool)
    | ReqGetOpenCount(countXfer: Transfer)
    | ReqGetMirror(mirrorXfer: Transfer)
    | ReqClearRange(start: int, end: int, rangeXfer: Transfer)
    | ReqUnknown

  /** What an ioctl command hands back to the caller. */
  datatype Reply =
    | NoReply
    | StatusReply(usedBytes: int, freeBytes: int)
    | CountReply(count: int)
    | MirrorReply(bytes: seq<byte>)

  /** Where a write starts: behind the used bytes in append mode, else at 0. */
  function WriteOffset(append: bool, used: int): int {
    if append then used else 0
  }

  /**
   * How many of `len` offered bytes a write stores: as many as fit between
   * its offset and the end of the buffer. None at all exactly when nothing
   * was offered or an append finds the buffer full.
   */
  function WriteCount(len: nat, size: int, used: int, append: bool): (n: int)
    requires 0 <= used <= size && 0 < size
    ensures 0 <= n <= len
    ensures WriteOffset(append, used) + n <= size
    ensures n == len || WriteOffset(append, used) + n == size
    ensures n == 0 <==> len == 0 || (append && used == size)
  {
    Min(len, size - WriteOffset(append, used))
  }

  /**
   * How many bytes a read of `len` from `cursor` returns: as many as the
   * used bytes behind the cursor allow.
   */
  function ReadCount(len: nat, cursor: nat, used: int): (k: nat)
    requires cursor < used
    ensures k <= len && cursor + k <= used
    ensures k == len || cursor + k == used
  {
    Min(len, used - cursor)
  }

  /**
   * Two append writes of `d1` and then `d2` store what one append write of
   * `d1 + d2` stores, truncation at the end of the buffer included (a second
   * write that finds no room stores nothing).
   */
  lemma AppendWritesCompose(s: seq<byte>, used: nat, d1: seq<byte>, d2: seq<byte>)
    requires used <= |s| && 0 < |s|
    ensures
      var n1 := WriteCount(|d1|, |s|, used, true);
      var n2 := WriteCount(|d2|, |s|, used + n1, true);
      var n := WriteCount(|d1 + d2|, |s|, used, true);
      n1 + n2 == n &&
      Overlay(Overlay(s, used, d1[..n1]), used + n1, d2[..n2]) == Overlay(s, used, (d1 + d2)[..n])
  {
    var n1 := WriteCount(|d1|, |s|, used, true);
    var n2 := WriteCount(|d2|, |s|, used + n1, true);
    var n := WriteCount(|d1 + d2|, |s|, used, true);
    assert n1 + n2 == n;
    assert d1[..n1] + d2[..n2] == (d1 + d2)[..n] by {
      if n1 < |d1| {
        assert n2 == 0;
        assert n == n1;
      }
      forall i | 0 <= i < n
        ensures (d1[..n1] + d2[..n2])[i] == (d1 + d2)[..n][i]
      {
        if i >= n1 {
          assert n1 == |d1|;
        }
      }
    }
    OverlayAdjacent(s, used, d1[..n1], d2[..n2]);
  }

  /** Stores `src` into `a` at `off`: `memcpy`, `copy_from_user`, and `memset` given zeros. */
  method StoreAt(a: array<byte>, off: nat, src: seq<byte>)
    requires off + |src| <= a.Length
    modifies a
    ensures a[..] == Overlay(old(a[..]), off, src)
  {
    forall i | 0 <= i < |src| {
      a[off + i] := src[i];
    }
    assert a[..] == Overlay(old(a[..]), off, src) by {
      forall i | 0 <= i < a.Length
        ensures a[i] == Overlay(old(a[..]), off, src)[i]
      {
        if off <= i < off + |src| {
          assert a[off + (i - off)] == src[i - off];
        }
      }
    }
  }

  class Device {
    /** `device_buffer`, reallocated by SetBufferSize. */
    var buffer: array<byte>
    /** `buffer_size`, always the length of `buffer`. */
    var size: int
    /** `buffer_used`: how many leading bytes of `buffer` hold data. */
    var used: int
    /** `open_count`: opens so far, including the ones that failed. */
    var openCount: int
    /** `append_mode`: nothing in the driver changes it. */
    const appendMode: bool
    /** The per-file cursors (`*(loff_t *)filep->private_data`). */
    var cursors: map<FileHandle, nat>

    ghost predicate Valid()
      reads this
    {
      size == buffer.Length && 0 <= used <= size && 0 < size <= MaxBufferSize && 0 <= openCount
    }

    /** Buffer, its size and its used length are as before. */
    twostate predicate StorageUnchanged()
      reads this, buffer
    {
      buffer == old(buffer) && buffer[..] == old(buffer[..]) && size == old(size) && used == old(used)
    }

    /** The open count and every file's cursor are as before. */
    twostate predicate SessionsUnchanged()
      reads this
    {
      openCount == old(openCount) && cursors == old(cursors)
    }

    /** Postcondition of the clear command: every byte zero, nothing used. */
    twostate predicate BufferCleared()
      reads this, buffer
    {
      SessionsUnchanged() && buffer == old(buffer) && size == old(size) && used == 0 &&
      forall i :: 0 <= i < buffer.Length ==> buffer[i] == 0
    }

    /** Postcondition of the reset-offset command on file `f`. */
    twostate predicate OffsetReset(f: FileHandle)
      reads this, buffer
    {
      StorageUnchanged() && openCount == old(openCount) && cursors == old(cursors)[f := 0]
    }

    /**
     * Postcondition of the resize command: an out-of-range size is refused
     * with EINVAL, a failed allocation with ENOMEM, both changing nothing;
     * otherwise a new buffer of `newSize` bytes starts with the first
     * `min(old size, newSize)` old bytes and the used length is clamped.
     */
    twostate predicate Resized(newSize: int, allocFails: bool, r: int)
      requires old(Valid())
      reads this, buffer
    {
      SessionsUnchanged() &&
      if newSize <= 0 || newSize > MaxBufferSize then
        r == -EINVAL && StorageUnchanged()
      else if allocFails then
        r == -ENOMEM && StorageUnchanged()
      else
        var kept := Min(old(size), newSize);
        r == 0 && fresh(buffer) && size == newSize && buffer.Length == newSize &&
        used == Min(old(used), newSize) &&
        buffer[..kept] == old(buffer[..kept])
    }

    /**
     * Postcondition of the clear-range command: once the range arguments
     * are fetched, a range outside `0 <= start <= end < size` is refused
     * with EINVAL; otherwise exactly the bytes `start..end` (inclusive) are
     * zeroed. The used length never changes.
     */
    twostate predicate RangeCleared(start: int, end: int, xfer: Transfer, r: int)
      requires old(Valid())
      reads this, buffer
    {
      SessionsUnchanged() && buffer == old(buffer) && size == old(size) && used == old(used) &&
      if !xfer.Delivers(RangeBytes) then
        r == -EFAULT && buffer[..] == old(buffer[..])
      else if start < 0 || end >= old(size) || start > end then
        r == -EINVAL && buffer[..] == old(buffer[..])
      else
        r == 0 &&
        forall i :: 0 <= i < buffer.Length ==> buffer[i] == if start <= i <= end then 0 else old(buffer[i])
    }

    /** Module load: a zeroed buffer of the default size, nothing used, no opens. */
    constructor (append: bool)
      ensures Valid() && fresh(buffer)
      ensures size == DefaultBufferSize && buffer[..] == Zeros(DefaultBufferSize)
      ensures used == 0 && openCount == 0 && cursors == map[] && appendMode == append
    {
      buffer := new byte[DefaultBufferSize];
      size := DefaultBufferSize;
      used := 0;
      openCount := 0;
      appendMode := append;
      cursors := map[];
      new;
      StoreAt(buffer, 0, Zeros(DefaultBufferSize));
    }

    /**
     * `dev_open`: counts the open first, then gives file `f` a cursor at 0;
     * when the cursor cannot be allocated the open fails, still counted.
     */
    method Open(f: FileHandle, allocFails: bool) returns (r: int)
      requires Valid()
      modifies this`openCount, this`cursors
      ensures Valid()
      ensures openCount == old(openCount) + 1
      ensures allocFails ==> r == -ENOMEM && cursors == old(cursors)
      ensures !allocFails ==> r == 0 && cursors == old(cursors)[f := 0]
    {
      openCount := openCount + 1;
      if allocFails {
        return -ENOMEM;
      }
      cursors := cursors[f := 0];
      r := 0;
    }

    /**
     * `dev_read`: from file `f`'s cursor, up to `len` of the used bytes.
     * At or past the used length it returns 0. Otherwise `out` is the window
     * handed to `copy_to_user`; if that copy completes the cursor of `f`, and
     * no other, advances by its length, else the read fails with EFAULT.
     */
    method Read(f: FileHandle, len: nat, xfer: Transfer) returns (r: int, out: seq<byte>)
      requires Valid() && f in cursors
      modifies this`cursors
      ensures Valid()
      ensures old(cursors[f]) >= used ==> r == 0 && out == [] && cursors == old(cursors)
      ensures old(cursors[f]) < used ==>
        var cursor := old(cursors[f]);
        var k := ReadCount(len, cursor, used);
        out == buffer[cursor..cursor + k] &&
        if xfer.Delivers(k) then
          r == k && cursors == old(cursors)[f := cursor + k]
        else
          r == -EFAULT && cursors == old(cursors)
    {
      var cursor := cursors[f];
      if cursor >= used {
        return 0, [];
      }
      var k := ReadCount(len, cursor, used);
      out := buffer[cursor..cursor + k];
      if !xfer.Delivers(k) {
        return -EFAULT, out;
      }
      cursors := cursors[f := cursor + k];
      r := k;
    }

    /**
     * `dev_write`: stores `n = WriteCount(|data|, ..)` bytes of `data` at
     * `WriteOffset`. With `n == 0` (a full buffer in append mode, or an empty
     * `data`) it fails with ENOSPC and changes nothing. A fault while copying
     * from the caller fails with EFAULT, leaves the used length alone and
     * leaves the window holding the bytes copied so far, zero padded.
     * Otherwise the used length becomes `n` (overwrite) or grows by `n`
     * (append).
     */
    method Write(data: seq<byte>, xfer: Transfer) returns (r: int)
      requires Valid()
      modifies this`used, buffer
      ensures Valid()
      ensures
        var off := WriteOffset(appendMode, old(used));
        var n := WriteCount(|data|, size, old(used), appendMode);
        if n == 0 then
          r == -ENOSPC && used == old(used) && buffer[..] == old(buffer[..])
        else if xfer.Delivers(n) then
          r == n && used == (if appendMode then old(used) + n else n) &&
          buffer[..] == Overlay(old(buffer[..]), off, data[..n]) &&
          buffer[..used] == (if appendMode then old(buffer[..used]) else []) + data[..n]
        else
          r == -EFAULT && used == old(used) &&
          buffer[..] == Overlay(old(buffer[..]), off, data[..xfer.reached] + Zeros(n - xfer.reached))
    {
      var off := WriteOffset(appendMode, used);
      var n := WriteCount(|data|, size, used, appendMode);
      if n == 0 {
        return -ENOSPC;
      }
      if !xfer.Delivers(n) {
        StoreAt(buffer, off, data[..xfer.reached] + Zeros(n - xfer.reached));
        return -EFAULT;
      }
      StoreAt(buffer, off, data[..n]);
      if appendMode {
        used := used + n;
      } else {
        used := n;
      }
      r := n;
    }

    /** Clear command: zero the whole buffer and mark nothing used. */
    method ClearBuffer() returns (r: int)
      requires Valid()
      modifies this`used, buffer
      ensures Valid() && r == 0 && BufferCleared()
    {
      StoreAt(buffer, 0, Zeros(size));
      used := 0;
      r := 0;
    }

    /**
     * Status command: (used, free) bytes, which together make up the buffer.
     * The pair is what the driver hands to `copy_to_user`; with `r == -EFAULT`
     * it did not reach the caller.
     */
    method GetStatus(xfer: Transfer) returns (r: int, usedBytes: int, freeBytes: int)
      requires Valid()
      ensures usedBytes == used && freeBytes == size - used
      ensures 0 <= usedBytes && 0 <= freeBytes && usedBytes + freeBytes == size
      ensures r == if xfer.Delivers(StatusBytes) then 0 else -EFAULT
    {
      usedBytes, freeBytes := used, size - used;
      r := if xfer.Delivers(StatusBytes) then 0 else -EFAULT;
    }

    /** Reset-offset command: file `f` reads from the start again. */
    method ResetOffset(f: FileHandle) returns (r: int)
      requires Valid() && f in cursors
      modifies this`cursors
      ensures Valid() && r == 0 && OffsetReset(f)
    {
      cursors := cursors[f := 0];
      r := 0;
    }

    /** Resize command (`IOCTL_SET_BUFFER_SIZE`), see Resized. */
    method SetBufferSize(newSize: int, allocFails: bool) returns (r: int)
      requires Valid()
      modifies this
      ensures Valid() && Resized(newSize, allocFails, r)
    {
      if newSize <= 0 || newSize > MaxBufferSize {
        return -EINVAL;
      }
      if allocFails {
        return -ENOMEM;
      }
      var newBuffer := new byte[newSize];
      var kept := Min(size, newSize);
      StoreAt(newBuffer, 0, buffer[..kept]);
      buffer := newBuffer;
      size := newSize;
      used := Min(used, size);
      r := 0;
    }

    /**
     * Open-count command: the number of opens so far. The count is what the
     * driver hands to `copy_to_user`; with `r == -EFAULT` it did not reach
     * the caller.
     */
    method GetOpenCount(xfer: Transfer) returns (r: int, count: int)
      requires Valid()
      ensures count == openCount && 0 <= count
      ensures r == if xfer.Delivers(CountBytes) then 0 else -EFAULT
    {
      count := openCount;
      r := if xfer.Delivers(CountBytes) then 0 else -EFAULT;
    }

    /**
     * Mirror command: the used bytes back to front, built by an index loop
     * into a fresh scratch buffer of the current size; the device buffer
     * is only read. `mirror` is what the driver hands to `copy_to_user`; with
     * `r == -EFAULT` it did not reach the caller.
     */
    method GetMirror(xfer: Transfer) returns (r: int, mirror: seq<byte>)
      requires Valid()
      ensures |mirror| == used
      ensures forall i :: 0 <= i < used ==> mirror[i] == buffer[used - 1 - i]
      ensures mirror == Reversed(buffer[..used])
      ensures r == if xfer.Delivers(used) then 0 else -EFAULT
    {
      var scratch := new byte[size];
      var i := 0;
      while i < used
        invariant 0 <= i <= used
        invariant forall j :: 0 <= j < i ==> scratch[j] == buffer[used - 1 - j]
      {
        scratch[i] := buffer[used - i - 1];
        i := i + 1;
      }
      mirror := scratch[..used];
      forall j | 0 <= j < used
        ensures mirror[j] == Reversed(buffer[..used])[j]
      {
        ReversedAt(buffer[..used], j);
      }
      r := if xfer.Delivers(used) then 0 else -EFAULT;
    }

    /** Clear-range command, see RangeCleared. */
    method ClearRange(start: int, end: int, xfer: Transfer) returns (r: int)
      requires Valid()
      modifies buffer
      ensures Valid() && RangeCleared(start, end, xfer, r)
    {
      if !xfer.Delivers(RangeBytes) {
        return -EFAULT;
      }
      if start < 0 || end >= size || start > end {
        return -EINVAL;
      }
      StoreAt(buffer, start, Zeros(end - start + 1));
      r := 0;
    }

    /** `dev_ioctl`: runs the command of `req`; an unknown one is refused with EINVAL. */
    method Ioctl(f: FileHandle, req: Request) returns (r: int, reply: Reply)
      requires Valid()
      requires req.ReqResetOffset? ==> f in cursors
      modifies this, buffer
      ensures Valid()
      ensures match req
        case ReqClearBuffer =>
          r == 0 && reply == NoReply && BufferCleared()
        case ReqGetStatus(x) =>
          StorageUnchanged() && SessionsUnchanged() &&
          reply == StatusReply(used, size - used) &&
          r == (if x.Delivers(StatusBytes) then 0 else -EFAULT)
        case ReqResetOffset =>
          r == 0 && reply == NoReply && OffsetReset(f)
        case ReqSetBufferSize(n, fails) =>
          reply == NoReply && Resized(n, fails, r)
        case ReqGetOpenCount(x) =>
          StorageUnchanged() && SessionsUnchanged() &&
          reply == CountReply(openCount) &&
          r == (if x.Delivers(CountBytes) then 0 else -EFAULT)
        case ReqGetMirror(x) =>
          StorageUnchanged() && SessionsUnchanged() &&
          reply == MirrorReply(Reversed(buffer[..used])) &&
          r == (if x.Delivers(used) then 0 else -EFAULT)
        case ReqClearRange(s, e, x) =>
          reply == NoReply && RangeCleared(s, e, x, r)
        case ReqUnknown =>
          r == -EINVAL && reply == NoReply && StorageUnchanged() && SessionsUnchanged()
    {
      reply := NoReply;
      match req {
        case ReqClearBuffer =>
          r := ClearBuffer();
        case ReqGetStatus(x) =>
          var u, free;
          r, u, free := GetStatus(x);
          reply := StatusReply(u, free);
        case ReqResetOffset =>
          r := ResetOffset(f);
        case ReqSetBufferSize(n, fails) =>
          r := SetBufferSize(n, fails);
        case ReqGetOpenCount(x) =>
          var count;
          r, count := GetOpenCount(x);
          reply := CountReply(count);
        case ReqGetMirror(x) =>
          var m;
          r, m := GetMirror(x);
          reply := MirrorReply(m);
        case ReqClearRange(s, e, x) =>
          r := ClearRange(s, e, x);
        case ReqUnknown =>
          r := -EINVAL;
      }
    }

    /** `dev_release`: frees file `f`'s cursor; the open count stays. */
    method Release(f: FileHandle) returns (r: int)
      requires Valid()
      modifies this`cursors
      ensures Valid() && r == 0
      ensures cursors == old(cursors) - {f}
      ensures openCount == old(openCount)
    {
      cursors := cursors - {f};
      r := 0;
    }
  }
}
