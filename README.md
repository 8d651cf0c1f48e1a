# chardeviceEnhanced in Dafny

A model of the `chardeviceEnhanced` Linux character device driver. The driver is one shared, resizable byte buffer with these parts:

- `device_buffer`, the storage: 1024 zeroed bytes at load, resizable from 1 to 8192.
- `buffer_size`, the current size of the storage.
- `buffer_used`, how many leading bytes hold data.
- `append_mode`, which picks where a write lands. It is 0 (overwrite) in the driver and nothing changes it.
- `open_count`, the number of opens so far.
- one private read cursor (`loff_t`) per open file.

The model covers every file operation (`open`, `read`, `write`, `release`) and every `ioctl` command:

- clear
- status
- reset-offset
- set-buffer-size (resize)
- open-count
- mirror
- clear-range
- any unknown command

Files:

- `bytes.dfy` (module `Bytes`): the byte type and the effect of `memcpy`/`memset` on a byte sequence (`Overlay`, `Zeros`). It also holds the reversal the mirror command builds (`Reversed`) and the lemmas about these: composition of adjacent copies, reversal index and involution.
- `chardevice.dfy` (module `CharDevice`): class `Device`.
  - Fields: `buffer: array<byte>`, `size`, `used`, `openCount`, `const appendMode`, and `cursors: map<FileHandle, nat>`, one entry per open file.
  - One method per handler and per ioctl command, plus `Ioctl`, which dispatches a `Request`.
  - `Valid()` is the invariant `0 <= used <= size == buffer.Length`, `0 < size <= 8192`. Every method preserves it.
  - Each method states its whole new state in terms of the old one. The mutating ioctl commands state it through two-state predicates (`BufferCleared`, `OffsetReset`, `Resized`, `RangeCleared`), which the dispatcher reuses.
- `scenarios.dfy` (module `Scenarios`): client methods that run call sequences on a fresh device and state the outcomes in their `ensures` clauses. Examples: write "HELLO" then clear bytes 0..1, append "AB" and "CD", two cursors reading independently, the open count after `n` open/release pairs.

Nondeterministic outcomes of code outside the driver are parameters:

- `Transfer`: a copy across the user boundary (`copy_to_user`, `copy_from_user`) either completes or faults after `reached` bytes.
- `allocFails`: whether `kmalloc` fails.

The caller supplies the file identity (`FileHandle`, standing for the kernel's `struct file`).

The model follows two behaviours of the code that a reader might not expect:

- A zero-length write returns `-ENOSPC`, the same error as a write that finds no room, because only the clamped count is tested (chardeviceEnhanced.c:59-62).
- A failed open still increments `open_count`, which is raised before the cursor is allocated (chardeviceEnhanced.c:26-31).

## Model

| member | source | states |
|---|---|---|
| `Bytes.Min` | chardeviceEnhanced.c:59 | the kernel's `min`/`min_t`: at most both arguments and equal to one of them |
| `Bytes.Overlay` | chardeviceEnhanced.c:118 | the bytes copied by `memcpy` land in the window `[off, off+n)`; every byte outside the window is kept; the length is unchanged |
| `Bytes.Zeros` | chardeviceEnhanced.c:84 | `memset(.., 0, n)` stores `n` bytes, all of them zero |
| `Bytes.OverlayAdjacent` | chardeviceEnhanced.c:65-71 | copying `d1` and then `d2` directly behind it equals one copy of `d1 + d2`, which is what successive append writes rely on |
| `Bytes.Reversed` | chardeviceEnhanced.c:138-140 | the reversal has the same length as its input |
| `Bytes.ReversedAt` | chardeviceEnhanced.c:139 | byte `i` of the reversal is byte `len - 1 - i` of the input, the mirror loop's assignment |
| `Bytes.ReversedTwice` | chardeviceEnhanced.c:135-141 | mirroring is its own inverse: reversing the mirror gives back the used bytes |
| `CharDevice.WriteOffset` | chardeviceEnhanced.c:65 | defines the write offset `append_mode ? buffer_used : 0` of the write path; `CharDevice.Device.Write`'s ensures use it |
| `CharDevice.Transfer.Delivers` | chardeviceEnhanced.c:47 | defines when a user copy of `n` bytes succeeds (the copy routine returns 0): it completes or faults only after `n` bytes; every handler's ensures use it for its `-EFAULT` case |
| `CharDevice.WriteCount` | chardeviceEnhanced.c:59 | a write takes at most the offered bytes and never passes the end of the buffer; it takes them all unless it fills the buffer; it takes none exactly when the input is empty or an append finds the buffer full |
| `CharDevice.ReadCount` | chardeviceEnhanced.c:40 | a read returns at most the requested bytes, never passes the used length, and returns fewer only when it reaches the used length |
| `CharDevice.AppendWritesCompose` | chardeviceEnhanced.c:59-74 | two append writes store exactly what one append write of the concatenated data stores, counts included, truncation at the end of the buffer included |
| `CharDevice.StoreAt` | chardeviceEnhanced.c:65 | storing bytes into the device array changes it exactly as `Overlay` says |
| `CharDevice.Device.constructor` | chardeviceEnhanced.c:191-197 | at load the buffer holds 1024 zero bytes, nothing is used, nothing is open, the open count is 0 |
| `CharDevice.Device.Open` | chardeviceEnhanced.c:25-35 | the open count rises by exactly 1 even when the cursor allocation fails (`-ENOMEM`, no cursor is added and the cursor map is unchanged); otherwise the new file's cursor is 0 and every other cursor is kept |
| `CharDevice.Device.Read` | chardeviceEnhanced.c:38-55 | at or past the used length: returns 0, cursor unchanged. Otherwise returns the `min(len, used - cursor)` bytes at the cursor and advances only that file's cursor by that count; a failed copy returns `-EFAULT` and moves no cursor |
| `CharDevice.Device.Write` | chardeviceEnhanced.c:58-78 | writes `min(len, size - offset)` bytes at offset `used` (append) or 0 (overwrite). With none to write it returns `-ENOSPC` and changes nothing. On success `used` becomes `n` (overwrite) or `used + n` (append), the readable bytes are the old ones (append only) followed by the data, and bytes outside the window are kept. A copy fault returns `-EFAULT` with `used` unchanged |
| `CharDevice.Device.ClearBuffer` | chardeviceEnhanced.c:83-87 | every byte of the buffer is zero, `used` is 0, size, cursors and open count are kept |
| `CharDevice.Device.GetStatus` | chardeviceEnhanced.c:89-97 | returns `(used, size - used)`, both non-negative and summing to the buffer size; `-EFAULT` if the copy out fails |
| `CharDevice.Device.ResetOffset` | chardeviceEnhanced.c:99-102 | only the calling file's cursor becomes 0; storage and open count are kept |
| `CharDevice.Device.SetBufferSize` | chardeviceEnhanced.c:104-125 | a size `<= 0` or `> 8192` gives `-EINVAL` and a failed allocation gives `-ENOMEM`, both changing nothing. Otherwise there is a fresh buffer of the new size whose first `min(old size, new size)` bytes are the old ones, and `used` becomes `min(old used, new size)` |
| `CharDevice.Device.GetOpenCount` | chardeviceEnhanced.c:127-133 | returns the open count unchanged; `-EFAULT` if the copy out fails |
| `CharDevice.Device.GetMirror` | chardeviceEnhanced.c:135-147 | returns exactly `used` bytes, byte `i` being buffer byte `used - 1 - i` (the reversal of the used bytes), and changes nothing |
| `CharDevice.Device.ClearRange` | chardeviceEnhanced.c:149-166 | a failed argument copy gives `-EFAULT`; `start < 0`, `end >= size` or `start > end` gives `-EINVAL`; neither changes anything. Otherwise exactly bytes `start..end` inclusive are zeroed, every other byte is kept, and `used` is unchanged |
| `CharDevice.Device.Ioctl` | chardeviceEnhanced.c:81-172 | each command has the effect of its handler above; an unknown command returns `-EINVAL` and changes nothing |
| `CharDevice.Device.Release` | chardeviceEnhanced.c:175-179 | only the released file's cursor is dropped; the open count is not lowered |
| `Scenarios.HelloThenClearRange` | chardeviceEnhanced.c:159-163 | after writing "HELLO" the status is (5, 1019); clearing bytes 0..1 leaves `\0\0LLO` with all 5 bytes still counted as used |
| `Scenarios.AppendTwice` | chardeviceEnhanced.c:70-71 | in append mode, "AB" then "CD" leaves "ABCD" with 4 bytes used |
| `Scenarios.OverwriteTwice` | chardeviceEnhanced.c:72-73 | in overwrite mode, "AB" then "CD" leaves "CD" with 2 bytes used |
| `Scenarios.WritesWithoutRoom` | chardeviceEnhanced.c:59-62 | a zero-length write and an append to a full buffer both return `-ENOSPC` |
| `Scenarios.MirrorOfAbc` | chardeviceEnhanced.c:138-141 | the mirror of an empty device is empty; after writing "ABC" it is "CBA" |
| `Scenarios.IndependentCursors` | chardeviceEnhanced.c:39-52 | two files read the same data through independent cursors: one file reading "AB" does not move the other, which still reads "ABC" |
| `Scenarios.ResetAndShrink` | chardeviceEnhanced.c:99-122 | reset-offset rewinds only the file it is issued on (another open file keeps its cursor); after a resize cuts the data below the cursor, a read returns 0 |
| `Scenarios.ResizeGrowAndShrink` | chardeviceEnhanced.c:109-122 | sizes 0 and 9000 are refused with `-EINVAL`; growing to 2048 and shrinking back to 1024 keeps the data and its used length |
| `Scenarios.OpenCountAfter` | chardeviceEnhanced.c:26 | after `n` open/release pairs and one open whose allocation fails, the open count is `n + 1` |

## Left out

- Registration and teardown are not modelled: `register_chrdev`/`unregister_chrdev`, module exit and its `kfree`, and the `file_operations` table (chardeviceEnhanced.c:182-210). The failure of the load-time `kmalloc` (chardeviceEnhanced.c:192-196), after which the module does not load, is left out too: the constructor models only a successful load. They are kernel plumbing with no logic of the driver's own.
- The numeric `_IO`/`_IOR`/`_IOW` command encodings are not modelled (chardeviceEnhanced.c:10-16). A command is a `Request` value, and any other code is `ReqUnknown`.
- `printk` logging is left out, because it has no effect on the state.
- test_chardevice.c is a user program that only issues system calls and prints the results. It is not part of this model.
- Concurrency is not modelled. The driver takes no lock around the shared globals, so racing handlers (a resize during a write, two appends updating `buffer_used`) can interfere. Each operation is modelled as one atomic step.
- The missing NULL check on the mirror's scratch allocation is not modelled, nor the fact that the scratch buffer is never freed (chardeviceEnhanced.c:136). The scratch array is always allocated.
- The mirror command's encoding declares a 1024-byte user buffer, but the command copies `buffer_used` bytes, which can be up to 8192. The size of the caller's buffer is outside the model.
- The resize command reads its size argument by dereferencing the user pointer directly, without `copy_from_user` (chardeviceEnhanced.c:108). The model receives the value itself.
- `CharDevice.Device.Open`: `open_count` is an unbounded integer. Overflow of the C `int` after 2^31 opens is not modelled.
- `CharDevice.Device.SetBufferSize`: states nothing about the bytes of the new buffer beyond the copied prefix. `kmalloc` leaves them uninitialised, and none of them lies below the new used length.
- `CharDevice.Device.Read`: on a copy fault, does not state how much of the caller's memory was filled, because the driver's state does not depend on it.
- `CharDevice.Device.Write`: on a copy fault, the window holds the bytes copied before the fault followed by zeros, following the documented zero padding of `copy_from_user`. The exact fault position is a parameter.
- `size_t` wrap-around in `buffer_used - *session_offset` (chardeviceEnhanced.c:40) is not modelled. The result is used only after the check `*session_offset < buffer_used`, so the model uses mathematical integers.
