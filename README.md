# device-can core in Dafny

A model of the SocketCAN device service for the EdgeX device SDK
(`src/c/device-can.c`). It covers:

- the marshalling between a Linux `struct can_frame` and the flat uint32
  array the service returns for GET and accepts for PUT:
  `[can_id, can_dlc, data[0], ..., data[dlc-1]]`;
- the two command handlers, `can_get_handler` and `can_put_handler`.
  Each takes the per-device mutex, opens the socket lazily on first use
  (tracked by `can_IsOpened`), runs its batch loop and releases the mutex
  on every exit path;
- `OpenCan`, the sequence of socket, ioctl, bind and two setsockopt calls,
  each checked except the ioctl;
- `can_create_address`, which validates the four "CAN" protocol
  properties in a fixed order. It parses numbers as `strtoul(s, &end, 0)`
  does (section 7.22.1.4 of ISO C11) and narrows them to the widths of
  `end_dev_params` (`src/c/device-can.h:32-40`).

The operating system is replaced by oracles: `Transport.OpenOracle` gives
the result of each OpenCan step, a `seq<ReadResult>` gives the byte count
and frame of each `read()`, and a `seq<int>` gives the byte count of each
`write()`. A handler returns a trace (`seq<Transport.Event>`) of the mutex
operations and system calls it made. The mutex is the field `mutexHeld`.
The framework's `iot_data` value arrays are `seq<uint32>`. A GET reading
slot is an `Option<seq<uint32>>`, where `None` means the slot was never
assigned.

Files and modules: `wrappers.dfy` (Option, Result), `can_types.dfy`
(fixed-width integers, `CanFrame`), `frame_codec.dfy` (`FrameCodec`),
`strtoul.dfy` (`Strtoul`), `device_address.dfy` (`DeviceAddress`),
`transport.dfy` (`Transport`: events and OpenCan), `handlers.dfy`
(`Handlers`: the class `EndDevParams` and its handlers).

Behaviour of the code that the model keeps:

- PUT never validates its input. It has no "too short" or "bad length"
  error. `dlc` is the low byte of element 1, each data byte is the low
  byte of its element, and arrays the loop reaches must be well formed
  (`FrameCodec.WellFormed`).
- PUT's `frame` is a local that is never cleared. Bytes past `can_dlc` are
  not zero-filled: they keep what the previous frame of the batch (or the
  uninitialised variable) held.
- GET reports only the outcome of the last read. A failed read leaves its
  slot unassigned and the earlier readings in place.
- A failed OpenCan step returns -1 without closing the descriptor, which
  stays in `sock_fd`. The next handler call opens a new socket.
- `errno` is cleared once, at the start of `can_create_address`. On
  overflow strtoul returns ULONG_MAX, which never narrows to 0. So,
  assuming nothing but strtoul sets errno, the "FilterMsgId access error"
  check can never fire. A later field is rejected only when it narrows
  to 0 after an earlier field set ERANGE.

In short, the code has no decode errors, no zero-filling of unused data
bytes and no close on a failed open. Its GET result is the last read's
outcome, not "all reads succeeded".

## Model

| member | source | states |
|---|---|---|
| `FrameCodec.Encode` | src/c/device-can.c:189-205 | the reading from a frame has length can_dlc + 2; element 0 is can_id, element 1 is can_dlc, element j+2 is data[j] |
| `FrameCodec.DecodeInto` | src/c/device-can.c:262-276 | PUT decoding sets can_id = v[0], can_dlc = v[1] mod 256, data[i] = v[i+2] mod 256 for i < dlc, and leaves the later bytes of the frame variable unchanged |
| `FrameCodec.EncodeWellFormed` | src/c/device-can.c:189-205 | every GET encoding of a frame with dlc <= 8 is an input the PUT decoder accepts |
| `FrameCodec.DecodeEncode` | src/c/device-can.c:189-276 | round trip frame to array to frame: same id, same dlc, same first dlc data bytes; the rest comes from the frame variable |
| `FrameCodec.DecodeEncodeSame` | src/c/device-can.c:189-276 | decoding a frame's encoding over that same frame gives the frame back exactly |
| `FrameCodec.EncodeDecode` | src/c/device-can.c:189-276 | round trip array to frame to array: an array whose dlc and bytes fit in 8 bits comes back as its first dlc + 2 elements |
| `Strtoul.Parse` | src/c/device-can.c:341 | strtoul base 0: result at most ULONG_MAX; ERANGE exactly when the digits exceed ULONG_MAX, and then the result is ULONG_MAX; no digits gives 0 without ERANGE |
| `Strtoul.SubjectOf` | src/c/device-can.c:341 | after leading white space and an optional sign, base detection picks 8, 10 or 16, and the digits it keeps are all digits of that base |
| `Strtoul.SignedSubject` | src/c/device-can.c:341 | an optional '+' or '-' is consumed before base detection; the result's digits are valid in its base |
| `Strtoul.SpacePrefixDropped` | src/c/device-can.c:341 | once white space is skipped, a white-space prefix leaves exactly the text that follows the original's white space |
| `Strtoul.UnsignedSubject` | src/c/device-can.c:341 | base detection keeps the sign it is given and yields only digits valid in the base it picks |
| `Strtoul.SubjectOfUnsigned` | src/c/device-can.c:341 | text starting with neither white space nor a sign goes straight to base detection, unsigned |
| `Strtoul.SubjectOfMinus` | src/c/device-can.c:341 | a leading '-' makes the subject negative and the rest goes to base detection |
| `Strtoul.LeadingSpaceIgnored` | src/c/device-can.c:341 | any run of isspace() characters before the text changes neither the subject nor the result |
| `Strtoul.PlusSignIgnored` | src/c/device-can.c:341 | a single '+' before unsigned text changes neither the subject nor the result |
| `Strtoul.DigitRunStops` | src/c/device-can.c:341 | the digit run of digits followed by a non-digit of the base is exactly those digits |
| `Strtoul.SubjectOfHex` | src/c/device-can.c:341 | "0x" or "0X", then hex digits, then a non-hex character: base 16 with exactly those digits |
| `Strtoul.ValueOfUpperCase` | src/c/device-can.c:341 | upper-case hex letters have the same values as lower-case ones |
| `Strtoul.UpperHexRoundTrip` | src/c/device-can.c:341 | "0X" + upper-case hex digits of n parses back to n |
| `Strtoul.DecimalTrailingIgnored` | src/c/device-can.c:341 | characters after the decimal digits of n > 0 (a non-digit first) do not change the result n |
| `Strtoul.HexTrailingIgnored` | src/c/device-can.c:341 | characters after "0x" + the hex digits of n (a non-hex character first) do not change the result n |
| `Strtoul.UpperHexExample` | src/c/device-can.c:341 | "0X7FF" parses to 0x7FF without ERANGE |
| `Strtoul.PlusDecimalExample` | src/c/device-can.c:341 | "+12z" parses to 12 without ERANGE |
| `Strtoul.SignedDecimalExample` | src/c/device-can.c:341 | any white space (" \t", say) followed by "+12z" parses to 12 without ERANGE |
| `Strtoul.DecimalRoundTrip` | src/c/device-can.c:341 | decimal text of any n <= ULONG_MAX parses back to n without ERANGE |
| `Strtoul.HexRoundTrip` | src/c/device-can.c:341 | "0x" + hex digits of n parses back to n |
| `Strtoul.OctalRoundTrip` | src/c/device-can.c:341 | "0" + octal digits of n parses back to n |
| `Strtoul.NegativeWraps` | src/c/device-can.c:341 | "-n" parses to ULONG_MAX + 1 - n (negation in unsigned arithmetic) |
| `Strtoul.OverflowSaturates` | src/c/device-can.c:341 | decimal text above ULONG_MAX parses to ULONG_MAX with ERANGE |
| `DeviceAddress.CreateAddress` | src/c/device-can.c:296-389 | malloc, the CAN protocol, then DevInterface, FilterMsgId, FilterMask and TimeOut are checked in this order, and the first missing one gives its own message; success exactly when all keys are present and no access error occurs; an access error yields the FilterMask or the TimeOut access-error message; the address holds the interface string, the id and mask mod 2^32, the timeout mod 256, can_IsOpened false and sock_fd 0 |
| `DeviceAddress.MsgIdAccessErrorUnreachable` | src/c/device-can.c:341-347 | the FilterMsgId access-error branch can never be taken |
| `DeviceAddress.MaskAccessErrorComesFromMsgId` | src/c/device-can.c:358-364 | a FilterMask access error happens only after an overflowing FilterMsgId and a mask whose low 32 bits are 0, never because the mask itself overflowed |
| `DeviceAddress.TimeOutAccessErrorComesFromEarlier` | src/c/device-can.c:375-381 | a TimeOut access error happens only when all keys are present, FilterMsgId or FilterMask overflowed earlier, the timeout did not overflow and its low 8 bits are 0 |
| `DeviceAddress.OverflowingTimeoutAccepted` | src/c/device-can.c:375-381 | when FilterMsgId and FilterMask did not overflow, an overflowing TimeOut is accepted as 255, whatever the id and mask narrow to |
| `DeviceAddress.DecimalTimeoutNarrowed` | src/c/device-can.h:36 | a decimal TimeOut of n seconds becomes n mod 256 in the uint8_t field |
| `Transport.OpenCalls` | src/c/device-can.c:76-108 | the five calls of a full open, socket first, all of them open steps |
| `Transport.OpenCan` | src/c/device-can.c:63-118 | returns 0 exactly when socket, bind and both setsockopt calls succeed, else -1; sock_fd keeps the socket() result; the calls made are a prefix of the five, ending at the first failing step |
| `Transport.IoctlResultIgnored` | src/c/device-can.c:83 | the SIOCGIFINDEX ioctl result has no effect on OpenCan |
| `Transport.OpenCanCalls` | src/c/device-can.c:76-112 | every call OpenCan makes is an open step and only the first is socket() |
| `Handlers.SessionLocked` | src/c/device-can.c:155-213 | in every handler trace the lock is the first event, the unlock the last, with no lock operation in between |
| `Handlers.SessionOpens` | src/c/device-can.c:157-170 | a call on a closed device attempts the open exactly once, and a call on an open device never does; after a failed open no read or write happens |
| `Handlers.FirstShortWrite` | src/c/device-can.c:279-283 | the index of the first write() that is not sizeof(struct can_frame): every earlier write was full, and this one was not |
| `Handlers.Attempted` | src/c/device-can.c:252-284 | the number of frames PUT hands to write() is at most the batch size; every write before the last attempted one was full; an early stop means the last attempted write was short; when every write is full, all frames are attempted |
| `Handlers.PutFrames` | src/c/device-can.c:252-276 | one frame per value array, each decoded over the frame variable as the previous decode left it |
| `Handlers.PutFramesAt` | src/c/device-can.c:262-276 | frames are built in index order: frame k carries the id, the dlc and the data bytes of value array k |
| `Handlers.AsWrittenPutIndices` | src/c/device-can.c:231-252 | the indices the source's uint8_t counter visits within a fuel bound, all writes succeeding: at most fuel of them, each passing `k < nvalues`; its behaviour is stated by AsWrittenPutBelow256, AsWrittenPutNeverExits, AsWrittenPutPeriodic and AsWrittenPutRewritesFirst |
| `Handlers.AsWrittenPutBelow256` | src/c/device-can.c:231-252 | with fewer than 256 values, the source's uint8_t counter visits 0..nvalues-1 once each and the loop exits |
| `Handlers.AsWrittenPutNeverExits` | src/c/device-can.c:231-252 | with 256 or more values, the source's loop condition never fails: the loop runs as long as writes succeed |
| `Handlers.AsWrittenPutPeriodic` | src/c/device-can.c:231-252 | with 256 or more values, iteration n uses value array (k + n) mod 256 |
| `Handlers.AsWrittenPutRewritesFirst` | src/c/device-can.c:231-252 | with 256 or more values, iteration 257 writes values[0] a second time |
| `Handlers.EndDevParams.constructor` | src/c/device-can.c:311-314 | from an address that is not yet open (as `can_create_address` makes it), a device starts with the address's fields, can_IsOpened false and its mutex not held |
| `Handlers.EndDevParams.LockAndOpen` | src/c/device-can.c:155-170 | takes the mutex; opens only if not yet open; on failure stores the descriptor, leaves the flag false and releases the mutex; on success the flag becomes true |
| `Handlers.EndDevParams.GetHandler` | src/c/device-can.c:139-214 | mutex free afterwards; lazy open; trace is lock, open if needed, one read per request, unlock; result is the outcome of the last read (false for an empty batch, or after a failed open); successful reads store their encoding, failed ones leave the slot unassigned |
| `Handlers.EndDevParams.ReadBatch` | src/c/device-can.c:174-209 | one read per request in order, result flag equal to the last read's outcome, readings as above |
| `Handlers.EndDevParams.EncodeInto` | src/c/device-can.c:189-201 | filling the 128-entry buffer in place leaves exactly the frame's encoding in its first dlc + 2 entries and the rest of the buffer unchanged |
| `Handlers.EndDevParams.PutHandler` | src/c/device-can.c:219-291 | mutex free afterwards; lazy open; frames decoded and written in index order up to and including the first short write, none after it; result true exactly when the open succeeded and every write was full, including for an empty batch; value arrays need to be well formed only if the device is or becomes open, and only up to the first short write |
| `Handlers.EndDevParams.WriteBatch` | src/c/device-can.c:252-284 | true exactly when no write was short; the write trace is then all frames decoded in order, and otherwise the frames up to and including the first short write |
| `Handlers.EndDevParams.DecodeValues` | src/c/device-can.c:262-276 | decoding into the frame buffer in place yields `DecodeInto` of the frame whose data the buffer held |

## Findings

| source | as written | input that shows it | evidently intended | confidence | as-written member | corrected member |
|---|---|---|---|---|---|---|
| src/c/device-can.c:231-252 | the PUT loop counter `k` is `uint8_t` while `nvalues` is `uint32_t`, so `k++` wraps from 255 to 0 and `k < nvalues` stays true (the visited indices are `Handlers.AsWrittenPutIndices`) | a PUT batch of 256 values whose writes all succeed: after values[255] the loop writes values[0] again and never returns | each of the nvalues frames is written once, in order, and the handler returns | high for the wrap-around; not executed | `Handlers.AsWrittenPutNeverExits` | `Handlers.EndDevParams.PutHandler` |

## Left out

- Handlers.EndDevParams.PutHandler: uses a full-width loop counter, the corrected behaviour listed under Findings. The as-written counter is modelled separately, by `Handlers.AsWrittenPutIndices` and its lemmas.
- Handlers.EndDevParams.GetHandler: requires every frame the kernel returns to have can_dlc <= 8, as a classic CAN raw socket guarantees. The source relies on this for `frame.data` and its 128-entry buffer, and never checks it.
- Handlers.EndDevParams.GetHandler: any positive byte count from `read()` is a success, and the oracle's frame is taken as the frame variable's contents. Partial reads are not modelled in more detail.
- Handlers.EndDevParams.PutHandler: requires every value array the loop reaches to be well formed, that is, when the device is or becomes open, the arrays up to and including the first short write. The source overruns `frame.data` or dereferences a missing element otherwise, and that undefined behaviour is not modelled.
- `main`, `handle_sig`, `ERR_CHECK` and the busy-wait loop: process and signal plumbing.
- `can_init`, `can_stop`, `can_free_address`, `can_create_resource_attr`, `can_free_resource_attr`: pass-throughs or freeing, with nothing to state.
- The socket, ioctl, bind, setsockopt, read and write system calls: replaced by oracle parameters and recorded in the trace.
- pthread mutex semantics and concurrency between handlers: the mutex is a held/not-held flag in a sequential model, and handlers require it free on entry.
- `iot_data` allocation and iteration, `iot_log_debug` and `perror` logging: foreign library calls. Value arrays are `seq<uint32>`.
- DeviceAddress.CreateAddress: the `strcpy` at line 330 of `src/c/device-can.c` into the 32-byte `can_interface` buffer has no length limit in the model. The buffer is a string, and an overflow is not modelled.
- DeviceAddress.CreateAddress: a property that `iot_data_string_map_get_string` finds but that is not a string also gives NULL; the `map<string, string>` models such a property as absent.
- Transport.OpenCan: the `strcpy` at line 82 of `src/c/device-can.c` copies the 32-byte `can_interface` into the 16-byte (IFNAMSIZ) `ifr_name` without a length check; the model passes the interface name whole, and that overflow is not modelled.
- DeviceAddress.CreateAddress: the malloc result is a boolean parameter. The memory leaked on the error paths is not modelled. Only strtoul is assumed to change errno.
- Strtoul.Parse: models an LP64 target (64-bit `unsigned long`), the "C" locale and glibc's errno convention (ERANGE only). The `end` pointer is not returned because the source never reads it.
