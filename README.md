# rust-armadillo core, modelled in Dafny

This project models the local logic of rust-armadillo's Rust binding layer for
DPDK, and proves properties of that model. The binding wraps DPDK objects
(packet buffers, ports, logical cores) in safe types. Everything DPDK itself
does is a native call. The model turns each such call into a parameter that
stands for its result, and it constrains that parameter only by what DPDK
promises.

By area:

- **Packet buffers** (`MBufs`, `Allocators`, `MBufLifecycle`, `ArrayVecs`).
  - `MBuf` is a class over a backing byte array, with `data_off`, `buf_len`, `data_len`, `pkt_len`, `ol_flags`, `l2_len`, `l3_len` and `port`.
  - Its in-place operations are methods with `modifies` frames:
    - `set_len`, `extend_from_slice` and the two bitfield setters;
    - the offload-flag OR;
    - the metadata-only `MetadataPart` handle.
  - The `Allocator` capability is a class with a ghost set of live handles. It has two kinds:
    - the heap `GlobalAllocator`, modelled from its code;
    - the `&MemoryPool` allocator, modelled by what DPDK's `rte_pktmbuf_alloc` and `rte_pktmbuf_copy` promise.
  - Creating, cloning and dropping an `MBuf` are proved against this live set: a clone is a fresh, independent handle, and `free` runs once per handle.
  - Also modelled: the test helpers `alloc_mbufs` and `pool_create_from_bufs`.
- **Ports** (`EthDev`, `XStats`).
  - Receive and transmit bursts on an `ArrayVec`.
  - The `for_each` state machine, which is proved to give the same ports as the `foreach` filter of the older revision.
  - The socket-id and promiscuous-mode translations, `avail_devices`, and `RawEthConf::from`.
  - The two-call xstats protocol, whose positional zip into a map is proved to follow "last value wins".
- **Logical cores** (`Lcore`, `Launch`).
  - `Id`, its `Display`, and `iter_enabled`. With DPDK's `rte_get_next_lcore`, `iter_enabled` is proved to yield every eligible lcore once, in ascending order.
  - `launch`, `lcore_stub`, `state` and `join_lcores`, as an ownership machine. Each launch's boxed context is freed exactly once: by the caller when the launch fails, by the stub otherwise.
- **Pure helpers.**
  - `rte_ok`, for return codes and pointers (`RteError`).
  - `SocketId` (`Memory`).
  - C strings, and the `raw!` pointer wrappers (`CStrings`, `Utils`).
  - MAC addresses, whose text form is proved to round-trip (`MacAddress`).
  - The argv pointer list: reading it up to its null gives back the arguments (`Argv`).
  - The `ThreadId(N)` parser of the two test-utility crates (`ThreadIds`, `Strings`).
  - The link-library classification and filtering of the two build scripts (`LinkLibs`, `RteSysLinker`, `RteBuild`).
- **Shared building blocks** (`Base`, `Digits`, `Scan`).
  - Machine-integer ranges and casts.
  - `Option`, `Result`, and `Outcome`, which carries a panic and its message.
  - The text-to-integer rules of Rust's `from_str_radix`.
  - Ascending id scans, against which the DPDK searches are stated.

A Rust panic (`unwrap`, `expect`, `assert!`, an out-of-range slice) is
modelled as `Panicked(message)` in an `Outcome`. The message is the one the
standard library writes: `expect` and `unwrap` append `: ` and the `Debug`
text of the error (`RteError`, `Strings`, `Digits`). Where the panic happens
before any write, the state is shown to be unchanged. The one exception is the `debug_assert!` that the current
lcore is the main one: `launch`, `state` and `join_lcores` take it as a
`requires`, as their documentation asks of callers.

DPDK constants that do not appear in the repository have their DPDK values:

| constant | value |
|---|---|
| `RTE_MAX_ETHPORTS` | 32 |
| `RTE_MAX_LCORE` | 128 |
| `LCORE_ID_ANY` | `u32::MAX` |
| `RTE_MBUF_DEFAULT_BUF_SIZE` | 2176 |
| `RTE_PKTMBUF_HEADROOM` | 128 |
| `RTE_MBUF_PORT_INVALID` | `0xFFFF` |
| `RTE_ETH_DEV_NO_OWNER` | 0 |
| `RTE_MBUF_L2_LEN_BITS`, `RTE_MBUF_L3_LEN_BITS` | 7, 9 |
| `WAIT`, `RUNNING`, `FINISHED` | 0, 1, 2 |

## Model

| member | source | states |
|---|---|---|
| RteError.RteErrorOf | crates/rte-error/src/lib.rs:25-27 | the error carries the calling thread's `rte_errno` code |
| RteError.RteOkInt | crates/rte-error/src/lib.rs:46-56 | `Ok` exactly for non-negative values, with the same value; a negative `v` other than `i32::MIN` is `Err(Error(-v))`, a positive code |
| RteError.RteOkIntInjective | crates/rte-error/src/lib.rs:49-55 | two return values with the same translation are equal: nothing is lost |
| RteError.RteOkIntExamples | crates/rte-error/src/lib.rs:64-71 | the crate's test cases: `1` gives `Ok(1)`, `-1` gives `Err(Error(1))` |
| RteError.RteOkPtr | crates/rte-error/src/lib.rs:37-43 | `Ok` exactly for a non-null pointer, wrapping the same address; null gives `rte_error()` |
| RteError.ErrorDebug | crates/rte-error/src/lib.rs:9-21 | `{:?}` and `{}` print `RteError { code: <c>, description: <d> }`, where `<c>` reads back as the code and `<d>` is the quoted, escaped `rte_strerror` text |
| RteError.ExpectPanic | crates/rte/src/mbuf/mod.rs:88 | the `expect` panic is the message, `: `, and exactly the error's `Debug` text after it |
| RteError.UnwrapPanic | crates/rte/src/mbuf.rs:268 | the `unwrap` panic is `called \`Result::unwrap()\` on an \`Err\` value`, `: `, and exactly the error's `Debug` text after it |
| Memory.NewSocketId | crates/rte/src/memory.rs:12-15 | `None` exactly for `u32::MAX`; otherwise `get` returns the id given |
| Memory.GetSocketId | crates/rte/src/memory.rs:17-20 | no socket id holds `u32::MAX` |
| Memory.NewGetRoundTrip | crates/rte/src/memory.rs:12-20 | every socket id is what `new` makes of its own value |
| Memory.SocketIdEquality | crates/rte/src/memory.rs:8-9 | two socket ids are equal exactly when their values are |
| Digits.ToDigit | crates/mac-addr/src/lib.rs:90 | a digit's value is below the radix; decimal digits have their usual value |
| Digits.ParseUnsigned | crates/mac-addr/src/lib.rs:90 | `from_str_radix` accepts exactly an optional `+` followed by at least one digit of the radix, with a value that fits the type, and that value is the result |
| Digits.DigitChar | crates/mac-addr/src/lib.rs:72 | the printed digit is a decimal digit or a lower-case letter `a`-`f`, and reads back as its value |
| Digits.DecimalString | crates/rte/src/lcore.rs:14 | `{}` of an integer is non-empty decimal digits, with no sign and no leading zero |
| Digits.DecimalValue | crates/rte/src/lcore.rs:14 | the printed digits have the printed number as their value |
| Digits.DecimalRoundTrip | crates/rte/src/lcore.rs:14 | parsing the decimal text of `n` gives `n` back when `n` fits the type |
| Digits.SignedDecimal | crates/rte-error/src/lib.rs:13 | `{:?}` of an `i32` starts with `-` exactly for a negative value, and reads back as the value |
| Digits.Hex2 | crates/mac-addr/src/lib.rs:72 | `{:02x}` is exactly two hexadecimal digits, each `0`-`9` or lower-case `a`-`f`, neither `:` nor `+` |
| Digits.Hex2RoundTrip | crates/mac-addr/src/lib.rs:72 | parsing the two digits as a base-16 `u8` gives the byte back |
| Scan.FirstFrom | crates/rte/src/ethdev/mod.rs:225-226 | the search result is the upper bound, or an id at or after the start that has the property |
| Scan.FirstFromLeast | crates/rte/src/ethdev/mod.rs:225-226 | no id between the start and the result has the property |
| Scan.Filtered | crates/rte/src/ethdev.rs:527-531 | exactly the ids of the range that have the property, strictly ascending |
| Scan.FilteredFromFirst | crates/rte/src/ethdev.rs:527-531 | the filtered list starts with the first match and goes on from one past it |
| Lcore.New | crates/rte/src/lcore.rs:20-23 | the id holds the value given |
| Lcore.Get | crates/rte/src/lcore.rs:25-28 | `get` is the id's value |
| Lcore.NewGetRoundTrip | crates/rte/src/lcore.rs:20-28 | `Id::new(x).get() == x`, and every id is `new` of its value |
| Lcore.IsMain | crates/rte/src/lcore.rs:36-39 | true exactly when the id's value is the main lcore's |
| Lcore.Display | crates/rte/src/lcore.rs:9-17 | `any lcore` exactly for `LCORE_ID_ANY`; otherwise the id's canonical decimal text (no sign, no leading zero), which parses back to the id |
| Lcore.Successors | crates/rte/src/lcore.rs:52-59 | the walk yields at most `fuel` ids (its meaning is in `Lcore.SuccessorsWalk` and `Lcore.SuccessorsAreEligible`) |
| Lcore.SuccessorsWalk | crates/rte/src/lcore.rs:52-59 | every yielded id is below `RTE_MAX_LCORE`; each is `get_next` of the one before; the walk stops at the first id that is not below |
| Lcore.IterEnabled | crates/rte/src/lcore.rs:46-61 | the seed `u32::MAX` is never yielded; the first id is `get_next` of the seed; the ids follow `get_next` and stop at the first id at or past `RTE_MAX_LCORE` |
| Lcore.NextLcore | crates/rte/src/lcore.rs:41-44 | DPDK's search starts at the unsigned `i + 1` and ends at or below `RTE_MAX_LCORE` |
| Lcore.NextLcoreFrom | crates/rte/src/lcore.rs:41-44 | from the seed the search starts at 0; from an lcore id it starts at the next id |
| Lcore.SuccessorsStep | crates/rte/src/lcore.rs:52-59 | an id below `RTE_MAX_LCORE` is yielded and the walk continues from it; any other id ends the walk |
| Lcore.SuccessorsAreEligible | crates/rte/src/lcore.rs:46-61 | driven by DPDK's search, the walk after `last` yields exactly the eligible lcores after it, ascending |
| Lcore.IterEnabledIsForeach | crates/rte/src/lcore.rs:46-61 | `iter_enabled` yields every eligible lcore once, in ascending order, as `RTE_LCORE_FOREACH` does |
| EthDev.SocketIdOf | crates/rte/src/ethdev/mod.rs:80-86 | `Err(Error(ret))` exactly when DPDK returns `-1`; otherwise the socket id is `ret` read as `u32` (the same code is at `crates/rte/src/ethdev.rs:231-237`) |
| EthDev.PromiscuousGet | crates/rte/src/ethdev/mod.rs:213-217 | `Ok` exactly for `ret >= 0`, and then true exactly for `ret > 0`; otherwise the `rte_ok` error (the same as `is_promiscuous_enabled` at `crates/rte/src/ethdev.rs:293-296`) |
| EthDev.AvailDevices | crates/rte/src/ethdev.rs:184-186 | the port ids `0..avail_count()`, in order |
| ArrayVecs.ArrayVec.RemainingCapacity | crates/rte/src/ethdev/mod.rs:125-128 | length plus remaining capacity is the capacity |
| EthDev.RxBurst | crates/rte/src/ethdev/mod.rs:116-134 | the request is the remaining capacity cast to `u16`; what the device writes is appended after the unchanged old elements, and the vector stays within its capacity (the same as `crates/rte/src/ethdev.rs:389-405`) |
| EthDev.TxBurst | crates/rte/src/ethdev/mod.rs:145-157 | exactly the first `transmitted` mbufs leave the array and pass to the device unfreed; the rest stay, in order (the same as `crates/rte/src/ethdev.rs:408-416`) |
| EthDev.PortIter.constructor | crates/rte/src/ethdev/mod.rs:222 | the closure's search starts at port 0 |
| EthDev.PortIter.Next | crates/rte/src/ethdev/mod.rs:224-230 | one call stores `find_next_owned_by(next)` as `u16`, yields it if it is below `RTE_MAX_ETHPORTS`, and resumes one past it |
| EthDev.ForEachPortsSteps | crates/rte/src/ethdev/mod.rs:221-232 | the yielded ports are the `Some` results of successive `next()` calls, up to the first `None` |
| EthDev.ForEachPortsUnfold | crates/rte/src/ethdev/mod.rs:224-230 | a port found below `RTE_MAX_ETHPORTS` is yielded and the search resumes one past it; any other value ends the iteration |
| EthDev.FindNextOwnedBy | crates/rte/src/ethdev/mod.rs:225-226 | DPDK's search gives a free port at or after the start, or `RTE_MAX_ETHPORTS` |
| EthDev.ForEachYieldsFreePorts | crates/rte/src/ethdev/mod.rs:221-232 | driven by DPDK's search, `for_each` yields exactly the free ports from its state on, ascending, and then stops |
| EthDev.Foreach | crates/rte/src/ethdev.rs:527-531 | a port is yielded exactly when it is below `RTE_MAX_ETHPORTS`, valid and unowned; ports come in ascending order |
| EthDev.ForEachMatchesForeach | crates/rte/src/ethdev/mod.rs:221-232 | the `for_each` state machine yields the same ports as the `foreach` filter of `crates/rte/src/ethdev.rs:527-531` |
| EthDev.RawEthConf.constructor | crates/rte/src/ethdev.rs:502 | the default `rte_eth_conf` is all zero |
| EthDev.RawEthConfFrom | crates/rte/src/ethdev.rs:500-524 | `rxmode` and `txmode` are copied when present and stay default otherwise; an RSS configuration sets the key (length 40, or null with length 0) and `rss_hf`; nothing else changes |
| XStats.GetXstatsCount | crates/rte/src/ethdev/xstats.rs:18-21 | `Ok(count)` exactly for a non-negative return; otherwise the `rte_ok` error |
| XStats.GetXstatsDef | crates/rte/src/ethdev/xstats.rs:24-51 | errors of either call are propagated; the call panics exactly when more names were written than asked for; otherwise exactly the first `names_written` names, in DPDK's order |
| XStats.ZipToMap | crates/rte/src/ethdev/xstats.rs:72 | a name is a key exactly when it is paired with a value, at a position below both lengths |
| XStats.ZipToMapLastWins | crates/rte/src/ethdev/xstats.rs:72 | a name is mapped to the value at its last paired position |
| XStats.ZipToMapDistinct | crates/rte/src/ethdev/xstats.rs:72 | with distinct names, every name is mapped to the value at its own position |
| XStats.GetXstats | crates/rte/src/ethdev/xstats.rs:54-73 | errors are propagated; the call panics exactly when more values were written than names exist; otherwise the map is the zip of the names with the first `values_written` values, and holds exactly those names |
| XStats.DefsThenValues | crates/rte/src/ethdev/xstats.rs:12-13 | definitions from `get_xstats_def` are accepted by `get_xstats`; when all values are fetched and the names are distinct, each name maps to its own value |
| MBufs.EnableFlags | crates/rte/src/mbuf/mod.rs:213-218 | the new flag word holds every old flag and every enabled flag |
| MBufs.EnableFlagsLeast | crates/rte/src/mbuf/mod.rs:216 | it sets no other bit |
| MBufs.EnableFlagsIdempotent | crates/rte/src/mbuf/mod.rs:209-218 | enabling the same flags twice is enabling them once |
| MBufs.EnableFlagsMonotone | crates/rte/src/mbuf/mod.rs:209-218 | enabling never clears a flag: more flags before means more flags after |
| MBufs.SpareLenAsWritten | crates/rte/src/mbuf/mod.rs:140-147 | the spare slice length as written is `2^64 - buf_len`, whatever the data offset and length are |
| MBufs.SpareLenAsWrittenAdmitsOverflow | crates/rte/src/mbuf/mod.rs:156-166 | with that length, a full default-size mbuf accepts one more byte past its buffer |
| MBufs.SpareLen | crates/rte/src/mbuf/mod.rs:140-147 | the corrected spare length runs from the end of the data to the end of the buffer |
| MBufs.SpareLenGuard | crates/rte/src/mbuf/mod.rs:162 | with the corrected length, the slice bound holds exactly when the data fits the capacity |
| MBufs.MBuf.constructor | crates/rte/src/mbuf/allocator.rs:81-89 | a new mbuf has the given buffer, geometry and port, no data and zeroed metadata |
| MBufs.MBuf.Capacity | crates/rte/src/mbuf/mod.rs:133-138 | data offset plus capacity is `buf_len` (the same as `crates/rte/src/mbuf.rs:69-74`) |
| MBufs.MBuf.AsSlice | crates/rte/src/mbuf/mod.rs:233-243 | the view is the `data_len` bytes at `data_off`, within the capacity (the same as `crates/rte/src/mbuf.rs:163-170`) |
| MBufs.MBuf.SpareCapacity | crates/rte/src/mbuf/mod.rs:140-147 | the spare room is the corrected spare length, and data plus spare room is the capacity |
| MBufs.MBuf.SetLen | crates/rte/src/mbuf/mod.rs:149-154 | for a length within the capacity, `data_len` and `pkt_len` both become it (the same as `crates/rte/src/mbuf.rs:85-90`) |
| MBufs.MBuf.ExtendFromSlice | crates/rte/src/mbuf/mod.rs:156-166 | panics exactly when `other` is longer than the spare room, with `range end index \|other\| out of range for slice of length <spare>`, and then neither the lengths nor the buffer change; otherwise the view becomes the old view followed by `other`, the length grows by `\|other\|`, `pkt_len == data_len`, and no byte outside the copied range changes (the same as `crates/rte/src/mbuf.rs:93-102`) |
| MBufs.MBuf.SetL2Len | crates/rte/src/mbuf/mod.rs:189-197 | panics exactly when `len >= 2^7`, and then changes nothing; otherwise `l2_len` becomes `len` and nothing else changes (the same as `crates/rte/src/mbuf.rs:122-130`) |
| MBufs.MBuf.SetL3Len | crates/rte/src/mbuf/mod.rs:199-207 | panics exactly when `len >= 2^9`, and then changes nothing; otherwise `l3_len` becomes `len` and nothing else changes (the same as `crates/rte/src/mbuf.rs:132-140`) |
| MBufs.MBuf.EnableOlFlags | crates/rte/src/mbuf/mod.rs:209-218 | `ol_flags` becomes the old flags OR `flags`, and only `ol_flags` changes (the same as `crates/rte/src/mbuf.rs:142-151`) |
| MBufs.MetadataPart.constructor | crates/rte/src/mbuf/metadata.rs:16-21 | the handle points at the given mbuf |
| MBufs.MetadataPart.SetL2Len | crates/rte/src/mbuf/metadata.rs:24-32 | as `MBuf::set_l2_len`, and neither the data length nor the data view changes |
| MBufs.MetadataPart.SetL3Len | crates/rte/src/mbuf/metadata.rs:34-42 | as `MBuf::set_l3_len`, and neither the data length nor the data view changes |
| MBufs.MetadataPart.EnableOlFlags | crates/rte/src/mbuf/metadata.rs:44-53 | as `MBuf::enable_ol_flags`, and neither the data length nor the data view changes |
| Allocators.PoolHeadroom | crates/rte/src/mbuf/allocator.rs:29-31 | a fresh pool mbuf starts its data at `RTE_PKTMBUF_HEADROOM`, or at the end of a smaller data room |
| Allocators.CopyNonoverlapping | crates/rte/src/mbuf/allocator.rs:102 | the `n` bytes at the offset are copied, and the rest of the destination is untouched |
| Allocators.Allocator.constructor | crates/rte/src/mbuf/allocator.rs:68-69 | a new allocator of the given kind has handed out nothing |
| Allocators.Allocator.FreshCapacity | crates/rte/src/mbuf/allocator.rs:86 | a heap mbuf's room is `BUF_SIZE as u16`; a pool mbuf's room is its data room minus the headroom |
| Allocators.Allocator.Alloc | crates/rte/src/mbuf/allocator.rs:78-93 | a heap allocation never fails, and gives a fresh live mbuf with `buf_len = BUF_SIZE as u16`, everything else zero and the port invalid; a pool allocation fails exactly when DPDK returns null, with `rte_errno` (`crates/rte/src/mbuf/allocator.rs:29-31`) |
| Allocators.Allocator.Clone | crates/rte/src/mbuf/allocator.rs:95-108 | the clone is a fresh live handle, distinct from the source, with its own buffer and the same data, lengths and pool; a heap clone keeps zeroed offload fields; only a pool clone can fail (`crates/rte/src/mbuf/allocator.rs:44-48`) |
| Allocators.Allocator.CloneHeap | crates/rte/src/mbuf/allocator.rs:95-108 | `GlobalAllocator::clone` copies `data_len` bytes from the start of the buffer, copies both lengths, and leaves `ol_flags`, `l2_len` and `l3_len` zero |
| Allocators.Allocator.CopyFromPool | crates/rte/src/mbuf/allocator.rs:44-48 | `rte_pktmbuf_copy` gives a fresh mbuf from the source's pool, with the same data and lengths; for the single-segment mbufs modelled, `pkt_len` is `data_len`, all of which is copied |
| Allocators.Allocator.Free | crates/rte/src/mbuf/allocator.rs:110-113 | only a live handle can be freed, and afterwards it is not live, so it cannot be freed twice (`crates/rte/src/mbuf/allocator.rs:22-25`) |
| MBufLifecycle.NewWithProvider | crates/rte/src/mbuf/mod.rs:84-90 | panics exactly when the allocation fails, with `Could not allocate mbuf: ` followed by the `Debug` text of the error with its code and description, and the live set unchanged; otherwise a fresh, empty, live mbuf |
| MBufLifecycle.NewWithProviderAndData | crates/rte/src/mbuf/mod.rs:92-98 | panics exactly when the allocation fails (the `expect` message) or `data` is longer than a fresh mbuf's room (the slice message with that room), and a panic leaves the live set as it was; otherwise the new mbuf holds exactly `data` |
| MBufLifecycle.CloneMBuf | crates/rte/src/mbuf/mod.rs:273-283 | panics exactly when `A::clone` fails, with `Failed to allocate mbuf clone: ` followed by the `Debug` text of the error; otherwise a fresh handle with the same data (the same for `crates/rte/src/mbuf.rs:196-206`) |
| MBufLifecycle.Drop | crates/rte/src/mbuf/mod.rs:221-231 | dropping frees the handle once: it leaves the live set |
| MBufLifecycle.FirstOverlong | crates/rte/src/mbuf/mod.rs:299-303 | the index of the first input longer than the limit, every earlier one fitting; the length when all fit |
| MBufLifecycle.CollectHeapMbufs | crates/rte/src/mbuf/mod.rs:302 | as `AllocMbufs`, for the `map(..).collect()` that builds each element before `ArrayVec` checks its capacity: the same panics, and otherwise one fresh, distinct, live heap mbuf per input, in order |
| MBufLifecycle.AllocMbufs | crates/rte/src/mbuf/mod.rs:299-303 | panics exactly when there are more inputs than `CAP` or some input does not fit a heap mbuf; the first oversized input among the first `CAP + 1` gives the slice message, otherwise the `ArrayVec` capacity message; without a panic, one fresh, distinct, live heap mbuf per input, in order, each holding its input |
| MBufLifecycle.AllocWithData | crates/rte/src/mbuf.rs:267-271 | panics exactly when the allocation fails (the `unwrap` message with the error's `Debug` text) or the data does not fit (the slice message), leaving the live set as it was; otherwise a live mbuf holding the data |
| MBufLifecycle.FirstPoolFailure | crates/rte/src/mbuf.rs:265-273 | the index of the first input whose allocation fails or whose data is too long, every earlier one succeeding; the length when there is none |
| MBufLifecycle.AllocAllWithData | crates/rte/src/mbuf.rs:265-273 | panics exactly when some input's allocation fails or its data does not fit, with the message of the first such input; otherwise one distinct live mbuf per input, in order, each holding its input |
| MBufLifecycle.PoolCreateFromBufs | crates/rte/src/mbuf.rs:241-276 | panics exactly when the pool cannot be created (`fail to initialize mbuf pool: ` and the error's `Debug` text) or an input's allocation fails or its data is longer than 2048 bytes (the message of the first such input); otherwise one distinct mbuf of the new pool per input, in order, each holding its input |
| Launch.ToRaw | crates/rte/src/launch.rs:9-15 | each state has its own DPDK value, at most `FINISHED` |
| Launch.StateFrom | crates/rte/src/launch.rs:17-27 | panics exactly for values past `FINISHED`, with the `unwrap` message |
| Launch.StateRoundTrip | crates/rte/src/launch.rs:9-27 | converting a state's value gives the state back, and every accepted value is the value of what it converts to |
| Launch.Launcher.constructor | crates/rte/src/launch.rs:41-57 | before any launch, every lcore waits and no context exists |
| Launch.Launcher.Launch | crates/rte/src/launch.rs:46-57 | on the main lcore, the context is boxed; on success the stub owns it and the target lcore runs it; on failure the caller frees it, the entrypoint never runs, and the `rte_ok` error is returned |
| Launch.Launcher.RunStub | crates/rte/src/launch.rs:36-39 | the stub frees its context, calls the entrypoint once with its argument, and its value is stored as the lcore finishes |
| Launch.Launcher.LcoreState | crates/rte/src/launch.rs:59-64 | on the main lcore, `state` returns the lcore's DPDK state without panicking |
| Launch.Launcher.JoinLcores | crates/rte/src/launch.rs:67-72 | every worker lcore waits afterwards, with its stub's value if it was running; every context has been freed, each by exactly one owner |
| Launch.Launcher.WaitLcore | crates/rte/src/launch.rs:69-72 | a running lcore's stub completes and frees its context; the lcore then waits |
| MacAddress.New | crates/mac-addr/src/lib.rs:41-43 | the octets are `[a, b, c, d, e, f]` |
| MacAddress.From | crates/mac-addr/src/lib.rs:78-82 | the octets are the array given |
| MacAddress.OctetsFromRoundTrip | crates/mac-addr/src/lib.rs:108-111 | `From` of an address's octets is the address, and `new` is `From` of its arguments |
| MacAddress.FromBytes | crates/mac-addr/src/lib.rs:51-54 | succeeds exactly for six bytes, with those bytes as its octets |
| MacAddress.Zeroed | crates/mac-addr/src/lib.rs:56-59 | every octet is zero |
| MacAddress.IsZero | crates/mac-addr/src/lib.rs:61-65 | true exactly when every octet is zero |
| MacAddress.ToString | crates/mac-addr/src/lib.rs:68-76 | the text is 17 characters long, and is the six `{:02x}` groups joined with `:` |
| MacAddress.Groups | crates/mac-addr/src/lib.rs:70-74 | six groups, each the `{:02x}` of its octet |
| MacAddress.JoinGroups | crates/mac-addr/src/lib.rs:68-76 | joining the six groups with `:` writes them one after the other, a `:` between each two |
| MacAddress.Split | crates/mac-addr/src/lib.rs:89 | `split` always yields at least one piece |
| MacAddress.SplitCons | crates/mac-addr/src/lib.rs:89 | how `split` treats the first character: a separator starts a new piece |
| MacAddress.SplitPrefix | crates/mac-addr/src/lib.rs:89 | a first piece without the separator comes off whole |
| MacAddress.SplitNoSeparator | crates/mac-addr/src/lib.rs:89 | text without the separator is a single piece |
| MacAddress.SplitJoin | crates/mac-addr/src/lib.rs:89 | `split` undoes joining pieces that hold no separator |
| MacAddress.SplitJoinThen | crates/mac-addr/src/lib.rs:89 | after such joined pieces and one more separator, the rest is split on its own |
| MacAddress.JoinSplit | crates/mac-addr/src/lib.rs:89 | joining the pieces of `split` gives the text back |
| MacAddress.ParseOctets | crates/mac-addr/src/lib.rs:88-92 | succeeds exactly when every piece parses as a base-16 `u8`, giving those values in order |
| MacAddress.FromStr | crates/mac-addr/src/lib.rs:84-96 | succeeds exactly when the text splits into six pieces that all parse as base-16 `u8`; the octets are those values |
| MacAddress.ParseDisplayRoundTrip | crates/mac-addr/src/lib.rs:109-112 | parsing what `Display` printed gives the address back |
| MacAddress.ExtraGroupRejected | crates/mac-addr/src/lib.rs:114 | an address's text followed by a seventh group is rejected, whatever that group holds |
| MacAddress.Hex2Example | crates/mac-addr/src/lib.rs:109 | the `{:02x}` forms of the test address's octets |
| MacAddress.DisplayExample | crates/mac-addr/src/lib.rs:106-109 | the test address has the octets given and prints as `18:2b:3c:4d:5e:6f` |
| MacAddress.ParseExample | crates/mac-addr/src/lib.rs:112-114 | the test's text parses to the test address, and the text with `:XX` appended is rejected |
| MacAddress.ZeroExample | crates/mac-addr/src/lib.rs:116-117 | the test address is not zero, and `zeroed()` is |
| Strings.StripPrefix | crates/rte/src/test_utils.rs:13 | succeeds exactly when the text starts with the prefix; the prefix followed by the rest is the text |
| Strings.StripSuffix | crates/rte/src/test_utils.rs:13 | succeeds exactly when the text ends with the suffix; the rest followed by the suffix is the text |
| Strings.StripRoundTrip | crates/rte/src/test_utils.rs:13 | stripping what was put in front, or behind, gives the rest back |
| Strings.EscapeChar | crates/rte-error/src/lib.rs:13 | `"`, `\\`, tab, newline, carriage return and NUL become a backslash and one character; every other character stands for itself |
| Strings.StrDebug | crates/rte-error/src/lib.rs:13 | `{:?}` of a string is quoted, and the text between the quotes unescapes to the string |
| Strings.EscapedLength | crates/rte-error/src/lib.rs:13 | escaping never shortens a string |
| Strings.UnescapeEscaped | crates/rte-error/src/lib.rs:13 | unescaping the escaped text gives the string back |
| ThreadIds.ParseThreadId | crates/rte/src/test_utils.rs:12-14 | `None` when the `ThreadId(` prefix or the `)` suffix is missing (the same `parse` as `crates/rte-test-utils/src/lib.rs:9-11`) |
| ThreadIds.ParseWrapped | crates/rte/src/test_utils.rs:12-14 | `ThreadId(d)` parses exactly as `d` parses as a `u32` |
| ThreadIds.ParsedIsWrapped | crates/rte/src/test_utils.rs:12-14 | text that parses is `ThreadId(d)` for a `d` that parses as a `u32` to the same value |
| ThreadIds.MiddleRejected | crates/rte/src/test_utils.rs:13 | an empty middle, a middle with a non-digit after its first character, or a value past `u32::MAX` gives `None` |
| ThreadIds.DebugThreadId | crates/rte/src/test_utils.rs:16 | `{:?}` of a thread id is longer than `ThreadId()` |
| ThreadIds.MockLcore | crates/rte/src/test_utils.rs:11-20 | installs the thread id exactly when it fits a `u32`, and otherwise panics with the `unwrap` message (the same as `crates/rte-test-utils/src/lib.rs:8-17`) |
| CStrings.FirstNul | crates/argv/src/lib.rs:70 | the first 0 byte, with none before it; the length when there is none |
| CStrings.ReadCStr | crates/argv/src/lib.rs:146 | a C reader gets something exactly when the buffer holds a 0: the NUL-free bytes before the first 0 |
| CStrings.FirstNulAt | crates/argv/src/lib.rs:146 | a 0 byte with none before it is the first one |
| CStrings.ReadTerminated | crates/rte/src/utils.rs:14-18 | a string with a 0 appended reads back whole when it holds no 0, and up to its first 0 otherwise |
| Argv.CStringNew | crates/argv/src/lib.rs:70 | `CString::new` succeeds exactly for NUL-free bytes; the error gives the first 0's position |
| Argv.CollectCStrings | crates/argv/src/lib.rs:70 | succeeds exactly when every argument is NUL-free, keeping them in order; otherwise gives the error of the first failing argument |
| Argv.DebugBytes | crates/argv/src/lib.rs:70 | `{:?}` of a byte vector is bracketed |
| Argv.ArgsNew | crates/argv/src/lib.rs:68-71 | panics exactly when an argument holds a 0 byte, with the first error's message; otherwise keeps the arguments, in order |
| Argv.Memory | crates/argv/src/lib.rs:66 | each argument's address holds its bytes followed by 0; null holds nothing |
| Argv.NewArgPtrs | crates/argv/src/lib.rs:91-97 | one pointer per argument, in order, then exactly one null: `n + 1` entries |
| Argv.Argc | crates/argv/src/lib.rs:121-123 | the number of arguments, not counting the null |
| Argv.ReadArgv | crates/argv/src/lib.rs:144-148 | a C reader collects fewer strings than the list has entries |
| Argv.ReadArgvFrom | crates/argv/src/lib.rs:144-148 | reading from any entry gives back the remaining strings, in order |
| Argv.ArgvRoundTrip | crates/argv/src/lib.rs:132-152 | the crate's test: `argc` is the number of arguments, and reading `argv` up to its null gives back exactly the arguments |
| Utils.AsCStr | crates/rte/src/utils.rs:14-18 | the text's bytes followed by one 0, with embedded 0 bytes kept and no check |
| Utils.AsRaw | crates/rte/src/utils.rs:61-68 | the pointer is never null |
| Utils.FromRaw | crates/rte/src/utils.rs:70-74 | `None` exactly for null; otherwise `as_raw` gives the pointer back |
| Utils.RawRoundTrip | crates/rte/src/utils.rs:61-74 | `from_raw` and `as_raw` are inverse on non-null pointers |
| Utils.FromPtr | crates/rte/src/utils.rs:76-82 | panics exactly on null, with the `unwrap` message; otherwise is `from_raw` of the pointer |
| LinkLibs.Classify | crates/rte-sys/build/linker.rs:132-137 | static exactly for `:lib` + x + `.a`, with name x; otherwise dynamic, with the whole entry as the name (the same as `crates/rte-build/src/lib.rs:126-131`) |
| LinkLibs.ClassifyArchive | crates/rte-sys/build/linker.rs:132-137 | `:lib` + name + `.a` classifies as the static library of that name |
| LinkLibs.Classified | crates/rte-sys/build/linker.rs:129-137 | one classified link per entry, in order |
| LinkLibs.Filter | crates/rte-sys/build/linker.rs:140 | `retain` keeps exactly the entries that pass, and never adds one |
| LinkLibs.FilterFilter | crates/rte-sys/build/linker.rs:140 | retaining twice is retaining once by both conditions |
| LinkLibs.Partition | crates/rte-sys/build/linker.rs:138 | the static entries and the dynamic ones, each in input order |
| LinkLibs.PartitionCovers | crates/rte-sys/build/linker.rs:138 | together the two parts are a rearrangement of the input |
| LinkLibs.Names | crates/rte-sys/build/linker.rs:143 | exactly the names of the links |
| LinkLibs.RetainStatic | crates/rte-sys/build/linker.rs:138-140 | partitioning then retaining against the ignore list keeps the non-ignored static entries |
| LinkLibs.KeptStaticIff | crates/rte-sys/build/linker.rs:129-140 | a static library is kept exactly when its archive is listed and its name is not ignored |
| LinkLibs.KeptStaticNames | crates/rte-sys/build/linker.rs:143 | every kept link is static, and the kept names are those of kept links |
| LinkLibs.ClassifiedDynamicIff | crates/rte-sys/build/linker.rs:129-138 | a dynamic link is classified exactly when its entry is listed and is not an archive |
| RteSysLinker.Display | crates/rte-sys/build/linker.rs:98-112 | `cargo:rustc-link-lib=`, then `static:+whole-archive,-bundle=` for a static library only, then the name |
| RteSysLinker.LinkDpdk | crates/rte-sys/build/linker.rs:114-149 | a search line per link path, then the kept static libraries, then the kept dynamic ones, each in `pkg-config` order |
| RteSysLinker.LinkWith | crates/rte-sys/build/linker.rs:122-148 | the same output, for any ignore list |
| RteSysLinker.PrintLinks | crates/rte-sys/build/linker.rs:146-148 | one line per link, in order, after what was already printed |
| RteSysLinker.StaticLinked | crates/rte-sys/build/linker.rs:129-140 | a static library is linked exactly when its archive is listed and it is not ignored |
| RteSysLinker.DynamicLinked | crates/rte-sys/build/linker.rs:129-144 | a dynamic library is linked exactly when it is listed, is not an archive, and no kept static library has its name |
| RteBuild.Display | crates/rte-build/src/lib.rs:91-106 | `cargo:rustc-link-lib=`, then `static=` for a static library only, then the name |
| RteBuild.HackLine | crates/rte-build/src/lib.rs:149 | the line is `#[link(name = "`, the name, then `", kind = "static")]` |
| RteBuild.Bind | crates/rte-build/src/lib.rs:108-152 | a search line per link path, then the kept static libraries, then all dynamic ones; the hack file has one `#[link]` line per kept static library, in order, then `extern "C" {}` |
| RteBuild.BindWith | crates/rte-build/src/lib.rs:116-151 | the same output, for any ignore list |
| RteBuild.PrintLinks | crates/rte-build/src/lib.rs:136-138 | one line per link, in order, after what was already printed |
| RteBuild.WriteHack | crates/rte-build/src/lib.rs:147-151 | one `#[link]` line per static library, in order, then the `extern` block |
| RteBuild.StaticLinked | crates/rte-build/src/lib.rs:123-134 | a static library is linked exactly when its archive is listed and it is not in this crate's ignore list |
| RteBuild.DynamicLinked | crates/rte-build/src/lib.rs:123-138 | a dynamic library is linked exactly when it is listed and is not an archive: unlike `rte-sys`, no static library shadows it |

## Left out

- Native DPDK calls (`_rte_eth_rx_burst`, `rte_eth_find_next_owned_by`, `rte_get_next_lcore`, `rte_eal_remote_launch`, `rte_eal_mp_wait_lcore`, `rte_pktmbuf_alloc`/`copy`/`free`, the xstats calls, `_rte_set_mock_lcore`):
  - Each is a parameter for its result, constrained by what DPDK promises.
  - DPDK's internals, mbuf reference counts and multi-segment chains are not modelled. The wrapper itself ignores all segments but the first.
- State after a panic is mostly not modelled. An `Outcome.Panicked` ends the operation.
  - NewWithProviderAndData and AllocWithData do model the one `Drop` of unwinding, of the mbuf being filled.
  - AllocMbufs and PoolCreateFromBufs do not state the live set after a panic: the mbufs collected so far, dropped by unwinding, are not shown freed.
- RteError.ErrorDebug: `rte_strerror` is native, so its text is a parameter, taken after `to_string_lossy`; invalid UTF-8 is not modelled.
- Strings.EscapeChar: `str`'s `Debug` also writes `\u{..}` for unprintable and grapheme-extending characters; only the six escapes above are modelled, and any other character is taken as printable.
- The `MemoryPool::new` and `MemoryPool::alloc` errors are modelled as `rte_error::Error` with the thread's `rte_errno`, as the other pool calls return.
- MBufs.MBuf.Valid: `pkt_len == data_len` is part of the invariant, which restricts the model to single-segment mbufs; the wrapper's own operations keep it.
- Concurrency is not modelled:
  - workers run on a single thread, one step at a time: a stub runs when `RunStub` or `join_lcores` calls it;
  - blocking in `rte_eal_mp_wait_lcore` is not modelled;
  - the thread-safety of pools and the `Send`/`Sync` markers are not modelled.
- Launch.Launcher.RunStub: `lcore_stub` has no `catch_unwind`, and an entrypoint that panics is not modelled. Entrypoints are total functions.
- `debug_assert!(lcore::current().is_main())` in `launch`, `state` and `join_lcores` is a `requires`. A release build does not check it.
- RteError.RteOkInt: for `i32::MIN` the negation wraps, as in a release build. A debug build panics on the overflow; that panic is not modelled.
- Allocators.Allocator.Alloc:
  - the operating system's allocation failure inside `GlobalAllocator` (`alloc`, `alloc_zeroed` and the `unwrap` on null) is not modelled;
  - the masking of `ol_flags` with `EXT_ATTACHED_MBUF` is modelled by its result, zero, since the struct is zeroed.
- Allocators.Allocator.CopyFromPool:
  - the clone's offload metadata is not stated;
  - `rte_pktmbuf_copy` copies some of it, and what it copies is DPDK's choice.
- `MemoryPool::new` and `MemoryPool::alloc` (`crates/rte/src/mempool.rs`) are not part of this model. `pool_create_from_bufs` takes the pool's creation result and each allocation's success as parameters. The uuid-based pool name and the pool size are left out.
- `as_raw` and `as_mut_slice` of `MBuf` are raw-pointer accessors.
  - `as_mut_slice` does a `'static` transmute, which breaks aliasing.
  - `MBuf`'s `Debug` and `Default` are not modelled.
- EthDev.RawEthConfFrom:
  - the RSS key is modelled by its value and length;
  - the key pointer is taken from a copy that the closure drops, so it dangles; that is not modelled;
  - the unused `link_speeds`, `lpbk_mode`, `tx_adv_conf`, `dcb_capability_en`, `fdir_conf`, `intr_conf` and the remaining `rx_adv_conf` fields are modelled by staying at their zero defaults.
- The other `EthDev`/`EthDevice` operations are each a single native call followed by `rte_ok`:
  - configure, queue setup, start/stop/close, link, MTU, MAC and stats;
  - `get_owner_id`, `find_next` and `is_valid`.
- XStats.GetXstatsDef: names are modelled as text. The `to_str().unwrap()` on names that are not valid UTF-8 is left out.
- Text is modelled as bytes in `Argv` and `Utils`, so UTF-8 encoding is not modelled. The argv test's `to_str().unwrap()` always succeeds there, since the bytes came from Rust strings.
- `Args::as_ptrs`, `ArgPtrs::as_argv` and `Argv::argv` are left out:
  - the first two are borrows;
  - `argv` returns the pointer list itself, which is `ArgPtrs.ptrs`.
  - Where each `CString`'s bytes live is a parameter (`addrs`).
- ThreadIds.DebugThreadId: Rust's `ThreadId` is modelled by its non-zero `u64` value, and its `Debug` text is modelled as `ThreadId(n)`.
- Only general lemmas are proved about `parse`, for any input. No parse of a particular literal string is proved, beyond the MAC address of the crate's test.
- The build scripts' `pkg-config` probe, `println!` output, file creation and `writeln!(..).unwrap()` are left out:
  - The library list and link paths are parameters, and each printed or written line is an element of a result.
  - The path's `to_str().unwrap()` is not modelled: paths are text.
- Timers, ACLs, the EAL start-up crate, the flag tables, the procedural test macro and the generated bindings are not part of this model.

## Findings

| source | as written | input that shows it | evidently intended | confidence | as-written member | corrected member |
|---|---|---|---|---|---|---|
| crates/rte/src/mbuf/mod.rs:140-147 | `spare_capacity_mut` takes its length as `spare_cap.offset_from(spare_cap + buf_len) as usize`. That offset is `-buf_len`, so the length is `2^64 - buf_len`, and the `[..other.len()]` in `extend_from_slice` never panics on an oversized slice. The same code is at `crates/rte/src/mbuf.rs:76-83`. | A heap mbuf of the default size 2176, already holding 2176 bytes, extended by one byte: the slice bound passes and the copy writes past the buffer. | The slice runs from the end of the data to the end of the buffer, `buf_len - data_off - data_len` bytes, so that an oversized `extend_from_slice` panics instead of writing out of bounds. | not executed | MBufs.SpareLenAsWritten, MBufs.SpareLenAsWrittenAdmitsOverflow | MBufs.SpareLen, MBufs.SpareLenGuard, MBufs.MBuf.ExtendFromSlice |

The rest of the model uses the corrected length: `extend_from_slice`, and
every operation that calls it, panics on data longer than the spare room.
