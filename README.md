# A model of the send latency test of perftest (`send_lat.c`)

`send_lat` measures the round-trip latency of RDMA SEND operations between two
hosts. The two hosts first swap their queue-pair addressing (the "keys") over a
TCP socket. Then they play ping-pong for `iters` iterations: the server answers
each message it receives with one of its own, and the client sends first. The
client stamps the cycle counter before each send. The report gives the
minimum, maximum and median of the differences between consecutive stamps.

This project models, in Dafny, the parts of `send_lat.c` that decide what the
test does:

- **Keys** (`keys.dfy`, with `hex.dfy`) model the key record that
  `pp_write_keys` prints and `pp_read_keys` parses. There are two layouts:
  - the LID layout: five colon-separated fixed-width hex fields, parsed by
    `sscanf`;
  - the GID layout: the same five fields plus sixteen GID bytes, parsed by a
    `strpbrk`/`memcpy`/`strtol` scanner into a 20-byte buffer.
- **Handshake** (`handshake.dfy`) models `pp_open_port`. It builds the local
  destination, connects, runs the first exchange, calls `pp_connect_ctx`, runs
  a second exchange and writes the `done` token. It returns the code of the
  first step that fails.
- **Driver** (`driver.dfy`) models `run_iter`. The loop is a class method over
  the context's work-request fields and the `tstamp` array, proved equal to a
  pure step function `Run`. Every property of that function follows for the
  loop: the order of receives, stamps, sends and completion polls; the
  selective-signaling rule in closed form; and the exit codes.
- **Report** (`report.dfy`) models `print_report`: the cycle deltas taken
  modulo 2^64, `cycles_compare`, the sort, `get_median`, and the minimum and
  maximum.
- **Setup** (`setup.dfy`) models the arithmetic of `pp_init_ctx`,
  `pp_connect_ctx` and `pp_open_port`:
  - the default MTU and the path MTU enumeration;
  - the buffer and memory-region lengths, and the receive length;
  - the `tx_depth / 2` initial receives;
  - the 24-bit PSN mask.
- **Options** (`options.dfy`) models the option switch of `main`:
  - the range checks and the exit code of each rejected option;
  - the server-name operand;
  - the clamp of the context size;
  - the size schedule of `--all`.

Verbs calls, sockets, the clock and the random draw are not executed by the
model. They become parameters:
- a `Fabric` of answers, indexed by call number, for `run_iter`;
- a `World` for `pp_open_port`: the socket descriptor, which writes succeed,
  the bytes each read returns, the code `pp_connect_ctx` returns, the local LID
  and the queried GID;
- a `Local` for the queue pair number, the `lrand48()` draw, the rkey and the
  buffer address;
- a `runIter` predicate for the per-size runs in `main`.

C integer behaviour is written out wherever it matters:
- `cycles_t` arithmetic wraps modulo 2^64;
- `strtol` results are narrowed to a 32-bit `int` (`Options.ToInt`);
- the GID scanner's `(int)`, `(unsigned)` and `(unsigned char)` casts keep 32
  or 8 bits;
- `tx_depth / 2` truncates toward zero;
- `lrand48() & 0xffffff` is a bitwise `&`.

Where the code differs from the protocol as usually described, the model
follows the code:
- the final `done` token is `sizeof "done"`, five bytes with the NUL, and both
  roles write it;
- the default message size is 2 bytes;
- `-c` with any name other than `UC` or `UD` leaves the transport as it was,
  instead of resetting it to RC.

## Model

| member | source | states |
|---|---|---|
| Hex.Fixed | perftest/send_lat.c:157 | `%0Nx` of a value below 16^N is exactly N hex digits |
| Hex.HexChar | perftest/send_lat.c:157 | each printed digit is a lower-case hex digit whose value is the digit printed |
| Hex.ValueOfFixed | perftest/send_lat.c:157-159 | reading back the N printed digits as hex gives the printed value |
| Hex.HexRunOfDigits | perftest/send_lat.c:209 | a hex conversion of width N stops at the end of the field's digits, at the width or at the `:` that follows |
| Hex.LeadingValueOfFixed | perftest/send_lat.c:233 | `strtol(tmp, NULL, 16)` of a printed field is the printed value |
| Keys.FieldsFit | perftest/send_lat.c:116-123 | the fields of a destination, sized by their C types, fit the widths of the format |
| Keys.Format | perftest/send_lat.c:166-184 | the printed record holds no NUL, so the record ends at the terminator `sprintf` adds |
| Keys.JoinLength | perftest/send_lat.c:156-159 | a record of fixed-width fields is the sum of the widths plus one separator between neighbouring fields |
| Keys.RecordLength | perftest/send_lat.c:156-194 | the bytes written are the 44- or 92-character template plus its NUL, so exactly KEY_MSG_SIZE or KEY_MSG_SIZE_GID bytes, with the only NUL at the end |
| Keys.CString | perftest/send_lat.c:209 | the C string `sscanf` reads from a buffer holding a NUL is everything before the first NUL; the readers reject a buffer without one |
| Keys.CStringOfTerminated | perftest/send_lat.c:203-209 | a record read with its NUL is seen by `sscanf` as the printed text |
| Keys.ScanFields | perftest/send_lat.c:209-210 | every field `sscanf` converts is below 16^width of its conversion, and no more fields are converted than the format has |
| Keys.ScanJoin | perftest/send_lat.c:209-212 | `sscanf` of a record printed by the LID format converts all five fields back to the printed values |
| Keys.DecodedKeysFit | perftest/send_lat.c:209-212 | a parsed LID record gives a 16-bit LID, 24-bit QPN and PSN, 32-bit rkey and 64-bit vaddr |
| Keys.DecodeKeysNeedsSeparators | perftest/send_lat.c:209-216 | a message without `:` before its NUL cannot give 5 conversions and is rejected |
| Keys.RoundTripKeys | perftest/send_lat.c:161-219 | reading the LID record written for a destination gives that destination back; the receiver's GID is left as it was |
| Keys.FindColonFirst | perftest/send_lat.c:230 | `strpbrk(p, ":")` finds the first `:`, and finds nothing exactly when the string has no `:` |
| Keys.FindColonAfter | perftest/send_lat.c:230 | in a hex field followed by `:`, the first `:` is the one right after the field |
| Keys.SplitFields | perftest/send_lat.c:226-268 | a successful split into 20 separators gives 21 fields; every failure is a malformed record |
| Keys.Values | perftest/send_lat.c:233-268 | one `strtol` value per copied field |
| Keys.GidFields | perftest/send_lat.c:226-268 | a successful scan gives one value per field |
| Keys.GidDest | perftest/send_lat.c:233-268 | the 21 values stored through the scanner's casts fill the five key fields and a 16-byte GID: the four `(int)`/`(unsigned)` fields below 2^32, vaddr at most ULLONG_MAX, every GID byte below 2^8 |
| Keys.SplitStep | perftest/send_lat.c:259-265 | one scanner step splits off a short hex field and its `:` ahead of the fields that follow |
| Keys.SplitJoin | perftest/send_lat.c:226-268 | splitting a record of fixed-width fields no longer than 19 characters gives back the printed fields, one per separator plus one |
| Keys.ValuesPrinted | perftest/send_lat.c:233-268 | `strtol` of every printed field gives back every value |
| Keys.GidJoin | perftest/send_lat.c:226-268 | scanning a joined GID record gives back the printed values |
| Keys.GidDestOfFields | perftest/send_lat.c:233-268 | for an encodable destination the casts change nothing: the stored destination is the one printed |
| Keys.RoundTripGid | perftest/send_lat.c:176-270 | reading the GID record written for a destination gives that destination back, GID included |
| Keys.RoundTrip | perftest/send_lat.c:161-271 | in both layouts, `pp_read_keys` of what `pp_write_keys` wrote gives the written destination |
| Keys.ScannerFails | perftest/send_lat.c:230-232 | when `strpbrk` finds no `:`, or the field is longer than `tmp` can hold, the record is malformed |
| Keys.ScannerStep | perftest/send_lat.c:259-265 | a field found before a `:` is appended and the scan resumes after the `:` with one separator fewer |
| Keys.ScannerEnd | perftest/send_lat.c:266-268 | the text after the last `:` is the last field if it fits `tmp` |
| Keys.SplitGid | perftest/send_lat.c:226-268 | the scanning loop returns exactly the split of the record into 21 fields, or the malformed error |
| Keys.ReadGidKeys | perftest/send_lat.c:220-270 | returns 0 exactly when a full-length GID record holding a NUL splits into 21 fields, storing their decoded values; -1 otherwise |
| Keys.ReadKeys | perftest/send_lat.c:196-271 | returns 0 or -1, 0 exactly when the read record holds a NUL and parses in the layout selected by the GID index, and then stores the parsed destination |
| Keys.GidReadStatusAsWritten | perftest/send_lat.c:220-270 | the GID branch as written returns 0 for every read of the right length |
| Keys.GarbledGidRecordAccepted | perftest/send_lat.c:220-270 | a full-length record of `f`s has no `:`, yet the branch as written returns 0, while the corrected reader rejects it |
| Handshake.MyDest | perftest/send_lat.c:726-746 | the local destination fits the record's widths: the PSN is the draw's low 24 bits, vaddr is the buffer address plus the context size, modulo 2^64 |
| Handshake.Exchanged | perftest/send_lat.c:314-321 | one exchange is the write of the local record and the read of the peer's; it starts with the write exactly for the client (lines 379-387 for the server) |
| Handshake.Plan | perftest/send_lat.c:759-805 | a full handshake is seven steps: connect, exchange, QP connected, exchange, `done` written |
| Handshake.Exchange | perftest/send_lat.c:314-321 | succeeds exactly when the write succeeds and the read parses; the client writes first, the server (lines 379-387) reads first; it stops at the first failure |
| Handshake.FirstRound | perftest/send_lat.c:759-786 | 0 exactly when the socket connects, the first exchange succeeds and `pp_connect_ctx` returns 0; otherwise the code of the step that failed and the steps done so far |
| Handshake.SecondRound | perftest/send_lat.c:787-802 | 0 exactly when the second exchange and the `done` write succeed; -1 for a failed exchange, 1 for a failed `done` write |
| Handshake.Converse | perftest/send_lat.c:759-805 | 0 exactly when every socket call and `pp_connect_ctx` succeed; the trace is a prefix of the plan, and a failure returns the failing step's code |
| Handshake.OpenPort | perftest/send_lat.c:714-806 | -1 with no socket traffic for a zero LID in the LID layout or a failed GID query; otherwise as Converse, with the remote destination decoded from the second exchange |
| Handshake.RolesMirror | perftest/send_lat.c:314-387 | when each side receives what the other sends, each write of one role is matched by a read of the other at the same step |
| Handshake.FaithfulPeer | perftest/send_lat.c:714-806 | with a peer that sends its own record twice and calls that succeed, the handshake succeeds and yields the peer's destination |
| Driver.UdSize | perftest/send_lat.c:926-934 | a UD message above 2048 bytes is sent as 2048 bytes, or 1024 with a GID index; nothing else changes |
| Driver.Inline | perftest/send_lat.c:973-977 | a message is sent inline exactly when it is non-empty and no longer than the inline size |
| Driver.AwaitCode | perftest/send_lat.c:991-1025 | awaiting a completion gives 0 exactly when the event (in event mode) and a successful completion arrive, else 1, 12 or 13; 1 only in event mode, 12 exactly when the event is taken and ibv_poll_cq fails |
| Driver.AwaitSend | perftest/send_lat.c:1053-1098 | the poll after a signaled send keeps both counters |
| Driver.SendAndAwait | perftest/send_lat.c:1027-1098 | a successful send phase counts exactly one more send while sends remain |
| Driver.Iterate | perftest/send_lat.c:980-1099 | every successful pass strictly reduces the work that remains |
| Driver.RunFinishes | perftest/send_lat.c:980 | a run that returns 0 has made iters sends and iters receives |
| Driver.CcntClosedForm | perftest/send_lat.c:1028-1098 | ccnt before send k is k, or 1 after send 0 with `-l`, or (k - 1) mod (tx_depth - 2) + 1 |
| Driver.SignalClosedForm | perftest/send_lat.c:1029-1030 | send k is signaled exactly under `-l`, when it is the last send, or when k is a positive multiple of tx_depth - 2 (k = 0 when tx_depth is 2) |
| Driver.SignalWindow | perftest/send_lat.c:1029-1030 | with tx_depth at least 3, every window of tx_depth - 1 consecutive sends holds a signaled one |
| Driver.SendAndPoll | perftest/send_lat.c:1027-1098 | the send phase does the stamp, the post and, when signaled, the poll of one send, or a proper prefix of them on failure |
| Driver.RecvAndSend | perftest/send_lat.c:981-1098 | a pass with a receive and a send does the receive, then the send block, or a proper prefix of them on failure |
| Driver.IterateAt | perftest/send_lat.c:980-1099 | iteration k of the loop does block k, or stops inside it with an error code |
| Driver.RunFrom | perftest/send_lat.c:980-1101 | from iteration k the run completes the expected trace or stops inside it |
| Driver.RunSpec | perftest/send_lat.c:910-1102 | the trace is a prefix of the failure-free run; 0 exactly when it is the whole run; reliable calls give 0; codes are 0, 1, 11, 12, 13 or 15, and only 0, 11, 13 or 15 when busy polling returns with a completion |
| Driver.BusyRunCodes | perftest/send_lat.c:1010-1025 | without use_event, where the do-while at lines 1010-1012 and 1074-1076 retries until a completion arrives, a run never returns 1 or 12 |
| Driver.BlocksStampBeforeSend | perftest/send_lat.c:1042-1048 | in the failure-free run every stamp is followed directly by the post of that send |
| Driver.BlocksPollAfterSignaled | perftest/send_lat.c:1029-1097 | a send is followed by the poll of its completion exactly when it is signaled, and nothing else is polled |
| Driver.BlocksRecvBeforeSend | perftest/send_lat.c:981-1048 | the server answers receive k with send k; the client starts with send 0 and answers receive k - 1 with send k |
| Driver.BlocksStampOnce | perftest/send_lat.c:1042 | the stamps are taken for sends 0, 1, 2, ... in order, once each |
| Driver.ExpectedProperties | perftest/send_lat.c:980-1099 | the failure-free run satisfies all four ordering properties, and stamps exactly tstamp[0..iters) |
| Driver.Stamps | perftest/send_lat.c:1042 | a trace stamps no more sends than it has events |
| Driver.Upto | perftest/send_lat.c:1042 | the stamp indices 0 to n - 1 in order |
| Driver.Context.SetWorkRequests | perftest/send_lat.c:937-963 | the send entry starts after the 40-byte GRH room in UD and holds the message; the receive entry holds the context size plus the GRH room in UD; UD addressing uses the multicast QPN with `-g` and the qkey 0x11111111 |
| Driver.Context.SendAndWait | perftest/send_lat.c:1027-1098 | the send and poll part of a pass does what SendAndAwait says, stamps only the send it posts and counts at most one send |
| Driver.Context.Pass | perftest/send_lat.c:981-1098 | one pass of the loop does what Iterate says and stamps only the send it posts |
| Driver.Context.Passes | perftest/send_lat.c:980-1099 | the loop ends with Run's code, trace and flags, with tstamp[k] set to the clock read for every send begun and the rest unchanged |
| Driver.Context.PingPong | perftest/send_lat.c:980-1101 | as Passes, and when it returns 0 every tstamp[k] below iters is set |
| Driver.Context.RunIter | perftest/send_lat.c:910-1102 | run_iter returns Run's code, leaves the work requests as SetWorkRequests says, and fills tstamp as PingPong says |
| Report.Delta | perftest/send_lat.c:878 | a cycles_t difference wraps modulo 2^64 and is the plain difference when the counter did not wrap |
| Report.Deltas | perftest/send_lat.c:877-878 | iters - 1 deltas, delta[i] the wrapped difference of stamps i + 1 and i |
| Report.ReplayDeltas | perftest/send_lat.c:877-878 | the first stamp and the deltas give back every stamp |
| Report.ComputeDeltas | perftest/send_lat.c:870-878 | the delta array holds exactly the deltas of the first iters stamps |
| Report.CyclesCompare | perftest/send_lat.c:853-861 | the comparator returns -1, 0 or 1 for below, equal and above |
| Report.CompareConsistent | perftest/send_lat.c:853-861 | the comparator is antisymmetric and transitive, as `qsort` requires |
| Report.InsertDown | perftest/send_lat.c:895 | inserting one element into a sorted prefix keeps the contents and extends the sorted prefix |
| Report.SortCycles | perftest/send_lat.c:895 | after the sort the deltas are non-decreasing and a permutation of what they were |
| Report.SortedEnds | perftest/send_lat.c:903-906 | after the sort delta[0] is the minimum delta and delta[iters - 2] the maximum |
| Report.MedianAsWritten | perftest/send_lat.c:845-851 | for an odd count, get_median is the middle element |
| Report.Median | perftest/send_lat.c:845-851 | the middle element for an odd count, the mean of the two middle elements rounded down for an even count |
| Report.MedianBetween | perftest/send_lat.c:845-851 | the median of sorted deltas lies between the minimum and the maximum, above the lower half and below the upper half |
| Report.MedianOfFour | perftest/send_lat.c:845-851 | the median of 1, 2, 3, 4 is 2: the mean is rounded down |
| Report.MedianAsWrittenAgrees | perftest/send_lat.c:845-851 | get_median as written equals the true median when the two middle deltas sum below 2^64 |
| Report.MedianAsWrittenBelowMin | perftest/send_lat.c:845-851 | two middle deltas of 2^64 - 2 make get_median as written return 2^63 - 2, below the minimum |
| Report.ReportedMedian | perftest/send_lat.c:845-851 | get_median as written of sorted deltas whose two middle values add up below 2^64 is the true median and lies between the first and last delta |
| Report.Summarize | perftest/send_lat.c:863-908 | the sorted deltas are a permutation of the stamp differences; the reported minimum and maximum are the least and greatest of them; the reported median is get_median as written, which is the true median and lies between them when the two middle deltas add up below 2^64 |
| Setup.DefaultMtu | perftest/send_lat.c:426-436 | a given MTU is kept; otherwise it is 1024 for part 23108 or with a GID index, else 2048 |
| Setup.Code | perftest/send_lat.c:576-592 | the path MTU codes are 1 to 5, and 0 only when the attribute was left cleared |
| Setup.PathMtuOf | perftest/send_lat.c:576-592 | 256, 512, 1024, 2048 and 4096 map to the path MTU of that many bytes; any other MTU leaves the attribute cleared |
| Setup.PathMtuRoundTrip | perftest/send_lat.c:576-592 | every path MTU is the one chosen for its own byte count |
| Setup.RecvLength | perftest/send_lat.c:697-701 | a receive holds the context size, plus 40 bytes in UD |
| Setup.BufferLayout | perftest/send_lat.c:401-418 | the buffer is twice the receive length; post_buf is at size - 1 and poll_buf size bytes later, both inside the buffer |
| Setup.EntriesInsideRegion | perftest/send_lat.c:450-464 | the memory region covers the receive entry and the send entry for any message no larger than the context size |
| Setup.Half | perftest/send_lat.c:703 | tx_depth / 2 truncates toward zero |
| Setup.PostInitialReceives | perftest/send_lat.c:703-709 | 0 exactly when all tx_depth / 2 receives are posted; otherwise 14 at the first refused one |
| Setup.BitAnd | perftest/send_lat.c:729 | `a & b` is no larger than either operand |
| Setup.MaskLowBits | perftest/send_lat.c:729 | `r & (2^k - 1)` is `r mod 2^k` |
| Setup.PsnMask | perftest/send_lat.c:729 | the PSN is the draw's low 24 bits and below 2^24 |
| Options.ToInt | perftest/send_lat.c:1165 | strtol's long stored into an int keeps the value modulo 2^32, in the int range, unchanged when it fits |
| Options.Transport | perftest/send_lat.c:1171-1176 | `-c UC` and `-c UD` select those transports; any other name changes nothing |
| Options.Verdict | perftest/send_lat.c:1163-1276 | a rejected option's exit code is one of 0, 1, 2, 3, 4, 5, 6, 7 and 19 |
| Options.ApplyCodes | perftest/send_lat.c:1163-1276 | an option ends main exactly when its own check rejects it, with that check's code |
| Options.DefaultInRange | perftest/send_lat.c:1104-1130 | the defaults pass every range check |
| Options.ApplyKeepsRange | perftest/send_lat.c:1163-1276 | an accepted option keeps every checked parameter in range |
| Options.FirstRejected | perftest/send_lat.c:1132-1277 | parsing goes on exactly when no option is rejected, and otherwise main returns the code of the first rejected one |
| Options.ParsedInRange | perftest/send_lat.c:1132-1277 | after parsing, every checked parameter is in range |
| Options.LastSizeWins | perftest/send_lat.c:1209-1214 | of two `-s` options the later one sets the size |
| Options.ParseOptions | perftest/send_lat.c:1132-1284 | the parse loop yields the options' configuration, in range, with the server name from a single operand; exit code 6 for extra operands |
| Options.ContextSize | perftest/send_lat.c:1311-1322 | the context size is 2^23 with `--all`, at most 2048 in UD and at most 1024 in UD with a GID index |
| Options.Schedule | perftest/send_lat.c:1352-1360 | `--all` runs size_max_pow - 1 sizes |
| Options.ScheduleFitsContext | perftest/send_lat.c:1352-1366 | the `--all` sizes double from 2 up to exactly the context size, and run_iter's UD clamp changes none of them |
| Options.Planned | perftest/send_lat.c:1352-1371 | at least one size is run |
| Options.RunSizes | perftest/send_lat.c:1352-1371 | 0 exactly when every planned size runs; otherwise 17 with `--all` or 18 without, after the first size that fails |

## Left out

- Sockets, verbs and the clock are not executed. Their answers are parameters (`Fabric`, `World`, `Local`), as described above.
- Device lookup (`pp_find_dev`), the multicast group attach, `lrand48`/`srand48`, `get_cpu_mhz` and the printed report are not modelled. The report's floating-point division into microseconds is left out; the model keeps cycles.
- The source of `device_list/server_rdma.cpp` is not part of this model.
- `getopt_long` and the text-to-number step of `strtol` are not modelled. Options arrive as an already tokenised sequence carrying the `long` each option's `strtol` returned.
- `main`'s setup exits 7 (no device), 8 (`pp_init_ctx` failed), 9 (`pp_open_port` failed) and 10 (`malloc` of tstamp failed) are not modelled, nor is the exit 1 when arming a CQ in event mode fails.
- Allocation failures (`memalign`, `malloc` in print_report) are not modelled.
- The queue-pair attributes of `pp_connect_ctx` other than the path MTU are not modelled: the RC/UC timers, the `ibv_modify_qp` masks and the UD address handle. `pp_connect_ctx` enters the handshake only through the code it returns.
- Driver.AwaitCode: the busy-poll `do … while (ne < 1)` is one answer per completion. The model assumes polling returns at last, which `Driver.BusyPollsReturn` states: a busy-polled answer is a completion, never `PollFailed`; AwaitCode itself still maps a `PollFailed` answer to 12 in either mode. In event mode a poll returning 0 completions leaves `wc` unset in C; the model gives that poll an answer too.
- Driver.Context.RunIter: the byte `*post_buf = (char)++scnt` written into the buffer is not modelled, because no code reads it back. The `use_event` and `use_mcg` counters are booleans, so their int overflow after 2^31 repeated options is not modelled.
- Options.RunSizes: each run_iter call and the report after it are the abstract `runIter` answer for a size; the per-size loop itself is modelled in Driver.
- Keys.ScanFields: `sscanf`'s `%x` and `strtol` are modelled on hex digits only. Leading white space, a sign and a `0x` prefix, which the C functions also accept, are not modelled; records written by pp_write_keys never contain them.
- Keys.ReadKeys: says nothing of the destination after a failed parse, where `sscanf` may already have stored the fields it matched.
- Keys.CString: `msg` in pp_read_keys is filled by `read()` and never terminated, so for a LID-layout message without a NUL `sscanf` reads past the buffer, which is undefined behaviour in C. The model does not follow it there: it rejects such a message with -1 (Malformed), as it does for the GID layout.
- Keys.ReadGidKeys: applies `strtol` to the fields after the whole record is split, where the C code converts each field as soon as it is copied. The stored values agree whenever the record is well formed. On a malformed record the C code has undefined behaviour (see Findings), so nothing partial is modelled.
- Report.SortCycles: `qsort`'s algorithm is not specified by C. The model sorts by insertion and proves only what any correct `qsort` gives: sorted and a permutation.

## Findings

| source | as written | input that shows it | evidently intended | confidence | as-written member | corrected member |
|---|---|---|---|---|---|---|
| perftest/send_lat.c:220-270 | the GID branch of pp_read_keys checks only the length of the read. It never checks that `strpbrk` found a `:` or that a field fits `char tmp[20]`, so a garbled record makes it use a NULL pointer or overflow `tmp`, and then it returns 0 | a 92-byte record of 91 `f` characters and a NUL: `strpbrk` returns NULL, yet the function returns 0 | return -1 for a record that does not split into 21 fields of at most 19 characters, as the LID branch does for an unparsable record | not executed | Keys.GarbledGidRecordAccepted | Keys.ReadGidKeys |
| perftest/send_lat.c:845-851 | for an even count, get_median adds the two middle `cycles_t` deltas before halving, and the sum wraps modulo 2^64 | two sorted deltas of 2^64 - 2 (stamps from a counter that went backwards give such wrapped deltas): the result is 2^63 - 2, below the minimum | the mean of the two middle deltas, between them | not executed | Report.MedianAsWrittenBelowMin | Report.Median |
