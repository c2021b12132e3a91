# Roland V-8HD tally monitor — Dafny model

This project models the core of a small tally-light daemon for the Roland
V-8HD video switcher. The daemon polls the switcher over MIDI System Exclusive
(SysEx) for the tally status of each of its eight channels. It decodes the
switcher's replies and drives eight relays. Each relay lights the lamp of one
channel, and the relays are active-low: level 0 lights the lamp.

All of it is modelled as pure functions over immutable values:

- `Codec` (`codec.dfy`) is the outbound side. It holds the Roland checksum and
  the 16-byte RQ1 ("request data") frame
  `F0 41 10 00 00 00 68 11 0C 00 <c> 00 00 08 <ck> F7`. It also holds a
  decoder that reads a frame the way the switcher would. The decoder is the
  partner the request encoder is proved against.
- `Tally` (`tally.dfy`) is the reply side. It holds the callback's filter
  ("longer than one byte, ends in F7"), the chunk handler and `Run`, which
  folds the callback over a sequence of messages. The chunk handler ignores
  anything but DT1 (`0x12`) frames and stores byte 11 as the status of channel
  byte 10. It debounces against the shadow table, and on a real change it
  recomputes `TALLY` and writes all eight relays. The handler returns the relay
  levels it writes as a value instead of performing GPIO writes.
- `Poller` (`poller.dfy`) holds one tick of the polling thread. A tick either
  skips, asks for the ports to be reopened, or sends the request for the cursor
  channel and advances the cursor from 7 back to 0. `PollLoop` runs one tick
  per snapshot of the enumerated port names. `OpenMidiPorts` is a single port
  scan.
- `Link` (`link.dfy`) holds the case-sensitive substring test for the token
  "V-8HD", port selection (the last matching port wins) and the output health
  check.
- `Scan` (`scan.dfy`) is the "last one found wins" loop. Both the tally scan
  and the port scan use it.
- `Wrappers` (`wrappers.dfy`) holds `Option`.

The following behaviours of the code are kept as written:

- The shadow table `Prev_TallyStatus` is brace-initialised with a single `-1`.
  Only channel 0 holds the sentinel, and channels 1..7 start at 0. So a first
  report of status 0 on channels 1..7 writes no relays.
  `Tally.StepKeepsConsistent` shows that this never leaves a lamp stale.
- `TALLY` starts at -1 and is never reset. When the last active channel goes
  to 0, the old tally and its lamp stay on (`Tally.TallyNotResetWhenNoneActive`).
- The handler has no bounds checks. The bytes it reads must exist, and byte 10
  must be below 8. This is the precondition `Tally.ChunkDefined`, and a
  message that breaks it is undefined behaviour in the code.
- Inbound checksums are never verified (`Tally.ReplyChecksumIgnored`).
- Any byte value can be stored as a status. Only the value 1 counts as active.
- When either port number is -1, the poller only skips. It never reopens the
  ports itself (`Poller.UnknownPortsStall`).

Two more facts about the code:

- Port selection keeps the *last* matching port, not the first.
- With channels 1 and 2 both active, the scan over 0..7 leaves tally 2, the
  higher one. The replies (0,0), (1,0), (2,1), (1,1) therefore end at tally 2
  (`Tally.HighestActiveWins`).

Taken alone, the checksum function can return 128 (0x80). That happens when
bytes 8..13 already sum to a multiple of 128, and 0x80 is not a 7-bit data
byte. For the requests the poller builds, those bytes sum to 20 + c, so the
checksum is 108 − c. Every request is therefore a well-formed SysEx message
(`Codec.PollRequestWellFormed`).

## Model

| member | source | states |
|---|---|---|
| Scan.ScanLast | main.cpp:171-173 | the forward "overwrite on every hit" loop yields the highest index whose element satisfies the test, or its initial value when none does |
| Codec.RolandChecksum | main.cpp:95-100 | the checksum lies in 1..128, brings the sum of bytes 8..13 plus itself to a multiple of 128, and is 128 exactly when that sum already is a multiple of 128 |
| Codec.ChecksumUnique | main.cpp:95-100 | no other value in 1..128 closes the checksum |
| Codec.PollRequest | main.cpp:115-133 | the request for channel c has 16 bytes: header F0 41 10 00 00 00 68 11 0C 00, then c, then 00 00 08, then checksum 108 − c, then F7 |
| Codec.SumOfRequestBody | main.cpp:126-131 | the checksummed bytes 0C 00 c 00 00 08 sum to 20 + c |
| Codec.PollRequestWellFormed | main.cpp:117-133 | every request is a SysEx message with 7-bit data bytes whose checksum closes bytes 8..14 to a multiple of 128 |
| Codec.PollRequestRoundTrip | main.cpp:117-133 | the switcher-side decoder reads the request for c back as c |
| Codec.DecodedRequestIsPollRequest | main.cpp:117-133 | any frame the decoder accepts is exactly the request for the channel it decodes, so the request format is unambiguous |
| Link.Contains | main.cpp:140 | `find != npos`: true iff the pattern occurs at some position of the name |
| Link.SelectPort | main.cpp:212-218 | the chosen port is the last one whose name contains "V-8HD", or -1 iff no name does |
| Link.HealthLoop | main.cpp:138-141 | the flag loop over port names ends true iff it started true or some name from the start index on contains "V-8HD" |
| Link.OutputHealthy | main.cpp:138-141 | the output health check is true iff some enumerated output name contains "V-8HD" |
| Link.HealthAgreesWithSelection | main.cpp:138-141 | the output health check succeeds iff port selection over the same names finds a port |
| Poller.OpenMidiPorts | main.cpp:210-218 | each port number is chosen on its own: -1 iff no name in its list contains the token, otherwise the last index whose name matches; both are known iff the token is present in both lists |
| Tally.ActiveTally | main.cpp:171-173 | the recomputed tally is the highest channel with status 1, or the previous tally when no channel has status 1 |
| Tally.RelayLevels | main.cpp:178-179 | the eight relays are written, each with level 0 iff it is the tally's relay and 1 otherwise |
| Tally.AtMostOneLampLit | main.cpp:178-179 | at most one relay is at level 0, and none while the tally is -1 |
| Tally.ProcessSysexChunk | main.cpp:158-182 | a non-DT1 frame changes nothing and writes no relay; a DT1 frame stores byte 11 as channel byte 10's status and changes no other status; when the shadow already holds that value, shadow and tally are kept and no relay is written; otherwise the shadow is updated, the tally becomes the highest active channel (kept if none), and all relays are driven from it |
| Tally.OnMidiInput | main.cpp:184-198 | messages of one byte or less, or not ending in F7, change nothing; all others go to the chunk handler |
| Tally.ReplyChecksumIgnored | main.cpp:162-165 | the handler's outcome depends only on bytes 7, 10 and 11: the inbound checksum is never checked |
| Tally.RepeatIsDebounced | main.cpp:164-169 | delivering the same message twice in a row: the second delivery leaves the state unchanged and writes no relay, so outputs are driven at most once |
| Tally.InitialConsistent | main.cpp:84-86 | the start-up tables, with only channel 0's shadow at -1, and the all-off relays satisfy the consistency invariant |
| Tally.UndrivenStepKeepsStatus | main.cpp:164-169 | in a consistent state, a message that writes no relay leaves the whole state unchanged, so the debounce never hides a status change |
| Tally.StepKeepsConsistent | main.cpp:158-198 | one callback keeps the invariant: shadow equals status except an untouched sentinel, the tally is the highest active channel when any is active, and the relays show the tally |
| Tally.RunKeepsConsistent | main.cpp:158-198 | any sequence of callbacks keeps the invariant |
| Tally.LampsFollowTally | main.cpp:167-180 | after any message sequence from start-up the relays show exactly the tally's lamp, and when some channel is active the lit lamp is the highest active channel's |
| Tally.HighestActiveWins | main.cpp:171-173 | replies (0,0), (1,0), (2,1), (1,1) from start-up leave tally 2 with only relay 2 lit |
| Tally.TallyNotResetWhenNoneActive | main.cpp:171-173 | replies (2,1), (2,0) leave no channel active, but tally 2 and relay 2 stay lit |
| Poller.PollTick | main.cpp:111-154 | unknown ports skip and keep the cursor; a missing output port requests a reopen, sends nothing and keeps the cursor; otherwise the cursor's request is sent and the cursor advances modulo 8 |
| Poller.TickStep | main.cpp:111-154 | a tick sends iff the ports are known and the output port is present; what it sends is the cursor's request and the cursor then advances by one modulo 8; unknown ports leave the whole state unchanged; a missing output port keeps the cursor and replaces the ports by one rescan |
| Poller.PollLoop | main.cpp:106-155 | the loop sends at most one frame per tick, and nothing at all while a port number is -1 |
| Poller.TickSendAdvances | main.cpp:150-154 | a tick that sends, sends the cursor's request and advances the cursor by one modulo 8 |
| Poller.TickQuietKeepsCursor | main.cpp:111-147 | a tick that sends nothing leaves the cursor alone |
| Poller.RequestsFromAt | main.cpp:152-154 | the k-th of n consecutive requests from channel c asks for channel (c + k) mod 8 |
| Poller.RoundRobin | main.cpp:106-155 | over any run of ticks, with skips and reopens anywhere, the frames sent are consecutive requests from the starting cursor, and the cursor ends just after the last one |
| Poller.RoundRobinAt | main.cpp:106-155 | the k-th frame sent by the loop asks for channel cursor + k (mod 8) |
| Poller.HealthyTicksAllSend | main.cpp:111-154 | with known ports and the switcher present on every tick, every tick sends and the ports stay unchanged |
| Poller.EightHealthyTicksCoverAllChannels | main.cpp:111-154 | eight healthy ticks from cursor 0 send the requests for channels 0, 1, …, 7 in that order and return the cursor to 0 |
| Poller.UnknownPortsStall | main.cpp:111-112 | once a port number is -1, the loop never sends and never changes its state |
| Poller.MissingOutputReopens | main.cpp:143-147 | a tick without the switcher's output port sends nothing, keeps the cursor, rescans the ports once and leaves them unknown |

## Left out

- RtMidi port objects are not modelled: opening, closing, `delete`/`new`, `ignoreTypes`, callback and error-callback registration, and `sendMessage`. These are calls into the MIDI library. Port lists are taken as sequences of names, and a send is an `Action` value (main.cpp:205-210, 235-253, 150).
- Poller.MissingOutputReopens: the rescan after a failed health check sees the same port list as the failed check, so it always leaves the output port unknown; the model does not promise that polling resumes.
- Poller.PollLoop: after one tick without the switcher's output port, the modelled loop never sends again (`Poller.UnknownPortsStall`). This is the WIN32 build's behaviour. The Linux build, whose relay writes `Tally` models, blocks inside `OpenMidiPorts` until both ports are found again and then resumes polling from the same cursor; that blocking retry is not modelled.
- The recursive retry in `OpenMidiPorts` is not modelled. On Linux it sleeps one second and rescans until both ports are found, which is unbounded recursion around I/O. `Poller.OpenMidiPorts` models a single scan, which is also what the WIN32 path does (main.cpp:222-232).
- The polling thread is not modelled: the `Running` atomic flag, the 50 ms tick sleep, and the races between the thread and the input callback. A run of the loop is a sequence of ticks, and a run of the callback is a sequence of messages (main.cpp:104-109, 286, 302-304).
- wiringPi `pinMode`/`digitalWrite` are left out. The relay write is returned as the eight levels; relay t is wiringPi pin t. The WIN32 `printf` of the tally is also left out (main.cpp:63-71, 175-180).
- `main` is left out: daemon `fork`, argument handling, the console wait and teardown. Its start-up write of level 1 to every relay is kept only as the initial relay state `Tally.AllOff` (main.cpp:256-314).
- `LogSysex` and other diagnostic printing are left out (main.cpp:88-93, 200-203).
- Tally.ProcessSysexChunk: a message whose byte 7, 10 or 11 does not exist, or whose byte 10 is 8 or more, is excluded by precondition. In the code such a message reads or writes out of bounds, which is undefined behaviour, so there is no defined result to model.
