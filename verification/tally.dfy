/**
 * The tally state kept by the reply handler: the status table, its debounce
 * shadow, the active tally, and the eight relay levels it drives
 * (active-low: level 0 lights a lamp, level 1 turns it off).
 */
module Tally {

  import opened Wrappers
  import opened Scan
  import opened Codec

  /** One int per channel. */
  type Table = s: seq<int> | |s| == 8 witness [0, 0, 0, 0, 0, 0, 0, 0]

  /**
   * `TallyStatus`, `Prev_TallyStatus` and `TALLY`.  `tally` is -1 until some
   * channel has been seen active.
   */
  datatype TallyState = TallyState(status: Table, prev: Table, tally: int)

  /**
   * The start-up state.  The shadow table is brace-initialised with a single
   * -1, so only channel 0 holds the sentinel; channels 1..7 start at 0.
   */
  const Initial := TallyState([0, 0, 0, 0, 0, 0, 0, 0], [-1, 0, 0, 0, 0, 0, 0, 0], -1)

  /** The relay levels set up at start-up, before any reply: all lamps off. */
  const AllOff: seq<int> := [1, 1, 1, 1, 1, 1, 1, 1]

  /** Only the status value 1 counts as on air; any other byte is off. */
  predicate IsActive(v: int)
  {
    v == 1
  }

  predicate AnyActive(status: Table)
  {
    exists t :: 0 <= t < 8 && IsActive(status[t])
  }

  /** `t` is the highest channel whose status is active. */
  predicate IsHighestActive(status: Table, t: int)
  {
    0 <= t < 8 && IsActive(status[t]) && forall u :: t < u < 8 ==> !IsActive(status[u])
  }

  /**
   * The scan over channels 0..7 that sets `TALLY` to each active channel in
   * turn: the highest active channel, or the old tally when none is active.
   */
  function ActiveTally(status: Table, tally: int): (r: int)
    ensures AnyActive(status) ==> IsHighestActive(status, r)
    ensures !AnyActive(status) ==> r == tally
  {
    ScanLast(status, IsActive, 0, tally)
  }

  /** Relay `t` is written 0 exactly when `t` is the tally, 1 otherwise. */
  function RelayLevels(tally: int): (levels: seq<int>)
    ensures |levels| == 8
    ensures forall t :: 0 <= t < 8 ==> (levels[t] == 0 <==> t == tally)
    ensures forall t :: 0 <= t < 8 ==> levels[t] == 0 || levels[t] == 1
  {
    seq(8, t => if t == tally then 0 else 1)
  }

  /** At most one lamp is lit, and none while the tally is still -1. */
  lemma AtMostOneLampLit(tally: int, t: int, u: int)
    requires 0 <= t < 8 && 0 <= u < 8
    requires RelayLevels(tally)[t] == 0 && RelayLevels(tally)[u] == 0
    ensures t == u && tally == t
  {
  }

  /** The outcome of handling one message: the next state and, if any, the eight levels written to the relays. */
  datatype Step = Step(next: TallyState, drive: Option<seq<int>>)

  /**
   * The reads the chunk handler performs without bounds checks are in range:
   * byte 7 always, bytes 10 and 11 and the table slot `msg[10]` when byte 7
   * is DT1.  Outside this the handler's behaviour is undefined.
   */
  predicate ChunkDefined(msg: seq<Byte>)
  {
    |msg| > 7 && (msg[7] == DT1 ==> |msg| > 11 && msg[10] < 8)
  }

  /**
   * `ProcessSysexChunk`: a DT1 reply stores byte 11 as the status of channel
   * byte 10; only a value that differs from the shadow table recomputes the
   * tally and rewrites all eight relays.  Other commands are ignored, and the
   * reply's checksum is never looked at.
   */
  function ProcessSysexChunk(s: TallyState, msg: seq<Byte>): (st: Step)
    requires ChunkDefined(msg)
    ensures msg[7] != DT1 ==> st == Step(s, None)
    ensures msg[7] == DT1 ==> st.next.status == s.status[msg[10] := msg[11]]
    ensures msg[7] == DT1 && s.prev[msg[10]] == msg[11] ==>
              st.drive == None && st.next.prev == s.prev && st.next.tally == s.tally
    ensures msg[7] == DT1 && s.prev[msg[10]] != msg[11] ==>
              && st.next.prev == s.prev[msg[10] := msg[11]]
              && (AnyActive(st.next.status) ==> IsHighestActive(st.next.status, st.next.tally))
              && (!AnyActive(st.next.status) ==> st.next.tally == s.tally)
              && st.drive == Some(RelayLevels(st.next.tally))
  {
    if msg[7] != DT1 then Step(s, None)
    else
      var tn := msg[10];
      var status := s.status[tn := msg[11]];
      if s.prev[tn] != status[tn] then
        var tally := ActiveTally(status, s.tally);
        Step(TallyState(status, s.prev[tn := status[tn]], tally), Some(RelayLevels(tally)))
      else
        Step(s.(status := status), None)
  }

  /** The input callback's filter: more than one byte, ending in F7. */
  predicate IsSysexCandidate(msg: seq<Byte>)
  {
    |msg| > 1 && msg[|msg| - 1] == SysexEnd
  }

  /** A message the callback can be given without reaching undefined behaviour. */
  predicate Deliverable(msg: seq<Byte>)
  {
    IsSysexCandidate(msg) ==> ChunkDefined(msg)
  }

  /** `ProcessMidiInputCallback`: only SysEx candidates reach the chunk handler. */
  function OnMidiInput(s: TallyState, msg: seq<Byte>): (st: Step)
    requires Deliverable(msg)
    ensures !IsSysexCandidate(msg) ==> st == Step(s, None)
    ensures IsSysexCandidate(msg) ==> st == ProcessSysexChunk(s, msg)
  {
    if |msg| > 1 then
      if msg[|msg| - 1] == SysexEnd then ProcessSysexChunk(s, msg) else Step(s, None)
    else Step(s, None)
  }

  /** The handler reads only bytes 7, 10 and 11: two messages that agree there act alike. */
  lemma ReplyChecksumIgnored(s: TallyState, m1: seq<Byte>, m2: seq<Byte>)
    requires ChunkDefined(m1) && ChunkDefined(m2)
    requires m1[7] == m2[7]
    requires m1[7] == DT1 ==> m1[10] == m2[10] && m1[11] == m2[11]
    ensures ProcessSysexChunk(s, m1) == ProcessSysexChunk(s, m2)
  {
  }

  /** Delivering the same message twice in a row: the second delivery changes nothing and drives no relay. */
  lemma RepeatIsDebounced(s: TallyState, msg: seq<Byte>)
    requires Deliverable(msg)
    ensures OnMidiInput(OnMidiInput(s, msg).next, msg) == Step(OnMidiInput(s, msg).next, None)
  {
  }

  /** Handling a message leaves the lamps as they were or replaces them by the ones written. */
  function Lamps(lamps: seq<int>, st: Step): seq<int>
  {
    match st.drive
    case Some(levels) => levels
    case None => lamps
  }

  /** The callback applied to each message of `msgs` in order, with the relay levels last written. */
  function Run(s: TallyState, lamps: seq<int>, msgs: seq<seq<Byte>>): (TallyState, seq<int>)
    requires forall i :: 0 <= i < |msgs| ==> Deliverable(msgs[i])
    decreases |msgs|
  {
    if |msgs| == 0 then (s, lamps)
    else
      var st := OnMidiInput(s, msgs[0]);
      Run(st.next, Lamps(lamps, st), msgs[1..])
  }

  /**
   * What holds in every state the handler reaches from start-up:
   * - each shadow entry equals its status, except a channel-0-style sentinel
   *   -1 over a status still at 0;
   * - the tally is -1 or a channel, and is the highest active channel
   *   whenever one is active;
   * - the relays show exactly the tally's lamp.
   */
  ghost predicate Consistent(s: TallyState, lamps: seq<int>)
  {
    && (forall t :: 0 <= t < 8 ==> s.prev[t] == s.status[t] || (s.prev[t] == -1 && s.status[t] == 0))
    && -1 <= s.tally < 8
    && (AnyActive(s.status) ==> IsHighestActive(s.status, s.tally))
    && lamps == RelayLevels(s.tally)
  }

  lemma InitialConsistent()
    ensures Consistent(Initial, AllOff)
  {
  }

  /**
   * In a consistent state a message that drives no relay leaves the status
   * table as it was: the debounce can only skip a write when nothing changed.
   */
  lemma UndrivenStepKeepsStatus(s: TallyState, lamps: seq<int>, msg: seq<Byte>)
    requires Consistent(s, lamps) && Deliverable(msg)
    requires OnMidiInput(s, msg).drive == None
    ensures OnMidiInput(s, msg).next == s
  {
  }

  lemma StepKeepsConsistent(s: TallyState, lamps: seq<int>, msg: seq<Byte>)
    requires Consistent(s, lamps) && Deliverable(msg)
    ensures Consistent(OnMidiInput(s, msg).next, Lamps(lamps, OnMidiInput(s, msg)))
  {
  }

  lemma {:induction false} RunKeepsConsistent(s: TallyState, lamps: seq<int>, msgs: seq<seq<Byte>>)
    requires forall i :: 0 <= i < |msgs| ==> Deliverable(msgs[i])
    requires Consistent(s, lamps)
    ensures Consistent(Run(s, lamps, msgs).0, Run(s, lamps, msgs).1)
    decreases |msgs|
  {
    if |msgs| > 0 {
      var st := OnMidiInput(s, msgs[0]);
      StepKeepsConsistent(s, lamps, msgs[0]);
      RunKeepsConsistent(st.next, Lamps(lamps, st), msgs[1..]);
    }
  }

  /**
   * After any sequence of deliverable messages from start-up, the relays
   * never show a stale lamp: the lit lamp is the tally, at most one lamp is
   * lit, and when some channel is active exactly the highest active one is.
   */
  lemma LampsFollowTally(msgs: seq<seq<Byte>>)
    requires forall i :: 0 <= i < |msgs| ==> Deliverable(msgs[i])
    ensures Run(Initial, AllOff, msgs).1 == RelayLevels(Run(Initial, AllOff, msgs).0.tally)
    ensures AnyActive(Run(Initial, AllOff, msgs).0.status) ==>
              forall t :: 0 <= t < 8 ==> (Run(Initial, AllOff, msgs).1[t] == 0 <==> IsHighestActive(Run(Initial, AllOff, msgs).0.status, t))
  {
    InitialConsistent();
    RunKeepsConsistent(Initial, AllOff, msgs);
  }

  /**
   * A DT1 status reply from the switcher reporting status `v` for channel
   * `c`: the request's header with DT1 in place of RQ1, then c, v, a
   * checksum byte and F7.  The checksum byte is written as 0 because the
   * handler never reads it (`ReplyChecksumIgnored`).
   */
  function Reply(c: Channel, v: Byte): (msg: seq<Byte>)
    ensures Deliverable(msg)
    ensures |msg| == 14 && msg[7] == DT1 && msg[10] == c && msg[11] == v
  {
    RequestHeader[..7] + [DT1] + RequestHeader[8..] + [c as Byte, v, 0, SysexEnd]
  }

  /**
   * Replies (0,0), (1,0), (2,1), (1,1) from start-up: the first drives the
   * relays (channel 0 holds the sentinel), the second does not (channel 1's
   * shadow already holds 0), and with channels 1 and 2 both active the
   * higher one, 2, stays the tally.
   */
  lemma HighestActiveWins()
    ensures var (s, lamps) := Run(Initial, AllOff, [Reply(0, 0), Reply(1, 0), Reply(2, 1), Reply(1, 1)]);
            s.tally == 2 && lamps == [1, 1, 0, 1, 1, 1, 1, 1]
  {
    var msgs: seq<seq<Byte>> := [Reply(0, 0), Reply(1, 0), Reply(2, 1), Reply(1, 1)];
    var a := OnMidiInput(Initial, msgs[0]);
    assert !AnyActive(a.next.status);
    assert a.drive == Some(RelayLevels(-1));
    var b := OnMidiInput(a.next, msgs[1]);
    assert b.drive == None && b.next.tally == -1;
    var c := OnMidiInput(b.next, msgs[2]);
    assert c.next.status == [0, 0, 1, 0, 0, 0, 0, 0];
    assert IsHighestActive(c.next.status, 2);
    var d := OnMidiInput(c.next, msgs[3]);
    assert d.next.status == [0, 1, 1, 0, 0, 0, 0, 0];
    assert IsHighestActive(d.next.status, 2);
    assert d.drive == Some(RelayLevels(2));
    assert RelayLevels(2) == [1, 1, 0, 1, 1, 1, 1, 1];
    assert |msgs[1..][1..][1..][1..]| == 0;
    assert Run(Initial, AllOff, msgs) == Run(a.next, Lamps(AllOff, a), msgs[1..]);
    assert Run(a.next, Lamps(AllOff, a), msgs[1..]) == Run(b.next, Lamps(Lamps(AllOff, a), b), msgs[1..][1..]);
  }

  /**
   * The tally is never reset: after (2,1) then (2,0) no channel is active,
   * yet the tally stays 2 and relay 2 keeps its lamp lit.
   */
  lemma TallyNotResetWhenNoneActive()
    ensures var (s, lamps) := Run(Initial, AllOff, [Reply(2, 1), Reply(2, 0)]);
            !AnyActive(s.status) && s.tally == 2 && lamps[2] == 0
  {
  }
}
