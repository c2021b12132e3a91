/**
 * The SysEx dialect spoken with the Roland V-8HD switcher: byte values, the
 * Roland checksum, and the 16-byte RQ1 ("request data") frame that asks the
 * switcher for the tally status of one channel.
 */
module Codec {

  import opened Wrappers

  /** An `unsigned char` of a MIDI message. */
  type Byte = b: int | 0 <= b < 256

  /** A switcher channel (tally slot), the index of one of the eight relays. */
  type Channel = c: int | 0 <= c < 8

  const SysexStart: Byte := 0xF0
  const SysexEnd: Byte := 0xF7
  /** Roland command "request data 1". */
  const RQ1: Byte := 0x11
  /** Roland command "data set 1", the command of a status reply. */
  const DT1: Byte := 0x12

  /** Bytes 0..9 of a poll request: start, Roland id 41, device id 10, model id 00 00 00 68, RQ1, address 0C 00. */
  const RequestHeader: seq<Byte> := [0xF0, 0x41, 0x10, 0x00, 0x00, 0x00, 0x68, RQ1, 0x0C, 0x00]
  /** Bytes 11..13 of a poll request: the requested size, 00 00 08. */
  const RequestSize: seq<Byte> := [0x00, 0x00, 0x08]

  function Sum(s: seq<Byte>): nat
  {
    if |s| == 0 then 0 else Sum(s[..|s| - 1]) + s[|s| - 1]
  }

  /**
   * The Roland checksum of a frame under construction: 128 minus the sum of
   * bytes 8..13 modulo 128.  It is the value in 1..128 that brings the sum of
   * the checksummed bytes to a multiple of 128; it is 128 (0x80, not a 7-bit
   * data byte) exactly when that sum already is a multiple of 128.
   */
  function RolandChecksum(frame: seq<Byte>): (ck: Byte)
    requires |frame| >= 14
    ensures 1 <= ck <= 128
    ensures (Sum(frame[8..14]) + ck) % 128 == 0
    ensures ck == 128 <==> Sum(frame[8..14]) % 128 == 0
  {
    128 - Sum(frame[8..14]) % 128
  }

  /** No other value in 1..128 closes the checksum. */
  lemma ChecksumUnique(frame: seq<Byte>, k: int)
    requires |frame| >= 14
    requires 1 <= k <= 128 && (Sum(frame[8..14]) + k) % 128 == 0
    ensures k == RolandChecksum(frame)
  {
  }

  /** A SysEx message: F0, then 7-bit data bytes, then F7. */
  predicate IsSysex(f: seq<Byte>)
  {
    && |f| >= 2
    && f[0] == SysexStart
    && f[|f| - 1] == SysexEnd
    && forall i :: 0 < i < |f| - 1 ==> f[i] < 0x80
  }

  /**
   * The request the poller sends for channel `c`:
   * F0 41 10 00 00 00 68 11 0C 00 c 00 00 08 ck F7, where the checksum is
   * taken over the first fourteen bytes before it is appended.
   */
  function PollRequest(c: Channel): (f: seq<Byte>)
    ensures |f| == 16
    ensures f[..10] == RequestHeader && f[10] == c && f[11..14] == RequestSize
    ensures f[14] == 108 - c && f[15] == SysexEnd
  {
    var head := RequestHeader + [c as Byte] + RequestSize;
    SumOfRequestBody(head);
    head + [RolandChecksum(head), SysexEnd]
  }

  /**
   * A poll request is a well-formed SysEx message (every byte between F0 and
   * F7 is a 7-bit data byte) whose checksum closes bytes 8..14 to a multiple
   * of 128.
   */
  lemma PollRequestWellFormed(c: Channel)
    ensures IsSysex(PollRequest(c))
    ensures Sum(PollRequest(c)[8..15]) % 128 == 0
  {
    var f := PollRequest(c);
    SumOfRequestBody(f[..14]);
    assert f[..14][8..14] == f[8..14] == f[8..15][..6];
    forall i | 0 < i < 15
      ensures f[i] < 0x80
    {
      if i < 10 {
        assert f[i] == f[..10][i];
      } else if 11 <= i < 14 {
        assert f[i] == f[11..14][i - 11];
      }
    }
  }

  /** Bytes 8..13 of a request head are 0C 00 c 00 00 08, so they sum to 20 + c. */
  lemma SumOfRequestBody(head: seq<Byte>)
    requires |head| == 14 && head[8..10] == [0x0C, 0x00] && head[10] < 8 && head[11..14] == RequestSize
    ensures Sum(head[8..14]) == 20 + head[10]
  {
    var b := head[8..14];
    assert b[0] == head[8..10][0] && b[1] == head[8..10][1];
    assert b[3] == head[11..14][0] && b[4] == head[11..14][1] && b[5] == head[11..14][2];
    assert b == [0x0C, 0x00, head[10], 0x00, 0x00, 0x08];
    assert Sum(b[..1]) == 0x0C by { assert b[..1][..0] == []; }
    assert Sum(b[..2]) == 0x0C by { assert b[..2][..1] == b[..1]; }
    assert Sum(b[..3]) == 0x0C + head[10] by { assert b[..3][..2] == b[..2]; }
    assert Sum(b[..4]) == 0x0C + head[10] by { assert b[..4][..3] == b[..3]; }
    assert Sum(b[..5]) == 0x0C + head[10] by { assert b[..5][..4] == b[..4]; }
    assert b[..6] == b;
  }

  /**
   * How the switcher reads a poll request: a well-formed SysEx message of
   * sixteen bytes with the RQ1 header, a channel in 0..7, the size 00 00 08
   * and a checksum that closes bytes 8..14 to a multiple of 128.
   */
  function DecodePollRequest(f: seq<Byte>): Option<Channel>
  {
    if && |f| == 16
       && IsSysex(f)
       && f[..10] == RequestHeader
       && f[10] < 8
       && f[11..14] == RequestSize
       && Sum(f[8..15]) % 128 == 0
    then Some(f[10])
    else None
  }

  /** Every request the poller builds is read back as the channel it asks for. */
  lemma PollRequestRoundTrip(c: Channel)
    ensures DecodePollRequest(PollRequest(c)) == Some(c)
  {
    PollRequestWellFormed(c);
  }

  /** A frame the switcher accepts as a request is exactly the poller's request for that channel. */
  lemma DecodedRequestIsPollRequest(f: seq<Byte>)
    requires DecodePollRequest(f).Some?
    ensures f == PollRequest(DecodePollRequest(f).value)
  {
    var c := f[10];
    var g := PollRequest(c);
    assert f[..14][8..10] == f[..10][8..10] == [0x0C, 0x00];
    assert f[..14][11..14] == f[11..14];
    SumOfRequestBody(f[..14]);
    assert f[..14][8..14] == f[8..14];
    assert f[8..15][..6] == f[8..14];
    assert Sum(f[8..15]) == 20 + c + f[14];
    assert f[14] == 108 - c;
    assert f[..10] == g[..10] && f[11..14] == g[11..14];
    forall i | 0 <= i < 16
      ensures f[i] == g[i]
    {
      if i < 10 {
        assert f[i] == f[..10][i] && g[i] == g[..10][i];
      } else if 11 <= i < 14 {
        assert f[i] == f[11..14][i - 11] && g[i] == g[11..14][i - 11];
      }
    }
  }
}
