/**
 * The polling thread: once per 50 ms tick it either skips (ports unknown),
 * asks for the ports to be reopened (the switcher's output port has
 * vanished), or sends the request for the channel under the cursor and moves
 * the cursor round-robin.
 */
module Poller {

  import opened Wrappers
  import opened Codec
  import opened Link

  /** `MidiInPortNum` and `MidiOutPortNum`; -1 means "no switcher port found". */
  datatype Ports = Ports(input: int, output: int)

  predicate Known(ports: Ports)
  {
    ports.input >= 0 && ports.output >= 0
  }

  /**
   * One scan of `OpenMidiPorts`: each port number is chosen on its own, as
   * the last input (output) port whose name contains the device token, or -1
   * when no input (output) name does.
   */
  function OpenMidiPorts(inNames: seq<string>, outNames: seq<string>): (ports: Ports)
    ensures Known(ports) <==> DevicePresent(inNames) && DevicePresent(outNames)
    ensures -1 <= ports.input < |inNames| && -1 <= ports.output < |outNames|
    ensures ports.input == -1 <==> !DevicePresent(inNames)
    ensures ports.output == -1 <==> !DevicePresent(outNames)
    ensures ports.input >= 0 ==>
              NameMatches(inNames[ports.input]) && forall q :: ports.input < q < |inNames| ==> !NameMatches(inNames[q])
    ensures ports.output >= 0 ==>
              NameMatches(outNames[ports.output]) && forall q :: ports.output < q < |outNames| ==> !NameMatches(outNames[q])
  {
    HealthAgreesWithSelection(inNames);
    HealthAgreesWithSelection(outNames);
    Ports(SelectPort(inNames), SelectPort(outNames))
  }

  datatype Action = Skip | Reopen | Send(frame: seq<Byte>)

  /** What one tick does and where it leaves the cursor (`TallyNumber`). */
  datatype Tick = Tick(action: Action, cursor: Channel)

  /** The body of the polling loop after its sleep, given the output port names enumerated this tick. */
  function PollTick(cursor: Channel, ports: Ports, outNames: seq<string>): (t: Tick)
    ensures !Known(ports) ==> t == Tick(Skip, cursor)
    ensures Known(ports) && !DevicePresent(outNames) ==> t == Tick(Reopen, cursor)
    ensures Known(ports) && DevicePresent(outNames) ==>
              && t.action == Send(PollRequest(cursor))
              && t.cursor == (cursor + 1) % 8
  {
    if ports.input < 0 || ports.output < 0 then Tick(Skip, cursor)
    else
      var syx := PollRequest(cursor);
      if !OutputHealthy(outNames) then Tick(Reopen, cursor)
      else
        Tick(Send(syx), if cursor + 1 > 7 then 0 else cursor + 1)
  }

  /** The port names the MIDI library enumerates during one tick. */
  datatype Env = Env(inNames: seq<string>, outNames: seq<string>)

  datatype PollerState = PollerState(cursor: Channel, ports: Ports)

  /**
   * One tick, with a reopen rescanning the ports: a frame is sent exactly
   * when the ports are known and the switcher's output port is present; it
   * is the cursor's request and the cursor moves on by one.  Otherwise the
   * cursor stays, and only a reopen changes the port numbers.
   */
  function TickStep(p: PollerState, env: Env): (r: (PollerState, Option<seq<Byte>>))
    ensures r.1.Some? <==> Known(p.ports) && DevicePresent(env.outNames)
    ensures r.1.Some? ==> r.1.value == PollRequest(p.cursor) && r.0 == PollerState((p.cursor + 1) % 8, p.ports)
    ensures !Known(p.ports) ==> r == (p, None)
    ensures Known(p.ports) && !DevicePresent(env.outNames) ==>
              r == (PollerState(p.cursor, OpenMidiPorts(env.inNames, env.outNames)), None)
  {
    var t := PollTick(p.cursor, p.ports, env.outNames);
    match t.action
    case Skip => (p, None)
    case Reopen => (PollerState(p.cursor, OpenMidiPorts(env.inNames, env.outNames)), None)
    case Send(frame) => (PollerState(t.cursor, p.ports), Some(frame))
  }

  /** The polling loop over one tick per environment; returns the final state and the frames sent, in order. */
  function PollLoop(p: PollerState, envs: seq<Env>): (r: (PollerState, seq<seq<Byte>>))
    ensures |r.1| <= |envs|
    ensures !Known(p.ports) ==> r.1 == []
    decreases |envs|
  {
    if |envs| == 0 then (p, [])
    else
      var step := TickStep(p, envs[0]);
      var tail := PollLoop(step.0, envs[1..]);
      (tail.0, Emitted(step.1) + tail.1)
  }

  function Emitted(sent: Option<seq<Byte>>): seq<seq<Byte>>
  {
    match sent
    case Some(f) => [f]
    case None => []
  }

  /** The requests for `n` consecutive channels starting at `c`, wrapping 7 to 0. */
  function RequestsFrom(c: Channel, n: nat): seq<seq<Byte>>
    decreases n
  {
    if n == 0 then [] else [PollRequest(c)] + RequestsFrom((c + 1) % 8, n - 1)
  }

  lemma {:induction false} RequestsFromAt(c: Channel, n: nat)
    ensures |RequestsFrom(c, n)| == n
    ensures forall k :: 0 <= k < n ==> RequestsFrom(c, n)[k] == PollRequest((c + k) % 8)
    decreases n
  {
    if n > 0 {
      RequestsFromAt((c + 1) % 8, n - 1);
      forall k | 0 < k < n
        ensures RequestsFrom(c, n)[k] == PollRequest((c + k) % 8)
      {
        NextPosition(c, k);
      }
    }
  }

  /**
   * Skips and reopens never disturb the rotation: whatever the port lists do,
   * the frames sent are the requests for consecutive channels starting at the
   * cursor, and the cursor ends just after the last one.
   */
  lemma {:induction false} RoundRobin(p: PollerState, envs: seq<Env>)
    ensures PollLoop(p, envs).0.cursor == (p.cursor + |PollLoop(p, envs).1|) % 8
    ensures PollLoop(p, envs).1 == RequestsFrom(p.cursor, |PollLoop(p, envs).1|)
    decreases |envs|
  {
    if |envs| > 0 {
      var step := TickStep(p, envs[0]);
      var q := step.0;
      RoundRobin(q, envs[1..]);
      var rest := PollLoop(q, envs[1..]).1;
      if step.1.Some? {
        TickSendAdvances(p, envs[0]);
        NextPosition(p.cursor, |rest| + 1);
        assert Emitted(step.1) == [PollRequest(p.cursor)];
      } else {
        TickQuietKeepsCursor(p, envs[0]);
        assert Emitted(step.1) + rest == rest;
      }
    }
  }

  /** The k-th frame the loop sends asks for channel cursor + k (mod 8). */
  lemma RoundRobinAt(p: PollerState, envs: seq<Env>)
    ensures PollLoop(p, envs).0.cursor == (p.cursor + |PollLoop(p, envs).1|) % 8
    ensures forall k :: 0 <= k < |PollLoop(p, envs).1| ==> PollLoop(p, envs).1[k] == PollRequest((p.cursor + k) % 8)
  {
    RoundRobin(p, envs);
    RequestsFromAt(p.cursor, |PollLoop(p, envs).1|);
  }

  lemma NextPosition(c: Channel, k: int)
    requires k > 0
    ensures ((c + 1) % 8 + (k - 1)) % 8 == (c + k) % 8
  {
  }

  lemma TickSendAdvances(p: PollerState, env: Env)
    requires TickStep(p, env).1.Some?
    ensures TickStep(p, env).1.value == PollRequest(p.cursor)
    ensures TickStep(p, env).0.cursor == (p.cursor + 1) % 8
  {
  }

  lemma TickQuietKeepsCursor(p: PollerState, env: Env)
    requires TickStep(p, env).1.None?
    ensures TickStep(p, env).0.cursor == p.cursor
  {
  }

  /** With the ports known and the switcher present on every tick, every tick sends and the ports stay put. */
  lemma {:induction false} HealthyTicksAllSend(p: PollerState, envs: seq<Env>)
    requires Known(p.ports)
    requires forall i :: 0 <= i < |envs| ==> DevicePresent(envs[i].outNames)
    ensures |PollLoop(p, envs).1| == |envs| && PollLoop(p, envs).0.ports == p.ports
    decreases |envs|
  {
    if |envs| > 0 {
      var (q, s0) := TickStep(p, envs[0]);
      assert s0.Some? && q.ports == p.ports;
      HealthyTicksAllSend(q, envs[1..]);
    }
  }

  /** Eight healthy ticks from cursor 0 ask for channels 0, 1, ..., 7 in order and bring the cursor back to 0. */
  lemma EightHealthyTicksCoverAllChannels(p: PollerState, envs: seq<Env>)
    requires p.cursor == 0 && Known(p.ports) && |envs| == 8
    requires forall i :: 0 <= i < 8 ==> DevicePresent(envs[i].outNames)
    ensures PollLoop(p, envs).0 == p
    ensures |PollLoop(p, envs).1| == 8
    ensures forall k :: 0 <= k < 8 ==> PollLoop(p, envs).1[k] == PollRequest(k)
  {
    HealthyTicksAllSend(p, envs);
    RoundRobinAt(p, envs);
    var sent := PollLoop(p, envs).1;
    forall k | 0 <= k < 8
      ensures sent[k] == PollRequest(k)
    {
      assert sent[k] == PollRequest((p.cursor + k) % 8);
      assert (p.cursor + k) % 8 == k;
    }
  }

  /**
   * Once a port number is unknown the loop only skips: it never reopens the
   * ports by itself and never sends again.
   */
  lemma {:induction false} UnknownPortsStall(p: PollerState, envs: seq<Env>)
    requires !Known(p.ports)
    ensures PollLoop(p, envs) == (p, [])
    decreases |envs|
  {
    if |envs| > 0 {
      assert TickStep(p, envs[0]) == (p, None);
      UnknownPortsStall(p, envs[1..]);
      assert Emitted(None) + PollLoop(p, envs[1..]).1 == [];
    }
  }

  /**
   * A tick on which the switcher's output port is missing sends nothing,
   * keeps the cursor and rescans the ports exactly once, taking whatever that
   * scan finds.
   */
  lemma MissingOutputReopens(p: PollerState, env: Env)
    requires Known(p.ports) && !DevicePresent(env.outNames)
    ensures TickStep(p, env) == (PollerState(p.cursor, OpenMidiPorts(env.inNames, env.outNames)), None)
    ensures !Known(TickStep(p, env).0.ports)
  {
  }
}
