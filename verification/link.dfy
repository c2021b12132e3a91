/**
 * Finding the switcher among the enumerated MIDI ports.  A port belongs to
 * the switcher when its name contains the token "V-8HD" (a case-sensitive
 * `std::string::find`).  Enumerating and opening ports is left to the MIDI
 * library; here a port list is just the sequence of its names.
 */
module Link {

  import opened Scan

  const DeviceToken: string := "V-8HD"

  /** `p` occurs in `s` starting at position `i`. */
  predicate OccursAt(s: string, p: string, i: int)
  {
    0 <= i && i + |p| <= |s| && s[i..i + |p|] == p
  }

  /** `s.find(p) != npos`, computed by trying each start position in turn. */
  function Contains(s: string, p: string): (r: bool)
    ensures r <==> exists i :: OccursAt(s, p, i)
    decreases |s|
  {
    if |s| < |p| then false
    else if s[..|p|] == p then
      assert OccursAt(s, p, 0);
      true
    else
      ShiftOccurrence(s, p);
      Contains(s[1..], p)
  }

  /** Dropping the first character shifts every occurrence but the one at 0 down by one. */
  lemma ShiftOccurrence(s: string, p: string)
    requires |s| >= 1
    requires !OccursAt(s, p, 0)
    ensures (exists i :: OccursAt(s, p, i)) <==> (exists i :: OccursAt(s[1..], p, i))
  {
    forall i | OccursAt(s, p, i)
      ensures OccursAt(s[1..], p, i - 1)
    {
      assert s[1..][i - 1..i - 1 + |p|] == s[i..i + |p|];
    }
    forall i | OccursAt(s[1..], p, i)
      ensures OccursAt(s, p, i + 1)
    {
      assert s[1..][i..i + |p|] == s[i + 1..i + 1 + |p|];
    }
  }

  predicate NameMatches(name: string)
  {
    Contains(name, DeviceToken)
  }

  /**
   * The port-number loop of `OpenMidiPorts`: starting from -1, every port
   * whose name matches overwrites the choice, so the LAST matching port wins.
   */
  function SelectPort(names: seq<string>): (p: int)
    ensures -1 <= p < |names|
    ensures p >= 0 ==> NameMatches(names[p]) && forall q :: p < q < |names| ==> !NameMatches(names[q])
    ensures p == -1 <==> forall q :: 0 <= q < |names| ==> !NameMatches(names[q])
  {
    ScanLast(names, NameMatches, 0, -1)
  }

  /** Some enumerated port name contains the device token. */
  predicate DevicePresent(names: seq<string>)
  {
    exists p :: 0 <= p < |names| && NameMatches(names[p])
  }

  /**
   * The output health check loop: a flag that starts false and is set by
   * every port, from `i` on, whose name matches.
   */
  function HealthLoop(names: seq<string>, i: nat, ok: bool): (r: bool)
    requires i <= |names|
    ensures r <==> ok || exists p :: i <= p < |names| && NameMatches(names[p])
    decreases |names| - i
  {
    if i == |names| then ok
    else HealthLoop(names, i + 1, if NameMatches(names[i]) then true else ok)
  }

  /** The poller's check that the switcher's output port is still enumerated. */
  function OutputHealthy(names: seq<string>): (ok: bool)
    ensures ok <==> DevicePresent(names)
  {
    HealthLoop(names, 0, false)
  }

  /** The health check succeeds exactly when port selection would find a port. */
  lemma HealthAgreesWithSelection(names: seq<string>)
    ensures DevicePresent(names) <==> SelectPort(names) >= 0
  {
  }
}
