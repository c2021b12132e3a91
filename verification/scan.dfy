/**
 * The "last one found wins" scan that the tally monitor uses twice: once to
 * pick the active tally among the eight channels, once to pick a MIDI port
 * among the enumerated port names.  Both are a forward loop
 *
 *     for (j = i; j < n; ++j) if (f(xs[j])) acc = j;
 *
 * which this module writes as a tail-recursive fold.
 */
module Scan {

  /** Some position at or after `i` satisfies `f`. */
  predicate AnyFrom<T>(xs: seq<T>, f: T -> bool, i: nat)
  {
    exists j :: i <= j < |xs| && f(xs[j])
  }

  /** `r` is the highest position at or after `i` whose element satisfies `f`. */
  predicate IsLastFrom<T>(xs: seq<T>, f: T -> bool, i: nat, r: int)
  {
    && i <= r < |xs|
    && f(xs[r])
    && forall j :: r < j < |xs| ==> !f(xs[j])
  }

  /**
   * The forward loop over `xs[i..]`: every hit overwrites the accumulator, so
   * the result is the last hit, or the accumulator's initial value `acc` when
   * there is none.
   */
  function ScanLast<T>(xs: seq<T>, f: T -> bool, i: nat, acc: int): (r: int)
    requires i <= |xs|
    ensures AnyFrom(xs, f, i) ==> IsLastFrom(xs, f, i, r)
    ensures !AnyFrom(xs, f, i) ==> r == acc
    decreases |xs| - i
  {
    if i == |xs| then acc
    else ScanLast(xs, f, i + 1, if f(xs[i]) then i else acc)
  }
}
