/** `getFreePort`: draw a random port in the unprivileged range until one can be
    bound.  `Math.random()` is a draw in [0, 1), modelled as an exact fraction, and
    the bind attempts are given as their outcomes. */
module FreePort {
  import opened JavaLang

  const LowestPort := 1024
  const HighestPort := 65535

  /** The width of the range the draw is scaled to: `65535 - 1024`. */
  const PortSpan := HighestPort - LowestPort

  /** A value of `Math.random()`, as the fraction `num / den`. */
  datatype Fraction = Fraction(num: nat, den: nat)

  predicate IsUnitDraw(r: Fraction) {
    0 < r.den && r.num < r.den
  }

  /** `(int) (1024 + r * (65535 - 1024))`: the cast truncates a non-negative value,
      which is the floor. */
  function CandidatePort(r: Fraction): (port: Int32)
    requires IsUnitDraw(r)
    ensures LowestPort <= port < HighestPort
  {
    ScaledDrawBelowSpan(r);
    LowestPort + r.num * PortSpan / r.den
  }

  lemma ScaledDrawBelowSpan(r: Fraction)
    requires IsUnitDraw(r)
    ensures 0 <= r.num * PortSpan / r.den < PortSpan
  {
    assert r.num * PortSpan < r.den * PortSpan;
  }

  /** The bound is tight: every port from 1024 to 65534 is the candidate of some draw. */
  lemma CandidateCoversRange(port: int)
    requires LowestPort <= port < HighestPort
    ensures IsUnitDraw(Fraction(port - LowestPort, PortSpan))
    ensures CandidatePort(Fraction(port - LowestPort, PortSpan)) == port
  {
  }

  /** One pass of the probe loop: the random draw, and whether a server socket
      could be bound on the port it gives. */
  datatype Attempt = Attempt(draw: Fraction, bound: bool)

  predicate ValidAttempts(attempts: seq<Attempt>) {
    forall k :: 0 <= k < |attempts| ==> IsUnitDraw(attempts[k].draw)
  }

  /** The loop of `getFreePort` over the given attempts: the candidate of the first
      attempt whose bind succeeded, or `None` when none did (the source keeps
      drawing for ever in that case). */
  method GetFreePort(attempts: seq<Attempt>) returns (port: Option<Int32>)
    requires ValidAttempts(attempts)
    ensures port.Some? ==> LowestPort <= port.value < HighestPort
    ensures port.None? <==> forall k :: 0 <= k < |attempts| ==> !attempts[k].bound
    ensures port.Some? ==>
      exists k :: 0 <= k < |attempts| && attempts[k].bound
        && port.value == CandidatePort(attempts[k].draw)
        && forall j :: 0 <= j < k ==> !attempts[j].bound
  {
    var i := 0;
    while i < |attempts|
      invariant 0 <= i <= |attempts|
      invariant forall j :: 0 <= j < i ==> !attempts[j].bound
    {
      var candidate := CandidatePort(attempts[i].draw);
      if attempts[i].bound {
        return Some(candidate);
      }
      i := i + 1;
    }
    return None;
  }
}
