/** The shape shared by every user handler: an ordered chain of checks, each
    of which makes some calls and then either lets the handler go on or
    returns a response at once. This module gives that shape a meaning of its
    own, independent of any one handler, and proves that the first check that
    stops decides the response and that no later call is made. */
module EarlyReturn {
  import opened HttpOutcome

  /** One early-return step: the calls it makes, whether the handler goes on
      afterwards, and the response it returns when it does not. */
  datatype Check = Check(calls: seq<Call>, passes: bool, stop: Response)

  /** Run the checks in order; when they all pass, finish with `last`. */
  function Chain(checks: seq<Check>, last: Outcome): Outcome
    decreases |checks|
  {
    if |checks| == 0 then last
    else if !checks[0].passes then Outcome(checks[0].stop, checks[0].calls)
    else
      var rest := Chain(checks[1..], last);
      Outcome(rest.response, checks[0].calls + rest.calls)
  }

  /** One step of the chain, at position `i`: the definition of `Chain` on
      the suffix starting there. */
  lemma ChainAt(checks: seq<Check>, i: nat, last: Outcome)
    requires i < |checks|
    ensures Chain(checks[i..], last)
            == if !checks[i].passes then Outcome(checks[i].stop, checks[i].calls)
               else Outcome(Chain(checks[i + 1..], last).response,
                            checks[i].calls + Chain(checks[i + 1..], last).calls)
  {
    assert checks[i..][0] == checks[i] && checks[i..][1..] == checks[i + 1..];
  }

  /** The position of the first check that stops, or `|checks|` when none
      does. */
  function FirstStop(checks: seq<Check>): (k: nat)
    ensures k <= |checks|
    ensures forall j :: 0 <= j < k ==> checks[j].passes
    ensures k < |checks| ==> !checks[k].passes
    decreases |checks|
  {
    if |checks| == 0 then 0
    else if !checks[0].passes then 0
    else 1 + FirstStop(checks[1..])
  }

  /** The calls of the first `n` checks, in order. */
  function CallsOf(checks: seq<Check>, n: nat): seq<Call>
    requires n <= |checks|
    decreases n
  {
    if n == 0 then [] else checks[0].calls + CallsOf(checks[1..], n - 1)
  }

  /** The first check that stops decides the response, and exactly the calls
      of the checks up to and including it are made; when every check passes,
      all their calls are made and `last` follows. */
  lemma {:induction false} ChainStopsAtFirst(checks: seq<Check>, last: Outcome)
    ensures FirstStop(checks) < |checks| ==>
              Chain(checks, last)
              == Outcome(checks[FirstStop(checks)].stop, CallsOf(checks, FirstStop(checks) + 1))
    ensures FirstStop(checks) == |checks| ==>
              Chain(checks, last) == Outcome(last.response, CallsOf(checks, |checks|) + last.calls)
    decreases |checks|
  {
    if |checks| > 0 {
      if !checks[0].passes {
        assert CallsOf(checks, 1) == checks[0].calls + CallsOf(checks[1..], 0);
      } else {
        var tail := checks[1..];
        ChainStopsAtFirst(tail, last);
        assert FirstStop(checks) == 1 + FirstStop(tail);
        if FirstStop(tail) < |tail| {
          assert checks[FirstStop(checks)] == tail[FirstStop(tail)];
        } else {
          var c := checks[0].calls;
          assert c + (CallsOf(tail, |tail|) + last.calls) == (c + CallsOf(tail, |tail|)) + last.calls;
        }
      }
    }
  }
}
