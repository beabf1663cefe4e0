/** The orchestrator Lambda (lambda/orchestrator/orchestrator_lambda.py):
    start a run, list the result prefix every 15 seconds until enough
    `.json` results are there or 600 seconds have passed, then reassemble
    unconditionally. `orchestrate_chunks` and `reassemble_chunks_from_s3`
    come from `utils.orchestrator`, which is not part of this model: their
    outcomes are inputs. The handler reads nothing from its event. */
module Orchestrator {
  import opened Base
  import opened Listing

  const MaxWait: nat := 600
  const Interval: nat := 15

  /** The number of `.json` keys listing number `i` shows. */
  function Found(listings: nat -> seq<string>, i: nat): nat {
    |JsonKeys(listings(i))|
  }

  /** The poll loop from listing `i` on (`i * 15` seconds waited): how many
      listings it makes in all, and whether it saw enough results. */
  function WaitFrom(listings: nat -> seq<string>, expected: nat, i: nat): (nat, bool)
    decreases MaxWait - Interval * i
  {
    if Interval * i >= MaxWait then (i, false)
    else if Found(listings, i) >= expected then (i + 1, true)
    else WaitFrom(listings, expected, i + 1)
  }

  function Wait(listings: nat -> seq<string>, expected: nat): (nat, bool) {
    WaitFrom(listings, expected, 0)
  }

  /** The loop stops at the first listing showing enough results, and
      otherwise after exactly 40 listings, having seen enough in none. */
  lemma {:induction false} WaitFromMeaning(listings: nat -> seq<string>, expected: nat, i: nat)
    requires i <= 40
    ensures var (n, reached) := WaitFrom(listings, expected, i);
      i <= n <= 40 &&
      (forall j :: i <= j < n - 1 ==> Found(listings, j) < expected) &&
      (reached ==> n >= 1 && Found(listings, n - 1) >= expected) &&
      (!reached ==> n == 40 && forall j :: i <= j < 40 ==> Found(listings, j) < expected)
    decreases 40 - i
  {
    if i < 40 && Found(listings, i) < expected {
      WaitFromMeaning(listings, expected, i + 1);
    }
  }

  lemma WaitMeaning(listings: nat -> seq<string>, expected: nat)
    ensures var (n, reached) := Wait(listings, expected);
      n <= 40 &&
      (forall j :: 0 <= j < n - 1 ==> Found(listings, j) < expected) &&
      (reached <==> exists j :: 0 <= j < 40 && Found(listings, j) >= expected) &&
      (reached ==> n >= 1 && Found(listings, n - 1) >= expected)
  {
    WaitFromMeaning(listings, expected, 0);
  }

  datatype OrchestratorResponse = Done | Failed(error: Exc) {
    function StatusCode(): int {
      if Done? then 200 else 500
    }
  }

  /** The poll loop of the handler: list the result prefix every 15
      seconds until enough `.json` results are there or 600 seconds have
      passed. */
  method PollResults(listings: nat -> seq<string>, expected: nat) returns (polls: nat, reached: bool)
    ensures (polls, reached) == Wait(listings, expected)
  {
    reached := false;
    polls := 0;
    var waited := 0;
    while waited < MaxWait
      invariant waited == Interval * polls
      invariant !reached
      invariant WaitFrom(listings, expected, polls) == Wait(listings, expected)
      decreases MaxWait - waited
    {
      var keys := listings(polls);
      var chunkKeys := JsonKeys(keys);
      if |chunkKeys| >= expected {
        assert WaitFrom(listings, expected, polls) == (polls + 1, true);
        polls, reached := polls + 1, true;
        return;
      }
      waited := waited + Interval;
      polls := polls + 1;
    }
    assert WaitFrom(listings, expected, polls) == (polls, false);
  }

  /** `handler(event, context)`. `orchestrated` is what `orchestrate_chunks()`
      returned or raised, `listings(i)` the keys of the `i`-th listing of the
      result prefix, and `reassembly` the exception reassembly raised, if any. */
  method Handler(orchestrated: Result<(string, nat)>, listings: nat -> seq<string>, reassembly: Option<Exc>)
    returns (resp: OrchestratorResponse, polls: nat, reached: bool)
    ensures orchestrated.Err? ==> resp == Failed(orchestrated.error) && polls == 0
    ensures orchestrated.Ok? ==> (polls, reached) == Wait(listings, orchestrated.value.1)
    ensures orchestrated.Ok? ==> resp == (if reassembly.Some? then Failed(reassembly.value) else Done)
  {
    if orchestrated.Err? {
      return Failed(orchestrated.error), 0, false;
    }
    polls, reached := PollResults(listings, orchestrated.value.1);
    if reassembly.Some? {
      return Failed(reassembly.value), polls, reached;
    }
    resp := Done;
  }
}
