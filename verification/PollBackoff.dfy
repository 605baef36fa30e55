/** Per-project poll backoff, counted in cycles. */
module PollBackoff {
  import opened Prelude

  const MAX_BACKOFF_CYCLES := 8
  const RATE_LIMIT_FAILURES := 3

  /** The outcome of one poll. */
  datatype Poll = Success | Failure | RateLimited

  /** One project's memory: consecutive failures, and cycles still to sit out. */
  datatype Memory = Memory(failures: nat, skip: nat)

  const FORGOTTEN := Memory(0, 0)

  function Pow2(n: nat): (p: nat)
    ensures p > 0
  {
    if n == 0 then 1 else 2 * Pow2(n - 1)
  }

  function Max(a: int, b: int): int {
    if a > b then a else b
  }

  function Min(a: int, b: int): int {
    if a < b then a else b
  }

  function SkipAfter(failures: nat): nat
    requires failures > 0
  {
    Min(Pow2(failures - 1), MAX_BACKOFF_CYCLES)
  }

  function Recorded(m: Memory, result: Poll): Memory {
    if result.Success? then FORGOTTEN
    else
      var failures := if result.RateLimited? then Max(m.failures + 1, RATE_LIMIT_FAILURES) else m.failures + 1;
      Memory(failures, SkipAfter(failures))
  }

  /** One cycle of the poll loop for one project: sit out, or poll and record. */
  function Cycle(m: Memory, result: Poll): Memory {
    if m.skip > 0 then m.(skip := m.skip - 1) else Recorded(m, result)
  }

  function After(m: Memory, results: seq<Poll>): Memory
    decreases |results|
  {
    if results == [] then m else After(Cycle(m, results[0]), results[1..])
  }

  /** How many of the cycles poll; `results[k]` is what a poll in cycle `k` would give. */
  function Polls(m: Memory, results: seq<Poll>): nat
    decreases |results|
  {
    if results == [] then 0
    else (if m.skip > 0 then 0 else 1) + Polls(Cycle(m, results[0]), results[1..])
  }

  // ----- the ladder -----

  lemma PowGrows(m: nat, n: nat)
    requires m <= n
    ensures Pow2(m) <= Pow2(n)
    decreases n - m
  {
    if m < n {
      PowGrows(m, n - 1);
    }
  }

  lemma SkipValues(failures: nat)
    requires failures > 0
    ensures SkipAfter(failures) == if failures == 1 then 1 else if failures == 2 then 2 else if failures == 3 then 4 else 8
  {
    assert Pow2(0) == 1 && Pow2(1) == 2 && Pow2(2) == 4 && Pow2(3) == 8;
    if failures > 4 {
      PowGrows(3, failures - 1);
    }
  }

  /** The most polls a project with this memory can make in `n` failing cycles. */
  function Bound(m: Memory, n: nat): nat
    decreases n
  {
    if n <= m.skip then 0
    else 1 + Bound(Memory(m.failures + 1, SkipAfter(m.failures + 1)), n - m.skip - 1)
  }

  lemma {:induction false} BoundAntitone(a: Memory, b: Memory, n: nat)
    requires a.failures <= b.failures && a.skip <= b.skip
    ensures Bound(b, n) <= Bound(a, n)
    decreases n
  {
    if n > b.skip {
      SkipValues(a.failures + 1);
      SkipValues(b.failures + 1);
      var a', b' := Memory(a.failures + 1, SkipAfter(a.failures + 1)), Memory(b.failures + 1, SkipAfter(b.failures + 1));
      BoundAntitone(a', b', n - b.skip - 1);
      BoundMonotone(a', n - b.skip - 1, n - a.skip - 1);
    }
  }

  lemma {:induction false} BoundMonotone(m: Memory, n: nat, n': nat)
    requires n <= n'
    ensures Bound(m, n) <= Bound(m, n')
    decreases n
  {
    if n > m.skip {
      BoundMonotone(Memory(m.failures + 1, SkipAfter(m.failures + 1)), n - m.skip - 1, n' - m.skip - 1);
    }
  }

  predicate AllFail(results: seq<Poll>) {
    forall k :: 0 <= k < |results| ==> !results[k].Success?
  }

  predicate AllPlain(results: seq<Poll>) {
    forall k :: 0 <= k < |results| ==> results[k].Failure?
  }

  lemma {:induction false} PollsWithinBound(m: Memory, results: seq<Poll>)
    requires AllFail(results)
    ensures Polls(m, results) <= Bound(m, |results|)
    ensures AllPlain(results) ==> Polls(m, results) == Bound(m, |results|)
    decreases |results|
  {
    if results != [] {
      assert forall k :: 0 <= k < |results| - 1 ==> results[1..][k] == results[k + 1];
      PollsWithinBound(Cycle(m, results[0]), results[1..]);
      BoundOfCycle(m, results[0], |results|);
    }
  }

  /** One failing cycle uses up no less of the bound than it polls. */
  lemma BoundOfCycle(m: Memory, result: Poll, n: nat)
    requires !result.Success? && n > 0
    ensures (if m.skip > 0 then 0 else 1) + Bound(Cycle(m, result), n - 1) <= Bound(m, n)
    ensures result.Failure? ==> (if m.skip > 0 then 0 else 1) + Bound(Cycle(m, result), n - 1) == Bound(m, n)
  {
    if m.skip == 0 {
      var m' := Recorded(m, result);
      SkipValues(m'.failures);
      SkipValues(m.failures + 1);
      BoundAntitone(Memory(m.failures + 1, SkipAfter(m.failures + 1)), m', n - 1);
    }
  }

  lemma {:induction false} TopRung(m: Memory, n: nat)
    requires m.failures >= 3 && n > m.skip
    ensures Bound(m, n) == 1 + (n - m.skip - 1) / 9
    decreases n
  {
    SkipValues(m.failures + 1);
    var m', n' := Memory(m.failures + 1, 8), n - m.skip - 1;
    if n' > 8 {
      TopRung(m', n');
    }
  }

  /** A project that fails at every poll, with any mix of rate limits and plain failures, is polled at most `4 + (n - 11) / 9` times in its first `n >= 11` cycles; plain failures alone reach that exactly. */
  lemma FailingProjectIsLeftAlone(results: seq<Poll>)
    requires AllFail(results) && |results| >= 11
    ensures Polls(FORGOTTEN, results) <= 4 + (|results| - 11) / 9
    ensures AllPlain(results) ==> Polls(FORGOTTEN, results) == 4 + (|results| - 11) / 9
  {
    var n := |results|;
    PollsWithinBound(FORGOTTEN, results);
    SkipValues(1);
    SkipValues(2);
    SkipValues(3);
    assert Bound(FORGOTTEN, n) == 1 + Bound(Memory(1, 1), n - 1);
    assert Bound(Memory(1, 1), n - 1) == 1 + Bound(Memory(2, 2), n - 3);
    assert Bound(Memory(2, 2), n - 3) == 1 + Bound(Memory(3, 4), n - 6);
    TopRung(Memory(3, 4), n - 6);
  }

  // ----- never given up on -----

  predicate Bounded(m: Memory) {
    m.skip <= MAX_BACKOFF_CYCLES
  }

  lemma {:induction false} StaysBounded(m: Memory, results: seq<Poll>)
    requires Bounded(m)
    ensures Bounded(After(m, results))
    decreases |results|
  {
    if results != [] {
      StaysBounded(Cycle(m, results[0]), results[1..]);
    }
  }

  lemma {:induction false} PollWithinSkip(m: Memory, results: seq<Poll>)
    requires m.skip < |results|
    ensures Polls(m, results) >= 1
    decreases |results|
  {
    if m.skip > 0 {
      PollWithinSkip(Cycle(m, results[0]), results[1..]);
    }
  }

  /** Whatever the history, any nine consecutive cycles contain a poll. */
  lemma NineCyclesContainAPoll(history: seq<Poll>, next: seq<Poll>)
    requires |next| == 9
    ensures Polls(After(FORGOTTEN, history), next) >= 1
  {
    StaysBounded(FORGOTTEN, history);
    PollWithinSkip(After(FORGOTTEN, history), next);
  }

  /** One successful poll resets the ladder: what follows is what would follow on a fresh project. */
  lemma SuccessResetsLadder(m: Memory, next: seq<Poll>)
    requires m.skip == 0
    ensures After(m, [Success] + next) == After(FORGOTTEN, next)
    ensures Polls(m, [Success] + next) == 1 + Polls(FORGOTTEN, next)
  {
    assert ([Success] + next)[1..] == next;
  }

  /** The ladder, rung by rung: a plain failure is one more than before, a rate limit at least the third; then 1, 2, 4 and from the fourth on 8 cycles are sat out, and a success forgets it all. */
  lemma LadderIs(m: Memory)
    ensures Recorded(m, Failure).failures == m.failures + 1
    ensures Recorded(m, RateLimited).failures == if m.failures + 1 < 3 then 3 else m.failures + 1
    ensures Recorded(m, Success) == Memory(0, 0)
    ensures forall result :: result != Success ==>
      Recorded(m, result).skip == (match Recorded(m, result).failures case 1 => 1 case 2 => 2 case 3 => 4 case _ => 8)
  {
    SkipValues(m.failures + 1);
    SkipValues(Recorded(m, RateLimited).failures);
    assert Pow2(0) == 1 && Pow2(1) == 2 && Pow2(2) == 4;
  }

  /** A rate-limit refusal waits at least four cycles, a first plain failure one. */
  lemma RateLimitWaitsLonger(m: Memory)
    ensures 4 <= Recorded(m, RateLimited).skip <= MAX_BACKOFF_CYCLES
    ensures Recorded(FORGOTTEN, Failure).skip == 1
    ensures m.failures > 0 ==> Recorded(m, Failure).skip == Min(2 * SkipAfter(m.failures), MAX_BACKOFF_CYCLES)
  {
    SkipValues(Recorded(m, RateLimited).failures);
    SkipValues(m.failures + 1);
    if m.failures > 0 {
      SkipValues(m.failures);
    }
  }

  // ----- the object -----

  /** The backoff object the poll loop owns; one entry per project. */
  class Backoff {
    var failures: map<string, nat>
    var skip: map<string, nat>

    constructor ()
      ensures forall key :: MemoryOf(key) == FORGOTTEN
    {
      failures, skip := map[], map[];
    }

    function MemoryOf(key: string): Memory
      reads this
    {
      Memory(if key in failures then failures[key] else 0, if key in skip then skip[key] else 0)
    }

    /** Whether to poll now; a cycle sat out is a cycle less to sit out. */
    method Due(key: string) returns (due: bool)
      modifies this`skip
      ensures due <==> old(MemoryOf(key)).skip == 0
      ensures MemoryOf(key) == if due then old(MemoryOf(key)) else old(MemoryOf(key)).(skip := old(MemoryOf(key)).skip - 1)
      ensures forall other :: other != key ==> MemoryOf(other) == old(MemoryOf(other))
    {
      var remaining := if key in skip then skip[key] else 0;
      if remaining > 0 {
        skip := skip[key := remaining - 1];
        return false;
      }
      due := true;
    }

    /** Take note of how a poll went. */
    method Record(key: string, result: Poll)
      modifies this
      ensures MemoryOf(key) == Recorded(old(MemoryOf(key)), result)
      ensures forall other :: other != key ==> MemoryOf(other) == old(MemoryOf(other))
    {
      if result.Success? {
        failures, skip := failures - {key}, skip - {key};
        return;
      }
      var count := (if key in failures then failures[key] else 0) + 1;
      if result.RateLimited? {
        count := Max(count, RATE_LIMIT_FAILURES);
      }
      failures := failures[key := count];
      skip := skip[key := Min(Pow2(count - 1), MAX_BACKOFF_CYCLES)];
    }

    /** One cycle for one project, as the poll loop runs it. */
    method RunCycle(key: string, result: Poll) returns (polled: bool)
      modifies this
      ensures MemoryOf(key) == Cycle(old(MemoryOf(key)), result)
      ensures polled <==> old(MemoryOf(key)).skip == 0
      ensures forall other :: other != key ==> MemoryOf(other) == old(MemoryOf(other))
    {
      polled := Due(key);
      if polled {
        Record(key, result);
      }
    }
  }
}
