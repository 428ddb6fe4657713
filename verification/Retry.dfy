/**
 The retry loop around one scan-and-persist attempt, and the jitter it adds to its backoff.
 Durations are in milliseconds.
 */
module Retry {
  import opened Wrappers
  import opened Fanout
  import opened FanoutSafety
  import opened FanoutRuns

  const INITIAL_BACKOFF: nat := 200

  const WORD: nat := 0x1_0000_0000_0000_0000

  const MULTIPLIER: nat := 0x9E37_79B9_7F4A_7C15

  function Xor(a: nat, b: nat): nat {
    if a == 0 then b else if b == 0 then a else (a + b) % 2 + 2 * Xor(a / 2, b / 2)
  }

  /** The clock's sub-second nanoseconds mixed with the counter. */
  function Mixed(nanos: nat, counter: nat): nat {
    Xor(nanos, counter * MULTIPLIER % WORD)
  }

  /** The process-wide jitter counter, a wrapping 64-bit word. */
  class Jitter {
    var counter: nat

    constructor ()
      ensures counter == 0
    {
      counter := 0;
    }

    method Next(nanos: nat) returns (ms: nat)
      modifies this
      ensures ms == Mixed(nanos, old(counter)) % 100 && ms < 100
      ensures counter == (old(counter) + 1) % WORD
    {
      var mixed := Mixed(nanos, counter);
      counter := (counter + 1) % WORD;
      ms := mixed % 100;
    }
  }

  lemma {:induction false} XorInjective(n: nat, a: nat, b: nat)
    requires Xor(n, a) == Xor(n, b)
    ensures a == b
  {
    if n != 0 && a != 0 && b != 0 {
      XorInjective(n / 2, a / 2, b / 2);
    } else if n != 0 {
      XorNoFixedPoint(n, if a == 0 then b else a);
    }
  }

  lemma {:induction false} XorNoFixedPoint(n: nat, a: nat)
    requires Xor(n, a) == n
    ensures a == 0
  {
    if n != 0 && a != 0 {
      XorNoFixedPoint(n / 2, a / 2);
    }
  }

  function Bit(a: nat, k: nat): nat { if k == 0 then a % 2 else Bit(a / 2, k - 1) }

  /** Each bit of the mix is set exactly when one of the two bits mixed is. */
  lemma {:induction false} XorBits(a: nat, b: nat, k: nat)
    ensures Bit(Xor(a, b), k) == (Bit(a, k) + Bit(b, k)) % 2
  {
    NoBits(k);
    if a != 0 && b != 0 {
      Halves((a + b) % 2, Xor(a / 2, b / 2));
      if k > 0 {
        XorBits(a / 2, b / 2, k - 1);
        hide Xor;
      }
    }
  }

  lemma Halves(bit: nat, x: nat)
    requires bit < 2
    ensures (bit + 2 * x) / 2 == x && (bit + 2 * x) % 2 == bit
  {
  }

  lemma {:induction false} NoBits(k: nat)
    ensures Bit(0, k) == 0 && forall a :: Bit(a, k) < 2
  {
    if k > 0 {
      NoBits(k - 1);
    }
  }

  lemma {:induction false} XorCommutes(a: nat, b: nat)
    ensures Xor(a, b) == Xor(b, a)
  {
    if a != 0 && b != 0 {
      XorCommutes(a / 2, b / 2);
    }
  }

  lemma Remainder(c: nat, k: int)
    requires c < WORD
    ensures (c + WORD * k) % WORD == c
  {
    assert (c + WORD * k) / WORD == k;
  }

  /** The multiplier is odd, so it has an inverse for words: multiplying by that recovers the counter. */
  const INVERSE: nat := 0xF1DE_83E1_9937_733D
  const CARRY: nat := 0x957B_BF35_006E_D677

  lemma Unmixed(c: nat)
    requires c < WORD
    ensures c * MULTIPLIER % WORD * INVERSE % WORD == c
  {
    var p := c * MULTIPLIER;
    var q := p / WORD;
    assert p == q * WORD + p % WORD;
    assert MULTIPLIER * INVERSE == 1 + CARRY * WORD;
    Distribute(c, q, p % WORD);
    Remainder(c, c * CARRY - q * INVERSE);
  }

  lemma Distribute(c: nat, q: nat, r: nat)
    requires c * MULTIPLIER == q * WORD + r
    ensures r * INVERSE == c + WORD * (c * CARRY - q * INVERSE)
  {
    assert (c * MULTIPLIER) * INVERSE == c * (MULTIPLIER * INVERSE);
    assert c * (1 + CARRY * WORD) == c + WORD * (c * CARRY);
    assert (q * WORD + r) * INVERSE == q * WORD * INVERSE + r * INVERSE;
  }

  /** Hosts that retry at the same instant mix different words: with one clock reading no two of the 2^64 counter
      values give the same, and with one counter no two clock readings do. */
  lemma MixingSeparates(nanos: nat, other: nat, c: nat, d: nat)
    requires c < WORD && d < WORD
    ensures c != d ==> Mixed(nanos, c) != Mixed(nanos, d)
    ensures nanos != other ==> Mixed(nanos, c) != Mixed(other, c)
  {
    if Mixed(nanos, c) == Mixed(other, c) {
      XorCommutes(nanos, c * MULTIPLIER % WORD);
      XorCommutes(other, c * MULTIPLIER % WORD);
      XorInjective(c * MULTIPLIER % WORD, nanos, other);
    }
    if Mixed(nanos, c) == Mixed(nanos, d) {
      XorInjective(nanos, c * MULTIPLIER % WORD, d * MULTIPLIER % WORD);
      Unmixed(c);
      Unmixed(d);
    }
  }

  function Pow2(n: nat): (r: nat)
    ensures r >= 1
  {
    if n == 0 then 1 else 2 * Pow2(n - 1)
  }

  function Sum(xs: seq<nat>): nat {
    if xs == [] then 0 else Sum(xs[..|xs| - 1]) + xs[|xs| - 1]
  }

  /** Each sleep is the doubled backoff plus less than 100 ms. */
  predicate BackedOff(sleeps: seq<nat>) {
    forall k :: 0 <= k < |sleeps| ==> INITIAL_BACKOFF * Pow2(k) <= sleeps[k] < INITIAL_BACKOFF * Pow2(k) + 100
  }

  /** `attempt(k)` is the outcome of the k-th attempt, `nanos(k)` the clock reading before the k-th
      sleep. `answers` lists the outcomes actually awaited: everything before the last was
      retryable, and a retryable last one means every attempt was spent. */
  method WithRetry(attempt: nat -> Result<ScanId, HostError>, jitter: Jitter, nanos: nat -> nat)
    returns (r: Result<ScanId, HostError>, answers: seq<Result<ScanId, HostError>>, sleeps: seq<nat>)
    modifies jitter
    ensures LoopTrace(answers) && |sleeps| == |answers| - 1
    ensures forall k :: 0 <= k < |answers| ==> answers[k] == attempt(k)
    ensures r == answers[|answers| - 1]
    ensures BackedOff(sleeps)
  {
    var backoff := INITIAL_BACKOFF;
    var lastErr := Fatal("no attempt was made");
    answers, sleeps := [], [];
    var n := 0;
    while n < MAX_ATTEMPTS
      invariant 0 <= n <= MAX_ATTEMPTS && |answers| == n
      invariant |sleeps| == (if n < MAX_ATTEMPTS then n else n - 1)
      invariant n < MAX_ATTEMPTS ==> backoff == INITIAL_BACKOFF * Pow2(n)
      invariant forall k :: 0 <= k < n ==> answers[k] == attempt(k) && answers[k].Err? && answers[k].error.Retryable?
      invariant n > 0 ==> answers[n - 1] == Err(lastErr)
      invariant BackedOff(sleeps)
    {
      r := attempt(n);
      answers := answers + [r];
      match r {
        case Ok(_) => return;
        case Err(Retryable(reason)) =>
          lastErr := Retryable(reason);
          if n + 1 < MAX_ATTEMPTS {
            var extra := jitter.Next(nanos(n));
            sleeps := sleeps + [backoff + extra];
            backoff := backoff * 2;
          }
        case Err(_) => return;
      }
      n := n + 1;
    }
    r := Err(lastErr);
  }

  lemma {:induction false} SumBounds(sleeps: seq<nat>)
    requires BackedOff(sleeps)
    ensures var base := INITIAL_BACKOFF * (Pow2(|sleeps|) - 1);
            base <= Sum(sleeps) && (sleeps != [] ==> Sum(sleeps) < base + 100 * |sleeps|)
  {
    var n := |sleeps|;
    if n > 0 {
      SumBounds(sleeps[..n - 1]);
    }
  }

  /** A host that fails retryably to the end has slept at least 600 ms and under 800 ms. */
  lemma ExhaustedRetriesSleep(sleeps: seq<nat>)
    requires BackedOff(sleeps) && |sleeps| == MAX_ATTEMPTS - 1
    ensures 600 <= Sum(sleeps) < 800
  {
    assert Pow2(1) == 2 && Pow2(2) == 4;
    SumBounds(sleeps);
  }

  // ----- the loop and the state machine agree -----

  /** What `WithRetry` promises about the outcomes it awaited. */
  predicate LoopTrace(answers: seq<Result<ScanId, HostError>>) {
    && 1 <= |answers| <= MAX_ATTEMPTS && RetriedOnly(answers)
    && (answers[|answers| - 1].Err? && answers[|answers| - 1].error.Retryable? ==> |answers| == MAX_ATTEMPTS)
  }

  /** The run stands at entry i's k-th scan, the earlier ones answered as the loop's were. */
  predicate AtScan(c: Config, steps: seq<Step>, i: nat, answers: seq<Result<ScanId, HostError>>, k: nat)
    requires k <= |answers|
  {
    && Runs(c, steps) && i < |After(c, steps).tasks|
    && After(c, steps).tasks[i].phase == Scanning(k) && After(c, steps).tasks[i].answers == answers[..k]
  }

  predicate AtEnd(c: Config, steps: seq<Step>, i: nat, answers: seq<Result<ScanId, HostError>>)
    requires answers != []
  {
    && Runs(c, steps) && i < |After(c, steps).tasks|
    && var t := After(c, steps).tasks[i];
    && var last := answers[|answers| - 1];
    && t.answers == answers
    && t.phase == EndOf(last)
  }

  /** Where the loop's last outcome leaves the host. */
  function EndOf(last: Result<ScanId, HostError>): Phase {
    match last
    case Ok(_) => Persisting
    case Err(e) => Finished(if e.Timeout? then TimedOut else Failed(e))
  }

  /** Fed the outcomes the loop awaited, the fan-out's task makes the same attempts and ends where
      the loop's result says: persisting after a success, otherwise finished with that error. */
  lemma {:induction false} MachineFollowsLoop(c: Config, steps: seq<Step>, i: nat, answers: seq<Result<ScanId, HostError>>, k: nat)
    returns (all: seq<Step>)
    requires LoopTrace(answers) && k < |answers| && AtScan(c, steps, i, answers, k)
    ensures steps <= all && AtEnd(c, all, i, answers)
    decreases |answers| - k
  {
    var next := steps + [ScanReturns(i, answers[k])];
    if k + 1 < |answers| {
      FeedRound(c, steps, i, answers, k);
      all := MachineFollowsLoop(c, next + [Wake(i)], i, answers, k + 1);
    } else {
      FeedLast(c, steps, i, answers);
      all := next;
    }
  }

  lemma FeedAnswer(c: Config, steps: seq<Step>, i: nat, answers: seq<Result<ScanId, HostError>>, k: nat)
    requires LoopTrace(answers) && k < |answers| && AtScan(c, steps, i, answers, k)
    ensures After(c, steps).tasks[i].key.Some?
    ensures var step := ScanReturns(i, answers[k]);
            && Runs(c, steps + [step])
            && After(c, steps + [step]).tasks == After(c, steps).tasks[i := Answered(After(c, steps).tasks[i], answers[k])]
  {
    HasKey(c, steps, i);
    Extend(c, steps, ScanReturns(i, answers[k]));
    AnswerMoves(c, After(c, steps), i, answers[k]);
  }

  lemma FeedWake(c: Config, steps: seq<Step>, i: nat, answers: seq<Result<ScanId, HostError>>, k: nat)
    requires k < |answers| && Runs(c, steps) && i < |After(c, steps).tasks|
    requires After(c, steps).tasks[i].phase == BackingOff(k) && After(c, steps).tasks[i].answers == answers[..k + 1]
    ensures AtScan(c, steps + [Wake(i)], i, answers, k + 1)
  {
    HasKey(c, steps, i);
    Extend(c, steps, Wake(i));
    WakeMoves(c, After(c, steps), i);
  }

  lemma FeedRound(c: Config, steps: seq<Step>, i: nat, answers: seq<Result<ScanId, HostError>>, k: nat)
    requires LoopTrace(answers) && k + 1 < |answers| && AtScan(c, steps, i, answers, k)
    ensures AtScan(c, steps + [ScanReturns(i, answers[k])] + [Wake(i)], i, answers, k + 1)
  {
    FeedAnswer(c, steps, i, answers, k);
    AnsweredFollows(After(c, steps).tasks[i], answers, k);
    FeedWake(c, steps + [ScanReturns(i, answers[k])], i, answers, k);
  }

  lemma FeedLast(c: Config, steps: seq<Step>, i: nat, answers: seq<Result<ScanId, HostError>>)
    requires LoopTrace(answers) && AtScan(c, steps, i, answers, |answers| - 1)
    ensures AtEnd(c, steps + [ScanReturns(i, answers[|answers| - 1])], i, answers)
  {
    FeedAnswer(c, steps, i, answers, |answers| - 1);
    AnsweredFollows(After(c, steps).tasks[i], answers, |answers| - 1);
  }

  /** One scan answer moves a task as one turn of the loop moves the loop. */
  lemma AnsweredFollows(t: Task, answers: seq<Result<ScanId, HostError>>, k: nat)
    requires LoopTrace(answers) && k < |answers|
    requires t.phase == Scanning(k) && t.answers == answers[..k] && t.key.Some?
    ensures var u := Answered(t, answers[k]);
            && u.answers == answers[..k + 1]
            && if k + 1 < |answers| then u.phase == BackingOff(k)
               else u.answers == answers && u.phase == EndOf(answers[k])
  {
    assert answers[..k] + [answers[k]] == answers[..k + 1];
  }

  lemma HasKey(c: Config, steps: seq<Step>, i: nat)
    requires Runs(c, steps) && i < |After(c, steps).tasks|
    requires After(c, steps).tasks[i].phase.Scanning? || After(c, steps).tasks[i].phase.BackingOff?
    ensures After(c, steps).tasks[i].key.Some? && i < |c.hosts|
  {
    RunKeepsInv(c, steps);
    assert TaskOk(After(c, steps).tasks[i], After(c, steps).store);
  }

  lemma AnswerMoves(c: Config, s: State, i: nat, answer: Result<ScanId, HostError>)
    requires Enabled(c, s, ScanReturns(i, answer))
    ensures Apply(c, s, ScanReturns(i, answer)).tasks == s.tasks[i := Answered(s.tasks[i], answer)]
  {
  }

  lemma WakeMoves(c: Config, s: State, i: nat)
    requires Enabled(c, s, Wake(i))
    ensures Apply(c, s, Wake(i)).tasks ==
            s.tasks[i := Reissue(s.tasks[i], s.tasks[i].phase.attempt + 1, s.tasks[i].cell)]
  {
  }
}
