/**
 * Execution of a deletion job: providers in registration order, each tried up to
 * three times with a pause that the job's context may cut short.
 */
module Deletion {
  import opened Outcomes

  const MAX_RETRIES := 3

  /** What one provider call does: success means its data is gone; a failed call may have erased it all the same. */
  datatype Call = Call(ok: bool, erased: bool, expired: bool)

  /** The behaviour of the outside world: the n-th call of the process. */
  type Script = nat -> Call

  predicate OkAt(script: Script, n: nat, p: nat) { script(n + p).ok }

  predicate ErasedAt(script: Script, n: nat, p: nat) { script(n + p).ok || script(n + p).erased }

  predicate ExpiredAt(script: Script, n: nat, p: nat) { script(n + p).expired }

  datatype Reason = ContextDone | LastError

  datatype Failure = Failure(provider: nat, attempts: nat, reason: Reason)

  datatype Tried = Tried(attempts: nat, failed: Option<Reason>)

  /** `trace` names the provider of every call made, in order. */
  datatype Execution = Execution(trace: seq<nat>, failure: Option<Failure>)

  /** Attempts k, k+1, … of one provider, the first of them being the n-th call overall. */
  function TryProvider(script: Script, n: nat, k: nat): Tried
    requires 1 <= k <= MAX_RETRIES
    decreases MAX_RETRIES - k
  {
    if script(n).ok then Tried(k, None)
    else if k == MAX_RETRIES then Tried(k, Some(LastError))
    else if script(n).expired then Tried(k, Some(ContextDone))
    else TryProvider(script, n + 1, k + 1)
  }

  function Times(provider: nat, count: nat): seq<nat> {
    seq(count, _ => provider)
  }

  /** Providers i, i+1, … of `count`, the first call being the n-th overall. */
  function RunProviders(script: Script, count: nat, i: nat, n: nat): Execution
    requires i <= count
    decreases count - i
  {
    if i == count then Execution([], None)
    else
      var tried := TryProvider(script, n, 1);
      var calls := Times(i, tried.attempts);
      match tried.failed
      case Some(reason) => Execution(calls, Some(Failure(i, tried.attempts, reason)))
      case None =>
        var rest := RunProviders(script, count, i + 1, n + tried.attempts);
        Execution(calls + rest.trace, rest.failure)
  }

  function Continued(done: seq<nat>, rest: Execution): Execution {
    Execution(done + rest.trace, rest.failure)
  }

  lemma RunUnfolds(script: Script, count: nat, i: nat, n: nat, done: seq<nat>, tried: Tried)
    requires i < count && tried == TryProvider(script, n, 1)
    ensures Continued(done, RunProviders(script, count, i, n)) ==
      match tried.failed
      case Some(reason) => Execution(done + Times(i, tried.attempts), Some(Failure(i, tried.attempts, reason)))
      case None =>
        Continued(done + Times(i, tried.attempts), RunProviders(script, count, i + 1, n + tried.attempts))
  {
  }

  class DeletionEngine {
    const providers: seq<string>
    const script: Script
    var trace: seq<nat>
    var erased: set<nat>

    /** The data gone is what the calls made so far erased. */
    ghost predicate Valid()
      reads this
    {
      erased == Erasures(script, 0, trace)
    }

    constructor (providers: seq<string>, script: Script)
      ensures this.providers == providers && this.script == script && trace == [] && Valid()
    {
      this.providers, this.script := providers, script;
      trace, erased := [], {};
    }

    /** One provider call; its position in the process decides what it does. */
    method Delete(provider: nat) returns (call: Call)
      requires Valid()
      modifies this
      ensures Valid() && call == script(|old(trace)|) && trace == old(trace) + [provider]
    {
      ErasuresAppend(script, 0, trace, provider);
      call := script(|trace|);
      trace := trace + [provider];
      if call.ok || call.erased {
        erased := erased + {provider};
      }
    }

    method ExecuteProvider(provider: nat) returns (attempts: nat, failed: Option<Reason>)
      requires Valid()
      modifies this
      ensures Valid() && trace == old(trace) + Times(provider, attempts)
      ensures Tried(attempts, failed) == TryProvider(script, |old(trace)|, 1)
    {
      ghost var n := |trace|;
      var attempt := 1;
      while true
        invariant 1 <= attempt <= MAX_RETRIES && Valid()
        invariant TryProvider(script, n, 1) == TryProvider(script, |trace|, attempt)
        invariant trace == old(trace) + Times(provider, attempt - 1)
        decreases MAX_RETRIES - attempt
      {
        assert Times(provider, attempt) == Times(provider, attempt - 1) + [provider];
        var call := Delete(provider);
        if call.ok {
          return attempt, None;
        }
        if attempt == MAX_RETRIES {
          return attempt, Some(LastError);
        }
        if call.expired {
          return attempt, Some(ContextDone);
        }
        attempt := attempt + 1;
      }
    }

    method Execute() returns (failure: Option<Failure>)
      requires Valid()
      modifies this
      ensures Valid()
      ensures var run := RunProviders(script, |providers|, 0, |old(trace)|);
        failure == run.failure && trace == old(trace) + run.trace
    {
      ghost var whole := Continued(trace, RunProviders(script, |providers|, 0, |trace|));
      for i := 0 to |providers|
        invariant Valid() && Continued(trace, RunProviders(script, |providers|, i, |trace|)) == whole
      {
        ghost var before := trace;
        var attempts, failed := ExecuteProvider(i);
        RunUnfolds(script, |providers|, i, |before|, before, Tried(attempts, failed));
        if failed.Some? {
          return Some(Failure(i, attempts, failed.value));
        }
      }
      assert trace + [] == trace;
      failure := None;
    }
  }

  // ---------------------------------------------------------------- what a sequence of calls erases

  function Erasures(script: Script, n: nat, trace: seq<nat>): set<nat> {
    set p | 0 <= p < |trace| && ErasedAt(script, n, p) :: trace[p]
  }

  lemma ErasuresAppend(script: Script, n: nat, trace: seq<nat>, provider: nat)
    ensures Erasures(script, n, trace + [provider])
         == Erasures(script, n, trace)
            + if ErasedAt(script, n, |trace|) then {provider} else {}
  {
  }

  // ---------------------------------------------------------------- order, attempts and success

  /** Calls go through the providers in registration order, starting at the i-th and skipping none. */
  ghost predicate InOrder(trace: seq<nat>, i: nat) {
    && (|trace| > 0 ==> trace[0] == i)
    && forall p :: 0 <= p < |trace| - 1 ==> trace[p] <= trace[p + 1] <= trace[p] + 1
  }

  function Calls(trace: seq<nat>, provider: nat): nat {
    multiset(trace)[provider]
  }

  /** The last call made to this provider succeeded. */
  ghost predicate Succeeded(script: Script, n: nat, trace: seq<nat>, provider: nat) {
    exists p :: 0 <= p < |trace| && trace[p] == provider && OkAt(script, n, p)
  }

  lemma {:induction false} CallsOfTimes(provider: nat, count: nat, other: nat)
    ensures Calls(Times(provider, count), other) == if other == provider then count else 0
  {
    if count > 0 {
      assert Times(provider, count) == Times(provider, count - 1) + [provider];
      CallsOfTimes(provider, count - 1, other);
    }
  }

  /** Tries stop at the first success; otherwise at the third failure or the first expired pause. */
  lemma {:induction false} TriesAreExact(script: Script, n: nat, k: nat)
    requires 1 <= k <= MAX_RETRIES
    ensures k <= TryProvider(script, n, k).attempts <= 3
    ensures var t := TryProvider(script, n, k);
      && (forall p :: 0 <= p < t.attempts - k ==> !OkAt(script, n, p) && !ExpiredAt(script, n, p))
      && (t.failed.None? <==> OkAt(script, n, t.attempts - k))
      && (t.failed == Some(LastError) <==> !OkAt(script, n, t.attempts - k) && t.attempts == 3)
      && (t.failed == Some(ContextDone) <==> !OkAt(script, n, t.attempts - k) && t.attempts < 3)
      && (t.failed == Some(ContextDone) ==> ExpiredAt(script, n, t.attempts - k))
    decreases MAX_RETRIES - k
  {
  }

  ghost predicate AllSucceed(script: Script, n: nat, trace: seq<nat>, i: nat, j: nat) {
    forall q :: i <= q < j ==> Succeeded(script, n, trace, q)
  }

  ghost predicate ThreeAtMost(trace: seq<nat>, i: nat, count: nat) {
    forall q :: q in trace ==> i <= q < count && Calls(trace, q) <= 3
  }

  /** The provider reported is the last one called, never succeeded, and was called as often as reported. */
  ghost predicate FailureIsReal(script: Script, n: nat, trace: seq<nat>, f: Failure) {
    && |trace| > 0 && trace[|trace| - 1] == f.provider
    && f.attempts == Calls(trace, f.provider) && !Succeeded(script, n, trace, f.provider)
  }

  ghost predicate Faithful(script: Script, count: nat, i: nat, n: nat, run: Execution) {
    match run.failure
    case None => AllSucceed(script, n, run.trace, i, count)
    case Some(f) =>
      i <= f.provider < count && AllSucceed(script, n, run.trace, i, f.provider)
      && FailureIsReal(script, n, run.trace, f)
  }

  lemma FailingBlock(script: Script, n: nat, i: nat)
    requires TryProvider(script, n, 1).failed.Some?
    ensures var tried := TryProvider(script, n, 1);
      FailureIsReal(script, n, Times(i, tried.attempts), Failure(i, tried.attempts, tried.failed.value))
  {
    TriesAreExact(script, n, 1);
    CallsOfTimes(i, TryProvider(script, n, 1).attempts, i);
  }

  lemma BlockSucceeds(script: Script, n: nat, provider: nat, rest: seq<nat>, q: nat)
    requires TryProvider(script, n, 1).failed.None? && q != provider
    ensures var calls := Times(provider, TryProvider(script, n, 1).attempts);
      && Succeeded(script, n, calls + rest, provider)
      && (Succeeded(script, n, calls + rest, q) <==> Succeeded(script, n + |calls|, rest, q))
  {
    TriesAreExact(script, n, 1);
    var k := TryProvider(script, n, 1).attempts;
    var calls := Times(provider, k);
    assert (calls + rest)[k - 1] == provider && OkAt(script, n, k - 1);
    if Succeeded(script, n + k, rest, q) {
      var p :| 0 <= p < |rest| && rest[p] == q && OkAt(script, n + k, p);
      assert (calls + rest)[k + p] == q && OkAt(script, n, k + p);
    }
    if Succeeded(script, n, calls + rest, q) {
      var p :| 0 <= p < |calls + rest| && (calls + rest)[p] == q && OkAt(script, n, p);
      assert p >= k && rest[p - k] == q && OkAt(script, n + k, p - k);
    }
  }

  lemma BlockInOrder(i: nat, k: nat, rest: seq<nat>)
    requires k > 0 && InOrder(rest, i + 1)
    ensures InOrder(Times(i, k) + rest, i)
  {
  }

  lemma TriesAreFew(script: Script, n: nat)
    ensures 1 <= TryProvider(script, n, 1).attempts <= MAX_RETRIES
  {
  }

  lemma {:induction false} CallsAreInOrder(script: Script, count: nat, i: nat, n: nat)
    requires i <= count
    ensures InOrder(RunProviders(script, count, i, n).trace, i)
    decreases count - i
  {
    if i < count {
      var tried := TryProvider(script, n, 1);
      TriesAreFew(script, n);
      if tried.failed.None? {
        CallsAreInOrder(script, count, i + 1, n + tried.attempts);
      }
      TraceSplits(script, count, i, n);
      BlockInOrder(i, tried.attempts, TraceAfter(script, count, i, n));
    }
  }

  lemma {:induction false} CallsAreFew(script: Script, count: nat, i: nat, n: nat)
    requires i <= count
    ensures ThreeAtMost(RunProviders(script, count, i, n).trace, i, count)
    decreases count - i
  {
    if i < count {
      var tried := TryProvider(script, n, 1);
      TriesAreFew(script, n);
      if tried.failed.None? {
        CallsAreFew(script, count, i + 1, n + tried.attempts);
      }
      TraceSplits(script, count, i, n);
      BlockIsBounded(i, tried.attempts, TraceAfter(script, count, i, n), count);
    }
  }

  /** Calls go through the providers in registration order and reach none more than three times. */
  lemma ExecutionIsOrdered(script: Script, count: nat, i: nat, n: nat)
    requires i <= count
    ensures var trace := RunProviders(script, count, i, n).trace;
      InOrder(trace, i) && ThreeAtMost(trace, i, count)
  {
    CallsAreInOrder(script, count, i, n);
    CallsAreFew(script, count, i, n);
  }

  /** The calls that follow those to provider i. */
  function TraceAfter(script: Script, count: nat, i: nat, n: nat): seq<nat>
    requires i < count
  {
    var tried := TryProvider(script, n, 1);
    if tried.failed.None? then RunProviders(script, count, i + 1, n + tried.attempts).trace else []
  }

  lemma TraceSplits(script: Script, count: nat, i: nat, n: nat)
    requires i < count
    ensures RunProviders(script, count, i, n).trace
         == Times(i, TryProvider(script, n, 1).attempts) + TraceAfter(script, count, i, n)
  {
  }

  lemma BlockIsBounded(i: nat, k: nat, rest: seq<nat>, count: nat)
    requires i < count && k <= MAX_RETRIES && ThreeAtMost(rest, i + 1, count)
    ensures ThreeAtMost(Times(i, k) + rest, i, count)
  {
  }

  /**
   * An execution succeeds exactly when every provider did; otherwise it reports a
   * real failure with its real number of attempts, and everything before it succeeded.
   */
  lemma {:induction false} ExecutionIsFaithful(script: Script, count: nat, i: nat, n: nat)
    requires i <= count
    ensures Faithful(script, count, i, n, RunProviders(script, count, i, n))
    decreases count - i
  {
    if i < count {
      if TryProvider(script, n, 1).failed.Some? {
        FailingBlock(script, n, i);
      } else {
        ExecutionIsFaithful(script, count, i + 1, n + TryProvider(script, n, 1).attempts);
        AfterASuccess(script, count, i, n);
      }
    }
  }

  lemma AfterASuccess(script: Script, count: nat, i: nat, n: nat)
    requires i < count && TryProvider(script, n, 1).failed.None?
    requires var m := n + TryProvider(script, n, 1).attempts;
      Faithful(script, count, i + 1, m, RunProviders(script, count, i + 1, m))
    ensures Faithful(script, count, i, n, RunProviders(script, count, i, n))
  {
    var rest := RunProviders(script, count, i + 1, n + TryProvider(script, n, 1).attempts);
    match rest.failure
    case None => SuccessesCarryOver(script, n, i, rest.trace, count);
    case Some(f) =>
      SuccessesCarryOver(script, n, i, rest.trace, f.provider);
      FailureCarriesOver(script, n, i, rest.trace, f);
  }

  lemma SuccessesCarryOver(script: Script, n: nat, i: nat, rest: seq<nat>, end: nat)
    requires TryProvider(script, n, 1).failed.None?
    requires AllSucceed(script, n + TryProvider(script, n, 1).attempts, rest, i + 1, end)
    ensures AllSucceed(script, n, Times(i, TryProvider(script, n, 1).attempts) + rest, i, end)
  {
    BlockSucceeds(script, n, i, rest, i + 1);
    forall q | i < q < end
      ensures Succeeded(script, n, Times(i, TryProvider(script, n, 1).attempts) + rest, q)
    {
      BlockSucceeds(script, n, i, rest, q);
    }
  }

  lemma FailureCarriesOver(script: Script, n: nat, i: nat, rest: seq<nat>, f: Failure)
    requires TryProvider(script, n, 1).failed.None? && f.provider != i
    requires FailureIsReal(script, n + TryProvider(script, n, 1).attempts, rest, f)
    ensures FailureIsReal(script, n, Times(i, TryProvider(script, n, 1).attempts) + rest, f)
  {
  }

  /** The registered providers: authentication data goes last. */
  const FINANCE: nat := 0
  const EXPENSE: nat := 1
  const AUTH: nat := 2
  const REGISTERED := ["finance", "expense", "auth"]

  /** A provider is called only in an execution where every provider before it has succeeded. */
  lemma EarlierSucceedFirst(script: Script, count: nat, n: nat, later: nat, earlier: nat)
    requires later in RunProviders(script, count, 0, n).trace && earlier < later
    ensures Succeeded(script, n, RunProviders(script, count, 0, n).trace, earlier)
  {
    var run := RunProviders(script, count, 0, n);
    ExecutionIsFaithful(script, count, 0, n);
    if run.failure.Some? {
      LastIsLatest(script, count, n, later);
    } else {
      CalledIsRegistered(script, count, n, later);
    }
  }

  lemma CalledIsRegistered(script: Script, count: nat, n: nat, provider: nat)
    requires provider in RunProviders(script, count, 0, n).trace
    ensures provider < count
  {
    CallsAreFew(script, count, 0, n);
  }

  lemma LastIsLatest(script: Script, count: nat, n: nat, provider: nat)
    requires provider in RunProviders(script, count, 0, n).trace
    ensures var trace := RunProviders(script, count, 0, n).trace; provider <= trace[|trace| - 1]
  {
    CallsAreInOrder(script, count, 0, n);
    var trace := RunProviders(script, count, 0, n).trace;
    var p :| 0 <= p < |trace| && trace[p] == provider;
    OrderIsMonotone(trace, 0, p, |trace| - 1);
  }

  /** The auth provider is called only in an execution where finance and expense have succeeded. */
  lemma AuthGoesLast(script: Script, n: nat)
    requires AUTH in RunProviders(script, |REGISTERED|, 0, n).trace
    ensures var run := RunProviders(script, |REGISTERED|, 0, n);
      Succeeded(script, n, run.trace, FINANCE) && Succeeded(script, n, run.trace, EXPENSE)
  {
    EarlierSucceedFirst(script, |REGISTERED|, n, AUTH, FINANCE);
    EarlierSucceedFirst(script, |REGISTERED|, n, AUTH, EXPENSE);
  }

  lemma {:induction false} OrderIsMonotone(trace: seq<nat>, i: nat, p: nat, q: nat)
    requires InOrder(trace, i) && p <= q < |trace|
    ensures trace[p] <= trace[q]
    decreases q - p
  {
    if p < q {
      OrderIsMonotone(trace, i, p + 1, q);
    }
  }

  // ---------------------------------------------------------------- re-runs

  function AllProviders(count: nat): (all: set<nat>)
    ensures forall q: nat :: q in all <==> q < count
  {
    if count == 0 then {} else AllProviders(count - 1) + {count - 1}
  }

  /** The calls an execution makes if a crash, if any, cuts it off after so many. */
  function Reached(script: Script, count: nat, n: nat, crash: Option<nat>): seq<nat> {
    var trace := RunProviders(script, count, 0, n).trace;
    if crash.Some? && crash.value < |trace| then trace[..crash.value] else trace
  }

  /** The data erased after executing the job once for each entry, cut off or to its end, whatever was reported. */
  function ErasedAfter(script: Script, count: nat, n: nat, crashes: seq<Option<nat>>): set<nat>
    decreases |crashes|
  {
    if |crashes| == 0 then {}
    else
      var trace := Reached(script, count, n, crashes[0]);
      Erasures(script, n, trace) + ErasedAfter(script, count, n + |trace|, crashes[1..])
  }

  /** Some execution among these runs to its end and succeeds. */
  predicate SomeRunSucceeds(script: Script, count: nat, n: nat, crashes: seq<Option<nat>>)
    decreases |crashes|
  {
    |crashes| > 0 &&
    var run, trace := RunProviders(script, count, 0, n), Reached(script, count, n, crashes[0]);
    ((run.failure.None? && trace == run.trace) || SomeRunSucceeds(script, count, n + |trace|, crashes[1..]))
  }

  lemma ErasedIsCalled(script: Script, count: nat, n: nat, crash: Option<nat>)
    ensures Erasures(script, n, Reached(script, count, n, crash)) <= AllProviders(count)
  {
    var trace := Reached(script, count, n, crash);
    forall x | x in Erasures(script, n, trace) ensures x < count {
      var p :| 0 <= p < |trace| && ErasedAt(script, n, p) && trace[p] == x;
      assert x == RunProviders(script, count, 0, n).trace[p];
      CalledIsRegistered(script, count, n, x);
    }
  }

  lemma {:induction false} ErasedStaysKnown(script: Script, count: nat, n: nat, crashes: seq<Option<nat>>)
    ensures ErasedAfter(script, count, n, crashes) <= AllProviders(count)
    decreases |crashes|
  {
    if |crashes| > 0 {
      var trace := Reached(script, count, n, crashes[0]);
      ErasedIsCalled(script, count, n, crashes[0]);
      ErasedStaysKnown(script, count, n + |trace|, crashes[1..]);
    }
  }

  lemma SuccessErasesAll(script: Script, count: nat, n: nat)
    requires RunProviders(script, count, 0, n).failure.None?
    ensures AllProviders(count) <= Erasures(script, n, RunProviders(script, count, 0, n).trace)
  {
    ExecutionIsFaithful(script, count, 0, n);
    var run := RunProviders(script, count, 0, n);
    forall q | q in AllProviders(count) ensures q in Erasures(script, n, run.trace) {
      assert Succeeded(script, n, run.trace, q);
      var p :| 0 <= p < |run.trace| && run.trace[p] == q && OkAt(script, n, p);
    }
  }

  lemma {:induction false} SuccessIsKept(script: Script, count: nat, n: nat, crashes: seq<Option<nat>>)
    requires SomeRunSucceeds(script, count, n, crashes)
    ensures AllProviders(count) <= ErasedAfter(script, count, n, crashes)
    decreases |crashes|
  {
    var run, trace := RunProviders(script, count, 0, n), Reached(script, count, n, crashes[0]);
    if run.failure.None? && trace == run.trace {
      SuccessErasesAll(script, count, n);
    } else {
      SuccessIsKept(script, count, n + |trace|, crashes[1..]);
    }
  }

  /**
   * Any history of executions, crashes and re-runs with one success in it ends in
   * the same state, everything erased, whatever failed or crashed before or after.
   */
  lemma RerunsConverge(script: Script, count: nat, n: nat, crashes: seq<Option<nat>>)
    requires SomeRunSucceeds(script, count, n, crashes)
    ensures ErasedAfter(script, count, n, crashes) == AllProviders(count)
  {
    ErasedStaysKnown(script, count, n, crashes);
    SuccessIsKept(script, count, n, crashes);
  }

  /** Wherever an execution is cut off, it has erased the providers before any it has erased. */
  lemma CutErasesInOrder(script: Script, count: nat, n: nat, crash: Option<nat>, later: nat, earlier: nat)
    requires earlier < later && later in Erasures(script, n, Reached(script, count, n, crash))
    ensures earlier in Erasures(script, n, Reached(script, count, n, crash))
  {
    var full, trace := RunProviders(script, count, 0, n).trace, Reached(script, count, n, crash);
    var q :| 0 <= q < |trace| && ErasedAt(script, n, q) && trace[q] == later;
    assert full[q] == later;
    EarlierSucceedFirst(script, count, n, later, earlier);
    var p :| 0 <= p < |full| && full[p] == earlier && OkAt(script, n, p);
    CallsAreInOrder(script, count, 0, n);
    if q <= p {
      OrderIsMonotone(full, 0, q, p);
    }
    assert trace[p] == earlier && ErasedAt(script, n, p);
  }

  /**
   * After any history of executions and crashes the erased data is that of an
   * initial run of providers: authentication data is never gone while finance or
   * expense data is still there.
   */
  lemma {:induction false} ErasureRespectsOrder(script: Script, count: nat, n: nat, crashes: seq<Option<nat>>,
                                                later: nat, earlier: nat)
    requires earlier < later && later in ErasedAfter(script, count, n, crashes)
    ensures earlier in ErasedAfter(script, count, n, crashes)
    decreases |crashes|
  {
    var trace := Reached(script, count, n, crashes[0]);
    if later in Erasures(script, n, trace) {
      CutErasesInOrder(script, count, n, crashes[0], later, earlier);
    } else {
      ErasureRespectsOrder(script, count, n + |trace|, crashes[1..], later, earlier);
    }
  }
}
