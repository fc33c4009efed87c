/** Specification of `LoggerService.connect` (src/services/logger.ts:16-49): a bounded loop of
    connection attempts numbered 1..retries with one flat delay after every failed attempt
    except the last, ending at the first success or, quietly, when all attempts have failed.
    Whether attempt k succeeds is decided by an oracle `outcome(k)`. */
module ConnectLoop {
  import opened LoggerTypes

  /** The first attempt numbered k..retries whose producer connects, if there is one. */
  function FirstSuccessFrom(k: nat, retries: int, outcome: nat -> AttemptResult): (r: Option<nat>)
    decreases retries - k
    ensures r.Some? ==> k <= r.value <= retries && outcome(r.value) == Connected
  {
    if k > retries then None
    else if outcome(k) == Connected then Some(k)
    else FirstSuccessFrom(k + 1, retries, outcome)
  }

  /** FirstSuccessFrom finds the least connecting attempt of k..retries, and finds none
      exactly when every one of them fails. */
  lemma {:induction false} FirstSuccessLeast(k: nat, retries: int, outcome: nat -> AttemptResult)
    ensures var r := FirstSuccessFrom(k, retries, outcome);
      r.Some? ==> forall i: nat :: k <= i < r.value ==> outcome(i) != Connected
    ensures FirstSuccessFrom(k, retries, outcome).None? <==>
      forall i: nat :: k <= i <= retries ==> outcome(i) != Connected
    decreases retries - k
  {
    if k <= retries && outcome(k) != Connected {
      FirstSuccessLeast(k + 1, retries, outcome);
    }
  }

  /** The first successful attempt of a whole call, if any. */
  function FirstSuccess(retries: int, outcome: nat -> AttemptResult): Option<nat>
  {
    FirstSuccessFrom(1, retries, outcome)
  }

  /** Does some attempt of a call with `retries` connect? */
  predicate Succeeds(retries: int, outcome: nat -> AttemptResult)
  {
    FirstSuccess(retries, outcome).Some?
  }

  /** How many attempts numbered from k on are made: up to and including the first success,
      or all of k..retries when none succeeds. */
  function AttemptCountFrom(k: nat, retries: int, outcome: nat -> AttemptResult): (n: nat)
    ensures n <= if retries >= k then retries - k + 1 else 0
    ensures n == 0 <==> retries < k
  {
    match FirstSuccessFrom(k, retries, outcome)
    case Some(j) => j - k + 1
    case None => if retries >= k then retries - k + 1 else 0
  }

  /** How many attempts one call of connect makes. */
  function AttemptCount(retries: int, outcome: nat -> AttemptResult): nat
  {
    AttemptCountFrom(1, retries, outcome)
  }

  /** Of the attempts a call makes, all but the last fail, and the last connects exactly when
      the call succeeds; no more than max(retries, 0) attempts are made. */
  lemma EarlierAttemptsFail(retries: int, outcome: nat -> AttemptResult)
    ensures forall j: nat :: 1 <= j < AttemptCount(retries, outcome) ==> outcome(j) != Connected
    ensures AttemptCount(retries, outcome) <= if retries > 0 then retries else 0
    ensures Succeeds(retries, outcome) <==>
      AttemptCount(retries, outcome) > 0 && outcome(AttemptCount(retries, outcome)) == Connected
  {
    FirstSuccessLeast(1, retries, outcome);
  }

  /** Does one of attempts 1..n end with a result for which `reached` holds? */
  predicate SomeAttempt(n: nat, outcome: nat -> AttemptResult, reached: AttemptResult -> bool)
    decreases n
  {
    n > 0 && (reached(outcome(n)) || SomeAttempt(n - 1, outcome, reached))
  }

  /** SomeAttempt is the existential it names. */
  lemma {:induction false} SomeAttemptMeans(n: nat, outcome: nat -> AttemptResult, reached: AttemptResult -> bool)
    ensures SomeAttempt(n, outcome, reached) <==> exists j: nat :: 1 <= j <= n && reached(outcome(j))
    decreases n
  {
    if n > 0 {
      SomeAttemptMeans(n - 1, outcome, reached);
    }
  }

  /** The events of the loop from attempt k on: each attempt is reported with its result; a
      success ends the loop; a failed last attempt is followed by the give-up report; any other
      failed attempt is followed by one delay of delayMs and the next attempt. */
  function TraceFrom(k: nat, retries: int, delayMs: int, outcome: nat -> AttemptResult): (t: seq<Event>)
    decreases retries - k
    ensures forall e <- t :: e.Attempt? || e.Delay? || e == GaveUp
  {
    if k > retries then []
    else if outcome(k) == Connected then [Attempt(k, Connected)]
    else if k == retries then [Attempt(k, outcome(k)), GaveUp]
    else [Attempt(k, outcome(k)), Delay(delayMs)] + TraceFrom(k + 1, retries, delayMs, outcome)
  }

  /** The events of one call of connect. */
  function ConnectTrace(retries: int, delayMs: int, outcome: nat -> AttemptResult): (t: seq<Event>)
    ensures t == [] <==> retries < 1
    ensures t != [] ==> t[0] == Attempt(1, outcome(1))
  {
    TraceFrom(1, retries, delayMs, outcome)
  }

  /** The numbers of the attempts reported in a trace, in order. */
  function AttemptNumbers(t: seq<Event>): seq<nat>
  {
    if t == [] then []
    else (if t[0].Attempt? then [t[0].number] else []) + AttemptNumbers(t[1..])
  }

  /** How many delays a trace holds. */
  function CountDelays(t: seq<Event>): nat
  {
    if t == [] then 0
    else (if t[0].Delay? then 1 else 0) + CountDelays(t[1..])
  }

  /** Closed form of the trace: with n attempts, attempts sit at the even positions, in order
      from k, a delay at every odd position except position 2n-1, which holds the give-up
      report when it exists. */
  function LayoutEvent(p: nat, k: nat, n: nat, delayMs: int, outcome: nat -> AttemptResult): Event
  {
    if p % 2 == 0 then Attempt(k + p / 2, outcome(k + p / 2))
    else if p == 2 * n - 1 then GaveUp
    else Delay(delayMs)
  }

  /** The length of the trace from attempt k on: two events per attempt, less one after a
      success (no delay follows it), plus nothing else. */
  function LayoutLength(k: nat, retries: int, outcome: nat -> AttemptResult): nat
  {
    var n := AttemptCountFrom(k, retries, outcome);
    if n == 0 then 0
    else if FirstSuccessFrom(k, retries, outcome).Some? then 2 * n - 1
    else 2 * n
  }

  /** One failed, non-final attempt: the rest of the loop starts at k+1 with one attempt fewer. */
  lemma StepFailed(k: nat, retries: int, outcome: nat -> AttemptResult)
    requires k < retries && outcome(k) != Connected
    ensures FirstSuccessFrom(k, retries, outcome) == FirstSuccessFrom(k + 1, retries, outcome)
    ensures AttemptCountFrom(k, retries, outcome) == AttemptCountFrom(k + 1, retries, outcome) + 1
  {
  }

  /** Dropping the first attempt and its delay shifts the closed form by two positions. */
  lemma LayoutShift(p: nat, k: nat, n: nat, delayMs: int, outcome: nat -> AttemptResult)
    requires p >= 2 && n >= 1
    ensures LayoutEvent(p - 2, k + 1, n - 1, delayMs, outcome) == LayoutEvent(p, k, n, delayMs, outcome)
  {
    assert (p - 2) % 2 == p % 2 && (p - 2) / 2 == p / 2 - 1;
  }

  /** The trace equals its closed form, position by position. */
  lemma {:induction false} TraceLayout(k: nat, retries: int, delayMs: int, outcome: nat -> AttemptResult)
    ensures |TraceFrom(k, retries, delayMs, outcome)| == LayoutLength(k, retries, outcome)
    ensures forall p: nat :: p < |TraceFrom(k, retries, delayMs, outcome)| ==>
      TraceFrom(k, retries, delayMs, outcome)[p] == LayoutEvent(p, k, AttemptCountFrom(k, retries, outcome), delayMs, outcome)
    decreases retries - k
  {
    var t := TraceFrom(k, retries, delayMs, outcome);
    var n := AttemptCountFrom(k, retries, outcome);
    if k > retries || outcome(k) == Connected || k == retries {
    } else {
      StepFailed(k, retries, outcome);
      TraceLayout(k + 1, retries, delayMs, outcome);
      var rest := TraceFrom(k + 1, retries, delayMs, outcome);
      assert t == [Attempt(k, outcome(k)), Delay(delayMs)] + rest;
      forall p: nat | p < |t|
        ensures t[p] == LayoutEvent(p, k, n, delayMs, outcome)
      {
        if p >= 2 {
          assert t[p] == rest[p - 2];
          LayoutShift(p, k, n, delayMs, outcome);
        }
      }
    }
  }

  /** The numbers k, k+1, ..., k+n-1. */
  function Numbers(k: nat, n: nat): (ns: seq<nat>)
    decreases n
    ensures |ns| == n && forall i :: 0 <= i < n ==> ns[i] == k + i
  {
    if n == 0 then [] else [k] + Numbers(k + 1, n - 1)
  }

  /** The loop's last attempt, k: it connects, or it is attempt number `retries`. Then the trace
      from k on reports that one attempt, then at most the give-up report. */
  lemma LastAttempt(k: nat, retries: int, delayMs: int, outcome: nat -> AttemptResult)
    requires k <= retries && (outcome(k) == Connected || k == retries)
    ensures AttemptCountFrom(k, retries, outcome) == 1
    ensures var t := TraceFrom(k, retries, delayMs, outcome);
      t[0] == Attempt(k, outcome(k)) && (t[1..] == [] || t[1..] == [GaveUp])
  {
    if outcome(k) != Connected {
      assert FirstSuccessFrom(k + 1, retries, outcome) == None;
    }
  }

  /** Attempts are reported in order, numbered k, k+1, ..., one per attempt made. */
  lemma {:induction false} AttemptNumbersFrom(k: nat, retries: int, delayMs: int, outcome: nat -> AttemptResult)
    ensures AttemptNumbers(TraceFrom(k, retries, delayMs, outcome)) == Numbers(k, AttemptCountFrom(k, retries, outcome))
    decreases retries - k
  {
    var t := TraceFrom(k, retries, delayMs, outcome);
    if k > retries {
    } else if outcome(k) == Connected || k == retries {
      LastAttempt(k, retries, delayMs, outcome);
      assert AttemptNumbers(t[1..]) == [];
    } else {
      StepFailed(k, retries, outcome);
      AttemptNumbersFrom(k + 1, retries, delayMs, outcome);
      var rest := TraceFrom(k + 1, retries, delayMs, outcome);
      assert t[1..] == [Delay(delayMs)] + rest && t[1..][1..] == rest;
    }
  }

  /** One delay between each pair of consecutive attempts and nowhere else, each of delayMs. */
  lemma {:induction false} DelaysFrom(k: nat, retries: int, delayMs: int, outcome: nat -> AttemptResult)
    ensures CountDelays(TraceFrom(k, retries, delayMs, outcome)) ==
      if AttemptCountFrom(k, retries, outcome) == 0 then 0 else AttemptCountFrom(k, retries, outcome) - 1
    ensures forall e <- TraceFrom(k, retries, delayMs, outcome) :: e.Delay? ==> e.ms == delayMs
    decreases retries - k
  {
    var t := TraceFrom(k, retries, delayMs, outcome);
    if k > retries {
    } else if outcome(k) == Connected || k == retries {
      LastAttempt(k, retries, delayMs, outcome);
      assert CountDelays(t[1..]) == 0;
    } else {
      StepFailed(k, retries, outcome);
      DelaysFrom(k + 1, retries, delayMs, outcome);
      var rest := TraceFrom(k + 1, retries, delayMs, outcome);
      assert t[1..] == [Delay(delayMs)] + rest && t[1..][1..] == rest;
    }
  }

  /** The first success is attempt k when attempt k connects and no earlier attempt does. */
  lemma FirstSuccessIs(k: nat, retries: int, outcome: nat -> AttemptResult)
    requires 1 <= k <= retries && outcome(k) == Connected
    requires forall i: nat :: 1 <= i < k ==> outcome(i) != Connected
    ensures FirstSuccess(retries, outcome) == Some(k) && AttemptCount(retries, outcome) == k
  {
    FirstSuccessLeast(1, retries, outcome);
  }

  /** With no success among attempts 1..retries, all max(retries, 0) attempts are made. */
  lemma NoSuccess(retries: int, outcome: nat -> AttemptResult)
    requires forall i: nat :: 1 <= i <= retries ==> outcome(i) != Connected
    ensures FirstSuccess(retries, outcome) == None
    ensures AttemptCount(retries, outcome) == if retries > 0 then retries else 0
  {
    FirstSuccessLeast(1, retries, outcome);
  }

  /** Attempts of one call of connect run in order, numbered 1..n, where n never exceeds
      max(retries, 0); with retries <= 0 nothing at all happens. */
  lemma AttemptsInOrder(retries: int, delayMs: int, outcome: nat -> AttemptResult)
    ensures var ns := AttemptNumbers(ConnectTrace(retries, delayMs, outcome));
      |ns| == AttemptCount(retries, outcome) &&
      (forall i :: 0 <= i < |ns| ==> ns[i] == i + 1) &&
      |ns| <= (if retries > 0 then retries else 0)
    ensures retries <= 0 ==> ConnectTrace(retries, delayMs, outcome) == []
  {
    AttemptNumbersFrom(1, retries, delayMs, outcome);
  }

  /** Success at attempt k: exactly k attempts and k-1 delays; the trace ends with that
      successful attempt, so neither a further attempt nor a delay follows it, and the
      give-up report never appears. */
  lemma SuccessAt(k: nat, retries: int, delayMs: int, outcome: nat -> AttemptResult)
    requires 1 <= k <= retries && outcome(k) == Connected
    requires forall i: nat :: 1 <= i < k ==> outcome(i) != Connected
    ensures FirstSuccess(retries, outcome) == Some(k) && AttemptCount(retries, outcome) == k
    ensures var t := ConnectTrace(retries, delayMs, outcome);
      |AttemptNumbers(t)| == k && CountDelays(t) == k - 1 &&
      t != [] && t[|t| - 1] == Attempt(k, Connected) && GaveUp !in t
  {
    var t := ConnectTrace(retries, delayMs, outcome);
    FirstSuccessIs(k, retries, outcome);
    AttemptNumbersFrom(1, retries, delayMs, outcome);
    DelaysFrom(1, retries, delayMs, outcome);
    TraceLayout(1, retries, delayMs, outcome);
    assert t[|t| - 1] == LayoutEvent(|t| - 1, 1, k, delayMs, outcome);
    forall p | 0 <= p < |t|
      ensures t[p] != GaveUp
    {
      assert t[p] == LayoutEvent(p, 1, k, delayMs, outcome);
    }
  }

  /** Every attempt fails: exactly max(retries, 0) attempts and retries-1 delays; with at least
      one attempt the trace ends with the give-up report, and the call never connects. */
  lemma AllFail(retries: int, delayMs: int, outcome: nat -> AttemptResult)
    requires forall i: nat :: 1 <= i <= retries ==> outcome(i) != Connected
    ensures !Succeeds(retries, outcome) && AttemptCount(retries, outcome) == if retries > 0 then retries else 0
    ensures var t := ConnectTrace(retries, delayMs, outcome);
      |AttemptNumbers(t)| == (if retries > 0 then retries else 0) &&
      CountDelays(t) == (if retries > 1 then retries - 1 else 0) &&
      (retries >= 1 ==> t[|t| - 1] == GaveUp) &&
      (forall e <- t :: e.Attempt? ==> e.result != Connected)
  {
    var t := ConnectTrace(retries, delayMs, outcome);
    NoSuccess(retries, outcome);
    AttemptNumbersFrom(1, retries, delayMs, outcome);
    DelaysFrom(1, retries, delayMs, outcome);
    TraceLayout(1, retries, delayMs, outcome);
    if retries >= 1 {
      assert t[|t| - 1] == LayoutEvent(|t| - 1, 1, retries, delayMs, outcome);
    }
    forall e <- t | e.Attempt?
      ensures e.result != Connected
    {
      var p :| 0 <= p < |t| && t[p] == e;
      assert t[p] == LayoutEvent(p, 1, AttemptCount(retries, outcome), delayMs, outcome);
    }
  }

  /** Every delay follows a failed attempt that is not the last one and precedes the next
      attempt. */
  lemma DelayBetweenAttempts(retries: int, delayMs: int, outcome: nat -> AttemptResult)
    ensures var t := ConnectTrace(retries, delayMs, outcome);
      forall p :: 0 <= p < |t| && t[p].Delay? ==>
        0 < p < |t| - 1 && t[p - 1].Attempt? && t[p - 1].result != Connected &&
        t[p - 1].number < retries && t[p + 1].Attempt? && t[p + 1].number == t[p - 1].number + 1
  {
    var t := ConnectTrace(retries, delayMs, outcome);
    var n := AttemptCount(retries, outcome);
    TraceLayout(1, retries, delayMs, outcome);
    EarlierAttemptsFail(retries, outcome);
    forall p | 0 <= p < |t| && t[p].Delay?
      ensures 0 < p < |t| - 1 && t[p - 1].Attempt? && t[p - 1].result != Connected
      ensures t[p - 1].number < retries && t[p + 1].Attempt? && t[p + 1].number == t[p - 1].number + 1
    {
      assert t[p] == LayoutEvent(p, 1, n, delayMs, outcome);
      var j := 1 + (p - 1) / 2;
      assert p % 2 == 1 && p < 2 * n - 1;
      assert t[p - 1] == LayoutEvent(p - 1, 1, n, delayMs, outcome) == Attempt(j, outcome(j));
      assert t[p + 1] == LayoutEvent(p + 1, 1, n, delayMs, outcome) == Attempt(j + 1, outcome(j + 1));
      assert j < n;
    }
  }

  /** After each failed attempt other than attempt number `retries` comes one delay of delayMs. */
  lemma DelayAfterEachFailure(retries: int, delayMs: int, outcome: nat -> AttemptResult)
    ensures var t := ConnectTrace(retries, delayMs, outcome);
      forall p :: 0 <= p < |t| && t[p].Attempt? && t[p].result != Connected && t[p].number < retries ==>
        p + 1 < |t| && t[p + 1] == Delay(delayMs)
  {
    var t := ConnectTrace(retries, delayMs, outcome);
    var n := AttemptCount(retries, outcome);
    TraceLayout(1, retries, delayMs, outcome);
    forall p | 0 <= p < |t| && t[p].Attempt? && t[p].result != Connected && t[p].number < retries
      ensures p + 1 < |t| && t[p + 1] == Delay(delayMs)
    {
      assert t[p] == LayoutEvent(p, 1, n, delayMs, outcome);
      var j := 1 + p / 2;
      assert p % 2 == 0 && t[p] == Attempt(j, outcome(j));
      assert j < n;
      assert t[p + 1] == LayoutEvent(p + 1, 1, n, delayMs, outcome);
    }
  }

  /** No delay and no further attempt follow a successful attempt or attempt number `retries`:
      at most the give-up report comes after it. */
  lemma NothingAfterSuccessOrLast(retries: int, delayMs: int, outcome: nat -> AttemptResult)
    ensures var t := ConnectTrace(retries, delayMs, outcome);
      forall p :: 0 <= p < |t| && t[p].Attempt? && (t[p].result == Connected || t[p].number == retries) ==>
        p == |t| - 1 || (p == |t| - 2 && t[p + 1] == GaveUp)
  {
    var t := ConnectTrace(retries, delayMs, outcome);
    var n := AttemptCount(retries, outcome);
    TraceLayout(1, retries, delayMs, outcome);
    EarlierAttemptsFail(retries, outcome);
    forall p | 0 <= p < |t| && t[p].Attempt? && (t[p].result == Connected || t[p].number == retries)
      ensures p == |t| - 1 || (p == |t| - 2 && t[p + 1] == GaveUp)
    {
      assert t[p] == LayoutEvent(p, 1, n, delayMs, outcome);
      var j := 1 + p / 2;
      assert p % 2 == 0 && t[p] == Attempt(j, outcome(j));
      assert j == n;
      if p + 1 < |t| {
        assert t[p + 1] == LayoutEvent(p + 1, 1, n, delayMs, outcome);
      }
    }
  }
}
