/**
 The readiness pollers (factory/wait.go). Each iteration of the poll loop first
 looks at the deadline, then takes one sample of the resource's status; the
 number of consecutive "available" samples is counted, any other status resets
 the count, and the resource counts as ready when the count reaches
 RequiredReady. The environment of one poll is a finite sequence of ticks, one
 per iteration: whether the deadline had fired by then, and what the describe
 call would report.
 */
module Wait {
  import opened Wrappers
  import opened Rds

  const RequiredReady: nat := 4
  const Available: string := "available"

  /** The outcome of one describe call: a status, or an error of any kind. */
  datatype Observation = Status(status: string) | DescribeFailed(err: Error)

  datatype Tick = Tick(expired: bool, observation: Observation)

  /** The poller's boolean and the number of describe calls it made. */
  datatype Outcome = Outcome(ready: bool, samples: nat)

  predicate IsAvailable(t: Tick) {
    t.observation == Status(Available)
  }

  /** The samples of iterations k - RequiredReady + 1 .. k are all "available". */
  predicate StableAt(ticks: seq<Tick>, k: nat)
    requires k < |ticks|
  {
    RequiredReady - 1 <= k && forall j :: k - (RequiredReady - 1) <= j <= k ==> IsAvailable(ticks[j])
  }

  /** The loop cannot go past iteration k. */
  predicate StopsAt(ticks: seq<Tick>, k: nat)
    requires k < |ticks|
  {
    ticks[k].expired || ticks[k].observation.DescribeFailed? || StableAt(ticks, k)
  }

  /** Iteration k is the first at which the loop stops. */
  predicate FirstStop(ticks: seq<Tick>, k: nat) {
    k < |ticks| && StopsAt(ticks, k) && forall j :: 0 <= j < k ==> !StopsAt(ticks, j)
  }

  /** The environment is long enough for the loop to end within it. */
  predicate Halts(ticks: seq<Tick>) {
    exists k :: 0 <= k < |ticks| && StopsAt(ticks, k)
  }

  /** What the poller reports when it stops at iteration k: a fired deadline
      ends it before the sample, a failed describe after it. */
  function OutcomeAt(ticks: seq<Tick>, k: nat): Outcome
    requires k < |ticks|
  {
    if ticks[k].expired then Outcome(false, k)
    else if ticks[k].observation.DescribeFailed? then Outcome(false, k + 1)
    else Outcome(true, k + 1)
  }

  /** The counter update: one more "available" sample, or a reset. */
  function NextCount(readyCount: nat, status: string): nat {
    if status == Available then readyCount + 1 else 0
  }

  /** The poll loop from iteration i with the counter at readyCount; None when
      the environment runs out before the loop ends. */
  function Poll(ticks: seq<Tick>, i: nat, readyCount: nat): Option<Outcome>
    requires i <= |ticks| && readyCount < RequiredReady
    decreases |ticks| - i
  {
    if i == |ticks| then None
    else if ticks[i].expired then Some(Outcome(false, i))
    else match ticks[i].observation
      case DescribeFailed(_) => Some(Outcome(false, i + 1))
      case Status(s) =>
        var c := NextCount(readyCount, s);
        if c == RequiredReady then Some(Outcome(true, i + 1)) else Poll(ticks, i + 1, c)
  }

  /** The number of consecutive "available" samples just before iteration i. */
  function Run(ticks: seq<Tick>, i: nat): (n: nat)
    requires i <= |ticks|
    ensures n <= i
  {
    if i == 0 then 0 else if IsAvailable(ticks[i - 1]) then Run(ticks, i - 1) + 1 else 0
  }

  lemma {:induction false} RunIsAvailable(ticks: seq<Tick>, i: nat, j: nat)
    requires i <= |ticks| && j < Run(ticks, i)
    ensures IsAvailable(ticks[i - 1 - j])
    decreases i
  {
    if j > 0 {
      RunIsAvailable(ticks, i - 1, j - 1);
    }
  }

  lemma {:induction false} AvailableRun(ticks: seq<Tick>, i: nat, n: nat)
    requires n <= i <= |ticks|
    requires forall j :: i - n <= j < i ==> IsAvailable(ticks[j])
    ensures Run(ticks, i) >= n
    decreases n
  {
    if n > 0 {
      AvailableRun(ticks, i - 1, n - 1);
    }
  }

  lemma StableRun(ticks: seq<Tick>, k: nat)
    requires k < |ticks|
    ensures StableAt(ticks, k) ==> Run(ticks, k + 1) >= RequiredReady
  {
    if StableAt(ticks, k) {
      AvailableRun(ticks, k + 1, RequiredReady);
    }
  }

  lemma RunStable(ticks: seq<Tick>, k: nat)
    requires k < |ticks|
    ensures Run(ticks, k + 1) >= RequiredReady ==> StableAt(ticks, k)
  {
    if Run(ticks, k + 1) >= RequiredReady {
      forall j | k - (RequiredReady - 1) <= j <= k
        ensures IsAvailable(ticks[j])
      {
        RunIsAvailable(ticks, k + 1, k - j);
      }
    }
  }

  /** Before the first stop the counter stays below the threshold. */
  lemma RunBelowThreshold(ticks: seq<Tick>, i: nat)
    requires i <= |ticks|
    requires forall j :: 0 <= j < i ==> !StopsAt(ticks, j)
    ensures Run(ticks, i) < RequiredReady
  {
    if i > 0 {
      RunStable(ticks, i - 1);
      assert !StopsAt(ticks, i - 1);
    }
  }

  /** From any iteration up to the first stop, with the counter equal to the
      current run of "available" samples, the loop reports OutcomeAt. */
  lemma {:induction false} PollFromFirstStop(ticks: seq<Tick>, i: nat, k: nat)
    requires i <= k && FirstStop(ticks, k)
    ensures Run(ticks, i) < RequiredReady
    ensures Poll(ticks, i, Run(ticks, i)) == Some(OutcomeAt(ticks, k))
    decreases k - i
  {
    RunBelowThreshold(ticks, i);
    if i < k {
      assert !StopsAt(ticks, i);
      RunBelowThreshold(ticks, i + 1);
      PollFromFirstStop(ticks, i + 1, k);
    } else if !ticks[k].expired && ticks[k].observation.Status? {
      assert StableAt(ticks, k);
      AvailableRun(ticks, k, RequiredReady - 1);
    }
  }

  /** A loop that ends within the environment has met a stop. */
  lemma {:induction false} PollEndsAtAStop(ticks: seq<Tick>, i: nat)
    requires i <= |ticks| && Run(ticks, i) < RequiredReady
    requires Poll(ticks, i, Run(ticks, i)).Some?
    ensures exists k :: i <= k < |ticks| && StopsAt(ticks, k)
    decreases |ticks| - i
  {
    if ticks[i].expired || ticks[i].observation.DescribeFailed? {
      assert StopsAt(ticks, i);
    } else {
      RunStable(ticks, i);
      if Run(ticks, i + 1) == RequiredReady {
        assert StopsAt(ticks, i);
      } else {
        PollEndsAtAStop(ticks, i + 1);
      }
    }
  }

  lemma FirstStopExists(ticks: seq<Tick>) returns (k: nat)
    requires Halts(ticks)
    ensures FirstStop(ticks, k)
  {
    var m :| 0 <= m < |ticks| && StopsAt(ticks, m);
    k := 0;
    while !StopsAt(ticks, k)
      invariant k <= m
      invariant forall j :: 0 <= j < k ==> !StopsAt(ticks, j)
      decreases m - k
    {
      k := k + 1;
    }
  }

  /** The poll loop ends within the environment exactly when some iteration
      stops it, and then it reports what the first such iteration calls for. */
  lemma PollCharacterisation(ticks: seq<Tick>)
    ensures Poll(ticks, 0, 0).Some? <==> Halts(ticks)
    ensures forall k :: FirstStop(ticks, k) ==> Poll(ticks, 0, 0) == Some(OutcomeAt(ticks, k))
  {
    forall k | FirstStop(ticks, k)
      ensures Poll(ticks, 0, 0) == Some(OutcomeAt(ticks, k))
    {
      PollFromFirstStop(ticks, 0, k);
    }
    if Halts(ticks) {
      var k := FirstStopExists(ticks);
    }
    if Poll(ticks, 0, 0).Some? {
      PollEndsAtAStop(ticks, 0);
    }
  }

  /** With a deadline that never fires and a describe that never fails, the
      poller reports ready after exactly as many samples as it takes to reach
      the end of the first run of RequiredReady "available" statuses. */
  lemma NoDeadlineReadyAtFirstStableRun(ticks: seq<Tick>, k: nat)
    requires forall j :: 0 <= j < |ticks| ==> !ticks[j].expired && ticks[j].observation.Status?
    requires k < |ticks| && StableAt(ticks, k)
    requires forall j :: 0 <= j < k ==> !StableAt(ticks, j)
    ensures Poll(ticks, 0, 0) == Some(Outcome(true, k + 1))
  {
    assert FirstStop(ticks, k);
    PollFromFirstStop(ticks, 0, k);
  }

  /** A deadline seen at the top of an iteration ends the poll with false and
      no further sample, even right after an "available" sample. */
  lemma DeadlineEndsPoll(ticks: seq<Tick>, k: nat)
    requires FirstStop(ticks, k) && ticks[k].expired
    ensures Poll(ticks, 0, 0) == Some(Outcome(false, k))
  {
    PollFromFirstStop(ticks, 0, k);
  }

  /** Any describe error ends the poll with false: not-found, another AWS code
      or a non-AWS error alike. */
  lemma DescribeErrorEndsPoll(ticks: seq<Tick>, k: nat, e: Error)
    requires FirstStop(ticks, k) && !ticks[k].expired && ticks[k].observation == DescribeFailed(e)
    ensures Poll(ticks, 0, 0) == Some(Outcome(false, k + 1))
  {
    PollFromFirstStop(ticks, 0, k);
  }


  /** A live tick carrying a status. */
  function Live(status: string): Tick {
    Tick(false, Status(status))
  }

  /** Two "creating" samples, then four "available": ready after six samples. */
  lemma CreatingThenStable()
    ensures Poll([Live("creating"), Live("creating"), Live(Available), Live(Available),
                  Live(Available), Live(Available)], 0, 0) == Some(Outcome(true, 6))
  {
    var t := [Live("creating"), Live("creating"), Live(Available), Live(Available),
              Live(Available), Live(Available)];
    assert Poll(t, 5, 3) == Some(Outcome(true, 6));
    assert Poll(t, 4, 2) == Poll(t, 5, 3);
    assert Poll(t, 3, 1) == Poll(t, 4, 2);
    assert Poll(t, 2, 0) == Poll(t, 3, 1);
    assert Poll(t, 1, 0) == Poll(t, 2, 0);
  }

  /** A "creating" sample between "available" ones resets the count, so four
      more are needed after it. */
  lemma FlapResetsCount()
    ensures Poll([Live(Available), Live(Available), Live("creating"), Live(Available),
                  Live(Available), Live(Available), Live(Available)], 0, 0) == Some(Outcome(true, 7))
  {
    var t := [Live(Available), Live(Available), Live("creating"), Live(Available),
              Live(Available), Live(Available), Live(Available)];
    assert Poll(t, 6, 3) == Some(Outcome(true, 7));
    assert Poll(t, 5, 2) == Poll(t, 6, 3);
    assert Poll(t, 4, 1) == Poll(t, 5, 2);
    assert Poll(t, 3, 0) == Poll(t, 4, 1);
    assert Poll(t, 2, 2) == Poll(t, 3, 0);
    assert Poll(t, 1, 1) == Poll(t, 2, 2);
  }

  /** A deadline after three "available" samples: not ready. */
  lemma DeadlineBeforeThreshold()
    ensures Poll([Live(Available), Live(Available), Live(Available), Tick(true, Status(Available))], 0, 0)
            == Some(Outcome(false, 3))
  {
    var t := [Live(Available), Live(Available), Live(Available), Tick(true, Status(Available))];
    assert Poll(t, 3, 3) == Some(Outcome(false, 3));
    assert Poll(t, 2, 2) == Poll(t, 3, 3);
    assert Poll(t, 1, 1) == Poll(t, 2, 2);
  }

  /** WaitForClusterReady, proved against Poll and against the first stop directly. */
  method WaitForClusterReady(ticks: seq<Tick>) returns (ready: bool, samples: nat)
    requires Halts(ticks)
    ensures Poll(ticks, 0, 0) == Some(Outcome(ready, samples))
    ensures samples <= |ticks|
    ensures forall j :: 0 <= j < samples ==> !ticks[j].expired
    ensures forall j :: 0 <= j < samples - 1 ==> !StopsAt(ticks, j)
    ensures ready ==> RequiredReady <= samples && StableAt(ticks, samples - 1)
    ensures !ready ==> ((samples < |ticks| && ticks[samples].expired)
                     || (0 < samples && ticks[samples - 1].observation.DescribeFailed?))
  {
    ghost var stop :| 0 <= stop < |ticks| && StopsAt(ticks, stop);
    var readyCount := 0;
    var i := 0;
    while true
      invariant i <= stop
      invariant readyCount == Run(ticks, i) && readyCount < RequiredReady
      invariant forall j :: 0 <= j < i ==> !StopsAt(ticks, j)
      invariant forall j :: 0 <= j < i ==> !ticks[j].expired
      invariant Poll(ticks, i, readyCount) == Poll(ticks, 0, 0)
      decreases stop - i
    {
      if ticks[i].expired {
        return false, i;
      }
      match ticks[i].observation
      case DescribeFailed(_) =>
        return false, i + 1;
      case Status(s) =>
        if s == Available {
          readyCount := readyCount + 1;
        } else {
          readyCount := 0;
        }
        if readyCount == RequiredReady {
          forall j | i - (RequiredReady - 1) <= j <= i
            ensures IsAvailable(ticks[j])
          {
            RunIsAvailable(ticks, i + 1, i - j);
          }
          return true, i + 1;
        }
        StableRun(ticks, i);
        i := i + 1;
    }
  }

  /** WaitForInstanceReady: the same counter rule over the instance status; any
      describe error ends it with false. */
  method WaitForInstanceReady(ticks: seq<Tick>) returns (ready: bool, samples: nat)
    requires Halts(ticks)
    ensures Poll(ticks, 0, 0) == Some(Outcome(ready, samples))
    ensures samples <= |ticks|
    ensures forall j :: 0 <= j < samples ==> !ticks[j].expired
    ensures forall j :: 0 <= j < samples - 1 ==> !StopsAt(ticks, j)
    ensures ready ==> RequiredReady <= samples && StableAt(ticks, samples - 1)
    ensures !ready ==> ((samples < |ticks| && ticks[samples].expired)
                     || (0 < samples && ticks[samples - 1].observation.DescribeFailed?))
  {
    ghost var stop :| 0 <= stop < |ticks| && StopsAt(ticks, stop);
    var readyCount := 0;
    var i := 0;
    while true
      invariant i <= stop
      invariant readyCount == Run(ticks, i) && readyCount < RequiredReady
      invariant forall j :: 0 <= j < i ==> !StopsAt(ticks, j)
      invariant forall j :: 0 <= j < i ==> !ticks[j].expired
      invariant Poll(ticks, i, readyCount) == Poll(ticks, 0, 0)
      decreases stop - i
    {
      if ticks[i].expired {
        return false, i;
      }
      match ticks[i].observation
      case DescribeFailed(_) =>
        return false, i + 1;
      case Status(s) =>
        if s == Available {
          readyCount := readyCount + 1;
        } else {
          readyCount := 0;
        }
        if readyCount == RequiredReady {
          forall j | i - (RequiredReady - 1) <= j <= i
            ensures IsAvailable(ticks[j])
          {
            RunIsAvailable(ticks, i + 1, i - j);
          }
          return true, i + 1;
        }
        StableRun(ticks, i);
        i := i + 1;
    }
  }
}
