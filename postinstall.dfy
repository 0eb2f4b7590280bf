/** The install script (scripts/postinstall.js): `requireSelenium`, which
    retries loading selenium-standalone with exponential backoff, and the
    NOSELENIUM gate around the driver install.

    Whether `require('selenium-standalone')` succeeds at a given attempt is the
    parameter `loads`; timers are not run, only the delay they are given is
    recorded. */
module Postinstall {
  import opened Wrappers
  import opened Lists

  /** `Math.pow(2, k)`. */
  function Pow2(k: nat): (r: nat)
    ensures r >= 1
  {
    if k == 0 then 1 else 2 * Pow2(k - 1)
  }

  /** The observable steps of `requireSelenium`: a retry scheduled with
      `setTimeout` (the attempt it will run and its delay), a call of `done`
      with the module (`loaded`) or with `undefined`, and the rethrow. */
  datatype Event = Retry(attempt: nat, delay: nat) | Done(loaded: bool) | Rethrow

  /** The highest attempt after whose failure a retry is still scheduled
      (`attempt > 3` rethrows). */
  const LastRetriedAttempt: nat := 3

  function Remaining(attempt: nat): nat {
    if attempt <= LastRetriedAttempt + 1 then LastRetriedAttempt + 2 - attempt else 0
  }

  /** `requireSelenium(done, attempt)` as written: a failed attempt that
      schedules a retry still falls through to `done(undefined)`. */
  function RequireTrace(loads: nat -> bool, attempt: nat): (r: seq<Event>)
    ensures r != [] && (r[0] == Done(true) <==> loads(attempt))
    decreases Remaining(attempt)
  {
    if loads(attempt) then [Done(true)]
    else if attempt > LastRetriedAttempt then [Rethrow]
    else [Retry(attempt + 1, Pow2(attempt)), Done(false)] + RequireTrace(loads, attempt + 1)
  }

  /** `requireSelenium` as evidently intended: a failed attempt that schedules
      a retry returns without calling `done`. */
  function IntendedTrace(loads: nat -> bool, attempt: nat): (r: seq<Event>)
    ensures r != [] && (r[0] == Done(true) <==> loads(attempt))
    decreases Remaining(attempt)
  {
    if loads(attempt) then [Done(true)]
    else if attempt > LastRetriedAttempt then [Rethrow]
    else [Retry(attempt + 1, Pow2(attempt))] + IntendedTrace(loads, attempt + 1)
  }

  /** `attempt || 0`. */
  function FirstAttempt(attempt: Option<nat>): nat {
    attempt.GetOr(0)
  }

  /** The attempts one `requireSelenium` run makes: its first one and one per
      scheduled retry. */
  function Attempts(trace: seq<Event>): nat {
    if trace == [] then 1 else (if trace[0].Retry? then 1 else 0) + Attempts(trace[1..])
  }

  /** `requireSelenium` as written, with its self-rescheduling turned into a
      loop over attempts. */
  method RequireSelenium(loads: nat -> bool, attempt: Option<nat>) returns (trace: seq<Event>)
    ensures trace == RequireTrace(loads, FirstAttempt(attempt))
  {
    var k: nat := FirstAttempt(attempt);
    trace := [];
    while true
      invariant trace + RequireTrace(loads, k) == RequireTrace(loads, FirstAttempt(attempt))
      decreases Remaining(k)
    {
      if loads(k) {
        trace := trace + [Done(true)];
        return;
      }
      if k > LastRetriedAttempt {
        trace := trace + [Rethrow];
        return;
      }
      var step := [Retry(k + 1, Pow2(k)), Done(false)];
      assert RequireTrace(loads, k) == step + RequireTrace(loads, k + 1);
      Associate(trace, step, RequireTrace(loads, k + 1));
      trace := trace + step;
      k := k + 1;
    }
  }

  /** The corrected `requireSelenium`, with the same loop. */
  method RequireSeleniumIntended(loads: nat -> bool, attempt: Option<nat>) returns (trace: seq<Event>)
    ensures trace == IntendedTrace(loads, FirstAttempt(attempt))
  {
    var k: nat := FirstAttempt(attempt);
    trace := [];
    while true
      invariant trace + IntendedTrace(loads, k) == IntendedTrace(loads, FirstAttempt(attempt))
      decreases Remaining(k)
    {
      if loads(k) {
        trace := trace + [Done(true)];
        return;
      }
      if k > LastRetriedAttempt {
        trace := trace + [Rethrow];
        return;
      }
      var step := [Retry(k + 1, Pow2(k))];
      assert IntendedTrace(loads, k) == step + IntendedTrace(loads, k + 1);
      Associate(trace, step, IntendedTrace(loads, k + 1));
      trace := trace + step;
      k := k + 1;
    }
  }

  /** The last attempt a run from `attempt` can make. */
  function FinalAttempt(attempt: nat): nat {
    if attempt <= LastRetriedAttempt + 1 then LastRetriedAttempt + 1 else attempt
  }

  /** Backoff rule, as written: every retry is for the next attempt, after
      `2^k` for the failed attempt `k`, and no attempt after 4 is scheduled. */
  lemma {:induction false} RequireTraceBackoff(loads: nat -> bool, attempt: nat)
    ensures forall e | e in RequireTrace(loads, attempt) && e.Retry? ::
              attempt < e.attempt <= LastRetriedAttempt + 1 && e.delay == Pow2(e.attempt - 1)
    decreases Remaining(attempt)
  {
    if !loads(attempt) && attempt <= LastRetriedAttempt {
      RequireTraceBackoff(loads, attempt + 1);
    }
  }

  /** The run ends by handing over the module or by rethrowing. */
  lemma {:induction false} RequireTraceEnds(loads: nat -> bool, attempt: nat)
    ensures var t := RequireTrace(loads, attempt);
            t != [] && (t[|t| - 1] == Done(true) || t[|t| - 1] == Rethrow)
    decreases Remaining(attempt)
  {
    if !loads(attempt) && attempt <= LastRetriedAttempt {
      RequireTraceEnds(loads, attempt + 1);
      var rest := RequireTrace(loads, attempt + 1);
      var t := [Retry(attempt + 1, Pow2(attempt)), Done(false)] + rest;
      assert RequireTrace(loads, attempt) == t;
      assert t[|t| - 1] == rest[|rest| - 1];
    }
  }

  /** The run rethrows exactly when every attempt up to the last one failed. */
  lemma {:induction false} RequireTraceRethrows(loads: nat -> bool, attempt: nat)
    ensures var t := RequireTrace(loads, attempt);
            t != [] && (t[|t| - 1] == Rethrow <==> forall k :: attempt <= k <= FinalAttempt(attempt) ==> !loads(k))
    decreases Remaining(attempt)
  {
    if !loads(attempt) && attempt <= LastRetriedAttempt {
      RequireTraceRethrows(loads, attempt + 1);
      var rest := RequireTrace(loads, attempt + 1);
      var t := [Retry(attempt + 1, Pow2(attempt)), Done(false)] + rest;
      assert RequireTrace(loads, attempt) == t;
      assert t[|t| - 1] == rest[|rest| - 1];
      assert FinalAttempt(attempt) == FinalAttempt(attempt + 1);
    }
  }

  /** A run from attempt `k` makes at most `5 - k` `require` attempts, so one
      started without an attempt number makes at most five. */
  lemma {:induction false} RequireTraceAttempts(loads: nat -> bool, attempt: nat)
    ensures attempt <= LastRetriedAttempt + 1 ==>
              Attempts(RequireTrace(loads, attempt)) <= LastRetriedAttempt + 2 - attempt
    ensures attempt > LastRetriedAttempt + 1 ==> Attempts(RequireTrace(loads, attempt)) == 1
    decreases Remaining(attempt)
  {
    if !loads(attempt) && attempt <= LastRetriedAttempt {
      RequireTraceAttempts(loads, attempt + 1);
      var rest := RequireTrace(loads, attempt + 1);
      var t := [Retry(attempt + 1, Pow2(attempt)), Done(false)] + rest;
      assert t[1..] == [Done(false)] + rest && t[1..][1..] == rest;
    } else if loads(attempt) {
      assert [Done(true)][1..] == [];
    } else {
      assert [Rethrow][1..] == [];
    }
  }

  /** The defect, on the smallest input: require fails once and then succeeds.
      As written `done` runs twice, first with `undefined`. */
  lemma FallThroughCallsDoneWithUndefined()
    ensures RequireTrace(k => k == 1, 0) == [Retry(1, 1), Done(false), Done(true)]
    ensures IntendedTrace(k => k == 1, 0) == [Retry(1, 1), Done(true)]
  {
  }

  /** As written, any failed first attempt hands `undefined` to `done` right
      after scheduling the retry. */
  lemma FailedAttemptFallsThrough(loads: nat -> bool, attempt: nat)
    requires !loads(attempt) && attempt <= LastRetriedAttempt
    ensures RequireTrace(loads, attempt)[..2] == [Retry(attempt + 1, Pow2(attempt)), Done(false)]
  {
  }

  /** The corrected run calls `done` at most once, never with `undefined`, and
      that call or the rethrow is its last step; every step before it is a
      retry. */
  lemma {:induction false} IntendedTraceCorrect(loads: nat -> bool, attempt: nat)
    ensures var t := IntendedTrace(loads, attempt);
            && t != []
            && (t[|t| - 1] == Done(true) || t[|t| - 1] == Rethrow)
            && forall i :: 0 <= i < |t| - 1 ==> t[i].Retry?
    decreases Remaining(attempt)
  {
    if !loads(attempt) && attempt <= LastRetriedAttempt {
      IntendedTraceCorrect(loads, attempt + 1);
      var rest := IntendedTrace(loads, attempt + 1);
      assert IntendedTrace(loads, attempt) == [Retry(attempt + 1, Pow2(attempt))] + rest;
      PrependRetry(Retry(attempt + 1, Pow2(attempt)), rest);
    }
  }

  /** A retry in front of a run of retries keeps the run's last step. */
  lemma PrependRetry(r: Event, rest: seq<Event>)
    requires r.Retry? && rest != [] && forall i :: 0 <= i < |rest| - 1 ==> rest[i].Retry?
    ensures var t := [r] + rest;
            t[|t| - 1] == rest[|rest| - 1] && forall i :: 0 <= i < |t| - 1 ==> t[i].Retry?
  {
    var t := [r] + rest;
    forall i | 0 <= i < |t| - 1 ensures t[i].Retry? {
      if i > 0 {
        assert t[i] == rest[i - 1];
      }
    }
  }

  /** Backoff rule of the corrected run, the same as the original's. */
  lemma {:induction false} IntendedTraceBackoff(loads: nat -> bool, attempt: nat)
    ensures forall e | e in IntendedTrace(loads, attempt) && e.Retry? ::
              attempt < e.attempt <= LastRetriedAttempt + 1 && e.delay == Pow2(e.attempt - 1)
    decreases Remaining(attempt)
  {
    if !loads(attempt) && attempt <= LastRetriedAttempt {
      IntendedTraceBackoff(loads, attempt + 1);
    }
  }

  /** The corrected run rethrows exactly when every attempt up to the last one
      failed. */
  lemma {:induction false} IntendedTraceRethrows(loads: nat -> bool, attempt: nat)
    ensures var t := IntendedTrace(loads, attempt);
            t != [] && (t[|t| - 1] == Rethrow <==> forall k :: attempt <= k <= FinalAttempt(attempt) ==> !loads(k))
    decreases Remaining(attempt)
  {
    if !loads(attempt) && attempt <= LastRetriedAttempt {
      IntendedTraceRethrows(loads, attempt + 1);
      var rest := IntendedTrace(loads, attempt + 1);
      var t := [Retry(attempt + 1, Pow2(attempt))] + rest;
      assert IntendedTrace(loads, attempt) == t;
      assert t[|t| - 1] == rest[|rest| - 1];
      assert FinalAttempt(attempt) == FinalAttempt(attempt + 1);
    }
  }

  // ---------------------------------------------------------------------------
  // The NOSELENIUM gate

  /** `!process.env.NOSELENIUM`: the install runs when the variable is unset or
      empty. */
  predicate InstallRequested(noSelenium: Option<string>) {
    noSelenium.None? || noSelenium.value == ""
  }

  /** How the script ends: install skipped with a message, the driver install
      started, or the process dying on an exception. */
  datatype ScriptOutcome = Skipped | InstallStarted | Crashed

  /** The first terminal step of a `requireSelenium` run decides the script:
      `done(module)` starts the install, `done(undefined)` dies on
      `undefined.install`, and a rethrow is uncaught. */
  function FirstOutcome(trace: seq<Event>): (r: ScriptOutcome)
    ensures r != Skipped
    ensures r == InstallStarted <==> exists i :: 0 <= i < |trace| && trace[i] == Done(true) &&
                                               forall j :: 0 <= j < i ==> trace[j].Retry?
  {
    if trace == [] then Crashed
    else match trace[0]
      case Retry(_, _) => FirstOutcome(trace[1..])
      case Done(loaded) => if loaded then InstallStarted else Crashed
      case Rethrow => Crashed
  }

  /** The script as written. */
  function PostinstallAsWritten(noSelenium: Option<string>, loads: nat -> bool): (r: ScriptOutcome)
    ensures r == Skipped <==> !InstallRequested(noSelenium)
  {
    if InstallRequested(noSelenium) then FirstOutcome(RequireTrace(loads, 0)) else Skipped
  }

  /** The script with the corrected `requireSelenium`. */
  function PostinstallCorrected(noSelenium: Option<string>, loads: nat -> bool): (r: ScriptOutcome)
    ensures r == Skipped <==> !InstallRequested(noSelenium)
  {
    if InstallRequested(noSelenium) then FirstOutcome(IntendedTrace(loads, 0)) else Skipped
  }

  /** As written, the install only starts when the very first require works:
      any retry is cut short by the crash in `done(undefined)`. */
  lemma AsWrittenNeedsFirstLoad(noSelenium: Option<string>, loads: nat -> bool)
    ensures PostinstallAsWritten(noSelenium, loads) == Skipped <==> !InstallRequested(noSelenium)
    ensures InstallRequested(noSelenium) ==>
              (PostinstallAsWritten(noSelenium, loads) == InstallStarted <==> loads(0))
  {
    if !loads(0) {
      var t := RequireTrace(loads, 0);
      assert t[0].Retry? && t[1] == Done(false);
    }
  }

  lemma {:induction false} IntendedOutcome(loads: nat -> bool, attempt: nat)
    ensures FirstOutcome(IntendedTrace(loads, attempt)) == InstallStarted <==>
              exists k :: attempt <= k <= FinalAttempt(attempt) && loads(k)
    decreases Remaining(attempt)
  {
    if !loads(attempt) && attempt <= LastRetriedAttempt {
      IntendedOutcome(loads, attempt + 1);
      var t := IntendedTrace(loads, attempt);
      assert t[1..] == IntendedTrace(loads, attempt + 1);
      if exists k :: attempt <= k <= FinalAttempt(attempt) && loads(k) {
        var k :| attempt <= k <= FinalAttempt(attempt) && loads(k);
        assert attempt + 1 <= k;
      }
    }
  }

  /** With NOSELENIUM set nothing is installed; otherwise the corrected script
      starts the install exactly when one of the five attempts loads the
      module. */
  lemma PostinstallGate(noSelenium: Option<string>, loads: nat -> bool)
    ensures PostinstallCorrected(noSelenium, loads) == Skipped <==> !InstallRequested(noSelenium)
    ensures InstallRequested(noSelenium) ==>
              (PostinstallCorrected(noSelenium, loads) == InstallStarted <==> exists k :: 0 <= k <= 4 && loads(k))
  {
    IntendedOutcome(loads, 0);
  }
}
