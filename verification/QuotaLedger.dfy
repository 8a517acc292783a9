/** The monthly quota: what the usage counter means and what increment, check, compensate guarantees. */
module QuotaLedger {
  import opened Wrappers
  import opened OutboundMachine
  import opened Scenarios

  ghost predicate Balanced(s: State) {
    forall p: nat :: Messages(s.quota, p) == Count(s.attempts, Charged(p))
  }

  /** One operation moves the counter of a period by what it moves the charges to that period. */
  lemma PerformBalanced(s: State, a: Attempt, line: Line, action: Action, p: nat)
    requires Can(a, action) && Sound(a)
    ensures var e := Perform(s, a, line, action);
      Messages(e.quota, p) - Messages(s.quota, p) == Weight(e.attempt, Charged(p)) - Weight(a, Charged(p))
  {
  }

  lemma BalancedAt(s: State, step: Step, p: nat)
    requires AllSound(s) && Messages(s.quota, p) == Count(s.attempts, Charged(p))
    ensures Messages(Next(s, step).quota, p) == Count(Next(s, step).attempts, Charged(p))
  {
    hide Perform;
    if Enabled(s, step) && step.Act? {
      ActShape(s, step);
      var a := s.attempts[step.i];
      assert Sound(a);
      PerformBalanced(s, a, s.lines[a.id], step.action, p);
      CountUpdate(s.attempts, step.i, Perform(s, a, s.lines[a.id], step.action).attempt, Charged(p));
    } else if Enabled(s, step) && step.Fetch? {
      CountAppend(s.attempts, NewAttempt(step.kind, step.id, s.lines[step.id].account, step.isTemplate), Charged(p));
    }
  }

  lemma BalancedStep(s: State, step: Step)
    requires AllSound(s) && Balanced(s)
    ensures Balanced(Next(s, step))
  {
    hide Perform, Next;
    forall p: nat
      ensures Messages(Next(s, step).quota, p) == Count(Next(s, step).attempts, Charged(p))
    {
      BalancedAt(s, step, p);
    }
  }

  lemma {:induction false} RunBalanced(t0: nat, steps: seq<Step>)
    ensures Balanced(Run(Start(t0), steps))
  {
    hide Perform, Next;
    if steps != [] {
      var front := steps[..|steps| - 1];
      RunBalanced(t0, front);
      RunSound(t0, front);
      BalancedStep(Run(Start(t0), front), steps[|steps| - 1]);
    }
  }

  lemma SplitOne(a: Attempt, p: nat)
    requires SoundQuota(a)
    ensures Weight(a, Charged(p)) == Weight(a, Passed(p)) + Weight(a, Unpaid(p))
    ensures Weight(a, Passed(p)) == Weight(a, InFlight(p)) + Weight(a, Ended(p, Delivered))
                                    + Weight(a, Ended(p, Blocked)) + Weight(a, Ended(p, Failed))
  {
    match a.phase {
      case Done(Delivered) =>
      case Done(Blocked) =>
      case Done(Failed) =>
      case Done(Denied) =>
      case _ =>
    }
  }

  lemma {:induction false} PassedSplit(s: seq<Attempt>, p: nat)
    requires forall j :: 0 <= j < |s| ==> Sound(s[j])
    ensures Count(s, Charged(p)) == Count(s, Passed(p)) + Count(s, Unpaid(p))
    ensures Count(s, Passed(p)) == Count(s, InFlight(p)) + Count(s, Ended(p, Delivered))
                                   + Count(s, Ended(p, Blocked)) + Count(s, Ended(p, Failed))
  {
    if s != [] {
      PassedSplit(s[..|s| - 1], p);
      assert Sound(s[|s| - 1]);
      SplitOne(s[|s| - 1], p);
    }
  }

  /** In every reachable state the usage counter of a period is deliveries + guardrail rejections
      + provider failures + attempts still in flight + refusals not compensated. */
  lemma Ledger(t0: nat, steps: seq<Step>, p: nat)
    ensures var s := Run(Start(t0), steps);
      Messages(s.quota, p) == Count(s.attempts, Ended(p, Delivered)) + Count(s.attempts, Ended(p, Blocked))
        + Count(s.attempts, Ended(p, Failed)) + Count(s.attempts, InFlight(p)) + Count(s.attempts, Unpaid(p))
  {
    RunBalanced(t0, steps);
    RunSound(t0, steps);
    PassedSplit(Run(Start(t0), steps).attempts, p);
  }

  // ---- safety and exactness ----

  ghost predicate LimitsAtMost(s: State, p: nat, most: nat) {
    forall j :: 0 <= j < |s.attempts| && s.attempts[j].meter.Some? && s.attempts[j].meter.value.period == p
                ==> s.attempts[j].meter.value.limit <= most
  }

  ghost predicate LimitsAtLeast(s: State, p: nat, least: nat) {
    forall j :: 0 <= j < |s.attempts| && s.attempts[j].meter.Some? && s.attempts[j].meter.value.period == p
                ==> least <= s.attempts[j].meter.value.limit
  }

  ghost predicate AnyRefused(s: State, p: nat) {
    exists j :: 0 <= j < |s.attempts| && s.attempts[j].meter.Some?
                && s.attempts[j].meter.value.period == p && Refused(s.attempts[j].phase)
  }

  ghost predicate WithinQuota(s: State, p: nat, most: nat) {
    LimitsAtMost(s, p, most) ==> Count(s.attempts, Passed(p)) <= most
  }

  /** An operation never un-admits, admits only below the limit and refuses only at or above it. */
  lemma PerformDecides(s: State, a: Attempt, line: Line, action: Action, p: nat)
    requires Can(a, action) && SoundQuota(a)
    ensures var a' := Perform(s, a, line, action).attempt;
      && Weight(a', Passed(p)) >= Weight(a, Passed(p))
      && (Weight(a', Passed(p)) > Weight(a, Passed(p)) ==>
            a'.meter.Some? && a'.meter.value.period == p && Messages(s.quota, p) < a'.meter.value.limit)
      && (Refused(a'.phase) && !Refused(a.phase) && a'.meter.Some? && a'.meter.value.period == p ==>
            Messages(s.quota, p) >= a'.meter.value.limit)
      && (Refused(a.phase) ==> Refused(a'.phase) && a'.meter == a.meter)
  {
  }

  lemma LimitsAtMostBefore(s: State, step: Step, p: nat, most: nat)
    requires AllSound(s) && LimitsAtMost(Next(s, step), p, most)
    ensures LimitsAtMost(s, p, most)
  {
    hide Perform, Next;
    NextExtends(s, step);
    forall j | 0 <= j < |s.attempts| && s.attempts[j].meter.Some? && s.attempts[j].meter.value.period == p
      ensures s.attempts[j].meter.value.limit <= most
    {
      assert Next(s, step).attempts[j].meter == s.attempts[j].meter;
    }
  }

  lemma PassedAtMostCharged(s: State, p: nat)
    requires AllSound(s) && Balanced(s)
    ensures Count(s.attempts, Passed(p)) <= Messages(s.quota, p)
  {
    PassedSplit(s.attempts, p);
    assert Messages(s.quota, p) == Count(s.attempts, Charged(p));
  }

  lemma WithinQuotaStep(s: State, step: Step, p: nat, most: nat)
    requires AllSound(s) && Balanced(s) && WithinQuota(s, p, most)
    ensures WithinQuota(Next(s, step), p, most)
  {
    hide Perform;
    var s' := Next(s, step);
    if LimitsAtMost(s', p, most) && Enabled(s, step) {
      LimitsAtMostBefore(s, step, p, most);
      if step.Act? {
        var a := s.attempts[step.i];
        assert Sound(a);
        ActShape(s, step);
        PerformDecides(s, a, s.lines[a.id], step.action, p);
        CountUpdate(s.attempts, step.i, s'.attempts[step.i], Passed(p));
        PassedAtMostCharged(s, p);
        assert s'.attempts[step.i].meter.Some? && s'.attempts[step.i].meter.value.period == p
               ==> s'.attempts[step.i].meter.value.limit <= most;
      } else if step.Fetch? {
        CountAppend(s.attempts, s'.attempts[|s.attempts|], Passed(p));
      }
    }
  }

  lemma {:induction false} RunWithinQuota(t0: nat, steps: seq<Step>, p: nat, most: nat)
    ensures WithinQuota(Run(Start(t0), steps), p, most)
  {
    hide Perform, Next;
    if steps != [] {
      var front := steps[..|steps| - 1];
      RunWithinQuota(t0, front, p, most);
      RunBalanced(t0, front);
      RunSound(t0, front);
      WithinQuotaStep(Run(Start(t0), front), steps[|steps| - 1], p, most);
    }
  }

  ghost predicate DeliveredFor(a: Attempt, p: nat) {
    a.meter.Some? && a.meter.value.period == p && a.phase == Done(Delivered)
  }

  /** Every delivery a worker made under a limited plan is charged to its period. */
  lemma DeliveryIsCharged(t0: nat, steps: seq<Step>, i: nat, p: nat)
    requires i < |Run(Start(t0), steps).attempts|
    ensures DeliveredFor(Run(Start(t0), steps).attempts[i], p)
            <==> Is(Run(Start(t0), steps).attempts[i], Ended(p, Delivered))
  {
    RunSound(t0, steps);
    assert Sound(Run(Start(t0), steps).attempts[i]);
  }

  /** Outbound-worker deliveries never exceed the plan limit, whatever the interleaving and however often
      jobs are retried; nor do admissions, even where compensating decrements are lost. */
  lemma NeverOverPlan(t0: nat, steps: seq<Step>, p: nat, most: nat)
    requires LimitsAtMost(Run(Start(t0), steps), p, most)
    ensures Count(Run(Start(t0), steps).attempts, Passed(p)) <= most
    ensures Count(Run(Start(t0), steps).attempts, Ended(p, Delivered)) <= most
  {
    RunWithinQuota(t0, steps, p, most);
    RunSound(t0, steps);
    PassedSplit(Run(Start(t0), steps).attempts, p);
  }

  ghost predicate RefusedOnlyWhenFull(s: State, p: nat, least: nat) {
    LimitsAtLeast(s, p, least) && AnyRefused(s, p) ==> Count(s.attempts, Passed(p)) >= least
  }

  lemma {:induction false} UnpaidIsRefused(s: seq<Attempt>, p: nat)
    requires Count(s, Unpaid(p)) > 0
    ensures exists j :: 0 <= j < |s| && s[j].meter.Some? && s[j].meter.value.period == p && Refused(s[j].phase)
  {
    if Is(s[|s| - 1], Unpaid(p)) {
    } else {
      UnpaidIsRefused(s[..|s| - 1], p);
    }
  }

  lemma LimitsAtLeastBefore(s: State, step: Step, p: nat, least: nat)
    requires AllSound(s) && LimitsAtLeast(Next(s, step), p, least)
    ensures LimitsAtLeast(s, p, least)
  {
    hide Perform;
    NextExtends(s, step);
    forall j | 0 <= j < |s.attempts| && s.attempts[j].meter.Some? && s.attempts[j].meter.value.period == p
      ensures least <= s.attempts[j].meter.value.limit
    {
      assert Next(s, step).attempts[j].meter == s.attempts[j].meter;
    }
  }

  /** With no refusal so far every charge is an admission, so the counter is the number of admissions. */
  lemma NoneUnpaid(s: State, p: nat)
    requires AllSound(s) && Balanced(s) && !AnyRefused(s, p)
    ensures Count(s.attempts, Passed(p)) == Messages(s.quota, p)
  {
    PassedSplit(s.attempts, p);
    if Count(s.attempts, Unpaid(p)) > 0 {
      UnpaidIsRefused(s.attempts, p);
    }
  }

  lemma RefusedAct(s: State, step: Step, p: nat, least: nat)
    requires AllSound(s) && Balanced(s) && RefusedOnlyWhenFull(s, p, least) && step.Act? && Enabled(s, step)
    requires LimitsAtLeast(s, p, least) && LimitsAtLeast(Next(s, step), p, least) && AnyRefused(Next(s, step), p)
    ensures Count(Next(s, step).attempts, Passed(p)) >= least
  {
    hide Perform, Next, Count, Sound;
    var s' := Next(s, step);
    var a := s.attempts[step.i];
    SoundOf(s, step.i);
    ActShape(s, step);
    PerformDecides(s, a, s.lines[a.id], step.action, p);
    CountUpdate(s.attempts, step.i, s'.attempts[step.i], Passed(p));
    if !AnyRefused(s, p) {
      NoneUnpaid(s, p);
      var j :| 0 <= j < |s'.attempts| && s'.attempts[j].meter.Some?
            && s'.attempts[j].meter.value.period == p && Refused(s'.attempts[j].phase);
      assert j == step.i;
    }
  }

  lemma RefusedOnlyWhenFullStep(s: State, step: Step, p: nat, least: nat)
    requires AllSound(s) && Balanced(s) && RefusedOnlyWhenFull(s, p, least)
    ensures RefusedOnlyWhenFull(Next(s, step), p, least)
  {
    hide Perform, Count, AllSound, Balanced, LimitsAtLeast;
    var s' := Next(s, step);
    if LimitsAtLeast(s', p, least) && AnyRefused(s', p) && Enabled(s, step) {
      LimitsAtLeastBefore(s, step, p, least);
      if step.Act? {
        RefusedAct(s, step, p, least);
      } else {
        var j :| 0 <= j < |s'.attempts| && s'.attempts[j].meter.Some?
              && s'.attempts[j].meter.value.period == p && Refused(s'.attempts[j].phase);
        assert j < |s.attempts| && s.attempts[j] == s'.attempts[j];
        if step.Fetch? { CountAppend(s.attempts, s'.attempts[|s.attempts|], Passed(p)); }
      }
    }
  }

  lemma {:induction false} RunRefusedOnlyWhenFull(t0: nat, steps: seq<Step>, p: nat, least: nat)
    ensures RefusedOnlyWhenFull(Run(Start(t0), steps), p, least)
  {
    hide Perform, Next;
    if steps != [] {
      var front := steps[..|steps| - 1];
      RunRefusedOnlyWhenFull(t0, front, p, least);
      RunBalanced(t0, front);
      RunSound(t0, front);
      RefusedOnlyWhenFullStep(Run(Start(t0), front), steps[|steps| - 1], p, least);
    }
  }

  /** A send is refused only once exactly `limit` sends of the period have been admitted, even where
      compensating decrements are lost. Holds from the refusing increment on. */
  lemma RefusalIsExact(t0: nat, steps: seq<Step>, p: nat, limit: nat)
    requires LimitsAtMost(Run(Start(t0), steps), p, limit)
    requires LimitsAtLeast(Run(Start(t0), steps), p, limit)
    requires AnyRefused(Run(Start(t0), steps), p)
    ensures Count(Run(Start(t0), steps).attempts, Passed(p)) == limit
  {
    RunWithinQuota(t0, steps, p, limit);
    RunRefusedOnlyWhenFull(t0, steps, p, limit);
  }

  // ---- the counter and the messages sent ----

  lemma {:induction false} SentSplit(s: seq<Attempt>, p: nat)
    ensures Count(s, Charged(p)) - Count(s, ChargedNotSent(p)) == Count(s, SentIn(p)) - Count(s, SentNotCharged(p))
  {
    if s != [] { SentSplit(s[..|s| - 1], p); }
  }

  /** The schema calls the counter the messages sent in the month. Over every run it differs from them, outbound
      and campaign sends alike, by the charged attempts not sent in the month less the sends not charged to it;
      so it is what it is called if and only if these two classes are equally large. */
  lemma CounterAgainstSends(t0: nat, steps: seq<Step>, p: nat)
    ensures var s := Run(Start(t0), steps);
      && Messages(s.quota, p) - Count(s.attempts, ChargedNotSent(p)) == Count(s.attempts, SentIn(p)) - Count(s.attempts, SentNotCharged(p))
      && (Messages(s.quota, p) == Count(s.attempts, SentIn(p))
          <==> Count(s.attempts, ChargedNotSent(p)) == Count(s.attempts, SentNotCharged(p)))
  {
    hide Run;
    RunBalanced(t0, steps);
    SentSplit(Run(Start(t0), steps).attempts, p);
  }

  /** Who is in the two classes: an uncharged send is a campaign send, a send under an unlimited plan, or one
      charged to the month before it went out; a charged attempt that was not sent was refused without
      compensation, stopped by the guardrails, failed by the provider, is still running, or went out in a
      later month. */
  lemma Mismatches(t0: nat, steps: seq<Step>, i: nat, p: nat)
    requires i < |Run(Start(t0), steps).attempts|
    ensures var a := Run(Start(t0), steps).attempts[i];
      && (Is(a, SentNotCharged(p)) <==>
            && a.phase == Done(Delivered) && a.sent == Some(p)
            && (a.kind.Campaign? || a.meter.None? || a.meter.value.period < p))
      && (Is(a, ChargedNotSent(p)) <==>
            || Is(a, Unpaid(p)) || Is(a, Ended(p, Blocked)) || Is(a, Ended(p, Failed)) || Is(a, InFlight(p))
            || (Is(a, Ended(p, Delivered)) && a.sent.Some? && a.sent.value > p))
  {
    hide Run;
    RunSound(t0, steps);
    RunMonths(t0, steps);
    var s := Run(Start(t0), steps);
    SoundOf(s, i);
    assert InOrder(s.period, s.attempts[i]);
    SplitOne(s.attempts[i], p);
  }

  /** An attempt is metered no later than it is sent. */
  ghost predicate InOrder(period: nat, a: Attempt) {
    && (a.meter.Some? ==> a.meter.value.period <= period)
    && (a.sent.Some? && a.meter.Some? ==> a.meter.value.period <= a.sent.value)
  }

  lemma PerformInOrder(s: State, a: Attempt, line: Line, action: Action)
    requires Can(a, action) && Sound(a) && InOrder(s.period, a)
    ensures InOrder(s.period, Perform(s, a, line, action).attempt)
  {
  }

  lemma {:induction false} RunMonths(t0: nat, steps: seq<Step>)
    ensures var s := Run(Start(t0), steps); forall j :: 0 <= j < |s.attempts| ==> InOrder(s.period, s.attempts[j])
  {
    hide Perform;
    if steps != [] {
      var front := steps[..|steps| - 1];
      var step := steps[|steps| - 1];
      var s := Run(Start(t0), front);
      RunMonths(t0, front);
      RunSound(t0, front);
      if step.Act? && Enabled(s, step) {
        SoundOf(s, step.i);
        PerformInOrder(s, s.attempts[step.i], s.lines[s.attempts[step.i].id], step.action);
      }
    }
  }

  // ---- three short runs ----

  /** One outbound attempt under a limit of one, up to the guardrails. */
  lemma Admitted() returns (steps: seq<Step>, s: State, e: Effect)
    ensures |s.attempts| == 1 && Run(Start(0), steps) == Put(s, 0, e)
    ensures e.attempt.snapshot == OPEN && e.attempt.phase.Cleared? && e.attempt.id == "a" && e.attempt.sent.None? && e.line.rate.NoRateKey?
    ensures s.plan == Some(1) && s.period == 0 && e.quota == map[0 := 1] && e.line.account == OPEN
  {
    hide Run;
    steps := Go(0, [], Configure("a", OPEN));
    assert Run(Start(0), []) == Start(0) by { EmptyRun(0); }
    steps := Go(0, steps, SetPlan(Some(1)));
    steps, s := NewJob(0, steps, Outbound, "a");
    steps, e := Do(0, steps, s, 0, Taken(s, 0), GetContext);
    steps, e := Do(0, steps, s, 0, e, QuotaIncr);
  }

  /** The counter can reach the limit with nothing sent: with a limit of one, a provider failure uses the month
      up and the retry is refused. */
  lemma FailureUsesQuota() returns (steps: seq<Step>)
    ensures var s := Run(Start(0), steps);
      && |s.attempts| == 2 && s.attempts[0].phase == Done(Failed) && Refused(s.attempts[1].phase)
      && Count(s.attempts, SentIn(0)) == 0
  {
    hide Run;
    var s, e;
    steps, s, e := Admitted();
    steps, e := OpenSend(0, steps, s, 0, e, false);
    steps, s := NewJob(0, steps, Outbound, "a");
    steps, e := Do(0, steps, s, 1, Taken(s, 1), GetContext);
    steps, e := Do(0, steps, s, 1, e, QuotaIncr);
    CountNone(Run(Start(0), steps).attempts, SentIn(0));
  }

  /** A campaign message goes out under a limited plan and the counter does not move. */
  lemma CampaignIsUncounted() returns (steps: seq<Step>)
    ensures var s := Run(Start(0), steps);
      s.plan == Some(1) && Count(s.attempts, SentIn(0)) == 1 && Messages(s.quota, 0) == 0
  {
    hide Run;
    steps := Go(0, [], Configure("a", OPEN));
    assert Run(Start(0), []) == Start(0) by { EmptyRun(0); }
    steps := Go(0, steps, SetPlan(Some(1)));
    var s, e;
    steps, s := NewJob(0, steps, Campaign, "a");
    steps, e := OpenSend(0, steps, s, 0, Taken(s, 0), true);
    OneOf(Run(Start(0), steps).attempts, SentIn(0));
  }

  /** So does an outbound message under an unlimited plan. */
  lemma UnlimitedIsUncounted() returns (steps: seq<Step>)
    ensures var s := Run(Start(0), steps);
      s.plan == None && Count(s.attempts, SentIn(0)) == 1 && Messages(s.quota, 0) == 0
  {
    hide Run;
    steps := Go(0, [], Configure("a", OPEN));
    assert Run(Start(0), []) == Start(0) by { EmptyRun(0); }
    var s, e;
    steps, s := NewJob(0, steps, Outbound, "a");
    steps, e := Do(0, steps, s, 0, Taken(s, 0), GetContext);
    steps, e := OpenSend(0, steps, s, 0, e, true);
    OneOf(Run(Start(0), steps).attempts, SentIn(0));
  }

  lemma OneOf(s: seq<Attempt>, t: Tally)
    requires |s| == 1
    ensures Count(s, t) == Weight(s[0], t)
  {
    assert s[..0] == [];
  }
}
