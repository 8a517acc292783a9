/**
 Who may be written to: over every interleaving no attempt reaches the provider on a paused account, none of a
 META_CLOUD account sends free text to a cold contact, none of an EVOLUTION account sends to a cold contact at all.
 */
module ServiceWindow {
  import opened Wrappers
  import opened OutboundMachine

  predicate BeforeScreen(p: Phase) {
    p.Fetched? || p.Metered? || p.OverQuota? || p.Cleared? || p == Done(Denied)
  }

  ghost predicate Fine(account: Account, isTemplate: bool, cold: bool) {
    && !account.outboundPaused
    && (account.provider.MetaCloud? && cold ==> isTemplate)
    && (account.provider.Evolution? ==> !cold)
  }

  /** An attempt past the screen without being blocked has passed all three rules. */
  ghost predicate Passed(a: Attempt) {
    && (a.cold.None? <==> BeforeScreen(a.phase))
    && (a.cold.Some? && a.phase != Done(Blocked) ==> Fine(a.snapshot, a.isTemplate, a.cold.value))
    && (a.phase.RefundRead? || a.phase.RefundDecr? ==> a.phase.why.Blocked? || a.phase.why.Failed?)
    && (a.sent.Some? ==> a.phase == Done(Delivered))
  }

  ghost predicate Kept(a: Attempt, b: Attempt) {
    && b.id == a.id && b.snapshot == a.snapshot && b.isTemplate == a.isTemplate
    && (a.cold.Some? ==> b.cold == a.cold)
  }

  lemma PerformPassed(s: State, a: Attempt, line: Line, action: Action)
    requires Can(a, action) && Passed(a)
    ensures Passed(Perform(s, a, line, action).attempt) && Kept(a, Perform(s, a, line, action).attempt)
  {
    hide Perform, Passed, Kept;
    if action.Screen? {
      ScreenPassed(s, a, line, action);
    } else if action.Send? || action.GetForRefund? || action.DecrForRefund? || action.RefundLost? {
      LatePassed(s, a, line, action);
    } else if action.GetContext? || action.QuotaIncr? || action.QuotaUndo? {
      QuotaPassed(s, a, line, action);
    } else {
      CounterPassed(s, a, line, action);
    }
  }

  lemma ScreenPassed(s: State, a: Attempt, line: Line, action: Action)
    requires Can(a, action) && Passed(a) && action.Screen?
    ensures Passed(Perform(s, a, line, action).attempt) && Kept(a, Perform(s, a, line, action).attempt)
  {
  }

  lemma LatePassed(s: State, a: Attempt, line: Line, action: Action)
    requires Can(a, action) && Passed(a)
    requires action.Send? || action.GetForRefund? || action.DecrForRefund? || action.RefundLost?
    ensures Passed(Perform(s, a, line, action).attempt) && Kept(a, Perform(s, a, line, action).attempt)
  {
    hide Fine;
  }

  lemma QuotaPassed(s: State, a: Attempt, line: Line, action: Action)
    requires Can(a, action) && Passed(a) && (action.GetContext? || action.QuotaIncr? || action.QuotaUndo?)
    ensures Passed(Perform(s, a, line, action).attempt) && Kept(a, Perform(s, a, line, action).attempt)
  {
    hide Fine, Messages;
  }

  lemma CounterPassed(s: State, a: Attempt, line: Line, action: Action)
    requires Can(a, action) && Passed(a)
    requires action.RateIncr? || action.RateExpire? || action.DailyRead? || action.DailyIncr? || action.DailyExpire?
    ensures Passed(Perform(s, a, line, action).attempt) && Kept(a, Perform(s, a, line, action).attempt)
  {
    hide Fine, CapFor, IncrRate, ExpireRate, IncrDay, ExpireDay;
  }

  ghost predicate AllPassed(attempts: seq<Attempt>) { forall j :: 0 <= j < |attempts| ==> Passed(attempts[j]) }

  lemma NextPassed(s: State, step: Step)
    requires AllPassed(s.attempts)
    ensures AllPassed(Next(s, step).attempts) && |s.attempts| <= |Next(s, step).attempts|
    ensures forall j :: 0 <= j < |s.attempts| ==> Kept(s.attempts[j], Next(s, step).attempts[j])
  {
    hide Perform;
    if Enabled(s, step) && step.Act? {
      ActShape(s, step);
      PerformPassed(s, s.attempts[step.i], s.lines[s.attempts[step.i].id], step.action);
    }
  }

  lemma {:induction false} RunPassed(s: State, steps: seq<Step>)
    requires AllPassed(s.attempts)
    ensures AllPassed(Run(s, steps).attempts) && |s.attempts| <= |Run(s, steps).attempts|
    ensures forall j :: 0 <= j < |s.attempts| ==> Kept(s.attempts[j], Run(s, steps).attempts[j])
  {
    hide Next, Passed;
    if steps != [] {
      RunPassed(s, steps[..|steps| - 1]);
      NextPassed(Run(s, steps[..|steps| - 1]), steps[|steps| - 1]);
    }
  }

  /** Every attempt the provider took a message of went through the screen, and was within all three rules there. */
  lemma DeliveredWithinRules(t0: nat, steps: seq<Step>, j: nat)
    requires j < |Run(Start(t0), steps).attempts| && Run(Start(t0), steps).attempts[j].sent.Some?
    ensures var a := Run(Start(t0), steps).attempts[j];
      && a.cold.Some? && !a.snapshot.outboundPaused
      && (a.snapshot.provider.MetaCloud? && a.cold.value ==> a.isTemplate)
      && (a.snapshot.provider.Evolution? ==> !a.cold.value)
  {
    hide Run;
    RunPassed(Start(t0), steps);
  }

  lemma ScreenDecides(s: State, i: nat, cold: bool)
    requires Enabled(s, Act(i, Screen(cold)))
    ensures var a := s.attempts[i]; var b := Next(s, Act(i, Screen(cold))).attempts[i];
      && b.cold == Some(cold)
      && b.phase == (if !a.snapshot.outboundPaused && (a.snapshot.provider.MetaCloud? && cold ==> a.isTemplate)
                        && (a.snapshot.provider.Evolution? ==> !cold) then Phase.Screened else Done(Blocked))
  {
  }

  /** The life of one attempt inside any run: the row fetched, whatever happens to the account meanwhile, and the
      answer its own look-up gets decide whether it passes the screen; if the rules forbid it, it is never sent. */
  lemma ForbiddenNeverSent(t0: nat, before: seq<Step>, kind: Kind, id: AccountId, isTemplate: bool,
                           between: seq<Step>, cold: bool, later: seq<Step>)
    requires id in Run(Start(t0), before).lines
    requires var s := Run(Start(t0), before);
      Enabled(Run(Next(s, Fetch(kind, id, isTemplate)), between), Act(|s.attempts|, Screen(cold)))
    ensures var s := Run(Start(t0), before);
      var i, row := |s.attempts|, s.lines[id].account;
      var screened := Next(Run(Next(s, Fetch(kind, id, isTemplate)), between), Act(i, Screen(cold)));
      var fine := !row.outboundPaused && (row.provider.MetaCloud? && cold ==> isTemplate) && (row.provider.Evolution? ==> !cold);
      && i < |screened.attempts| <= |Run(screened, later).attempts|
      && screened.attempts[i].phase == (if fine then Phase.Screened else Done(Blocked))
      && (!fine ==> Run(screened, later).attempts[i].sent.None?)
  {
    hide Run, Passed, Next;
    var s := Run(Start(t0), before);
    var i, row := |s.attempts|, s.lines[id].account;
    var fetched := Next(s, Fetch(kind, id, isTemplate));
    var mid := Run(fetched, between);
    var screened := Next(mid, Act(i, Screen(cold)));
    RunPassed(Start(t0), before);
    NextPassed(s, Fetch(kind, id, isTemplate));
    FetchedRow(s, kind, id, isTemplate);
    RunPassed(fetched, between);
    NextPassed(mid, Act(i, Screen(cold)));
    ScreenDecides(mid, i, cold);
    RunPassed(screened, later);
    if Run(screened, later).attempts[i].sent.Some? { SentIsFine(Run(screened, later).attempts[i]); }
  }

  lemma FetchedRow(s: State, kind: Kind, id: AccountId, isTemplate: bool)
    requires id in s.lines
    ensures var t := Next(s, Fetch(kind, id, isTemplate));
      && |t.attempts| == |s.attempts| + 1 && t.attempts[|s.attempts|].id == id
      && t.attempts[|s.attempts|].snapshot == s.lines[id].account && t.attempts[|s.attempts|].isTemplate == isTemplate
  {
  }

  lemma SentIsFine(a: Attempt)
    requires Passed(a) && a.sent.Some?
    ensures a.cold.Some? && !a.snapshot.outboundPaused
    ensures (a.snapshot.provider.MetaCloud? && a.cold.value ==> a.isTemplate) && (a.snapshot.provider.Evolution? ==> !a.cold.value)
  {
  }
}
