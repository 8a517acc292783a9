/** Concrete runs, built one step at a time: one attempt acts while everything else stands still. */
module Scenarios {
  import opened Wrappers
  import opened OutboundMachine

  lemma Go(t0: nat, steps: seq<Step>, step: Step) returns (more: seq<Step>)
    ensures more == steps + [step]
    ensures Run(Start(t0), more) == Next(Run(Start(t0), steps), step)
  {
    more := steps + [step];
    assert more[..|more| - 1] == steps;
  }

  lemma EmptyRun(t0: nat)
    ensures Run(Start(t0), []) == Start(t0)
  {
  }

  /** State s with attempt i, its account's line and the quota as `e` has them. */
  function Put(s: State, i: nat, e: Effect): State
    requires i < |s.attempts|
  {
    s.(attempts := s.attempts[i := e.attempt], lines := s.lines[e.attempt.id := e.line], quota := e.quota)
  }

  function Taken(s: State, i: nat): Effect
    requires i < |s.attempts| && s.attempts[i].id in s.lines
  {
    Effect(s.attempts[i], s.lines[s.attempts[i].id], s.quota)
  }

  lemma PutTaken(s: State, i: nat)
    requires i < |s.attempts| && s.attempts[i].id in s.lines
    ensures Put(s, i, Taken(s, i)) == s
  {
    assert s.attempts[i := s.attempts[i]] == s.attempts;
    assert s.lines[s.attempts[i].id := s.lines[s.attempts[i].id]] == s.lines;
  }

  lemma ActAt(s: State, i: nat, e: Effect, action: Action)
    requires i < |s.attempts| && Can(e.attempt, action)
    ensures var f := Perform(Put(s, i, e), e.attempt, e.line, action);
      f.attempt.id == e.attempt.id ==> Next(Put(s, i, e), Act(i, action)) == Put(s, i, f)
  {
    hide Perform;
    var t := Put(s, i, e);
    var f := Perform(t, e.attempt, e.line, action);
    ActShape(t, Act(i, action));
    assert t.attempts[i := f.attempt] == s.attempts[i := f.attempt];
  }

  /** Attempt i goes on by one operation. */
  lemma Do(t0: nat, steps: seq<Step>, s: State, i: nat, e: Effect, action: Action) returns (more: seq<Step>, f: Effect)
    requires i < |s.attempts| && Can(e.attempt, action) && Run(Start(t0), steps) == Put(s, i, e)
    requires Perform(Put(s, i, e), e.attempt, e.line, action).attempt.id == e.attempt.id
    ensures more == steps + [Act(i, action)]
    ensures f == Perform(Put(s, i, e), e.attempt, e.line, action)
    ensures Run(Start(t0), more) == Put(s, i, f)
  {
    hide Perform, Run, Next;
    more := Go(t0, steps, Act(i, action));
    ActAt(s, i, e, action);
    f := Perform(Put(s, i, e), e.attempt, e.line, action);
  }

  /** A new attempt, about to act. */
  lemma NewJob(t0: nat, steps: seq<Step>, kind: Kind, id: AccountId) returns (more: seq<Step>, s: State)
    requires id in Run(Start(t0), steps).lines
    ensures more == steps + [Fetch(kind, id, false)]
    ensures var before := Run(Start(t0), steps);
      && s == before.(attempts := before.attempts + [NewAttempt(kind, id, before.lines[id].account, false)])
      && Run(Start(t0), more) == s == Put(s, |before.attempts|, Taken(s, |before.attempts|))
  {
    hide Run;
    more := Go(t0, steps, Fetch(kind, id, false));
    s := Run(Start(t0), more);
    PutTaken(s, |s.attempts| - 1);
  }

  /** An account without any limit. */
  const OPEN := Account(Evolution, 0, 0, false, false, 0)

  /** From the guardrails to the provider, on an account without limits. */
  lemma OpenSend(t0: nat, steps: seq<Step>, s: State, i: nat, e: Effect, ok: bool) returns (more: seq<Step>, f: Effect)
    requires i < |s.attempts| && Run(Start(t0), steps) == Put(s, i, e)
    requires e.attempt.snapshot == OPEN && e.attempt.phase.Cleared? && e.line.rate.Value() <= 0
    ensures Run(Start(t0), more) == Put(s, i, f) && f.line == e.line && f.quota == e.quota
    ensures f.attempt == if ok then e.attempt.(phase := Done(Delivered), cold := Some(false), sent := Some(s.period))
                         else e.attempt.(phase := Done(Failed), cold := Some(false))
  {
    hide Run;
    more, f := Do(t0, steps, s, i, e, Screen(false));
    more, f := Do(t0, more, s, i, f, RateIncr);
    more, f := Do(t0, more, s, i, f, DailyRead);
    more, f := Do(t0, more, s, i, f, Send(ok));
    if !ok {
      more, f := Do(t0, more, s, i, f, GetForRefund);
    }
  }
}
