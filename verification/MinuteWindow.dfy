/**
 The per-minute counter: a Redis key that expires a minute after it was last counted up to one.

 INCR and EXPIRE are separate steps, and so are the GET and the DECR of a refund, so a refund can land
 in a later lifetime of the key than the slot it gives back, or even create the key with a negative count.
 */
module MinuteWindow {
  import opened Wrappers
  import opened OutboundMachine

  // ---- the counter of the current lifetime ----

  ghost predicate Matches(line: Line, attempts: seq<Attempt>, id: AccountId) {
    line.rate.Value() == Count(attempts, Took(id, line.lifetime)) - Count(attempts, Landed(id, line.lifetime))
  }

  /** Lifetimes an attempt mentions have begun; times it mentions lie in their lifetimes. */
  ghost predicate Placed(now: nat, line: Line, a: Attempt) {
    && (a.slot.Some? ==>
          && a.slot.value.lifetime <= line.lifetime
          && a.slot.value.at <= now
          && (line.rate.NoRateKey? ==> a.slot.value.lifetime < line.lifetime)
          && (line.rate.RateKey? && a.slot.value.lifetime == line.lifetime ==> line.rate.born <= a.slot.value.at)
          && (line.rate.RateKey? && a.slot.value.lifetime < line.lifetime ==> a.slot.value.at <= line.rate.born)
          && (a.slot.value.lifetime + 2 <= line.lifetime ==> a.slot.value.at + MINUTE_MS <= now))
    && (a.refund.Some? ==>
          && a.refund.value <= line.lifetime
          && (line.rate.NoRateKey? ==> a.refund.value < line.lifetime))
  }

  ghost predicate Timed(now: nat, line: Line) {
    line.rate.RateKey? ==>
      && line.rate.born <= now
      && (line.rate.expiry.Some? ==>
            line.rate.born + MINUTE_MS <= line.rate.expiry.value && now < line.rate.expiry.value <= now + MINUTE_MS)
  }

  ghost predicate Owed(line: Line, attempts: seq<Attempt>, id: AccountId) {
    line.rate.RateKey? && line.rate.count >= 1 && line.rate.expiry.None? ==> Count(attempts, OwesExpiry(id)) >= 1
  }

  ghost predicate LineInv(now: nat, line: Line, attempts: seq<Attempt>, id: AccountId) {
    && Matches(line, attempts, id)
    && Timed(now, line)
    && Owed(line, attempts, id)
    && forall j :: 0 <= j < |attempts| && attempts[j].id == id ==> Placed(now, line, attempts[j])
  }

  ghost predicate Inv(s: State) {
    forall id :: id in s.lines ==> LineInv(s.now, s.lines[id], s.attempts, id)
  }

  lemma CounterMatches(s: State, a: Attempt, line: Line, action: Action)
    requires Can(a, action) && SoundSlot(a)
    requires action.RateIncr? || action.DecrForRefund?
    ensures var e := Perform(s, a, line, action);
      && e.line.lifetime == line.lifetime
      && e.line.rate.Value() - line.rate.Value()
         == (Weight(e.attempt, Took(a.id, line.lifetime)) - Weight(a, Took(a.id, line.lifetime)))
            - (Weight(e.attempt, Landed(a.id, line.lifetime)) - Weight(a, Landed(a.id, line.lifetime)))
  {
    hide CapFor, Blocks, Messages;
  }

  lemma OthersMatch(s: State, a: Attempt, line: Line, action: Action)
    requires Can(a, action) && SoundSlot(a)
    requires !(action.RateIncr? || action.DecrForRefund?)
    ensures var e := Perform(s, a, line, action);
      && e.line.lifetime == line.lifetime
      && e.line.rate.Value() - line.rate.Value()
         == (Weight(e.attempt, Took(a.id, line.lifetime)) - Weight(a, Took(a.id, line.lifetime)))
            - (Weight(e.attempt, Landed(a.id, line.lifetime)) - Weight(a, Landed(a.id, line.lifetime)))
  {
    hide CapFor, Blocks, Messages;
  }

  /** One operation moves the counter by what it moves the slots and refunds of the current lifetime. */
  lemma PerformMatches(s: State, a: Attempt, line: Line, action: Action)
    requires Can(a, action) && SoundSlot(a)
    ensures var e := Perform(s, a, line, action);
      && e.line.lifetime == line.lifetime
      && e.line.rate.Value() - line.rate.Value()
         == (Weight(e.attempt, Took(a.id, line.lifetime)) - Weight(a, Took(a.id, line.lifetime)))
            - (Weight(e.attempt, Landed(a.id, line.lifetime)) - Weight(a, Landed(a.id, line.lifetime)))
  {
    hide Perform;
    if action.RateIncr? || action.DecrForRefund? { CounterMatches(s, a, line, action); } else { OthersMatch(s, a, line, action); }
  }

  lemma CounterPlaced(s: State, a: Attempt, line: Line, action: Action)
    requires Can(a, action) && SoundSlot(a) && Placed(s.now, line, a) && Timed(s.now, line)
    requires action.RateIncr? || action.RateExpire? || action.DecrForRefund?
    ensures Placed(s.now, Perform(s, a, line, action).line, Perform(s, a, line, action).attempt)
    ensures Timed(s.now, Perform(s, a, line, action).line)
  {
    hide CapFor, Blocks, Messages;
  }

  lemma OthersPlaced(s: State, a: Attempt, line: Line, action: Action)
    requires Can(a, action) && SoundSlot(a) && Placed(s.now, line, a) && Timed(s.now, line)
    requires !(action.RateIncr? || action.RateExpire? || action.DecrForRefund?)
    ensures Placed(s.now, Perform(s, a, line, action).line, Perform(s, a, line, action).attempt)
    ensures Timed(s.now, Perform(s, a, line, action).line)
  {
    hide CapFor, Blocks, Messages;
  }

  lemma PerformPlaced(s: State, a: Attempt, line: Line, action: Action)
    requires Can(a, action) && SoundSlot(a) && Placed(s.now, line, a) && Timed(s.now, line)
    ensures Placed(s.now, Perform(s, a, line, action).line, Perform(s, a, line, action).attempt)
    ensures Timed(s.now, Perform(s, a, line, action).line)
  {
    hide Perform;
    if action.RateIncr? || action.RateExpire? || action.DecrForRefund? { CounterPlaced(s, a, line, action); } else { OthersPlaced(s, a, line, action); }
  }

  lemma PerformPlacedOther(s: State, a: Attempt, line: Line, action: Action, b: Attempt)
    requires Can(a, action) && Placed(s.now, line, b)
    ensures Placed(s.now, Perform(s, a, line, action).line, b)
  {
    hide CapFor, Blocks, Messages;
  }

  lemma PerformOwed(s: State, a: Attempt, line: Line, action: Action, attempts: seq<Attempt>, i: nat)
    requires Can(a, action) && i < |attempts| && attempts[i] == a && Owed(line, attempts, a.id)
    ensures var e := Perform(s, a, line, action);
      e.attempt.id == a.id ==> Owed(e.line, attempts[i := e.attempt], a.id)
  {
    hide CapFor, Blocks, Messages;
    var e := Perform(s, a, line, action);
    CountUpdate(attempts, i, e.attempt, OwesExpiry(a.id));
    if e.attempt.phase.SettingRateExpiry? && e.attempt.id == a.id {
      CountSome(attempts[i := e.attempt], i, OwesExpiry(a.id));
    }
  }

  /** Replacing one attempt and its line keeps the line's invariant, given what the operation does to both. */
  lemma ReplaceInv(now: nat, line: Line, line': Line, attempts: seq<Attempt>, i: nat, a: Attempt, id: AccountId)
    requires LineInv(now, line, attempts, id) && i < |attempts| && attempts[i].id == id && a.id == id
    requires line'.lifetime == line.lifetime
    requires line'.rate.Value() - line.rate.Value()
             == (Weight(a, Took(id, line.lifetime)) - Weight(attempts[i], Took(id, line.lifetime)))
                - (Weight(a, Landed(id, line.lifetime)) - Weight(attempts[i], Landed(id, line.lifetime)))
    requires Timed(now, line') && Owed(line', attempts[i := a], id) && Placed(now, line', a)
    requires forall j :: 0 <= j < |attempts| && attempts[j].id == id ==> Placed(now, line', attempts[j]) || j == i
    ensures LineInv(now, line', attempts[i := a], id)
  {
    CountUpdate(attempts, i, a, Took(id, line.lifetime));
    CountUpdate(attempts, i, a, Landed(id, line.lifetime));
  }

  lemma ReplaceOther(now: nat, line: Line, attempts: seq<Attempt>, i: nat, a: Attempt, id: AccountId)
    requires LineInv(now, line, attempts, id) && i < |attempts| && attempts[i].id != id && a.id != id
    ensures LineInv(now, line, attempts[i := a], id)
  {
    CountUpdate(attempts, i, a, Took(id, line.lifetime));
    CountUpdate(attempts, i, a, Landed(id, line.lifetime));
    CountUpdate(attempts, i, a, OwesExpiry(id));
  }

  lemma PerformInv(s: State, a: Attempt, line: Line, action: Action, i: nat)
    requires Can(a, action) && i < |s.attempts| && s.attempts[i] == a && Sound(a)
    requires LineInv(s.now, line, s.attempts, a.id)
    ensures var e := Perform(s, a, line, action);
      LineInv(s.now, e.line, s.attempts[i := e.attempt], a.id)
  {
    hide Perform;
    PerformSound(s, a, line, action);
    PerformMatches(s, a, line, action);
    PerformPlaced(s, a, line, action);
    PerformOwed(s, a, line, action, s.attempts, i);
    forall j | 0 <= j < |s.attempts| && s.attempts[j].id == a.id
      ensures Placed(s.now, Perform(s, a, line, action).line, s.attempts[j])
    {
      PerformPlacedOther(s, a, line, action, s.attempts[j]);
    }
    ReplaceInv(s.now, line, Perform(s, a, line, action).line, s.attempts, i, Perform(s, a, line, action).attempt, a.id);
  }

  lemma ActInv(s: State, step: Step, id: AccountId)
    requires AllSound(s) && Inv(s) && step.Act? && Enabled(s, step) && id in s.lines
    ensures LineInv(s.now, Next(s, step).lines[id], Next(s, step).attempts, id)
  {
    hide Perform, Next;
    var i := step.i;
    var a := s.attempts[i];
    ActShape(s, step);
    assert Sound(a);
    PerformSound(s, a, s.lines[a.id], step.action);
    assert LineInv(s.now, s.lines[id], s.attempts, id);
    if a.id == id {
      PerformInv(s, a, s.lines[id], step.action, i);
    } else {
      ReplaceOther(s.now, s.lines[id], s.attempts, i, Next(s, step).attempts[i], id);
    }
  }

  lemma FetchInv(s: State, step: Step, id: AccountId)
    requires Inv(s) && step.Fetch? && Enabled(s, step) && id in s.lines
    ensures LineInv(s.now, Next(s, step).lines[id], Next(s, step).attempts, id)
  {
    hide Count, Timed;
    var a := NewAttempt(step.kind, step.id, s.lines[step.id].account, step.isTemplate);
    var line := s.lines[id];
    assert LineInv(s.now, line, s.attempts, id);
    CountAppend(s.attempts, a, Took(id, line.lifetime));
    CountAppend(s.attempts, a, Landed(id, line.lifetime));
    CountAppend(s.attempts, a, OwesExpiry(id));
    forall j | 0 <= j < |s.attempts| + 1 && (s.attempts + [a])[j].id == id
      ensures Placed(s.now, line, (s.attempts + [a])[j])
    {
      if j < |s.attempts| {
        assert (s.attempts + [a])[j] == s.attempts[j];
        assert Placed(s.now, line, s.attempts[j]);
      }
    }
  }

  lemma TickPlaced(now: nat, now': nat, line: Line, a: Attempt)
    requires Placed(now, line, a) && Timed(now, line) && now <= now'
    ensures Placed(now', Age(line, now'), a) && Timed(now', Age(line, now'))
  {
  }

  lemma TickInv(s: State, ms: nat, id: AccountId)
    requires Inv(s) && id in s.lines
    ensures LineInv(s.now + ms, Age(s.lines[id], s.now + ms), s.attempts, id)
  {
    hide Placed, Timed, Count;
    var line := s.lines[id];
    var now := s.now + ms;
    var line' := Age(line, now);
    assert LineInv(s.now, line, s.attempts, id);
    forall j | 0 <= j < |s.attempts| && s.attempts[j].id == id
      ensures Placed(now, line', s.attempts[j])
    {
      TickPlaced(s.now, now, line, s.attempts[j]);
    }
    TickPlaced(s.now, now, line, NewAttempt(Campaign, id, line.account, false)) by { NewPlaced(s.now, line, id); }
    if line'.lifetime != line.lifetime {
      forall j | 0 <= j < |s.attempts|
        ensures !Is(s.attempts[j], Took(id, line'.lifetime)) && !Is(s.attempts[j], Landed(id, line'.lifetime))
      {
        if s.attempts[j].id == id { PlacedBefore(s.now, line, s.attempts[j]); }
      }
      CountNone(s.attempts, Took(id, line'.lifetime));
      CountNone(s.attempts, Landed(id, line'.lifetime));
    }
  }

  lemma NewPlaced(now: nat, line: Line, id: AccountId)
    ensures Placed(now, line, NewAttempt(Campaign, id, line.account, false))
  {
  }

  lemma PlacedBefore(now: nat, line: Line, a: Attempt)
    requires Placed(now, line, a)
    ensures a.slot.Some? ==> a.slot.value.lifetime <= line.lifetime
    ensures a.refund.Some? ==> a.refund.value <= line.lifetime
  {
  }

  lemma NewLineInv(now: nat, account: Account, attempts: seq<Attempt>, id: AccountId)
    requires forall j :: 0 <= j < |attempts| ==> attempts[j].id != id
    ensures LineInv(now, Line(account, NoRateKey, 0, map[]), attempts, id)
  {
    CountNone(attempts, Took(id, 0));
    CountNone(attempts, Landed(id, 0));
  }

  lemma AccountInv(now: nat, line: Line, account: Account, attempts: seq<Attempt>, id: AccountId)
    requires LineInv(now, line, attempts, id)
    ensures LineInv(now, line.(account := account), attempts, id)
  {
    forall j | 0 <= j < |attempts| && attempts[j].id == id
      ensures Placed(now, line.(account := account), attempts[j])
    {
      assert Placed(now, line, attempts[j]);
    }
  }

  lemma ConfigureInv(s: State, step: Step, id: AccountId)
    requires AllSound(s) && Inv(s) && step.Configure? && id in Next(s, step).lines
    ensures LineInv(s.now, Next(s, step).lines[id], s.attempts, id)
  {
    if id !in s.lines {
      assert forall j :: 0 <= j < |s.attempts| ==> s.attempts[j].id in s.lines;
      NewLineInv(s.now, step.account, s.attempts, id);
    } else {
      assert LineInv(s.now, s.lines[id], s.attempts, id);
      AccountInv(s.now, s.lines[id], step.account, s.attempts, id);
    }
  }

  /** Steps that leave the lines and the attempts alone. */
  lemma IdleLine(s: State, step: Step, id: AccountId)
    requires Inv(s) && id in Next(s, step).lines && (!Enabled(s, step) || step.SetPlan? || step.NewMonth?)
    ensures LineInv(Next(s, step).now, Next(s, step).lines[id], Next(s, step).attempts, id)
  {
    hide LineInv, Perform;
  }

  lemma TickLine(s: State, step: Step, id: AccountId)
    requires Inv(s) && step.Tick? && id in Next(s, step).lines
    ensures LineInv(Next(s, step).now, Next(s, step).lines[id], Next(s, step).attempts, id)
  {
    hide LineInv, Inv, Age;
    TickInv(s, step.ms, id);
  }

  lemma StepLine(s: State, step: Step, id: AccountId)
    requires AllSound(s) && Inv(s) && id in Next(s, step).lines
    ensures LineInv(Next(s, step).now, Next(s, step).lines[id], Next(s, step).attempts, id)
  {
    hide Perform, Next, LineInv, Inv, AllSound;
    if !Enabled(s, step) || step.SetPlan? || step.NewMonth? {
      IdleLine(s, step, id);
    } else if step.Act? {
      SameLines(s, step, id);
      ActInv(s, step, id);
    } else if step.Fetch? {
      SameLines(s, step, id);
      FetchInv(s, step, id);
    } else if step.Tick? {
      TickLine(s, step, id);
    } else {
      SameLines(s, step, id);
      ConfigureInv(s, step, id);
    }
  }

  lemma SameLines(s: State, step: Step, id: AccountId)
    requires Enabled(s, step) && (step.Act? || step.Fetch? || step.Configure?) && id in Next(s, step).lines
    ensures Next(s, step).now == s.now
    ensures step.Configure? ==> Next(s, step).attempts == s.attempts
    ensures !step.Configure? ==> id in s.lines
  {
    hide Perform;
  }

  lemma StepInv(s: State, step: Step)
    requires AllSound(s) && Inv(s)
    ensures Inv(Next(s, step))
  {
    hide Perform, Next;
    forall id | id in Next(s, step).lines
      ensures LineInv(Next(s, step).now, Next(s, step).lines[id], Next(s, step).attempts, id)
    {
      StepLine(s, step, id);
    }
  }

  /** In every reachable state the minute counter is the slots taken minus the refunds landed in this lifetime. */
  lemma {:induction false} RunInv(t0: nat, steps: seq<Step>)
    ensures Inv(Run(Start(t0), steps))
  {
    hide Perform, Next;
    if steps != [] {
      var front := steps[..|steps| - 1];
      RunInv(t0, front);
      RunSound(t0, front);
      StepInv(Run(Start(t0), front), steps[|steps| - 1]);
    }
  }

  // ---- no account stays blocked forever ----

  /** With nobody between INCR and EXPIRE, one idle minute is enough: the next screened send gets a slot. */
  lemma NeverStuck(t0: nat, steps: seq<Step>, a: Attempt)
    requires a.id in Run(Start(t0), steps).lines
    requires Count(Run(Start(t0), steps).attempts, OwesExpiry(a.id)) == 0
    requires Can(a, RateIncr) && a.snapshot.msgsPerMinute >= 1
    ensures var s := Next(Run(Start(t0), steps), Tick(MINUTE_MS));
      !Perform(s, a, s.lines[a.id], RateIncr).attempt.phase.Done?
  {
    hide Run, Count, Placed, Matches, Sound, Age;
    var s := Run(Start(t0), steps);
    RunInv(t0, steps);
    assert LineInv(s.now, s.lines[a.id], s.attempts, a.id);
    IdleMinute(s.now, s.lines[a.id], s.attempts, a.id);
    assert Next(s, Tick(MINUTE_MS)).lines[a.id] == Age(s.lines[a.id], s.now + MINUTE_MS);
  }

  lemma IdleMinute(now: nat, line: Line, attempts: seq<Attempt>, id: AccountId)
    requires Timed(now, line) && Owed(line, attempts, id) && Count(attempts, OwesExpiry(id)) == 0
    ensures Age(line, now + MINUTE_MS).rate.Value() <= 0
  {
  }

  // ---- how many sends one lifetime admits ----

  ghost predicate RatesAtMost(s: seq<Attempt>, id: AccountId, most: nat) {
    forall j :: 0 <= j < |s| && s[j].id == id ==> s[j].snapshot.msgsPerMinute <= most
  }

  ghost predicate Bounded(s: State, id: AccountId, most: nat) {
    RatesAtMost(s.attempts, id, most) ==>
      forall l: nat :: Count(s.attempts, Admitted(id, l)) <= most + Count(s.attempts, Landed(id, l))
  }

  lemma PerformAdmits(s: State, a: Attempt, line: Line, action: Action, l: nat)
    requires Can(a, action) && SoundSlot(a)
    ensures var e := Perform(s, a, line, action);
      && Weight(e.attempt, Landed(a.id, l)) >= Weight(a, Landed(a.id, l))
      && (Weight(e.attempt, Admitted(a.id, l)) > Weight(a, Admitted(a.id, l)) ==>
            l == line.lifetime && e.line.rate.Value() <= a.snapshot.msgsPerMinute)
  {
    hide CapFor, Blocks, Messages;
  }

  lemma BoundedStep(s: State, step: Step, id: AccountId, most: nat)
    requires AllSound(s) && Inv(s) && Bounded(s, id, most)
    ensures Bounded(Next(s, step), id, most)
  {
    hide Perform, Count, LineInv, Inv, Age;
    var s' := Next(s, step);
    if RatesAtMost(s'.attempts, id, most) && Enabled(s, step) {
      NextExtends(s, step);
      assert RatesAtMost(s.attempts, id, most) by {
        assert forall j :: 0 <= j < |s.attempts| ==> s'.attempts[j].snapshot == s.attempts[j].snapshot;
      }
      forall l: nat
        ensures Count(s'.attempts, Admitted(id, l)) <= most + Count(s'.attempts, Landed(id, l))
      {
        assert Count(s.attempts, Admitted(id, l)) <= most + Count(s.attempts, Landed(id, l));
        if step.Act? {
          BoundedAct(s, step, id, most, l);
        } else if step.Fetch? {
          var a := s'.attempts[|s.attempts|];
          CountAppend(s.attempts, a, Admitted(id, l));
          CountAppend(s.attempts, a, Landed(id, l));
        }
      }
    }
  }

  lemma NoNewAdmission(attempts: seq<Attempt>, i: nat, a: Attempt, id: AccountId, most: nat, l: nat)
    requires i < |attempts|
    requires Count(attempts, Admitted(id, l)) <= most + Count(attempts, Landed(id, l))
    requires Weight(a, Admitted(id, l)) <= Weight(attempts[i], Admitted(id, l))
    requires Weight(a, Landed(id, l)) >= Weight(attempts[i], Landed(id, l))
    ensures Count(attempts[i := a], Admitted(id, l)) <= most + Count(attempts[i := a], Landed(id, l))
  {
    CountUpdate(attempts, i, a, Admitted(id, l));
    CountUpdate(attempts, i, a, Landed(id, l));
  }

  lemma BoundedAct(s: State, step: Step, id: AccountId, most: nat, l: nat)
    requires AllSound(s) && Inv(s) && step.Act? && Enabled(s, step)
    requires RatesAtMost(s.attempts, id, most)
    requires Count(s.attempts, Admitted(id, l)) <= most + Count(s.attempts, Landed(id, l))
    ensures Count(Next(s, step).attempts, Admitted(id, l)) <= most + Count(Next(s, step).attempts, Landed(id, l))
  {
    hide Perform, Next, Count, Sound, LineInv;
    var a := s.attempts[step.i];
    var line := s.lines[a.id];
    ActShape(s, step);
    SoundOf(s, step.i);
    PerformSound(s, a, line, step.action);
    var a' := Perform(s, a, line, step.action).attempt;
    if a.id != id {
      NoNewAdmission(s.attempts, step.i, a', id, most, l);
      return;
    }
    PerformAdmits(s, a, line, step.action, l);
    if Weight(a', Admitted(id, l)) > Weight(a, Admitted(id, l)) {
      PerformMatches(s, a, line, step.action);
      AdmittedBelow(s, step, id, most, l);
    } else {
      NoNewAdmission(s.attempts, step.i, a', id, most, l);
    }
  }

  /** An admitting INCR saw a counter within the limit, and the counter is at least admissions minus refunds. */
  lemma AdmittedBelow(s: State, step: Step, id: AccountId, most: nat, l: nat)
    requires AllSound(s) && Inv(s) && step.Act? && Enabled(s, step) && s.attempts[step.i].id == id
    requires Next(s, step).lines[id].lifetime == l && Next(s, step).lines[id].rate.Value() <= most
    ensures Count(Next(s, step).attempts, Admitted(id, l)) <= most + Count(Next(s, step).attempts, Landed(id, l))
  {
    hide Perform, Next, Count, Sound, Placed, Timed, Owed, Inv;
    ActInv(s, step, id);
    CountSub(Next(s, step).attempts, Admitted(id, l), Took(id, l));
  }

  lemma {:induction false} RunBounded(t0: nat, steps: seq<Step>, id: AccountId, most: nat)
    ensures Bounded(Run(Start(t0), steps), id, most)
  {
    hide Perform, Next;
    if steps == [] {
      forall l: nat ensures Count([], Admitted(id, l)) <= most + Count([], Landed(id, l)) {
      }
    } else {
      var front := steps[..|steps| - 1];
      RunBounded(t0, front, id, most);
      RunInv(t0, front);
      RunSound(t0, front);
      BoundedStep(Run(Start(t0), front), steps[|steps| - 1], id, most);
    }
  }

  lemma {:induction false} OwnRefunds(s: seq<Attempt>, id: AccountId, l: nat)
    ensures Count(s, Admitted(id, l)) - Count(s, Kept(id, l)) == Count(s, Landed(id, l)) - Count(s, Foreign(id, l))
  {
    if s != [] { OwnRefunds(s[..|s| - 1], id, l); }
  }

  /** In each lifetime of the key, the sends admitted and not given back in it are at most the limit plus
      the refunds of other lifetimes that landed in it. */
  lemma LifetimeBound(t0: nat, steps: seq<Step>, id: AccountId, l: nat, most: nat)
    requires RatesAtMost(Run(Start(t0), steps).attempts, id, most)
    ensures var s := Run(Start(t0), steps).attempts;
      Count(s, Kept(id, l)) <= most + Count(s, Foreign(id, l))
  {
    hide Perform, Next;
    RunBounded(t0, steps, id, most);
    OwnRefunds(Run(Start(t0), steps).attempts, id, l);
  }

  // ---- any sixty seconds ----

  /** Slots two lifetimes apart are a minute apart. */
  ghost predicate Spaced(s: seq<Attempt>, id: AccountId) {
    forall i, j :: 0 <= i < |s| && 0 <= j < |s| && s[i].id == id && s[j].id == id && s[i].slot.Some? && s[j].slot.Some?
      && s[i].slot.value.lifetime + 2 <= s[j].slot.value.lifetime
      ==> s[i].slot.value.at + MINUTE_MS <= s[j].slot.value.at
  }

  lemma PerformTakesNow(s: State, a: Attempt, line: Line, action: Action)
    requires Can(a, action) && SoundSlot(a)
    ensures var a' := Perform(s, a, line, action).attempt;
      a'.slot != a.slot ==> a'.slot.Some? && a'.slot.value.lifetime == line.lifetime && a'.slot.value.at == s.now
  {
    hide CapFor, Blocks, Messages;
  }

  lemma SpacedStep(s: State, step: Step, id: AccountId)
    requires AllSound(s) && Inv(s) && Spaced(s.attempts, id)
    ensures Spaced(Next(s, step).attempts, id)
  {
    hide Perform;
    if Enabled(s, step) && step.Act? {
      var s' := Next(s, step);
      var k := step.i;
      var a := s.attempts[k];
      ActShape(s, step);
      assert Sound(a);
      PerformSound(s, a, s.lines[a.id], step.action);
      PerformTakesNow(s, a, s.lines[a.id], step.action);
      forall i, j | 0 <= i < |s'.attempts| && 0 <= j < |s'.attempts| && s'.attempts[i].id == id && s'.attempts[j].id == id
        && s'.attempts[i].slot.Some? && s'.attempts[j].slot.Some?
        && s'.attempts[i].slot.value.lifetime + 2 <= s'.attempts[j].slot.value.lifetime
        ensures s'.attempts[i].slot.value.at + MINUTE_MS <= s'.attempts[j].slot.value.at
      {
        assert LineInv(s.now, s.lines[id], s.attempts, id);
        assert Placed(s.now, s.lines[id], s.attempts[i]) && Placed(s.now, s.lines[id], s.attempts[j]);
        assert i != k ==> s'.attempts[i] == s.attempts[i];
        assert j != k ==> s'.attempts[j] == s.attempts[j];
      }
    }
  }

  lemma {:induction false} RunSpaced(t0: nat, steps: seq<Step>, id: AccountId)
    ensures Spaced(Run(Start(t0), steps).attempts, id)
  {
    hide Perform, Next;
    if steps != [] {
      var front := steps[..|steps| - 1];
      RunSpaced(t0, front, id);
      RunInv(t0, front);
      RunSound(t0, front);
      SpacedStep(Run(Start(t0), front), steps[|steps| - 1], id);
    }
  }

  /** The earliest lifetime among the sends of one minute. */
  lemma {:induction false} Earliest(s: seq<Attempt>, id: AccountId, from: nat) returns (i: nat)
    requires Count(s, KeptIn(id, from)) > 0
    ensures i < |s| && Is(s[i], KeptIn(id, from))
    ensures forall j :: 0 <= j < |s| && Is(s[j], KeptIn(id, from)) ==> s[i].slot.value.lifetime <= s[j].slot.value.lifetime
  {
    var n := |s| - 1;
    if Count(s[..n], KeptIn(id, from)) == 0 {
      i := n;
      forall j | 0 <= j < n ensures !Is(s[j], KeptIn(id, from)) {
        if Is(s[..n][j], KeptIn(id, from)) { CountSome(s[..n], j, KeptIn(id, from)); }
      }
    } else {
      i := Earliest(s[..n], id, from);
      assert forall j :: 0 <= j < n ==> s[..n][j] == s[j];
      if Is(s[n], KeptIn(id, from)) && s[n].slot.value.lifetime < s[i].slot.value.lifetime {
        i := n;
      }
    }
  }

  lemma TwoLifetimes(s: seq<Attempt>, id: AccountId, from: nat, i: nat)
    requires Spaced(s, id) && i < |s| && Is(s[i], KeptIn(id, from))
    requires forall j :: 0 <= j < |s| && Is(s[j], KeptIn(id, from)) ==> s[i].slot.value.lifetime <= s[j].slot.value.lifetime
    ensures var l := s[i].slot.value.lifetime;
      forall j :: 0 <= j < |s| && Is(s[j], KeptIn(id, from)) ==> Is(s[j], Kept(id, l)) || Is(s[j], Kept(id, l + 1))
  {
    var l := s[i].slot.value.lifetime;
    forall j | 0 <= j < |s| && Is(s[j], KeptIn(id, from))
      ensures Is(s[j], Kept(id, l)) || Is(s[j], Kept(id, l + 1))
    {
      assert s[j].slot.value.lifetime < l + 2;
    }
  }

  /** Any sixty seconds fall into two consecutive lifetimes, so they hold at most twice the limit, plus the
      refunds that crossed into those two lifetimes. */
  lemma AnyMinute(t0: nat, steps: seq<Step>, id: AccountId, from: nat, most: nat)
    requires RatesAtMost(Run(Start(t0), steps).attempts, id, most)
    ensures var s := Run(Start(t0), steps).attempts;
      exists l: nat :: Count(s, KeptIn(id, from)) <= 2 * most + Count(s, Foreign(id, l)) + Count(s, Foreign(id, l + 1))
  {
    hide Perform, Next, Run, Count, Spaced, RatesAtMost;
    var s := Run(Start(t0), steps).attempts;
    if Count(s, KeptIn(id, from)) == 0 {
      assert Count(s, KeptIn(id, from)) <= 2 * most + Count(s, Foreign(id, 0)) + Count(s, Foreign(id, 0 + 1));
    } else {
      var i := Earliest(s, id, from);
      var l := s[i].slot.value.lifetime;
      RunSpaced(t0, steps, id);
      TwoLifetimes(s, id, from, i);
      CountCover(s, KeptIn(id, from), Kept(id, l), Kept(id, l + 1));
      LifetimeBound(t0, steps, id, l, most);
      LifetimeBound(t0, steps, id, l + 1, most);
    }
  }

  /** The factor two: with no refund crossing an expiry, any sixty seconds hold at most twice the limit. */
  lemma FactorTwo(t0: nat, steps: seq<Step>, id: AccountId, from: nat, most: nat)
    requires RatesAtMost(Run(Start(t0), steps).attempts, id, most)
    requires forall l: nat :: Count(Run(Start(t0), steps).attempts, Foreign(id, l)) == 0
    ensures Count(Run(Start(t0), steps).attempts, KeptIn(id, from)) <= 2 * most
  {
    AnyMinute(t0, steps, id, from, most);
  }
}
