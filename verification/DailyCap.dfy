/**
 The daily counter: read, compare with the cap, then increment, as separate steps. Workers that have
 read and not yet incremented are at the gate; they are what can push the counter past the cap.
 */
module DailyCap {
  import opened Wrappers
  import opened OutboundMachine
  import opened Scenarios

  function Day(now: nat): nat { now / DAY_MS }

  lemma DayBounds(now: nat)
    ensures Day(now) * DAY_MS <= now < (Day(now) + 1) * DAY_MS
  {
  }

  lemma DayMonotone(a: nat, b: nat)
    requires a <= b
    ensures Day(a) <= Day(b)
  {
  }

  /** Each live day key counts the attempts of its day, outlives its day, and today's is only missing at zero. */
  ghost predicate DayInv(now: nat, line: Line, attempts: seq<Attempt>, id: AccountId) {
    && (forall d :: d in line.daily ==>
          && line.daily[d].count == Count(attempts, Counted(id, d))
          && d <= Day(now)
          && (line.daily[d].expiry.Some? ==> d * DAY_MS + DAILY_TTL_MS <= line.daily[d].expiry.value))
    && (forall d: nat :: Day(now) <= d && d !in line.daily ==> Count(attempts, Counted(id, d)) == 0)
    && (forall j :: 0 <= j < |attempts| && attempts[j].id == id && attempts[j].day.Some?
                    ==> attempts[j].day.value <= Day(now))
  }

  ghost predicate Inv(s: State) {
    forall id :: id in s.lines ==> DayInv(s.now, s.lines[id], s.attempts, id)
  }

  /** One operation changes the day keys only by counting the attempt on today's. */
  lemma PerformDay(s: State, a: Attempt, line: Line, action: Action)
    requires Can(a, action) && SoundDay(a)
    ensures var e := Perform(s, a, line, action);
      if action.DailyIncr? then
        a.day.None? && e.attempt.day == Some(Day(s.now)) && e.line == IncrDay(line, Day(s.now))
      else
        && e.attempt.day == a.day
        && (if action.DailyExpire? then e.line == ExpireDay(line, a.day.value, s.now) else e.line.daily == line.daily)
  {
  }

  lemma IncrInv(now: nat, line: Line, attempts: seq<Attempt>, i: nat, a: Attempt, id: AccountId)
    requires DayInv(now, line, attempts, id) && i < |attempts| && attempts[i].id == id && attempts[i].day.None?
    requires a.id == id && a.day == Some(Day(now))
    ensures DayInv(now, IncrDay(line, Day(now)), attempts[i := a], id)
  {
    hide Count;
    forall d: nat
      ensures Count(attempts[i := a], Counted(id, d)) == Count(attempts, Counted(id, d)) + (if d == Day(now) then 1 else 0)
    {
      CountUpdate(attempts, i, a, Counted(id, d));
    }
  }

  lemma SameDayInv(now: nat, line: Line, line': Line, attempts: seq<Attempt>, i: nat, a: Attempt, id: AccountId)
    requires DayInv(now, line, attempts, id) && i < |attempts| && attempts[i].id == a.id && attempts[i].day == a.day
    requires || line'.daily == line.daily
             || (a.id == id && a.day.Some? && line' == ExpireDay(line, a.day.value, now))
    ensures DayInv(now, line', attempts[i := a], id)
  {
    hide Count;
    forall d: nat
      ensures Count(attempts[i := a], Counted(id, d)) == Count(attempts, Counted(id, d))
    {
      CountUpdate(attempts, i, a, Counted(id, d));
    }
    DayBounds(now);
  }

  lemma ActInv(s: State, step: Step, id: AccountId)
    requires AllSound(s) && Inv(s) && step.Act? && Enabled(s, step) && id in s.lines
    ensures DayInv(s.now, Next(s, step).lines[id], Next(s, step).attempts, id)
  {
    hide Perform, Next;
    var a := s.attempts[step.i];
    ActShape(s, step);
    assert Sound(a);
    PerformSound(s, a, s.lines[a.id], step.action);
    PerformDay(s, a, s.lines[a.id], step.action);
    var a' := Next(s, step).attempts[step.i];
    var line' := Next(s, step).lines[id];
    assert DayInv(s.now, s.lines[id], s.attempts, id);
    if a.id == id && step.action.DailyIncr? {
      IncrInv(s.now, s.lines[id], s.attempts, step.i, a', id);
    } else if a.id == id {
      SameDayInv(s.now, s.lines[id], line', s.attempts, step.i, a', id);
    } else {
      OtherInv(s.now, s.lines[id], s.attempts, step.i, a', id);
    }
  }

  lemma OtherInv(now: nat, line: Line, attempts: seq<Attempt>, i: nat, a: Attempt, id: AccountId)
    requires DayInv(now, line, attempts, id) && i < |attempts| && attempts[i].id != id && a.id != id
    ensures DayInv(now, line, attempts[i := a], id)
  {
    hide Count;
    forall d: nat
      ensures Count(attempts[i := a], Counted(id, d)) == Count(attempts, Counted(id, d))
    {
      CountUpdate(attempts, i, a, Counted(id, d));
    }
  }

  lemma FetchInv(now: nat, line: Line, attempts: seq<Attempt>, a: Attempt, id: AccountId)
    requires DayInv(now, line, attempts, id) && a.day.None?
    ensures DayInv(now, line, attempts + [a], id)
  {
    hide Count;
    forall d: nat
      ensures Count(attempts + [a], Counted(id, d)) == Count(attempts, Counted(id, d))
    {
      CountAppend(attempts, a, Counted(id, d));
    }
  }

  lemma TickInv(now: nat, now': nat, line: Line, attempts: seq<Attempt>, id: AccountId)
    requires DayInv(now, line, attempts, id) && now <= now'
    ensures DayInv(now', Age(line, now'), attempts, id)
  {
    DayMonotone(now, now');
    DayBounds(now');
    var line' := Age(line, now');
    forall d: nat | Day(now') <= d && d !in line'.daily
      ensures Count(attempts, Counted(id, d)) == 0
    {
      assert now' < d * DAY_MS + DAILY_TTL_MS;
    }
  }

  lemma NewLineInv(now: nat, account: Account, attempts: seq<Attempt>, id: AccountId)
    requires forall j :: 0 <= j < |attempts| ==> attempts[j].id != id
    ensures DayInv(now, Line(account, NoRateKey, 0, map[]), attempts, id)
  {
    forall d: nat ensures Count(attempts, Counted(id, d)) == 0 {
      CountNone(attempts, Counted(id, d));
    }
  }

  lemma StepLine(s: State, step: Step, id: AccountId)
    requires AllSound(s) && Inv(s) && id in Next(s, step).lines
    ensures DayInv(Next(s, step).now, Next(s, step).lines[id], Next(s, step).attempts, id)
  {
    hide Perform;
    if id in s.lines { assert DayInv(s.now, s.lines[id], s.attempts, id); }
    if !Enabled(s, step) || step.SetPlan? {
    } else if step.Act? {
      ActInv(s, step, id);
    } else if step.Fetch? {
      FetchInv(s.now, s.lines[id], s.attempts, Next(s, step).attempts[|s.attempts|], id);
    } else if step.Tick? {
      TickInv(s.now, Next(s, step).now, s.lines[id], s.attempts, id);
    } else if id !in s.lines {
      assert forall j :: 0 <= j < |s.attempts| ==> s.attempts[j].id in s.lines;
      NewLineInv(s.now, step.account, s.attempts, id);
    }
  }

  lemma StepInv(s: State, step: Step)
    requires AllSound(s) && Inv(s)
    ensures Inv(Next(s, step))
  {
    hide Perform, Next;
    forall id | id in Next(s, step).lines
      ensures DayInv(Next(s, step).now, Next(s, step).lines[id], Next(s, step).attempts, id)
    {
      StepLine(s, step, id);
    }
  }

  lemma {:induction false} RunInv(t0: nat, steps: seq<Step>)
    ensures Inv(Run(Start(t0), steps))
  {
    hide Perform, Next;
    if steps != [] {
      var front := steps[..|steps| - 1];
      RunInv(t0, front);
      RunSound(t0, front);
      StepInv(Run(Start(t0), front), steps[|steps| - 1]);
    }
  }

  // ---- what the counter counts ----

  lemma SplitOne(a: Attempt, id: AccountId, d: nat)
    requires SoundDay(a)
    ensures Weight(a, Counted(id, d)) == Weight(a, DayEnded(id, d, Delivered)) + Weight(a, DayEnded(id, d, Failed))
                                         + Weight(a, DayFlying(id, d))
  {
  }

  lemma {:induction false} DaySplit(s: seq<Attempt>, id: AccountId, d: nat)
    requires forall j :: 0 <= j < |s| ==> SoundDay(s[j])
    ensures Count(s, Counted(id, d)) == Count(s, DayEnded(id, d, Delivered)) + Count(s, DayEnded(id, d, Failed))
                                        + Count(s, DayFlying(id, d))
  {
    hide SoundDay, Weight;
    if s != [] {
      DaySplit(s[..|s| - 1], id, d);
      SplitOne(s[|s| - 1], id, d);
    }
  }

  /** All day long, today's counter is the deliveries, provider failures and sends in flight counted today. */
  lemma Ledger(t0: nat, steps: seq<Step>, id: AccountId)
    requires id in Run(Start(t0), steps).lines
    ensures var s := Run(Start(t0), steps); var d := Day(s.now);
      s.lines[id].Used(d) == Count(s.attempts, DayEnded(id, d, Delivered)) + Count(s.attempts, DayEnded(id, d, Failed))
                             + Count(s.attempts, DayFlying(id, d))
  {
    var s := Run(Start(t0), steps);
    RunInv(t0, steps);
    RunSound(t0, steps);
    assert DayInv(s.now, s.lines[id], s.attempts, id);
    DaySplit(s.attempts, id, Day(s.now));
  }

  /** While an account carries an explicit daily limit, no delivery escapes the daily counter. */
  lemma DeliveriesAreCounted(t0: nat, steps: seq<Step>, i: nat)
    requires i < |Run(Start(t0), steps).attempts|
    ensures var a := Run(Start(t0), steps).attempts[i];
      a.phase == Done(Delivered) && a.snapshot.msgsPerDay > 0 ==> exists d :: Is(a, DayEnded(a.id, d, Delivered))
  {
    RunSound(t0, steps);
    var a := Run(Start(t0), steps).attempts[i];
    assert Sound(a);
    if a.phase == Done(Delivered) && a.snapshot.msgsPerDay > 0 {
      assert Is(a, DayEnded(a.id, a.day.value, Delivered));
    }
  }

  // ---- how far past the cap ----

  ghost predicate CapsAtMost(s: seq<Attempt>, id: AccountId, cap: nat) {
    forall j :: 0 <= j < |s| && s[j].id == id && s[j].cap.Some? ==> s[j].cap.value <= cap
  }

  /** At every moment of the run at most k workers are between the read and the increment. */
  ghost predicate GateHolds(t0: nat, steps: seq<Step>, id: AccountId, k: nat) {
    forall n :: 0 <= n <= |steps| ==> Count(Run(Start(t0), steps[..n]).attempts, AtGate(id)) <= k
  }

  ghost predicate Capped(s: State, id: AccountId, cap: nat, k: nat) {
    CapsAtMost(s.attempts, id, cap) ==>
      && Count(s.attempts, Counted(id, Day(s.now))) + Count(s.attempts, AtGate(id)) <= cap + k - 1
      && forall d: nat :: Count(s.attempts, Counted(id, d)) <= cap + k - 1
  }

  lemma GateGate(s: State, a: Attempt, line: Line, action: Action, id: AccountId)
    requires Can(a, action) && SoundDay(a)
    requires action.DailyRead? || action.DailyIncr? || action.DailyExpire?
    ensures var e := Perform(s, a, line, action);
      Weight(e.attempt, AtGate(id)) > Weight(a, AtGate(id)) ==>
        a.id == id && e.attempt.cap.Some? && line.Used(Day(s.now)) < e.attempt.cap.value && e.attempt.day == a.day
  {
    hide Blocks, Messages, IncrRate, ExpireRate, DecrRate;
  }

  lemma OthersGate(s: State, a: Attempt, line: Line, action: Action, id: AccountId)
    requires Can(a, action) && SoundDay(a)
    requires !(action.DailyRead? || action.DailyIncr? || action.DailyExpire?)
    ensures var e := Perform(s, a, line, action);
      Weight(e.attempt, AtGate(id)) > Weight(a, AtGate(id)) ==>
        a.id == id && e.attempt.cap.Some? && line.Used(Day(s.now)) < e.attempt.cap.value && e.attempt.day == a.day
  {
    hide Blocks, Messages, IncrRate, ExpireRate, DecrRate;
  }

  /** Passing the gate needs today's counter below the cap. */
  lemma PerformGate(s: State, a: Attempt, line: Line, action: Action, id: AccountId)
    requires Can(a, action) && SoundDay(a)
    ensures var e := Perform(s, a, line, action);
      Weight(e.attempt, AtGate(id)) > Weight(a, AtGate(id)) ==>
        a.id == id && e.attempt.cap.Some? && line.Used(Day(s.now)) < e.attempt.cap.value && e.attempt.day == a.day
  {
    hide Perform;
    if action.DailyRead? || action.DailyIncr? || action.DailyExpire? { GateGate(s, a, line, action, id); } else { OthersGate(s, a, line, action, id); }
  }

  lemma GateLeavesGate(s: State, a: Attempt, line: Line, action: Action, id: AccountId)
    requires Can(a, action) && SoundDay(a)
    requires action.DailyRead? || action.DailyIncr? || action.DailyExpire?
    ensures var e := Perform(s, a, line, action);
      forall d :: Weight(e.attempt, Counted(id, d)) > Weight(a, Counted(id, d)) ==>
        d == Day(s.now) && Weight(e.attempt, AtGate(id)) + 1 == Weight(a, AtGate(id))
  {
    hide Blocks, Messages, IncrRate, ExpireRate, DecrRate, CapFor;
  }

  lemma OthersLeaveGate(s: State, a: Attempt, line: Line, action: Action, id: AccountId)
    requires Can(a, action) && SoundDay(a)
    requires !(action.DailyRead? || action.DailyIncr? || action.DailyExpire?)
    ensures var e := Perform(s, a, line, action);
      forall d :: Weight(e.attempt, Counted(id, d)) > Weight(a, Counted(id, d)) ==>
        d == Day(s.now) && Weight(e.attempt, AtGate(id)) + 1 == Weight(a, AtGate(id))
  {
    hide Blocks, Messages, IncrRate, ExpireRate, DecrRate, CapFor;
  }

  /** Incrementing counts the attempt on today and leaves the gate. */
  lemma PerformLeavesGate(s: State, a: Attempt, line: Line, action: Action, id: AccountId)
    requires Can(a, action) && SoundDay(a)
    ensures var e := Perform(s, a, line, action);
      forall d :: Weight(e.attempt, Counted(id, d)) > Weight(a, Counted(id, d)) ==>
        d == Day(s.now) && Weight(e.attempt, AtGate(id)) + 1 == Weight(a, AtGate(id))
  {
    hide Perform;
    if action.DailyRead? || action.DailyIncr? || action.DailyExpire? { GateLeavesGate(s, a, line, action, id); } else { OthersLeaveGate(s, a, line, action, id); }
  }

  lemma CappedAct(s: State, step: Step, id: AccountId, cap: nat, k: nat)
    requires AllSound(s) && Inv(s) && Capped(s, id, cap, k) && step.Act? && Enabled(s, step)
    requires Count(Next(s, step).attempts, AtGate(id)) <= k
    requires CapsAtMost(s.attempts, id, cap) && CapsAtMost(Next(s, step).attempts, id, cap)
    ensures Capped(Next(s, step), id, cap, k)
  {
    hide Perform, Next, Count;
    var s' := Next(s, step);
    var a := s.attempts[step.i];
    ActShape(s, step);
    assert Sound(a);
    PerformSound(s, a, s.lines[a.id], step.action);
    PerformGate(s, a, s.lines[a.id], step.action, id);
    PerformLeavesGate(s, a, s.lines[a.id], step.action, id);
    var a' := s'.attempts[step.i];
    var today := Day(s.now);
    CountUpdate(s.attempts, step.i, a', AtGate(id));
    CountUpdate(s.attempts, step.i, a', Counted(id, today));
    if Weight(a', AtGate(id)) > Weight(a, AtGate(id)) {
      assert DayInv(s.now, s.lines[id], s.attempts, id);
      assert s.lines[id].Used(today) == Count(s.attempts, Counted(id, today));
      assert a'.cap.value <= cap;
    }
    forall d: nat
      ensures Count(s'.attempts, Counted(id, d)) <= cap + k - 1
    {
      CountUpdate(s.attempts, step.i, a', Counted(id, d));
    }
  }

  lemma CapsBefore(s: State, step: Step, id: AccountId, cap: nat)
    requires AllSound(s) && CapsAtMost(Next(s, step).attempts, id, cap)
    ensures CapsAtMost(s.attempts, id, cap)
  {
    hide Perform, Next;
    NextExtends(s, step);
    var after := Next(s, step).attempts;
    forall j | 0 <= j < |s.attempts| && s.attempts[j].id == id && s.attempts[j].cap.Some?
      ensures s.attempts[j].cap.value <= cap
    {
      assert after[j].cap == s.attempts[j].cap && after[j].id == id;
    }
  }

  lemma CappedFetch(s: State, a: Attempt, id: AccountId, cap: nat, k: nat)
    requires Capped(s, id, cap, k) && CapsAtMost(s.attempts, id, cap) && a.day.None? && !a.phase.UnderCap?
    ensures Capped(s.(attempts := s.attempts + [a]), id, cap, k)
  {
    hide Count;
    CountAppend(s.attempts, a, AtGate(id));
    forall d: nat ensures Count(s.attempts + [a], Counted(id, d)) == Count(s.attempts, Counted(id, d)) {
      CountAppend(s.attempts, a, Counted(id, d));
    }
  }

  lemma CappedStep(s: State, step: Step, id: AccountId, cap: nat, k: nat)
    requires AllSound(s) && Inv(s) && Capped(s, id, cap, k) && cap >= 1 && k >= 1
    requires Count(s.attempts, AtGate(id)) <= k && Count(Next(s, step).attempts, AtGate(id)) <= k
    ensures Capped(Next(s, step), id, cap, k)
  {
    hide Perform;
    if CapsAtMost(Next(s, step).attempts, id, cap) && Enabled(s, step) {
      CapsBefore(s, step, id, cap);
      match step {
        case Act(_, _) => CappedAct(s, step, id, cap, k);
        case Fetch(_, _, _) => CappedFetch(s, Next(s, step).attempts[|s.attempts|], id, cap, k);
        case Tick(_) => Midnight(s, Next(s, step).now, id);
        case _ =>
      }
    }
  }

  /** A day that has not begun has no sends counted on it. */
  lemma Midnight(s: State, now': nat, id: AccountId)
    requires AllSound(s) && Inv(s) && s.now <= now'
    ensures Day(now') != Day(s.now) ==> Count(s.attempts, Counted(id, Day(now'))) == 0
  {
    hide Count;
    DayMonotone(s.now, now');
    if Day(now') != Day(s.now) {
      forall j | 0 <= j < |s.attempts| ensures !Is(s.attempts[j], Counted(id, Day(now'))) {
        if s.attempts[j].id == id {
          assert DayInv(s.now, s.lines[id], s.attempts, id);
        }
      }
      CountNone(s.attempts, Counted(id, Day(now')));
    }
  }

  lemma {:induction false} RunCapped(t0: nat, steps: seq<Step>, id: AccountId, cap: nat, k: nat)
    requires cap >= 1 && k >= 1 && GateHolds(t0, steps, id, k)
    ensures Capped(Run(Start(t0), steps), id, cap, k)
  {
    hide Perform, Next;
    if steps != [] {
      var n := |steps| - 1;
      var front := steps[..n];
      forall m | 0 <= m <= n ensures Count(Run(Start(t0), front[..m]).attempts, AtGate(id)) <= k {
        assert front[..m] == steps[..m];
      }
      RunCapped(t0, front, id, cap, k);
      RunInv(t0, front);
      RunSound(t0, front);
      assert steps[..n + 1] == steps;
      assert front[..n] == front;
      CappedStep(Run(Start(t0), front), steps[n], id, cap, k);
    }
  }

  /** With at most k workers at the gate, no day of the run counts more than cap + k - 1 sends, read before
      midnight or not; `cap` is the largest positive cap any of them saw. */
  lemma Overshoot(t0: nat, steps: seq<Step>, id: AccountId, cap: nat, k: nat, d: nat)
    requires cap >= 1 && k >= 1 && GateHolds(t0, steps, id, k)
    requires CapsAtMost(Run(Start(t0), steps).attempts, id, cap)
    ensures Count(Run(Start(t0), steps).attempts, Counted(id, d)) <= cap + k - 1
    ensures Count(Run(Start(t0), steps).attempts, DayEnded(id, d, Delivered)) <= cap + k - 1
    ensures id in Run(Start(t0), steps).lines ==> Run(Start(t0), steps).lines[id].Used(d) <= cap + k - 1
  {
    hide Run, Next;
    RunCapped(t0, steps, id, cap, k);
    var s := Run(Start(t0), steps);
    CountSub(s.attempts, DayEnded(id, d, Delivered), Counted(id, d));
    if id in s.lines {
      UsedAtMost(t0, steps, id, d);
    }
  }

  lemma UsedAtMost(t0: nat, steps: seq<Step>, id: AccountId, d: nat)
    requires id in Run(Start(t0), steps).lines
    ensures Run(Start(t0), steps).lines[id].Used(d) <= Count(Run(Start(t0), steps).attempts, Counted(id, d))
  {
    var s := Run(Start(t0), steps);
    RunInv(t0, steps);
    assert DayInv(s.now, s.lines[id], s.attempts, id);
  }

  /** Serial preflights never exceed the cap. */
  lemma SerialNeverExceeds(t0: nat, steps: seq<Step>, id: AccountId, cap: nat, d: nat)
    requires cap >= 1 && GateHolds(t0, steps, id, 1)
    requires CapsAtMost(Run(Start(t0), steps).attempts, id, cap)
    ensures Count(Run(Start(t0), steps).attempts, Counted(id, d)) <= cap
  {
    Overshoot(t0, steps, id, cap, 1, d);
  }

  // ---- a run that reaches the bound ----

  function WithDailyLimit(cap: nat): Account { Account(Evolution, 0, cap, false, false, 0) }

  /** Account "a" has this cap, `used` sends counted on day 0, and `waiting` workers at the gate. */
  ghost predicate Scene(s: State, cap: nat, used: nat, waiting: nat) {
    && "a" in s.lines && s.now == 0 && s.lines["a"].account == WithDailyLimit(cap) && s.lines["a"].rate.NoRateKey?
    && s.lines["a"].Used(0) == used && Count(s.attempts, Counted("a", 0)) == used && Count(s.attempts, AtGate("a")) == waiting
    && forall j :: 0 <= j < |s.attempts| ==> s.attempts[j].id == "a" && (s.attempts[j].cap.Some? ==> s.attempts[j].cap.value <= cap)
  }

  lemma GateMore(steps: seq<Step>, step: Step, k: nat)
    requires GateHolds(0, steps, "a", k) && Count(Run(Start(0), steps + [step]).attempts, AtGate("a")) <= k
    ensures GateHolds(0, steps + [step], "a", k)
  {
    hide Run, Count;
    var more := steps + [step];
    forall n | 0 <= n <= |more|
      ensures Count(Run(Start(0), more[..n]).attempts, AtGate("a")) <= k
    {
      if n <= |steps| { assert more[..n] == steps[..n]; } else { assert more[..n] == more; }
    }
  }

  /** One operation of attempt i, with room for it at the gate. */
  lemma GateDo(steps: seq<Step>, s: State, i: nat, e: Effect, action: Action, k: nat) returns (more: seq<Step>, f: Effect)
    requires GateHolds(0, steps, "a", k) && i < |s.attempts| && Can(e.attempt, action) && Run(Start(0), steps) == Put(s, i, e)
    requires Perform(Put(s, i, e), e.attempt, e.line, action).attempt.id == e.attempt.id
    requires Count(s.attempts, AtGate("a")) - Weight(s.attempts[i], AtGate("a")) < k
    ensures f == Perform(Put(s, i, e), e.attempt, e.line, action)
    ensures Run(Start(0), more) == Put(s, i, f) && GateHolds(0, more, "a", k)
  {
    hide Perform, Run, Count, GateHolds;
    more, f := Do(0, steps, s, i, e, action);
    CountUpdate(s.attempts, i, f.attempt, AtGate("a"));
    GateMore(steps, Act(i, action), k);
  }

  /** A new send reads the counter below the cap and stops at the gate. */
  lemma ReachGate(steps: seq<Step>, cap: nat, used: nat, waiting: nat, k: nat) returns (more: seq<Step>)
    requires Scene(Run(Start(0), steps), cap, used, waiting) && used < cap && waiting < k && GateHolds(0, steps, "a", k)
    ensures GateHolds(0, more, "a", k) && Scene(Run(Start(0), more), cap, used, waiting + 1)
    ensures var s, t := Run(Start(0), steps), Run(Start(0), more);
      |t.attempts| == |s.attempts| + 1 && t.attempts[..|s.attempts|] == s.attempts && t.attempts[|s.attempts|].phase.UnderCap?
      && t.attempts[|s.attempts|].day.None?
  {
    hide Run, Count, GateHolds;
    var was := Run(Start(0), steps);
    var s, e;
    more, s := NewJob(0, steps, Campaign, "a");
    var i := |was.attempts|;
    CountAppend(was.attempts, s.attempts[i], AtGate("a"));
    CountAppend(was.attempts, s.attempts[i], Counted("a", 0));
    GateMore(steps, Fetch(Campaign, "a", false), k);
    more, e := GateDo(more, s, i, Taken(s, i), Screen(false), k);
    more, e := GateDo(more, s, i, e, RateIncr, k);
    more, e := GateDo(more, s, i, e, DailyRead, k);
    CountUpdate(s.attempts, i, e.attempt, AtGate("a"));
    CountUpdate(s.attempts, i, e.attempt, Counted("a", 0));
    assert s.attempts[i := e.attempt][..i] == was.attempts;
  }

  /** A worker at the gate counts its send, whatever the counter says by now. */
  lemma PassGate(steps: seq<Step>, cap: nat, used: nat, waiting: nat, k: nat, i: nat) returns (more: seq<Step>)
    requires Scene(Run(Start(0), steps), cap, used, waiting) && waiting <= k && GateHolds(0, steps, "a", k)
    requires var s := Run(Start(0), steps); i < |s.attempts| && s.attempts[i].phase.UnderCap? && s.attempts[i].day.None?
    ensures GateHolds(0, more, "a", k) && waiting >= 1 && Scene(Run(Start(0), more), cap, used + 1, waiting - 1)
    ensures var s, t := Run(Start(0), steps), Run(Start(0), more);
      |t.attempts| == |s.attempts| && t.attempts[i + 1..] == s.attempts[i + 1..]
  {
    hide Run, Count, GateHolds, Perform, CapFor, IncrDay, ExpireDay;
    var s := Run(Start(0), steps);
    var e := Taken(s, i);
    PutTaken(s, i);
    CountSome(s.attempts, i, AtGate("a"));
    OnDaily(Put(s, i, e), e.attempt, e.line);
    DayCounted(e.line, 0);
    more, e := GateDo(steps, s, i, e, DailyIncr, k);
    if e.attempt.phase.SettingDailyExpiry? {
      OnDaily(Put(s, i, e), e.attempt, e.line);
      more, e := GateDo(more, s, i, e, DailyExpire, k);
    }
    CountUpdate(s.attempts, i, e.attempt, AtGate("a"));
    CountUpdate(s.attempts, i, e.attempt, Counted("a", 0));
  }

  lemma {:induction false} SerialSends(cap: nat, k: nat, n: nat) returns (steps: seq<Step>)
    requires n < cap && k >= 1
    ensures GateHolds(0, steps, "a", k) && Scene(Run(Start(0), steps), cap, n, 0)
  {
    hide Run, Count, Scene;
    if n == 0 {
      steps := EmptyScene(cap, k);
    } else {
      steps := SerialSends(cap, k, n - 1);
      var i := |Run(Start(0), steps).attempts|;
      steps := ReachGate(steps, cap, n - 1, 0, k);
      steps := PassGate(steps, cap, n - 1, 1, k, i);
    }
  }

  lemma EmptyScene(cap: nat, k: nat) returns (steps: seq<Step>)
    ensures GateHolds(0, steps, "a", k) && Scene(Run(Start(0), steps), cap, 0, 0)
  {
    hide Run, Count;
    EmptyRun(0);
    steps := Go(0, [], Configure("a", WithDailyLimit(cap)));
    CountNone([], AtGate("a"));
    CountNone([], Counted("a", 0));
    forall n | 0 <= n <= |steps|
      ensures Count(Run(Start(0), steps[..n]).attempts, AtGate("a")) <= k
    {
      if n == 0 { assert steps[..n] == []; } else { assert steps[..n] == steps; }
    }
  }

  /** The attempts from `base` on wait at the gate. */
  ghost predicate Queue(s: seq<Attempt>, base: nat, n: nat) {
    |s| == base + n && forall j :: base <= j < |s| ==> s[j].phase.UnderCap? && s[j].day.None?
  }

  lemma {:induction false} ReachMany(steps: seq<Step>, cap: nat, used: nat, k: nat, n: nat) returns (more: seq<Step>)
    requires Scene(Run(Start(0), steps), cap, used, 0) && used < cap && n <= k && GateHolds(0, steps, "a", k)
    ensures GateHolds(0, more, "a", k) && Scene(Run(Start(0), more), cap, used, n)
    ensures Queue(Run(Start(0), more).attempts, |Run(Start(0), steps).attempts|, n)
  {
    hide Run, Count, Scene, GateHolds;
    if n == 0 {
      more := steps;
    } else {
      more := ReachMany(steps, cap, used, k, n - 1);
      var before := Run(Start(0), more).attempts;
      more := ReachGate(more, cap, used, n - 1, k);
      var after := Run(Start(0), more).attempts;
      assert forall j :: 0 <= j < |before| ==> after[j] == after[..|before|][j];
    }
  }

  lemma {:induction false} PassMany(steps: seq<Step>, cap: nat, used: nat, k: nat, base: nat, n: nat) returns (more: seq<Step>)
    requires Scene(Run(Start(0), steps), cap, used, n) && n <= k && GateHolds(0, steps, "a", k)
    requires Queue(Run(Start(0), steps).attempts, base, n)
    ensures GateHolds(0, more, "a", k) && Scene(Run(Start(0), more), cap, used + n, 0)
    decreases n
  {
    hide Run, Count, Scene, GateHolds;
    if n == 0 {
      more := steps;
    } else {
      var before := Run(Start(0), steps).attempts;
      more := PassGate(steps, cap, used, n, k, base);
      var after := Run(Start(0), more).attempts;
      assert forall j :: base < j < |after| ==> after[j] == after[base + 1..][j - base - 1] && before[j] == before[base + 1..][j - base - 1];
      more := PassMany(more, cap, used + 1, k, base + 1, n - 1);
    }
  }

  /** The bound is reached for every cap and every number of workers: cap - 1 sends one after the other, then k
      workers that all read the counter before any of them increments it. */
  lemma OvershootIsReached(cap: nat, k: nat) returns (steps: seq<Step>)
    requires cap >= 1 && k >= 1
    ensures GateHolds(0, steps, "a", k) && CapsAtMost(Run(Start(0), steps).attempts, "a", cap)
    ensures var s := Run(Start(0), steps);
      && Count(s.attempts, Counted("a", 0)) == cap + k - 1
      && "a" in s.lines && s.lines["a"].Used(0) == cap + k - 1 && s.lines["a"].account.msgsPerDay == cap
  {
    hide Run, Count, GateHolds;
    steps := SerialSends(cap, k, cap - 1);
    var base := |Run(Start(0), steps).attempts|;
    steps := ReachMany(steps, cap, cap - 1, k, k);
    steps := PassMany(steps, cap, cap - 1, k, base, k);
  }
}
