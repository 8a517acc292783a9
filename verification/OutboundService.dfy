/**
 The pipeline code itself, as it runs when no other worker interferes. Each method changes the shared
 counters the way the service does; the ghost list of attempts follows along, and every contract says
 that what the method did is a run of its own steps in the state machine, so the theorems about runs apply
 to the code, and that everything else stays as it was.
 */
module OutboundService {
  import opened Wrappers
  import opened OutboundMachine

  datatype Tier = Tier(upTo: nat, max: nat)

  const WARMUP_TIERS: seq<Tier> := [Tier(3, 50), Tier(7, 250), Tier(14, 1_000), Tier(30, 5_000)]

  lemma RunOne(s: State, step: Step)
    ensures Run(s, [step]) == Next(s, step)
  {
    assert [step][..0] == [];
    assert Run(s, [step][..0]) == s;
  }

  // ---- what one attempt leaves alone ----

  /** Every step is an operation of attempt i; `sends` says whether one may be its provider call. */
  predicate Own(steps: seq<Step>, i: nat, sends: bool) {
    forall k :: 0 <= k < |steps| ==> steps[k].Act? && steps[k].i == i && (steps[k].action.Send? ==> sends)
  }

  /** Only attempt i, the line of its account and the quota may differ, and of the line not the account row
      nor the number of the minute key's lifetime. */
  ghost predicate Framed(s: State, t: State, i: nat) {
    && t.now == s.now && t.period == s.period && t.plan == s.plan
    && i < |s.attempts| == |t.attempts| && s.attempts[i].id == t.attempts[i].id
    && (forall j :: 0 <= j < |s.attempts| && j != i ==> t.attempts[j] == s.attempts[j])
    && t.attempts[i].isTemplate == s.attempts[i].isTemplate && t.attempts[i].kind == s.attempts[i].kind
    && s.attempts[i].id in s.lines && t.lines.Keys == s.lines.Keys
    && (forall id :: id in s.lines && id != s.attempts[i].id ==> t.lines[id] == s.lines[id])
    && t.lines[s.attempts[i].id].account == s.lines[s.attempts[i].id].account
    && t.lines[s.attempts[i].id].lifetime == s.lines[s.attempts[i].id].lifetime
  }

  lemma PerformFrames(s: State, a: Attempt, line: Line, action: Action)
    requires Can(a, action)
    ensures var e := Perform(s, a, line, action);
      && e.attempt.id == a.id && e.attempt.isTemplate == a.isTemplate && e.attempt.kind == a.kind
      && e.line.account == line.account && e.line.lifetime == line.lifetime
      && (!action.Send? ==> e.attempt.sent == a.sent)
  {
    hide CapFor, Blocks, Messages;
  }

  lemma {:induction false} OwnFrames(s: State, steps: seq<Step>, i: nat, sends: bool)
    requires i < |s.attempts| && s.attempts[i].id in s.lines && Own(steps, i, sends)
    ensures Framed(s, Run(s, steps), i)
    ensures !sends ==> Run(s, steps).attempts[i].sent == s.attempts[i].sent
  {
    hide Perform, Next;
    if steps != [] {
      var front := steps[..|steps| - 1];
      var step := steps[|steps| - 1];
      OwnFrames(s, front, i, sends);
      var t := Run(s, front);
      assert step.Act? && step.i == i;
      if Enabled(t, step) {
        ActShape(t, step);
        PerformFrames(t, t.attempts[i], t.lines[t.attempts[i].id], step.action);
      } else {
        NotEnabled(t, step);
      }
    }
  }

  lemma NotEnabled(s: State, step: Step)
    requires !Enabled(s, step)
    ensures Next(s, step) == s
  {
  }

  /** A step sequence of attempt i leads from s to t. */
  ghost predicate Leads(s: State, t: State, steps: seq<Step>, i: nat, sends: bool) {
    t == Run(s, steps) && Own(steps, i, sends) && Framed(s, t, i) && (!sends ==> t.attempts[i].sent == s.attempts[i].sent)
  }

  lemma LeadsOn(s: State, t: State, u: State, xs: seq<Step>, ys: seq<Step>, i: nat, b: bool, c: bool)
    requires Leads(s, t, xs, i, b) && Leads(t, u, ys, i, c)
    ensures Leads(s, u, xs + ys, i, b || c)
    ensures i < |s.attempts| == |u.attempts| && u.now == s.now && u.period == s.period && u.plan == s.plan
    ensures u.attempts[i].id == s.attempts[i].id && u.attempts[i].isTemplate == s.attempts[i].isTemplate
    ensures !b && !c ==> u.attempts[i].sent == s.attempts[i].sent
  {
    RunConcat(s, xs, ys);
    OwnFrames(s, xs + ys, i, b || c);
  }

  lemma LeadsBasics(s: State, t: State, steps: seq<Step>, i: nat, sends: bool)
    requires Leads(s, t, steps, i, sends)
    ensures i < |s.attempts| == |t.attempts| && t.now == s.now && t.period == s.period && t.plan == s.plan
    ensures t.attempts[i].id == s.attempts[i].id && t.attempts[i].isTemplate == s.attempts[i].isTemplate
    ensures !sends ==> t.attempts[i].sent == s.attempts[i].sent
  {
  }

  // ---- the counters after a send ----

  /** The minute counter after the guardrails: a refused caller counts, and the daily cap gives one back. */
  function MinuteAfter(value: int, limit: int, blocked: bool, dayOpen: bool): int {
    if blocked then value
    else
      var counted := if limit > 0 then value + 1 else value;
      if limit > 0 && counted > limit then counted
      else if dayOpen then counted
      else Refunded(counted)
  }

  function Refunded(value: int): int { if value > 0 then value - 1 else value }

  predicate DayOpen(line: Line, account: Account, now: nat) {
    CapFor(account, now) == 0 || line.Used(now / DAY_MS) < CapFor(account, now)
  }

  lemma DayOpenSame(line: Line, line': Line, account: Account, now: nat)
    requires line.daily == line'.daily
    ensures DayOpen(line, account, now) == DayOpen(line', account, now)
    ensures forall d: nat :: line.Used(d) == line'.Used(d)
  {
  }

  /** The decision of the guardrails on the counters as they stand. */
  predicate Allowed(line: Line, account: Account, now: nat, isTemplate: bool, cold: bool) {
    && !Blocks(account, isTemplate, cold)
    && (account.msgsPerMinute <= 0 || line.rate.Value() < account.msgsPerMinute)
    && DayOpen(line, account, now)
  }

  lemma Guardrails(line: Line, account: Account, now: nat, isTemplate: bool, cold: bool)
    ensures var value, limit := line.rate.Value(), account.msgsPerMinute;
      var blocked, open := Blocks(account, isTemplate, cold), DayOpen(line, account, now);
      var minuteOk := limit <= 0 || value + 1 <= limit;
      var counted := if limit <= 0 then value else value + 1;
      && (Allowed(line, account, now, isTemplate, cold) <==> !blocked && minuteOk && open)
      && MinuteAfter(value, limit, blocked, open)
         == (if blocked then value else if !minuteOk || open then counted else Refunded(counted))
    ensures Blocks(account, isTemplate, cold)
            <==> account.outboundPaused || (account.provider.MetaCloud? && !isTemplate && cold) || (account.provider.Evolution? && cold)
  {
  }

  /** The decision and the counter it leaves, written out: a number up to 3, 7, 14 or 30 days old in its warm-up is
      held to 50, 250, 1000 or 5000 messages a day unless a daily limit is set. */
  lemma GuardrailsMean(line: Line, account: Account, now: nat, isTemplate: bool, cold: bool)
    ensures var value, limit, used, age := line.rate.Value(), account.msgsPerMinute, line.Used(now / 86_400_000), now - account.createdAt;
      var fine := !account.outboundPaused && (account.provider.MetaCloud? && cold ==> isTemplate) && (account.provider.Evolution? ==> !cold);
      var room := if account.msgsPerDay > 0 then used < account.msgsPerDay
                  else account.warmupMode && age <= 30 * 86_400_000 ==>
                         used < (if age <= 3 * 86_400_000 then 50 else if age <= 7 * 86_400_000 then 250
                                 else if age <= 14 * 86_400_000 then 1_000 else 5_000);
      && (Allowed(line, account, now, isTemplate, cold) <==> fine && (limit > 0 ==> value < limit) && room)
      && MinuteAfter(value, limit, Blocks(account, isTemplate, cold), DayOpen(line, account, now))
         == (if !fine then value
             else if limit > 0 && value >= limit then value + 1
             else if room then (if limit > 0 then value + 1 else value)
             else if limit > 0 then (if value >= 0 then value else value + 1)
             else if value > 0 then value - 1 else value)
  {
  }

  /** The line after one guarded send whose provider call is answered by `ok`. */
  ghost predicate SendCounted(before: Line, after: Line, account: Account, now: nat, isTemplate: bool, cold: bool, ok: bool) {
    var allowed := Allowed(before, account, now, isTemplate, cold);
    var minute := MinuteAfter(before.rate.Value(), account.msgsPerMinute, Blocks(account, isTemplate, cold), DayOpen(before, account, now));
    && after.rate.Value() == (if allowed && !ok then Refunded(minute) else minute)
    && forall d: nat :: after.Used(d) == before.Used(d) + (if allowed && CapFor(account, now) > 0 && d == now / DAY_MS then 1 else 0)
  }

  lemma SendCountedFrom(before: Line, gated: Line, after: Line, account: Account, now: nat, isTemplate: bool, cold: bool, ok: bool)
    requires gated.rate.Value() == MinuteAfter(before.rate.Value(), account.msgsPerMinute, Blocks(account, isTemplate, cold),
                                               DayOpen(before, account, now))
    requires var today := if Allowed(before, account, now, isTemplate, cold) && CapFor(account, now) > 0 then 1 else 0;
      forall d: nat :: gated.Used(d) == before.Used(d) + (if d == now / DAY_MS then today else 0)
    requires if Allowed(before, account, now, isTemplate, cold) && !ok
             then after.rate.Value() == Refunded(gated.rate.Value()) && after.daily == gated.daily else after == gated
    ensures SendCounted(before, after, account, now, isTemplate, cold, ok)
  {
    DayOpenSame(gated, if after.daily == gated.daily then after else gated, account, now);
  }

  lemma TodayUsed(line: Line, now: nat)
    ensures CountedToday(line, now).rate == line.rate
    ensures forall d: nat :: CountedToday(line, now).Used(d) == line.Used(d) + (if d == now / DAY_MS then 1 else 0)
  {
  }

  class Pipeline {
    var now: nat
    var period: nat
    var plan: Option<nat>
    var quota: map<nat, int>
    var lines: map<AccountId, Line>
    ghost var attempts: seq<Attempt>

    ghost function View(): State
      reads this
    {
      State(now, period, plan, quota, lines, attempts)
    }

    /** Attempt i is the caller: it runs for account `id`, holds the row it fetched, and is in `phase`. */
    ghost predicate At(i: nat, id: AccountId, account: Account, phase: Phase)
      reads this
    {
      && i < |attempts| && attempts[i].id == id && id in lines
      && attempts[i].snapshot == account && attempts[i].phase == phase
    }

    /** One operation of attempt i; the caller has already made the change to the real counters. */
    ghost method Note(i: nat, action: Action, before: State) returns (steps: seq<Step>)
      requires i < |attempts| && attempts == before.attempts && attempts[i].id in before.lines
      requires Can(attempts[i], action) && now == before.now && period == before.period && plan == before.plan
      requires var e := Perform(before, attempts[i], before.lines[attempts[i].id], action);
        quota == e.quota && lines == before.lines[attempts[i].id := e.line]
      modifies this`attempts
      ensures steps == [Act(i, action)] && Leads(before, View(), steps, i, action.Send?)
      ensures attempts == before.attempts[i := Perform(before, before.attempts[i], before.lines[before.attempts[i].id], action).attempt]
    {
      hide Perform;
      steps := [Act(i, action)];
      RunOne(before, Act(i, action));
      ActShape(before, Act(i, action));
      OwnFrames(before, steps, i, action.Send?);
      attempts := attempts[i := Perform(before, attempts[i], before.lines[attempts[i].id], action).attempt];
    }

    /** The three operations that touch no counter. */
    ghost method NoteScreen(i: nat, id: AccountId, account: Account, cold: bool) returns (steps: seq<Step>)
      requires At(i, id, account, Cleared)
      modifies this`attempts
      ensures Leads(old(View()), View(), steps, i, false) && steps == [Act(i, Screen(cold))]
      ensures At(i, id, account, if Blocks(account, attempts[i].isTemplate, cold) then Done(Blocked) else Screened)
    {
      assert lines[id := lines[id]] == lines;
      steps := Note(i, Screen(cold), View());
    }

    ghost method NoteRead(i: nat, id: AccountId, account: Account, cap: nat) returns (steps: seq<Step>)
      requires At(i, id, account, Slotted) && cap == CapFor(account, now)
      modifies this`attempts
      ensures Leads(old(View()), View(), steps, i, false)
      ensures At(i, id, account, if cap == 0 then Sending
                                 else if lines[id].Used(now / DAY_MS) >= cap then OutboundMachine.RefundRead(Blocked) else UnderCap)
    {
      assert lines[id := lines[id]] == lines;
      steps := Note(i, DailyRead, View());
    }

    ghost method NoteSend(i: nat, id: AccountId, account: Account, ok: bool) returns (steps: seq<Step>)
      requires At(i, id, account, Sending)
      modifies this`attempts
      ensures Leads(old(View()), View(), steps, i, true)
      ensures At(i, id, account, if ok then Done(Delivered) else OutboundMachine.RefundRead(Failed))
      ensures attempts[i].sent == if ok then Some(period) else old(attempts)[i].sent
    {
      assert lines[id := lines[id]] == lines;
      steps := Note(i, Send(ok), View());
    }

    method WarmupCapForAge(createdAt: int) returns (cap: nat)
      ensures cap == WarmupCap(now - createdAt)
      ensures var age := now - createdAt;
        cap == if age <= 3 * 86_400_000 then 50 else if age <= 7 * 86_400_000 then 250
               else if age <= 14 * 86_400_000 then 1_000 else if age <= 30 * 86_400_000 then 5_000 else 0
    {
      var t := 0;
      while t < |WARMUP_TIERS|
        invariant 0 <= t <= |WARMUP_TIERS|
        invariant forall u :: 0 <= u < t ==> now - createdAt > WARMUP_TIERS[u].upTo * DAY_MS
      {
        if now - createdAt <= WARMUP_TIERS[t].upTo * DAY_MS {
          assert t == 0 || t == 1 || t == 2 || t == 3;
          assert t > 0 ==> now - createdAt > WARMUP_TIERS[t - 1].upTo * DAY_MS;
          return WARMUP_TIERS[t].max;
        }
        t := t + 1;
      }
      assert now - createdAt > WARMUP_TIERS[3].upTo * DAY_MS;
      return 0;
    }

    /** Takes the increment back, unless the write fails, which the service swallows. */
    method Compensate(ghost i: nat, id: AccountId, account: Account, month: nat, lost: bool) returns (ghost steps: seq<Step>)
      requires At(i, id, account, OverQuota)
      requires attempts[i].meter.Some? && attempts[i].meter.value.period == month
      modifies this
      ensures Leads(old(View()), View(), steps, i, false) && lines == old(lines)
      ensures At(i, id, account, Done(Denied))
      ensures Messages(quota, month) == Messages(old(quota), month) - (if lost then 0 else 1)
      ensures forall p: nat :: p != month ==> Messages(quota, p) == Messages(old(quota), p)
    {
      ghost var start := View();
      if !lost {
        quota := quota[month := (if month in quota then quota[month] else 0) - 1];
      }
      assert lines[id := lines[id]] == lines;
      steps := Note(i, QuotaUndo(lost), start);
    }

    /** Increments and says what the counter then stands at. */
    method CountMessage(ghost i: nat, id: AccountId, account: Account, month: nat, limit: nat)
      returns (updated: int, ghost steps: seq<Step>)
      requires At(i, id, account, Metered) && attempts[i].meter == Some(Meter(month, limit))
      modifies this
      ensures Leads(old(View()), View(), steps, i, false) && lines == old(lines)
      ensures updated == Messages(old(quota), month) + 1 == Messages(quota, month)
      ensures At(i, id, account, if updated > limit then OverQuota else Cleared)
      ensures attempts[i].meter == Some(Meter(month, limit))
      ensures forall p: nat :: p != month ==> Messages(quota, p) == Messages(old(quota), p)
    {
      ghost var start := View();
      updated := (if month in quota then quota[month] else 0) + 1;
      quota := quota[month := updated];
      assert lines[id := lines[id]] == lines;
      steps := Note(i, QuotaIncr, start);
    }

    /** Increment, then check, then compensate. Refuses exactly when the counter already stands at the limit. */
    method AssertCanSendMessage(ghost i: nat, id: AccountId, account: Account, lost: bool)
      returns (ok: bool, ghost steps: seq<Step>)
      requires At(i, id, account, Fetched)
      modifies this
      ensures Leads(old(View()), View(), steps, i, false) && lines == old(lines)
      ensures At(i, id, account, if ok then Cleared else Done(Denied))
      ensures ok <==> plan.None? || Messages(old(quota), period) < plan.value
      ensures Messages(quota, period) == Messages(old(quota), period)
                                         + (if plan.Some? && (ok || lost) then 1 else 0)
      ensures forall p: nat :: p != period ==> Messages(quota, p) == Messages(old(quota), p)
    {
      hide Run, Leads;
      ghost var start := View();
      assert lines[id := lines[id]] == lines;
      steps := Note(i, GetContext, start);
      LeadsBasics(start, View(), steps, i, false);
      if plan.None? {
        return true, steps;
      }
      ghost var metered := View();
      var updated, more := CountMessage(i, id, account, period, plan.value);
      LeadsOn(start, metered, View(), steps, more, i, false, false);
      steps := steps + more;
      ok := updated <= plan.value;
      if !ok {
        ghost var over := View();
        more := Compensate(i, id, account, period, lost);
        LeadsOn(start, over, View(), steps, more, i, false, false);
        steps := steps + more;
      }
    }

    /** A slot is granted exactly when the counter, plus one, is within the limit; a refused caller still counts.
        Counting up to one sets the key's expiry a minute ahead, counting further leaves it. */
    method ConsumeRate(ghost i: nat, id: AccountId, account: Account) returns (ok: bool, ghost steps: seq<Step>)
      requires At(i, id, account, Screened)
      modifies this
      ensures Leads(old(View()), View(), steps, i, false) && quota == old(quota)
      ensures At(i, id, account, if ok then Slotted else Done(Blocked))
      ensures ok <==> account.msgsPerMinute <= 0 || old(lines[id].rate.Value()) + 1 <= account.msgsPerMinute
      ensures lines[id] == if account.msgsPerMinute <= 0 then old(lines[id]) else CountedNow(old(lines[id]), now)
    {
      hide Run, Leads, Perform, IncrRate, ExpireRate, CountedNow;
      ghost var start := View();
      OnRate(start, attempts[i], lines[id]);
      RateCounted(lines[id], now);
      var limit := account.msgsPerMinute;
      if limit <= 0 {
        assert lines[id := lines[id]] == lines;
        steps := Note(i, RateIncr, start);
        LeadsBasics(start, View(), steps, i, false);
        return true, steps;
      }
      lines := lines[id := IncrRate(lines[id], now)];
      var next := lines[id].rate.count;
      steps := Note(i, RateIncr, start);
      LeadsBasics(start, View(), steps, i, false);
      if next == 1 {
        ghost var mid := View();
        OnRate(mid, attempts[i], lines[id]);
        lines := lines[id := ExpireRate(lines[id], now)];
        ghost var more := Note(i, RateExpire, mid);
        LeadsOn(start, mid, View(), steps, more, i, false, false);
        steps := steps + more;
      }
      ok := next <= limit;
    }

    /** Takes one off a positive minute counter and leaves any other as it is. */
    method RefundRate(ghost i: nat, id: AccountId, account: Account, ghost why: Outcome) returns (ghost steps: seq<Step>)
      requires At(i, id, account, OutboundMachine.RefundRead(why))
      modifies this
      ensures Leads(old(View()), View(), steps, i, false) && quota == old(quota)
      ensures At(i, id, account, Done(why))
      ensures lines[id].rate.Value() == Refunded(old(lines[id].rate.Value())) && lines[id].daily == old(lines[id].daily)
    {
      hide Run, Leads;
      ghost var start := View();
      var n := lines[id].rate.Value();
      assert lines[id := lines[id]] == lines;
      steps := Note(i, GetForRefund, start);
      LeadsBasics(start, View(), steps, i, false);
      if n > 0 {
        ghost var mid := View();
        lines := lines[id := DecrRate(lines[id], now)];
        ghost var more := Note(i, DecrForRefund, mid);
        LeadsOn(start, mid, View(), steps, more, i, false, false);
        steps := steps + more;
      }
    }

    method DailyUsed(id: AccountId) returns (used: nat)
      requires id in lines
      ensures used == lines[id].Used(now / DAY_MS)
    {
      var day := now / DAY_MS;
      used := if day in lines[id].daily then lines[id].daily[day].count else 0;
    }

    /** Adds one to today's counter; the first of the day sets the key's expiry. */
    method IncrementDaily(ghost i: nat, id: AccountId, account: Account) returns (ghost steps: seq<Step>)
      requires At(i, id, account, UnderCap)
      modifies this
      ensures Leads(old(View()), View(), steps, i, false) && quota == old(quota)
      ensures At(i, id, account, Sending) && lines[id] == CountedToday(old(lines[id]), now)
    {
      hide Run, Leads, IncrDay, ExpireDay, Perform, CountedToday;
      ghost var start := View();
      var day := now / DAY_MS;
      DayCounted(lines[id], now);
      OnDaily(start, attempts[i], lines[id]);
      lines := lines[id := IncrDay(lines[id], day)];
      steps := Note(i, DailyIncr, start);
      LeadsBasics(start, View(), steps, i, false);
      if lines[id].daily[day].count == 1 {
        ghost var mid := View();
        OnDaily(mid, attempts[i], lines[id]);
        lines := lines[id := ExpireDay(lines[id], day, now)];
        ghost var more := Note(i, DailyExpire, mid);
        LeadsOn(start, mid, View(), steps, more, i, false, false);
        steps := steps + more;
      }
    }

    /** The daily part of the guardrails, behind a granted minute slot. */
    method DailyGate(ghost i: nat, id: AccountId, account: Account) returns (allow: bool, ghost steps: seq<Step>)
      requires At(i, id, account, Slotted)
      modifies this
      ensures Leads(old(View()), View(), steps, i, false) && quota == old(quota)
      ensures At(i, id, account, if allow then Sending else Done(Blocked))
      ensures allow <==> old(DayOpen(lines[id], account, now))
      ensures lines[id].rate.Value() == if allow then old(lines[id].rate.Value()) else Refunded(old(lines[id].rate.Value()))
      ensures forall d: nat :: lines[id].Used(d) == old(lines[id].Used(d))
                + (if allow && CapFor(account, now) > 0 && d == now / DAY_MS then 1 else 0)
    {
      hide Run, Leads, WarmupCap, CountedToday, Perform, Can;
      ghost var start := View();
      var cap := 0;
      if account.warmupMode || account.msgsPerDay > 0 {
        if account.msgsPerDay > 0 {
          cap := account.msgsPerDay;
        } else {
          cap := WarmupCapForAge(account.createdAt);
        }
      }
      assert cap == CapFor(account, now);
      var used := DailyUsed(id);
      steps := NoteRead(i, id, account, cap);
      LeadsBasics(start, View(), steps, i, false);
      allow := true;
      if cap > 0 {
        ghost var more;
        ghost var read := View();
        if used >= cap {
          more := RefundRate(i, id, account, Blocked);
          allow := false;
        } else {
          TodayUsed(lines[id], now);
          more := IncrementDaily(i, id, account);
        }
        LeadsOn(start, read, View(), steps, more, i, false, false);
        steps := steps + more;
      }
    }

    /** Allowed exactly when the account is not paused, the service window is open to this message, and both counters
        have room. The minute counter moves as MinuteAfter says, allowed or not; only an allowed send counts towards
        the day. */
    method Preflight(ghost i: nat, id: AccountId, account: Account, isTemplate: bool, cold: bool)
      returns (allow: bool, ghost steps: seq<Step>)
      requires At(i, id, account, Cleared) && attempts[i].isTemplate == isTemplate
      modifies this
      ensures Leads(old(View()), View(), steps, i, false) && quota == old(quota)
      ensures At(i, id, account, if allow then Sending else Done(Blocked))
      ensures allow <==> old(Allowed(lines[id], account, now, isTemplate, cold))
      ensures allow <==>
                && !account.outboundPaused
                && (account.provider.MetaCloud? && cold ==> isTemplate)
                && (account.provider.Evolution? ==> !cold)
                && (account.msgsPerMinute > 0 ==> old(lines[id].rate.Value()) < account.msgsPerMinute)
                && old(DayOpen(lines[id], account, now))
      ensures steps != [] && steps[0] == Act(i, Screen(cold))
      ensures lines[id].rate.Value() == MinuteAfter(old(lines[id].rate.Value()), account.msgsPerMinute,
                                                    Blocks(account, isTemplate, cold), old(DayOpen(lines[id], account, now)))
      ensures forall d: nat :: lines[id].Used(d) == old(lines[id].Used(d))
                + (if allow && CapFor(account, now) > 0 && d == now / DAY_MS then 1 else 0)
    {
      hide Run, Leads, CapFor, Perform, Can, DayOpen, CountedNow, Allowed, MinuteAfter, Blocks;
      ghost var start := View();
      Guardrails(lines[id], account, now, isTemplate, cold);
      steps := NoteScreen(i, id, account, cold);
      LeadsBasics(start, View(), steps, i, false);
      if account.outboundPaused {
        return false, steps;
      }
      if account.provider == MetaCloud && !isTemplate && cold {
        return false, steps;
      }
      if account.provider == Evolution && cold {
        return false, steps;
      }
      ghost var screened := View();
      RateCounted(lines[id], now);
      var minuteOk, more := ConsumeRate(i, id, account);
      LeadsOn(start, screened, View(), steps, more, i, false, false);
      DayOpenSame(screened.lines[id], lines[id], account, now);
      steps := steps + more;
      if !minuteOk {
        return false, steps;
      }
      ghost var slotted := View();
      allow, more := DailyGate(i, id, account);
      LeadsOn(start, slotted, View(), steps, more, i, false, false);
      steps := steps + more;
    }

    /** Guardrails, then the provider, whose answer is `providerOk`; a failed send gives the minute slot
        back but stays in the daily count. */
    method SendOutbound(ghost i: nat, id: AccountId, account: Account, isTemplate: bool, cold: bool, providerOk: bool)
      returns (sent: bool, ghost steps: seq<Step>)
      requires At(i, id, account, Cleared) && attempts[i].isTemplate == isTemplate && attempts[i].sent.None?
      modifies this
      ensures Leads(old(View()), View(), steps, i, true) && quota == old(quota)
      ensures sent <==> old(Allowed(lines[id], account, now, isTemplate, cold)) && providerOk
      ensures At(i, id, account, if sent then Done(Delivered)
                                 else if old(Allowed(lines[id], account, now, isTemplate, cold)) then Done(Failed) else Done(Blocked))
      ensures attempts[i].sent == if sent then Some(period) else None
      ensures SendCounted(old(lines[id]), lines[id], account, now, isTemplate, cold, providerOk)
    {
      hide Run, Leads, CapFor, DayOpen, MinuteAfter, Allowed, Perform, Can, Blocks, SendCounted;
      ghost var start := View();
      var allow, first := Preflight(i, id, account, isTemplate, cold);
      steps := first;
      LeadsBasics(start, View(), steps, i, false);
      LeadsMore(start, View(), steps, i);
      ghost var gated := lines[id];
      if !allow {
        SendCountedFrom(start.lines[id], gated, lines[id], account, now, isTemplate, cold, providerOk);
        return false, steps;
      }
      ghost var ready := View();
      ghost var more := NoteSend(i, id, account, providerOk);
      LeadsOn(start, ready, View(), steps, more, i, false, true);
      steps := steps + more;
      sent := providerOk;
      if !providerOk {
        ghost var failed := View();
        more := RefundRate(i, id, account, Failed);
        LeadsBasics(failed, View(), more, i, false);
        LeadsOn(start, failed, View(), steps, more, i, true, false);
        steps := steps + more;
      }
      SendCountedFrom(start.lines[id], gated, lines[id], account, now, isTemplate, cold, providerOk);
    }

    /** The outbound worker body for one job: quota first, then the guarded send. Whatever becomes of the send, a
        job that passed the quota check has used one message of the month, so the counter and the messages sent
        move together exactly as KeepsStep says. */
    method OutboundJob(id: AccountId, isTemplate: bool, lost: bool, cold: bool, providerOk: bool)
      returns (sent: bool, ghost steps: seq<Step>)
      requires id in lines
      modifies this
      ensures JobRun(old(View()), View(), steps, Outbound, id, isTemplate)
      ensures var passes := plan.None? || Messages(old(quota), period) < plan.value;
        var allowed := old(Allowed(lines[id], lines[id].account, now, isTemplate, cold));
        && (sent <==> passes && allowed && providerOk)
        && attempts[|old(attempts)|].phase == Done(if !passes then Denied else if !allowed then Blocked
                                                   else if providerOk then Delivered else Failed)
        && Messages(quota, period) == Messages(old(quota), period) + (if plan.Some? && (passes || lost) then 1 else 0)
        && (if passes then SendCounted(old(lines[id]), lines[id], lines[id].account, now, isTemplate, cold, providerOk)
            else lines == old(lines))
      ensures forall p: nat :: p != period ==> Messages(quota, p) == Messages(old(quota), p)
      ensures attempts[|old(attempts)|].sent == if sent then Some(period) else None
      ensures Messages(quota, period) - Messages(old(quota), period)
              == Count(attempts, SentIn(period)) - Count(old(attempts), SentIn(period))
              <==> KeepsStep(plan, Messages(old(quota), period), lost,
                             old(Allowed(lines[id], lines[id].account, now, isTemplate, cold)) && providerOk)
    {
      hide Run, Leads, Perform, Can, Next, Allowed, SendCounted, Count;
      ghost var start := View();
      ghost var i := |attempts|;
      var account := lines[id].account;
      attempts := attempts + [NewAttempt(Outbound, id, account, isTemplate)];
      ghost var fetched := View();
      FetchedIs(start, Outbound, id, isTemplate);
      ghost var own;
      var ok;
      ok, own := AssertCanSendMessage(i, id, account, lost);
      LeadsBasics(fetched, View(), own, i, false);
      LeadsMore(fetched, View(), own, i);
      if ok {
        ghost var cleared := View();
        ghost var more;
        sent, more := SendOutbound(i, id, account, isTemplate, cold, providerOk);
        LeadsOn(fetched, cleared, View(), own, more, i, false, true);
        own := own + more;
      } else {
        sent := false;
      }
      steps := JobDone(start, fetched, View(), own, Outbound, id, isTemplate);
    }

    /** The campaign worker sends without asking the quota, so the counter keeps step exactly when nothing is sent. */
    method CampaignSend(id: AccountId, isTemplate: bool, cold: bool, providerOk: bool)
      returns (sent: bool, ghost steps: seq<Step>)
      requires id in lines
      modifies this
      ensures JobRun(old(View()), View(), steps, Campaign, id, isTemplate) && quota == old(quota)
      ensures var allowed := old(Allowed(lines[id], lines[id].account, now, isTemplate, cold));
        && (sent <==> allowed && providerOk)
        && attempts[|old(attempts)|].phase == Done(if !allowed then Blocked else if providerOk then Delivered else Failed)
      ensures SendCounted(old(lines[id]), lines[id], lines[id].account, now, isTemplate, cold, providerOk)
      ensures attempts[|old(attempts)|].sent == if sent then Some(period) else None
      ensures Count(attempts, SentIn(period)) == Count(old(attempts), SentIn(period)) <==> !sent
    {
      hide Run, Leads, Perform, Can, Next, Allowed, SendCounted, Count;
      ghost var start := View();
      ghost var i := |attempts|;
      var account := lines[id].account;
      attempts := attempts + [NewAttempt(Campaign, id, account, isTemplate)];
      ghost var fetched := View();
      FetchedIs(start, Campaign, id, isTemplate);
      ghost var own;
      sent, own := SendOutbound(i, id, account, isTemplate, cold, providerOk);
      LeadsBasics(fetched, View(), own, i, true);
      steps := JobDone(start, fetched, View(), own, Campaign, id, isTemplate);
    }

    /** Per-minute limits are clamped to 1..600 and daily limits to 0 and up; what is not given stays, so after a
        change of the per-minute limit the minute gate is never switched off. */
    method SetLimits(id: AccountId, msgsPerMinute: Option<int>, msgsPerDay: Option<int>, warmupMode: Option<bool>)
      returns (ghost steps: seq<Step>)
      requires id in lines
      modifies this`lines
      ensures View() == Run(old(View()), steps)
      ensures var was := old(lines[id].account);
        lines == old(lines)[id := old(lines[id]).(account := Account(
          was.provider,
          match msgsPerMinute case None => was.msgsPerMinute case Some(v) => Clamp(v, 1, 600),
          match msgsPerDay case None => was.msgsPerDay case Some(v) => if v < 0 then 0 else v,
          match warmupMode case None => was.warmupMode case Some(b) => b,
          was.outboundPaused,
          was.createdAt))]
    {
      ghost var start := View();
      var account := lines[id].account;
      if msgsPerMinute.Some? {
        var v := msgsPerMinute.value;
        account := account.(msgsPerMinute := if v > 600 then 600 else if v < 1 then 1 else v);
      }
      if msgsPerDay.Some? {
        account := account.(msgsPerDay := if msgsPerDay.value < 0 then 0 else msgsPerDay.value);
      }
      if warmupMode.Some? {
        account := account.(warmupMode := warmupMode.value);
      }
      lines := lines[id := lines[id].(account := account)];
      steps := [Configure(id, account)];
      RunOne(start, Configure(id, account));
    }
  }

  /** The nearest value to v between lo and hi. */
  function Clamp(v: int, lo: int, hi: int): (r: int)
    requires lo <= hi
    ensures lo <= r <= hi && (lo <= v <= hi ==> r == v) && (v < lo ==> r == lo) && (v > hi ==> r == hi)
  {
    if v < lo then lo else if v > hi then hi else v
  }

  // ---- whole jobs ----

  /** Whether one outbound job moves the usage counter by as much as the messages sent: under an unlimited plan
      when it sends nothing, below the limit when it is sent, at the limit when the refusal is compensated. */
  predicate KeepsStep(plan: Option<nat>, used: int, lost: bool, accepted: bool) {
    if plan.None? then !accepted else if used < plan.value then accepted else !lost
  }

  /** One new attempt of this kind, run to its end by its own steps; no other attempt, account row or line of
      another account changes. */
  ghost predicate JobRun(s: State, t: State, steps: seq<Step>, kind: Kind, id: AccountId, isTemplate: bool) {
    && t == Run(s, steps) && steps != [] && steps[0] == Fetch(kind, id, isTemplate) && Own(steps[1..], |s.attempts|, true)
    && t.now == s.now && t.period == s.period && t.plan == s.plan
    && |t.attempts| == |s.attempts| + 1 && t.attempts[..|s.attempts|] == s.attempts
    && t.attempts[|s.attempts|].id == id && t.attempts[|s.attempts|].kind == kind
    && id in s.lines && t.lines.Keys == s.lines.Keys && t.lines[id].account == s.lines[id].account
    && forall other :: other in s.lines && other != id ==> t.lines[other] == s.lines[other]
  }

  lemma FetchedIs(s: State, kind: Kind, id: AccountId, isTemplate: bool)
    requires id in s.lines
    ensures Run(s, [Fetch(kind, id, isTemplate)])
            == s.(attempts := s.attempts + [NewAttempt(kind, id, s.lines[id].account, isTemplate)])
  {
    RunOne(s, Fetch(kind, id, isTemplate));
  }

  lemma JobDone(s: State, fetched: State, t: State, own: seq<Step>, kind: Kind, id: AccountId, isTemplate: bool)
    returns (steps: seq<Step>)
    requires id in s.lines && fetched == s.(attempts := s.attempts + [NewAttempt(kind, id, s.lines[id].account, isTemplate)])
    requires Leads(fetched, t, own, |s.attempts|, true)
    ensures JobRun(s, t, steps, kind, id, isTemplate)
    ensures Count(t.attempts, SentIn(s.period))
            == Count(s.attempts, SentIn(s.period)) + Weight(t.attempts[|s.attempts|], SentIn(s.period))
  {
    hide Run, Count;
    FetchedIs(s, kind, id, isTemplate);
    steps := [Fetch(kind, id, isTemplate)] + own;
    RunConcat(s, [Fetch(kind, id, isTemplate)], own);
    assert steps[1..] == own;
    var last := t.attempts[|s.attempts|];
    assert t.attempts[..|s.attempts|] == s.attempts;
    assert t.attempts == s.attempts + [last];
    CountAppend(s.attempts, last, SentIn(s.period));
  }

  lemma LeadsMore(s: State, t: State, steps: seq<Step>, i: nat)
    requires Leads(s, t, steps, i, false)
    ensures Leads(s, t, steps, i, true)
  {
  }
}
