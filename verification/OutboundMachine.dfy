/**
 The outbound send pipeline as a state machine over its atomic steps.

 Every database or Redis operation of the two send workers is one step, so a run is an arbitrary
 interleaving of any number of workers over the shared counters: the monthly quota of one agency
 and, for each of its WhatsApp accounts, the per-minute key and the per-day keys.

 An attempt is one execution of a worker body for one job; a retried job is a new attempt.
 Attempts are never removed, so `attempts` is also the history the theorems count over.
 */
module OutboundMachine {
  import opened Wrappers

  const MINUTE_MS: nat := 60_000
  const DAY_MS: nat := 86_400_000
  const DAILY_TTL_MS: nat := 36 * 3_600_000

  type AccountId = string

  datatype Provider = Evolution | MetaCloud

  datatype Account = Account(
    provider: Provider,
    msgsPerMinute: int,
    msgsPerDay: int,
    warmupMode: bool,
    outboundPaused: bool,
    createdAt: int)

  /** The Redis key of the minute counter. `born` is history: when the key came into existence. */
  datatype RateKey =
    | NoRateKey
    | RateKey(count: int, expiry: Option<nat>, born: nat)
  {
    function Value(): int { if NoRateKey? then 0 else count }
  }

  datatype DayKey = DayKey(count: nat, expiry: Option<nat>)

  /** What the pipeline keeps per account. `lifetime` numbers the incarnations of the minute key. */
  datatype Line = Line(account: Account, rate: RateKey, lifetime: nat, daily: map<nat, DayKey>)
  {
    function Used(day: nat): nat { if day in daily then daily[day].count else 0 }
  }

  datatype Kind = Outbound | Campaign

  datatype Outcome = Delivered | Blocked | Failed | Denied

  /** Where an attempt is between two atomic operations. */
  datatype Phase =
    | Fetched                       // job and account row read
    | Metered                       // plan and period read, quota not yet incremented
    | OverQuota                     // incremented past the limit, compensation still to come
    | Cleared                       // may enter the guardrails
    | Screened                      // not paused, inside the service window
    | SettingRateExpiry             // INCR on the minute key returned 1, EXPIRE still to come
    | Slotted                       // holds a minute slot
    | UnderCap                      // read the daily counter below the cap, not yet incremented
    | SettingDailyExpiry            // INCR on the day key returned 1, EXPIRE still to come
    | Sending                       // about to call the provider
    | RefundRead(why: Outcome)      // about to GET the minute key
    | RefundDecr(why: Outcome)      // saw a positive counter, about to DECR
    | Done(outcome: Outcome)

  datatype Meter = Meter(period: nat, limit: nat)

  /** An INCR on the minute key: in which lifetime, when, and whether it stayed within the limit. */
  datatype Slot = Slot(lifetime: nat, at: nat, admitted: bool)

  datatype Attempt = Attempt(
    kind: Kind,
    id: AccountId,
    snapshot: Account,        // the account row as fetched
    isTemplate: bool,
    phase: Phase,
    cold: Option<bool>,       // what the service-window look-up said, once made
    meter: Option<Meter>,     // period and limit read, when the plan is limited
    charged: bool,            // its quota increment stands
    slot: Option<Slot>,
    refund: Option<nat>,      // lifetime in which its DECR landed
    cap: Option<nat>,         // the daily cap it was found to be under
    day: Option<nat>,         // the day whose counter it incremented
    sent: Option<nat>)        // the month in which the provider took the message

  datatype State = State(
    now: nat,
    period: nat,              // the UTC month, numbered
    plan: Option<nat>,        // monthly message limit of the agency, None when unlimited
    quota: map<nat, int>,     // period -> messages
    lines: map<AccountId, Line>,
    attempts: seq<Attempt>)

  datatype Action =
    | GetContext
    | QuotaIncr
    | QuotaUndo(lost: bool)
    | Screen(cold: bool)
    | RateIncr
    | RateExpire
    | DailyRead
    | DailyIncr
    | DailyExpire
    | Send(ok: bool)
    | GetForRefund
    | DecrForRefund
    | RefundLost

  datatype Step =
    | Tick(ms: nat)
    | NewMonth
    | Configure(id: AccountId, account: Account)
    | SetPlan(limit: Option<nat>)
    | Fetch(kind: Kind, id: AccountId, isTemplate: bool)
    | Act(i: nat, action: Action)

  // ---- the daily cap ----

  /** Tiers are compared on the age in milliseconds, which is exact. */
  function WarmupCap(ageMs: int): nat {
    if ageMs <= 3 * DAY_MS then 50
    else if ageMs <= 7 * DAY_MS then 250
    else if ageMs <= 14 * DAY_MS then 1_000
    else if ageMs <= 30 * DAY_MS then 5_000
    else 0
  }

  /** 0 means that no daily gate applies. */
  function CapFor(account: Account, now: nat): nat {
    if account.msgsPerDay > 0 then account.msgsPerDay
    else if account.warmupMode then WarmupCap(now - account.createdAt)
    else 0
  }

  // ---- Redis operations on one line ----

  function IncrRate(line: Line, now: nat): Line {
    line.(rate := match line.rate
                  case NoRateKey => RateKey(1, None, now)
                  case RateKey(c, e, b) => RateKey(c + 1, e, b))
  }

  function ExpireRate(line: Line, now: nat): Line {
    if line.rate.NoRateKey? then line
    else line.(rate := line.rate.(expiry := Some(now + MINUTE_MS)))
  }

  function DecrRate(line: Line, now: nat): Line {
    line.(rate := match line.rate
                  case NoRateKey => RateKey(-1, None, now)
                  case RateKey(c, e, b) => RateKey(c - 1, e, b))
  }

  function IncrDay(line: Line, day: nat): Line {
    line.(daily := line.daily[day := if day in line.daily
                                     then line.daily[day].(count := line.daily[day].count + 1)
                                     else DayKey(1, None)])
  }

  function ExpireDay(line: Line, day: nat, now: nat): Line {
    if day !in line.daily then line
    else line.(daily := line.daily[day := line.daily[day].(expiry := Some(now + DAILY_TTL_MS))])
  }

  /** A line with one more send counted in the minute; counting up to one sets the key's expiry. */
  function CountedNow(line: Line, now: nat): Line {
    var value := line.rate.Value();
    line.(rate := RateKey(value + 1, if value == 0 then Some(now + MINUTE_MS) else line.rate.expiry,
                          if line.rate.NoRateKey? then now else line.rate.born))
  }

  lemma RateCounted(line: Line, now: nat)
    ensures CountedNow(line, now).rate.Value() == line.rate.Value() + 1 && CountedNow(line, now).daily == line.daily
    ensures var once := IncrRate(line, now);
      && once.rate.RateKey? && once.rate.count == line.rate.Value() + 1
      && CountedNow(line, now) == (if line.rate.Value() == 0 then ExpireRate(once, now) else once)
  {
  }

  /** A line with one more send counted today; the first send of the day sets the key's expiry. */
  function CountedToday(line: Line, now: nat): Line {
    var day := now / DAY_MS;
    line.(daily := line.daily[day := DayKey(line.Used(day) + 1,
                                            if line.Used(day) == 0 then Some(now + DAILY_TTL_MS) else line.daily[day].expiry)])
  }

  lemma DayCounted(line: Line, now: nat)
    ensures var day := now / DAY_MS; var once := IncrDay(line, day);
      && day in once.daily && once.daily[day].count == line.Used(day) + 1 && once.Used(day) == line.Used(day) + 1
      && CountedToday(line, now) == (if line.Used(day) == 0 then ExpireDay(once, day, now) else once)
  {
  }

  /** The two keys after a count: a minute key opened by it lasts sixty seconds, a day key thirty-six hours. */
  lemma CountedKeys(line: Line, now: nat)
    ensures var key, was := CountedNow(line, now).rate, line.rate;
      && key.RateKey? && key.count == was.Value() + 1
      && key.expiry == (if was.Value() == 0 then Some(now + 60_000) else was.expiry)
    ensures var key, day := CountedToday(line, now).daily, now / 86_400_000;
      && key.Keys == line.daily.Keys + {day}
      && key[day].count == line.Used(day) + 1
      && key[day].expiry == (if line.Used(day) == 0 then Some(now + 36 * 3_600_000) else line.daily[day].expiry)
  {
  }

  predicate Lapsed(expiry: Option<nat>, now: nat) {
    expiry.Some? && expiry.value <= now
  }

  /** Redis drops every key whose expiry has passed; dropping the minute key opens a new lifetime. */
  function Age(line: Line, now: nat): Line {
    var daily := map d | d in line.daily && !Lapsed(line.daily[d].expiry, now) :: line.daily[d];
    if line.rate.RateKey? && Lapsed(line.rate.expiry, now)
    then Line(line.account, NoRateKey, line.lifetime + 1, daily)
    else line.(daily := daily)
  }

  // ---- one operation of one attempt ----

  datatype Effect = Effect(attempt: Attempt, line: Line, quota: map<nat, int>)

  predicate Can(a: Attempt, action: Action) {
    match action
    case GetContext => a.phase.Fetched?
    case QuotaIncr => a.phase.Metered? && a.meter.Some?
    case QuotaUndo(_) => a.phase.OverQuota? && a.meter.Some?
    case Screen(_) => a.phase.Cleared?
    case RateIncr => a.phase.Screened?
    case RateExpire => a.phase.SettingRateExpiry?
    case DailyRead => a.phase.Slotted?
    case DailyIncr => a.phase.UnderCap?
    case DailyExpire => a.phase.SettingDailyExpiry? && a.day.Some?
    case Send(_) => a.phase.Sending?
    case GetForRefund => a.phase.RefundRead?
    case DecrForRefund => a.phase.RefundDecr?
    case RefundLost => a.phase.RefundRead? || a.phase.RefundDecr?
  }

  function Messages(quota: map<nat, int>, period: nat): int {
    if period in quota then quota[period] else 0
  }

  predicate Blocks(account: Account, isTemplate: bool, cold: bool) {
    || account.outboundPaused
    || (account.provider.MetaCloud? && !isTemplate && cold)
    || (account.provider.Evolution? && cold)
  }

  function Perform(s: State, a: Attempt, line: Line, action: Action): Effect
    requires Can(a, action)
  {
    match action
    case GetContext =>
      (match s.plan
       case None => Effect(a.(phase := Cleared), line, s.quota)
       case Some(limit) =>
         Effect(a.(phase := Metered, meter := Some(Meter(s.period, limit))), line, s.quota))

    case QuotaIncr =>
      var Meter(period, limit) := a.meter.value;
      var updated := Messages(s.quota, period) + 1;
      Effect(a.(phase := if updated > limit then OverQuota else Cleared, charged := true),
             line, s.quota[period := updated])

    case QuotaUndo(lost) =>
      var period := a.meter.value.period;
      if lost then Effect(a.(phase := Done(Denied)), line, s.quota)
      else Effect(a.(phase := Done(Denied), charged := false), line,
                  s.quota[period := Messages(s.quota, period) - 1])

    case Screen(cold) =>
      Effect(a.(phase := if Blocks(a.snapshot, a.isTemplate, cold) then Done(Blocked) else Screened, cold := Some(cold)),
             line, s.quota)

    case RateIncr =>
      var limit := a.snapshot.msgsPerMinute;
      if limit <= 0 then Effect(a.(phase := Slotted), line, s.quota) else
      var line' := IncrRate(line, s.now);
      var next := line'.rate.count;
      Effect(a.(slot := Some(Slot(line.lifetime, s.now, next <= limit)),
                phase := if next == 1 then SettingRateExpiry
                         else if next <= limit then Slotted else Done(Blocked)),
             line', s.quota)

    case RateExpire =>
      Effect(a.(phase := Slotted), ExpireRate(line, s.now), s.quota)

    case DailyRead =>
      var cap := CapFor(a.snapshot, s.now);
      if cap <= 0 then Effect(a.(phase := Sending), line, s.quota)
      else if line.Used(s.now / DAY_MS) >= cap then Effect(a.(phase := RefundRead(Blocked)), line, s.quota)
      else Effect(a.(phase := UnderCap, cap := Some(cap)), line, s.quota)

    case DailyIncr =>
      var day := s.now / DAY_MS;
      var line' := IncrDay(line, day);
      Effect(a.(day := Some(day), phase := if line'.Used(day) == 1 then SettingDailyExpiry else Sending),
             line', s.quota)

    case DailyExpire =>
      Effect(a.(phase := Sending), ExpireDay(line, a.day.value, s.now), s.quota)

    case Send(ok) =>
      Effect(if ok then a.(phase := Done(Delivered), sent := Some(s.period)) else a.(phase := RefundRead(Failed)), line, s.quota)

    case GetForRefund =>
      Effect(a.(phase := if line.rate.Value() > 0 then RefundDecr(a.phase.why) else Done(a.phase.why)),
             line, s.quota)

    case DecrForRefund =>
      Effect(a.(phase := Done(a.phase.why), refund := Some(line.lifetime)), DecrRate(line, s.now), s.quota)

    case RefundLost =>
      Effect(a.(phase := Done(a.phase.why)), line, s.quota)
  }

  lemma OnRate(s: State, a: Attempt, line: Line)
    ensures a.phase.Screened? ==>
      var once := IncrRate(line, s.now);
      Perform(s, a, line, RateIncr)
      == if a.snapshot.msgsPerMinute <= 0 then Effect(a.(phase := Slotted), line, s.quota)
         else Effect(a.(slot := Some(Slot(line.lifetime, s.now, once.rate.count <= a.snapshot.msgsPerMinute)),
                        phase := if once.rate.count == 1 then SettingRateExpiry
                                 else if once.rate.count <= a.snapshot.msgsPerMinute then Slotted else Done(Blocked)),
                     once, s.quota)
    ensures a.phase.SettingRateExpiry? ==>
      Perform(s, a, line, RateExpire) == Effect(a.(phase := Slotted), ExpireRate(line, s.now), s.quota)
  {
  }

  lemma OnDaily(s: State, a: Attempt, line: Line)
    ensures a.phase.UnderCap? ==>
      var once := IncrDay(line, s.now / DAY_MS);
      Perform(s, a, line, DailyIncr)
      == Effect(a.(day := Some(s.now / DAY_MS), phase := if once.Used(s.now / DAY_MS) == 1 then SettingDailyExpiry else Sending),
                once, s.quota)
    ensures a.phase.SettingDailyExpiry? && a.day.Some? ==>
      Perform(s, a, line, DailyExpire) == Effect(a.(phase := Sending), ExpireDay(line, a.day.value, s.now), s.quota)
  {
  }

  // ---- steps and runs ----

  function NewAttempt(kind: Kind, id: AccountId, account: Account, isTemplate: bool): Attempt {
    Attempt(kind, id, account, isTemplate, if kind.Outbound? then Fetched else Cleared,
            None, None, false, None, None, None, None, None)
  }

  predicate Enabled(s: State, step: Step) {
    match step
    case Tick(_) => true
    case NewMonth => true
    case Configure(_, _) => true
    case SetPlan(_) => true
    case Fetch(_, id, _) => id in s.lines
    case Act(i, action) =>
      i < |s.attempts| && Can(s.attempts[i], action) && s.attempts[i].id in s.lines
  }

  /** A step that is not enabled leaves the state alone, so every list of steps is a run. */
  function Next(s: State, step: Step): State {
    if !Enabled(s, step) then s else
    match step
    case Tick(ms) =>
      var now := s.now + ms;
      s.(now := now, lines := map id | id in s.lines :: Age(s.lines[id], now))
    case NewMonth => s.(period := s.period + 1)
    case Configure(id, account) =>
      s.(lines := s.lines[id := if id in s.lines then s.lines[id].(account := account)
                                else Line(account, NoRateKey, 0, map[])])
    case SetPlan(limit) => s.(plan := limit)
    case Fetch(kind, id, isTemplate) =>
      s.(attempts := s.attempts + [NewAttempt(kind, id, s.lines[id].account, isTemplate)])
    case Act(i, action) =>
      var a := s.attempts[i];
      var e := Perform(s, a, s.lines[a.id], action);
      s.(attempts := s.attempts[i := e.attempt], lines := s.lines[a.id := e.line], quota := e.quota)
  }

  function Start(now: nat): State { State(now, 0, None, map[], map[], []) }

  function Run(s: State, steps: seq<Step>): State {
    if steps == [] then s else Next(Run(s, steps[..|steps| - 1]), steps[|steps| - 1])
  }

  lemma {:induction false} RunConcat(s: State, xs: seq<Step>, ys: seq<Step>)
    ensures Run(s, xs + ys) == Run(Run(s, xs), ys)
  {
    if ys == [] {
      assert xs + ys == xs;
    } else {
      var front := ys[..|ys| - 1];
      assert (xs + ys)[..|xs + ys| - 1] == xs + front;
      RunConcat(s, xs, front);
    }
  }

  /** Attempts keep their identity: a run only appends to the list and never changes what was fetched. */
  ghost predicate Extends(before: seq<Attempt>, after: seq<Attempt>) {
    && |before| <= |after|
    && forall j :: 0 <= j < |before| ==>
         && after[j].id == before[j].id && after[j].kind == before[j].kind
         && after[j].snapshot == before[j].snapshot
         && (before[j].meter.Some? ==> after[j].meter == before[j].meter)
         && (before[j].cap.Some? ==> after[j].cap == before[j].cap)
  }

  predicate BeforeSlot(p: Phase) {
    p.Fetched? || p.Metered? || p.OverQuota? || p.Cleared? || p.Screened? || p == Done(Denied)
  }

  predicate PastGate(p: Phase) {
    || p.SettingDailyExpiry? || p.Sending? || p == Done(Delivered)
    || p == RefundRead(Failed) || p == RefundDecr(Failed) || p == Done(Failed)
  }

  /** Which of the quota fields the phase of an attempt has already filled in. */
  ghost predicate SoundQuota(a: Attempt) {
    && (a.charged ==> a.meter.Some?)
    && (a.meter.Some? ==> a.kind.Outbound?)
    && (a.phase.Fetched? ==> a.kind.Outbound? && a.meter.None?)
    && (a.phase.Metered? ==> a.meter.Some? && !a.charged)
    && (a.phase.OverQuota? ==> a.meter.Some? && a.charged)
    && (a.meter.Some? && !a.phase.Metered? && a.phase != Done(Denied) ==> a.charged)
    && (a.phase == Done(Denied) ==> a.meter.Some?)
    && (a.phase.RefundRead? || a.phase.RefundDecr? ==> a.phase.why.Blocked? || a.phase.why.Failed?)
  }

  /** ... which of the minute-slot fields ... */
  ghost predicate SoundSlot(a: Attempt) {
    && (a.phase.RefundRead? || a.phase.RefundDecr? ==> a.phase.why.Blocked? || a.phase.why.Failed?)
    && (a.slot.Some? ==> !BeforeSlot(a.phase))
    && (a.phase.SettingRateExpiry? ==> a.slot.Some? && a.slot.value.admitted)
    && (a.slot.Some? && !a.slot.value.admitted ==> a.phase == Done(Blocked) && a.refund.None?)
    && (a.refund.Some? ==> a.phase == Done(Blocked) || a.phase == Done(Failed))
  }

  /** ... and which of the daily fields. */
  ghost predicate SoundDay(a: Attempt) {
    && (a.phase.RefundRead? || a.phase.RefundDecr? ==> a.phase.why.Blocked? || a.phase.why.Failed?)
    && (a.day.Some? ==> a.cap.Some? && PastGate(a.phase))
    && (a.cap.Some? && !a.phase.UnderCap? ==> a.day.Some?)
    && (a.phase.SettingDailyExpiry? ==> a.day.Some?)
    && (a.phase.UnderCap? ==> a.cap.Some? && a.cap.value > 0)
    && (a.snapshot.msgsPerDay > 0 && PastGate(a.phase) ==> a.day.Some?)
  }

  ghost predicate SoundSent(a: Attempt) {
    && (a.phase.RefundRead? || a.phase.RefundDecr? ==> a.phase.why.Blocked? || a.phase.why.Failed?)
    && (a.sent.Some? <==> a.phase == Done(Delivered))
  }

  ghost predicate Sound(a: Attempt) { SoundQuota(a) && SoundSlot(a) && SoundDay(a) && SoundSent(a) }

  ghost predicate AllSound(s: State) {
    forall j :: 0 <= j < |s.attempts| ==> Sound(s.attempts[j]) && s.attempts[j].id in s.lines
  }

  lemma SoundOf(s: State, i: nat)
    requires AllSound(s) && i < |s.attempts|
    ensures Sound(s.attempts[i]) && SoundQuota(s.attempts[i]) && SoundSlot(s.attempts[i]) && SoundDay(s.attempts[i]) && SoundSent(s.attempts[i])
  {
  }

  lemma PerformSoundQuota(s: State, a: Attempt, line: Line, action: Action)
    requires Can(a, action) && SoundQuota(a)
    ensures SoundQuota(Perform(s, a, line, action).attempt)
  {
    hide CapFor, IncrRate, DecrRate, ExpireRate, IncrDay, ExpireDay, Blocks, Messages;
  }

  lemma PerformSoundSlot(s: State, a: Attempt, line: Line, action: Action)
    requires Can(a, action) && SoundSlot(a)
    ensures SoundSlot(Perform(s, a, line, action).attempt)
  {
    hide Perform;
    if action.RateIncr? || action.RateExpire? {
      RateSoundSlot(s, a, line, action);
    } else if action.Send? || action.GetForRefund? || action.DecrForRefund? || action.RefundLost? {
      LateSoundSlot(s, a, line, action);
    } else {
      OtherSoundSlot(s, a, line, action);
    }
  }

  lemma OtherSoundSlot(s: State, a: Attempt, line: Line, action: Action)
    requires Can(a, action) && SoundSlot(a) && !action.RateIncr? && !action.RateExpire?
    requires !action.Send? && !action.GetForRefund? && !action.DecrForRefund? && !action.RefundLost?
    ensures SoundSlot(Perform(s, a, line, action).attempt)
  {
    hide CapFor, IncrRate, DecrRate, ExpireRate, IncrDay, ExpireDay, Blocks, Messages;
  }

  lemma RateSoundSlot(s: State, a: Attempt, line: Line, action: Action)
    requires Can(a, action) && SoundSlot(a) && (action.RateIncr? || action.RateExpire?)
    ensures SoundSlot(Perform(s, a, line, action).attempt)
  {
    hide CapFor, IncrRate, DecrRate, ExpireRate, IncrDay, ExpireDay, Blocks, Messages;
  }

  lemma LateSoundSlot(s: State, a: Attempt, line: Line, action: Action)
    requires Can(a, action) && SoundSlot(a)
    requires action.Send? || action.GetForRefund? || action.DecrForRefund? || action.RefundLost?
    ensures SoundSlot(Perform(s, a, line, action).attempt)
  {
    hide CapFor, IncrRate, DecrRate, ExpireRate, IncrDay, ExpireDay, Blocks, Messages;
  }

  lemma PerformSoundDay(s: State, a: Attempt, line: Line, action: Action)
    requires Can(a, action) && SoundDay(a)
    ensures SoundDay(Perform(s, a, line, action).attempt)
  {
    hide Perform;
    if action.DailyRead? || action.DailyIncr? || action.DailyExpire? {
      GateSoundDay(s, a, line, action);
    } else if action.Send? || action.GetForRefund? || action.DecrForRefund? || action.RefundLost? {
      LateSoundDay(s, a, line, action);
    } else {
      EarlySoundDay(s, a, line, action);
    }
  }

  lemma EarlySoundDay(s: State, a: Attempt, line: Line, action: Action)
    requires Can(a, action) && SoundDay(a) && !action.DailyRead? && !action.DailyIncr? && !action.DailyExpire?
    requires !action.Send? && !action.GetForRefund? && !action.DecrForRefund? && !action.RefundLost?
    ensures SoundDay(Perform(s, a, line, action).attempt)
  {
    hide CapFor, IncrRate, DecrRate, ExpireRate, IncrDay, ExpireDay, Blocks, Messages;
  }

  lemma GateSoundDay(s: State, a: Attempt, line: Line, action: Action)
    requires Can(a, action) && SoundDay(a) && (action.DailyRead? || action.DailyIncr? || action.DailyExpire?)
    ensures SoundDay(Perform(s, a, line, action).attempt)
  {
    hide IncrRate, DecrRate, ExpireRate, IncrDay, ExpireDay, Blocks, Messages;
  }

  lemma LateSoundDay(s: State, a: Attempt, line: Line, action: Action)
    requires Can(a, action) && SoundDay(a)
    requires action.Send? || action.GetForRefund? || action.DecrForRefund? || action.RefundLost?
    ensures SoundDay(Perform(s, a, line, action).attempt)
  {
    hide CapFor, IncrRate, DecrRate, ExpireRate, IncrDay, ExpireDay, Blocks, Messages;
  }

  lemma PerformSoundSent(s: State, a: Attempt, line: Line, action: Action)
    requires Can(a, action) && SoundSent(a)
    ensures SoundSent(Perform(s, a, line, action).attempt)
  {
    hide CapFor, IncrRate, DecrRate, ExpireRate, IncrDay, ExpireDay, Blocks, Messages;
  }

  lemma PerformKeeps(s: State, a: Attempt, line: Line, action: Action)
    requires Can(a, action) && Sound(a)
    ensures var a' := Perform(s, a, line, action).attempt;
      && a'.id == a.id && a'.kind == a.kind && a'.snapshot == a.snapshot
      && (a.meter.Some? ==> a'.meter == a.meter) && (a.cap.Some? ==> a'.cap == a.cap)
      && (a.slot.Some? ==> a'.slot == a.slot)
  {
    hide Perform;
    PerformKeepsIdentity(s, a, line, action);
    PerformKeepsRecord(s, a, line, action);
  }

  lemma PerformKeepsIdentity(s: State, a: Attempt, line: Line, action: Action)
    requires Can(a, action)
    ensures var a' := Perform(s, a, line, action).attempt;
      a'.id == a.id && a'.kind == a.kind && a'.snapshot == a.snapshot
  {
    hide CapFor, IncrRate, DecrRate, ExpireRate, IncrDay, ExpireDay, Blocks, Messages;
  }

  lemma PerformKeepsRecord(s: State, a: Attempt, line: Line, action: Action)
    requires Can(a, action) && Sound(a)
    ensures var a' := Perform(s, a, line, action).attempt;
      && (a.meter.Some? ==> a'.meter == a.meter) && (a.cap.Some? ==> a'.cap == a.cap)
      && (a.slot.Some? ==> a'.slot == a.slot)
  {
    hide CapFor, IncrRate, DecrRate, ExpireRate, IncrDay, ExpireDay, Blocks, Messages;
  }

  /** One operation keeps an attempt sound and its identity fixed. */
  lemma PerformSound(s: State, a: Attempt, line: Line, action: Action)
    requires Can(a, action) && Sound(a)
    ensures var a' := Perform(s, a, line, action).attempt;
      && Sound(a') && a'.id == a.id && a'.kind == a.kind && a'.snapshot == a.snapshot
      && (a.meter.Some? ==> a'.meter == a.meter) && (a.cap.Some? ==> a'.cap == a.cap)
      && (a.slot.Some? ==> a'.slot == a.slot)
  {
    PerformSoundQuota(s, a, line, action);
    PerformSoundSlot(s, a, line, action);
    PerformSoundDay(s, a, line, action);
    PerformSoundSent(s, a, line, action);
    PerformKeeps(s, a, line, action);
  }

  lemma NextExtends(s: State, step: Step)
    requires AllSound(s)
    ensures Extends(s.attempts, Next(s, step).attempts)
    ensures AllSound(Next(s, step))
    ensures s.now <= Next(s, step).now
  {
    hide Perform;
    if Enabled(s, step) && step.Act? {
      var a := s.attempts[step.i];
      assert Sound(a);
      PerformSound(s, a, s.lines[a.id], step.action);
      var e := Perform(s, a, s.lines[a.id], step.action);
      ActShape(s, step);
      assert forall j :: 0 <= j < |s.attempts| && j != step.i ==> Next(s, step).attempts[j] == s.attempts[j];
    }
  }

  /** What a step of one attempt changes, with the operation itself left folded. */
  lemma ActShape(s: State, step: Step)
    requires Enabled(s, step) && step.Act?
    ensures var a := s.attempts[step.i]; var e := Perform(s, a, s.lines[a.id], step.action);
      Next(s, step) == s.(attempts := s.attempts[step.i := e.attempt], lines := s.lines[a.id := e.line], quota := e.quota)
  {
  }

  lemma {:induction false} RunSound(t0: nat, steps: seq<Step>)
    ensures AllSound(Run(Start(t0), steps))
  {
    hide Perform, Next;
    if steps != [] {
      RunSound(t0, steps[..|steps| - 1]);
      NextExtends(Run(Start(t0), steps[..|steps| - 1]), steps[|steps| - 1]);
    }
  }

  // ---- counting attempts ----

  /** The classes of attempts that the theorems count. */
  datatype Tally =
    | Charged(period: nat)                                 // its increment of this period's quota stands
    | Passed(period: nat)                                  // admitted by the quota check
    | Unpaid(period: nat)                                  // refused, increment not (or never) taken back
    | InFlight(period: nat)                                // passed and not finished
    | Ended(period: nat, outcome: Outcome)                 // passed and finished
    | SentIn(period: nat)                                  // taken by the provider in this month
    | ChargedNotSent(period: nat)                          // charged to the month and not sent in it
    | SentNotCharged(period: nat)                          // sent in the month and not charged to it
    | Took(id: AccountId, lifetime: nat)                   // incremented the minute key
    | Admitted(id: AccountId, lifetime: nat)               // and stayed within its limit
    | Landed(id: AccountId, lifetime: nat)                 // its refund decremented this lifetime
    | Foreign(id: AccountId, lifetime: nat)                // ... without holding a slot of that lifetime
    | Kept(id: AccountId, lifetime: nat)                   // admitted, slot not given back in this lifetime
    | KeptIn(id: AccountId, from: nat)                     // kept, and admitted within the minute after `from`
    | OwesExpiry(id: AccountId)                            // between INCR and EXPIRE of the minute key
    | Counted(id: AccountId, day: nat)                     // incremented this day's counter
    | DayEnded(id: AccountId, day: nat, outcome: Outcome)  // ... and finished
    | DayFlying(id: AccountId, day: nat)                   // ... and not finished
    | AtGate(id: AccountId)                                // between read and increment of the day counter

  predicate Holds(a: Attempt, id: AccountId, lifetime: nat) {
    a.id == id && a.slot.Some? && a.slot.value.lifetime == lifetime && a.slot.value.admitted
  }

  predicate Refused(p: Phase) { p.OverQuota? || p == Done(Denied) }

  predicate Is(a: Attempt, t: Tally) {
    match t
    case Charged(p) => a.charged && a.meter.Some? && a.meter.value.period == p
    case Passed(p) => a.charged && a.meter.Some? && a.meter.value.period == p && !Refused(a.phase)
    case Unpaid(p) => a.charged && a.meter.Some? && a.meter.value.period == p && Refused(a.phase)
    case InFlight(p) => a.charged && a.meter.Some? && a.meter.value.period == p && !Refused(a.phase) && !a.phase.Done?
    case Ended(p, o) => a.charged && a.meter.Some? && a.meter.value.period == p && !Refused(a.phase) && a.phase == Done(o)
    case SentIn(p) => a.sent == Some(p)
    case ChargedNotSent(p) => a.charged && a.meter.Some? && a.meter.value.period == p && a.sent != Some(p)
    case SentNotCharged(p) => a.sent == Some(p) && !(a.charged && a.meter.Some? && a.meter.value.period == p)
    case Took(id, l) => a.id == id && a.slot.Some? && a.slot.value.lifetime == l
    case Admitted(id, l) => Holds(a, id, l)
    case Landed(id, l) => a.id == id && a.refund == Some(l)
    case Foreign(id, l) => a.id == id && a.refund == Some(l) && !Holds(a, id, l)
    case Kept(id, l) => Holds(a, id, l) && a.refund != Some(l)
    case KeptIn(id, from) =>
      && a.id == id && a.slot.Some? && a.slot.value.admitted && a.refund != Some(a.slot.value.lifetime)
      && from <= a.slot.value.at < from + MINUTE_MS
    case OwesExpiry(id) => a.id == id && a.phase.SettingRateExpiry?
    case Counted(id, d) => a.id == id && a.day == Some(d)
    case DayEnded(id, d, o) => a.id == id && a.day == Some(d) && a.phase == Done(o)
    case DayFlying(id, d) => a.id == id && a.day == Some(d) && !a.phase.Done?
    case AtGate(id) => a.id == id && a.phase.UnderCap?
  }

  function Weight(a: Attempt, t: Tally): nat { if Is(a, t) then 1 else 0 }

  function Count(s: seq<Attempt>, t: Tally): nat {
    if s == [] then 0 else Count(s[..|s| - 1], t) + Weight(s[|s| - 1], t)
  }

  lemma {:induction false} CountUpdate(s: seq<Attempt>, i: nat, a: Attempt, t: Tally)
    requires i < |s|
    ensures Count(s[i := a], t) == Count(s, t) - Weight(s[i], t) + Weight(a, t)
  {
    var n := |s| - 1;
    if i == n {
      assert s[i := a][..n] == s[..n];
    } else {
      assert s[i := a][..n] == s[..n][i := a];
      CountUpdate(s[..n], i, a, t);
    }
  }

  lemma CountAppend(s: seq<Attempt>, a: Attempt, t: Tally)
    ensures Count(s + [a], t) == Count(s, t) + Weight(a, t)
  {
    assert (s + [a])[..|s|] == s;
  }

  lemma {:induction false} CountNone(s: seq<Attempt>, t: Tally)
    requires forall j :: 0 <= j < |s| ==> !Is(s[j], t)
    ensures Count(s, t) == 0
  {
    if s != [] { CountNone(s[..|s| - 1], t); }
  }

  lemma {:induction false} CountSome(s: seq<Attempt>, i: nat, t: Tally)
    requires i < |s| && Is(s[i], t)
    ensures Count(s, t) >= 1
  {
    if i < |s| - 1 { CountSome(s[..|s| - 1], i, t); }
  }

  lemma {:induction false} CountSub(s: seq<Attempt>, t: Tally, u: Tally)
    requires forall j :: 0 <= j < |s| && Is(s[j], t) ==> Is(s[j], u)
    ensures Count(s, t) <= Count(s, u)
  {
    if s != [] { CountSub(s[..|s| - 1], t, u); }
  }

  /** A class covered by two others is no larger than both together. */
  lemma {:induction false} CountCover(s: seq<Attempt>, t: Tally, u: Tally, v: Tally)
    requires forall j :: 0 <= j < |s| && Is(s[j], t) ==> Is(s[j], u) || Is(s[j], v)
    ensures Count(s, t) <= Count(s, u) + Count(s, v)
  {
    if s != [] { CountCover(s[..|s| - 1], t, u, v); }
  }

  /** ... and smaller by one when one of the two holds an attempt outside the class. */
  lemma {:induction false} CountCoverStrict(s: seq<Attempt>, t: Tally, u: Tally, v: Tally, o: nat)
    requires forall j :: 0 <= j < |s| && Is(s[j], t) ==> Is(s[j], u) || Is(s[j], v)
    requires o < |s| && Is(s[o], u) && !Is(s[o], t)
    ensures Count(s, t) + 1 <= Count(s, u) + Count(s, v)
  {
    var n := |s| - 1;
    if o < n { CountCoverStrict(s[..n], t, u, v, o); } else { CountCover(s[..n], t, u, v); }
  }
}
