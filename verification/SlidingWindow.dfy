/**
 The guardrails call the minute limit a sliding window: no sixty seconds with more sends than the limit.
 Which runs keep that promise, and how far the others can go beyond it.
 */
module SlidingWindow {
  import opened Wrappers
  import opened OutboundMachine
  import opened MinuteWindow
  import opened Scenarios

  ghost predicate RefundFree(s: seq<Attempt>, id: AccountId) {
    forall j :: 0 <= j < |s| && s[j].id == id ==> s[j].refund.None?
  }

  // ---- the send that opens a lifetime ----

  /** Attempt i is an admitted send of lifetime l as old as the lifetime: the minute after it has passed once the
      lifetime is over. */
  ghost predicate Opens(now: nat, line: Line, attempts: seq<Attempt>, i: nat, id: AccountId, l: nat) {
    && i < |attempts| && Holds(attempts[i], id, l)
    && (l < line.lifetime ==> attempts[i].slot.value.at + MINUTE_MS <= now)
    && (l >= line.lifetime ==> line.rate.RateKey? && line.rate.born == attempts[i].slot.value.at)
  }

  ghost predicate HasOpener(now: nat, line: Line, attempts: seq<Attempt>, id: AccountId, l: nat) {
    exists i: nat :: Opens(now, line, attempts, i, id, l)
  }

  ghost predicate Opened(now: nat, line: Line, attempts: seq<Attempt>, id: AccountId) {
    && (line.rate.RateKey? ==> line.rate.count >= 1 && HasOpener(now, line, attempts, id, line.lifetime))
    && forall j :: 0 <= j < |attempts| && HasSlot(attempts[j], id) ==> HasOpener(now, line, attempts, id, attempts[j].slot.value.lifetime)
  }

  predicate HasSlot(a: Attempt, id: AccountId) { a.id == id && a.slot.Some? }

  /** Some admitted send of lifetime l is a minute before the time t. */
  ghost predicate Before(attempts: seq<Attempt>, id: AccountId, l: nat, t: nat) {
    exists i :: 0 <= i < |attempts| && Holds(attempts[i], id, l) && attempts[i].slot.value.at + MINUTE_MS <= t
  }

  ghost predicate Apart(attempts: seq<Attempt>, id: AccountId) {
    forall j, k :: 0 <= j < |attempts| && 0 <= k < |attempts| && HasSlot(attempts[j], id) && HasSlot(attempts[k], id)
      && attempts[j].slot.value.lifetime < attempts[k].slot.value.lifetime
      ==> Before(attempts, id, attempts[j].slot.value.lifetime, attempts[k].slot.value.at)
  }

  ghost predicate Inv(s: State, id: AccountId) {
    RefundFree(s.attempts, id) && id in s.lines ==> Opened(s.now, s.lines[id], s.attempts, id) && Apart(s.attempts, id)
  }

  /** What an operation without a refund does to the minute key: nothing, unless it takes a slot. */
  lemma PerformOpens(s: State, a: Attempt, line: Line, action: Action)
    requires Can(a, action) && SoundSlot(a)
    ensures var e := Perform(s, a, line, action);
      && (a.refund.Some? ==> e.attempt.refund.Some?)
      && (e.attempt.refund.None? ==>
            && e.line.lifetime == line.lifetime
            && (e.attempt.slot == a.slot ==>
                  && e.line.rate.RateKey? == line.rate.RateKey?
                  && (line.rate.RateKey? ==> e.line.rate.count == line.rate.count && e.line.rate.born == line.rate.born))
            && (e.attempt.slot != a.slot ==>
                  && a.slot.None? && e.attempt.slot.Some? && e.attempt.slot.value.lifetime == line.lifetime
                  && e.attempt.slot.value.at == s.now && e.line.rate.RateKey?
                  && e.line.rate.count == line.rate.Value() + 1
                  && e.line.rate.born == (if line.rate.RateKey? then line.rate.born else s.now)
                  && (line.rate.NoRateKey? ==> e.attempt.slot.value.admitted)))
  {
    hide CapFor, Blocks, Messages;
  }

  lemma StillRefunded(s: State, step: Step, id: AccountId)
    requires AllSound(s) && RefundFree(Next(s, step).attempts, id)
    ensures RefundFree(s.attempts, id)
  {
    hide Perform, Sound;
    var s' := Next(s, step);
    forall j | 0 <= j < |s.attempts| && s.attempts[j].id == id
      ensures s.attempts[j].refund.None?
    {
      if step.Act? && Enabled(s, step) && step.i == j {
        SoundOf(s, j);
        ActShape(s, step);
        PerformSound(s, s.attempts[j], s.lines[id], step.action);
        PerformOpens(s, s.attempts[j], s.lines[id], step.action);
        assert s'.attempts[j].id == id;
      } else {
        assert s'.attempts[j] == s.attempts[j];
      }
    }
  }

  /** Slots stay where they are; only attempt k may be a new holder of one. */
  ghost predicate Grown(attempts: seq<Attempt>, attempts': seq<Attempt>, id: AccountId, k: int) {
    && |attempts| <= |attempts'|
    && (forall j :: 0 <= j < |attempts| && HasSlot(attempts[j], id) ==> HasSlot(attempts'[j], id) && attempts'[j].slot == attempts[j].slot)
    && (forall j :: 0 <= j < |attempts'| && HasSlot(attempts'[j], id) && j != k ==>
          j < |attempts| && HasSlot(attempts[j], id) && attempts'[j].slot == attempts[j].slot)
  }

  lemma OpenerStays(now: nat, line: Line, attempts: seq<Attempt>, now': nat, line': Line, attempts': seq<Attempt>,
                    id: AccountId, k: int, l: nat)
    requires HasOpener(now, line, attempts, id, l) && Grown(attempts, attempts', id, k) && now <= now'
    requires l < line.lifetime ==> l < line'.lifetime
    requires l >= line.lifetime && l >= line'.lifetime && line.rate.RateKey? ==> line'.rate.RateKey? && line'.rate.born == line.rate.born
    requires l >= line.lifetime && l < line'.lifetime && line.rate.RateKey? ==> line.rate.born + MINUTE_MS <= now'
    ensures HasOpener(now', line', attempts', id, l)
  {
    var i: nat :| Opens(now, line, attempts, i, id, l);
    assert HasSlot(attempts[i], id);
    assert Opens(now', line', attempts', i, id, l);
  }

  lemma BeforeStays(attempts: seq<Attempt>, attempts': seq<Attempt>, id: AccountId, k: int, l: nat, t: nat)
    requires Before(attempts, id, l, t) && Grown(attempts, attempts', id, k)
    ensures Before(attempts', id, l, t)
  {
    var i :| 0 <= i < |attempts| && Holds(attempts[i], id, l) && attempts[i].slot.value.at + MINUTE_MS <= t;
    assert HasSlot(attempts[i], id);
    assert Holds(attempts'[i], id, l);
  }

  lemma GrowOpened(now: nat, line: Line, attempts: seq<Attempt>, now': nat, line': Line, attempts': seq<Attempt>,
                   id: AccountId, k: int)
    requires Opened(now, line, attempts, id) && Grown(attempts, attempts', id, k)
    requires forall j :: 0 <= j < |attempts| && HasSlot(attempts[j], id) ==>
      HasOpener(now', line', attempts', id, attempts[j].slot.value.lifetime)
    requires line'.rate.RateKey? ==> line'.rate.count >= 1 && HasOpener(now', line', attempts', id, line'.lifetime)
    requires 0 <= k < |attempts'| && HasSlot(attempts'[k], id) ==> HasOpener(now', line', attempts', id, attempts'[k].slot.value.lifetime)
    ensures Opened(now', line', attempts', id)
  {
    hide HasOpener;
  }

  lemma GrowApart(attempts: seq<Attempt>, attempts': seq<Attempt>, id: AccountId, k: int)
    requires Apart(attempts, id) && Grown(attempts, attempts', id, k)
    requires 0 <= k < |attempts'| && HasSlot(attempts'[k], id) ==>
      forall j :: 0 <= j < |attempts| && HasSlot(attempts[j], id) ==>
        && attempts[j].slot.value.lifetime <= attempts'[k].slot.value.lifetime
        && (attempts[j].slot.value.lifetime < attempts'[k].slot.value.lifetime ==>
              Before(attempts', id, attempts[j].slot.value.lifetime, attempts'[k].slot.value.at))
    ensures Apart(attempts', id)
  {
    hide Before;
    forall j, m | 0 <= j < |attempts'| && 0 <= m < |attempts'| && HasSlot(attempts'[j], id) && HasSlot(attempts'[m], id)
      && attempts'[j].slot.value.lifetime < attempts'[m].slot.value.lifetime
      ensures Before(attempts', id, attempts'[j].slot.value.lifetime, attempts'[m].slot.value.at)
    {
      if j != k && m != k {
        BeforeStays(attempts, attempts', id, k, attempts'[j].slot.value.lifetime, attempts'[m].slot.value.at);
      }
    }
  }

  /** A line that did not change its minute key, and attempts that kept their slots. */
  lemma SameOpened(now: nat, now': nat, line: Line, line': Line, attempts: seq<Attempt>, attempts': seq<Attempt>, id: AccountId)
    requires Opened(now, line, attempts, id) && Apart(attempts, id) && now <= now' && line'.lifetime == line.lifetime
    requires line'.rate.RateKey? == line.rate.RateKey?
    requires line.rate.RateKey? ==> line'.rate.count == line.rate.count && line'.rate.born == line.rate.born
    requires Grown(attempts, attempts', id, -1)
    ensures Opened(now', line', attempts', id) && Apart(attempts', id)
  {
    hide HasOpener, Before;
    forall l: nat | HasOpener(now, line, attempts, id, l)
      ensures HasOpener(now', line', attempts', id, l)
    {
      OpenerStays(now, line, attempts, now', line', attempts', id, -1, l);
    }
    GrowOpened(now, line, attempts, now', line', attempts', id, -1);
    GrowApart(attempts, attempts', id, -1);
  }

  /** A lapsing key is at least a minute older than the send that opened its lifetime. */
  lemma TickOpened(now: nat, now': nat, line: Line, attempts: seq<Attempt>, id: AccountId)
    requires Opened(now, line, attempts, id) && Apart(attempts, id) && Timed(now, line) && now <= now'
    requires forall j :: 0 <= j < |attempts| && attempts[j].id == id ==> Placed(now, line, attempts[j])
    ensures Opened(now', Age(line, now'), attempts, id)
  {
    hide HasOpener, Before, Placed;
    var line' := Age(line, now');
    if line'.lifetime == line.lifetime {
      SameOpened(now, now', line, line', attempts, attempts, id);
    } else {
      forall j | 0 <= j < |attempts| && HasSlot(attempts[j], id)
        ensures HasOpener(now', line', attempts, id, attempts[j].slot.value.lifetime)
      {
        PlacedBefore(now, line, attempts[j]);
        OpenerStays(now, line, attempts, now', line', attempts, id, -1, attempts[j].slot.value.lifetime);
      }
      GrowOpened(now, line, attempts, now', line', attempts, id, -1);
    }
  }

  /** Attempt k takes a slot: it opens its lifetime when there was no key, and joins an opened one otherwise. */
  lemma SlotOpened(now: nat, line: Line, line': Line, attempts: seq<Attempt>, k: nat, a: Attempt, id: AccountId)
    requires Opened(now, line, attempts, id) && Apart(attempts, id) && k < |attempts| && attempts[k].id == id && a.id == id
    requires forall j :: 0 <= j < |attempts| && attempts[j].id == id ==> Placed(now, line, attempts[j])
    requires attempts[k].slot.None? && a.slot.Some? && a.slot.value.lifetime == line.lifetime == line'.lifetime && a.slot.value.at == now
    requires line'.rate.RateKey? && line'.rate.count == line.rate.Value() + 1
    requires line'.rate.born == (if line.rate.RateKey? then line.rate.born else now)
    requires line.rate.NoRateKey? ==> a.slot.value.admitted
    ensures Opened(now, line', attempts[k := a], id) && Apart(attempts[k := a], id)
  {
    hide HasOpener, Before, Placed;
    var after := attempts[k := a];
    assert Grown(attempts, after, id, k);
    forall j | 0 <= j < |attempts| && HasSlot(attempts[j], id)
      ensures HasOpener(now, line', after, id, attempts[j].slot.value.lifetime)
      ensures attempts[j].slot.value.lifetime <= line.lifetime
      ensures attempts[j].slot.value.lifetime < line.lifetime ==> Before(after, id, attempts[j].slot.value.lifetime, now)
    {
      PlacedBefore(now, line, attempts[j]);
      PlacedNoKey(now, line, attempts[j]);
      var l := attempts[j].slot.value.lifetime;
      OpenerStays(now, line, attempts, now, line', after, id, k, l);
      if l < line.lifetime {
        OpenerBefore(now, line, attempts, id, l);
        BeforeStays(attempts, after, id, k, l, now);
      }
    }
    if line.rate.RateKey? {
      OpenerStays(now, line, attempts, now, line', after, id, k, line.lifetime);
    } else {
      NewOpener(now, line', after, k, id);
    }
    GrowOpened(now, line, attempts, now, line', after, id, k);
    GrowApart(attempts, after, id, k);
  }

  lemma PlacedNoKey(now: nat, line: Line, a: Attempt)
    requires Placed(now, line, a) && a.slot.Some?
    ensures a.slot.value.lifetime == line.lifetime ==> line.rate.RateKey?
  {
  }

  lemma OpenerBefore(now: nat, line: Line, attempts: seq<Attempt>, id: AccountId, l: nat)
    requires HasOpener(now, line, attempts, id, l) && l < line.lifetime
    ensures Before(attempts, id, l, now)
  {
    var i: nat :| Opens(now, line, attempts, i, id, l);
    assert Holds(attempts[i], id, l);
  }

  lemma NewOpener(now: nat, line: Line, attempts: seq<Attempt>, k: nat, id: AccountId)
    requires k < |attempts| && Holds(attempts[k], id, line.lifetime) && line.rate.RateKey? && line.rate.born == attempts[k].slot.value.at
    ensures HasOpener(now, line, attempts, id, line.lifetime)
  {
    assert Opens(now, line, attempts, k, id, line.lifetime);
  }

  lemma ActKeeps(s: State, step: Step, id: AccountId)
    requires AllSound(s) && MinuteWindow.Inv(s) && Inv(s, id) && step.Act? && Enabled(s, step)
    ensures Inv(Next(s, step), id)
  {
    hide Perform, Next, Sound, Opened, Apart, Placed, Count, Timed;
    var s' := Next(s, step);
    if RefundFree(s'.attempts, id) && id in s'.lines {
      StillRefunded(s, step, id);
      var k := step.i;
      var a := s.attempts[k];
      SoundOf(s, k);
      ActShape(s, step);
      PerformSound(s, a, s.lines[a.id], step.action);
      var e := Perform(s, a, s.lines[a.id], step.action);
      assert LineInv(s.now, s.lines[id], s.attempts, id);
      if a.id == id { PerformOpens(s, a, s.lines[id], step.action); }
      if a.id != id {
        assert Grown(s.attempts, s'.attempts, id, -1);
        SameOpened(s.now, s.now, s.lines[id], s.lines[id], s.attempts, s'.attempts, id);
      } else {
        assert s'.attempts[k].refund.None?;
        if e.attempt.slot == a.slot {
          assert Grown(s.attempts, s'.attempts, id, -1);
          SameOpened(s.now, s.now, s.lines[id], e.line, s.attempts, s'.attempts, id);
        } else {
          SlotOpened(s.now, s.lines[id], e.line, s.attempts, k, e.attempt, id);
        }
      }
    }
  }

  lemma StepKeeps(s: State, step: Step, id: AccountId)
    requires AllSound(s) && MinuteWindow.Inv(s) && Inv(s, id)
    ensures Inv(Next(s, step), id)
  {
    hide Perform, Sound, Opened, Apart, Placed, Count, Timed, Age;
    var s' := Next(s, step);
    if step.Act? && Enabled(s, step) {
      ActKeeps(s, step, id);
    } else if RefundFree(s'.attempts, id) && id in s'.lines {
      StillRefunded(s, step, id);
      if id !in s.lines {
        NoAttempts(s.now, Line(step.account, NoRateKey, 0, map[]), s.attempts, id);
      } else {
        assert LineInv(s.now, s.lines[id], s.attempts, id);
        if step.Tick? {
          TickOpened(s.now, s'.now, s.lines[id], s.attempts, id);
        } else {
          SameOpened(s.now, s'.now, s.lines[id], s'.lines[id], s.attempts, s'.attempts, id);
        }
      }
    }
  }

  lemma NoAttempts(now: nat, line: Line, attempts: seq<Attempt>, id: AccountId)
    requires line.rate.NoRateKey? && forall j :: 0 <= j < |attempts| ==> attempts[j].id != id
    ensures Opened(now, line, attempts, id) && Apart(attempts, id)
  {
  }

  lemma {:induction false} RunKeeps(t0: nat, steps: seq<Step>, id: AccountId)
    ensures Inv(Run(Start(t0), steps), id)
  {
    hide Perform, Next;
    if steps != [] {
      var front := steps[..|steps| - 1];
      RunKeeps(t0, front, id);
      RunInv(t0, front);
      RunSound(t0, front);
      StepKeeps(Run(Start(t0), front), steps[|steps| - 1], id);
    }
  }

  // ---- the sharp bound ----

  /** Without refunds any sixty seconds hold at most twice the limit, less one: where they touch two lifetimes, the
      send that opened the first is at least a minute older than the second. */
  lemma TwiceLessOne(t0: nat, steps: seq<Step>, id: AccountId, from: nat, most: nat)
    requires most >= 1 && RatesAtMost(Run(Start(t0), steps).attempts, id, most) && RefundFree(Run(Start(t0), steps).attempts, id)
    ensures Count(Run(Start(t0), steps).attempts, KeptIn(id, from)) <= 2 * most - 1
  {
    hide Perform, Next, Count, Opened, Apart, Run, Spaced, RefundFree, RatesAtMost;
    var s := Run(Start(t0), steps).attempts;
    if Count(s, KeptIn(id, from)) > 0 {
      var i := Earliest(s, id, from);
      var l := s[i].slot.value.lifetime;
      RunKeeps(t0, steps, id);
      RunSound(t0, steps);
      assert s[i].id in Run(Start(t0), steps).lines;
      RunSpaced(t0, steps, id);
      NoForeign(s, id, l);
      NoForeign(s, id, l + 1);
      LifetimeBound(t0, steps, id, l, most);
      LifetimeBound(t0, steps, id, l + 1, most);
      Overlap(s, id, from, i, most);
    }
  }

  lemma Overlap(s: seq<Attempt>, id: AccountId, from: nat, i: nat, most: nat)
    requires most >= 1 && Apart(s, id) && Spaced(s, id) && i < |s| && Is(s[i], KeptIn(id, from))
    requires forall j :: 0 <= j < |s| && Is(s[j], KeptIn(id, from)) ==> s[i].slot.value.lifetime <= s[j].slot.value.lifetime
    requires Count(s, Kept(id, s[i].slot.value.lifetime)) <= most
    requires Count(s, Kept(id, s[i].slot.value.lifetime + 1)) <= most && RefundFree(s, id)
    ensures Count(s, KeptIn(id, from)) <= 2 * most - 1
  {
    hide Count, Spaced, Apart, RefundFree;
    var l := s[i].slot.value.lifetime;
    TwoLifetimes(s, id, from, i);
    if k :| 0 <= k < |s| && Is(s[k], KeptIn(id, from)) && s[k].slot.value.lifetime == l + 1 {
      var o := Opener(s, id, i, k);
      NeverRefunded(s, id, o);
      assert Is(s[o], Kept(id, l)) && !Is(s[o], KeptIn(id, from));
      CountCoverStrict(s, KeptIn(id, from), Kept(id, l), Kept(id, l + 1), o);
    } else {
      CountSub(s, KeptIn(id, from), Kept(id, l));
    }
  }

  lemma NeverRefunded(s: seq<Attempt>, id: AccountId, o: nat)
    requires RefundFree(s, id) && o < |s| && s[o].id == id
    ensures s[o].refund.None?
  {
  }

  lemma Opener(s: seq<Attempt>, id: AccountId, i: nat, k: nat) returns (o: nat)
    requires Apart(s, id) && i < |s| && k < |s| && HasSlot(s[i], id) && HasSlot(s[k], id)
    requires s[i].slot.value.lifetime < s[k].slot.value.lifetime
    ensures o < |s| && Holds(s[o], id, s[i].slot.value.lifetime) && s[o].slot.value.at + MINUTE_MS <= s[k].slot.value.at
  {
    assert Before(s, id, s[i].slot.value.lifetime, s[k].slot.value.at);
    o :| 0 <= o < |s| && Holds(s[o], id, s[i].slot.value.lifetime) && s[o].slot.value.at + MINUTE_MS <= s[k].slot.value.at;
  }

  lemma NoForeign(s: seq<Attempt>, id: AccountId, l: nat)
    requires RefundFree(s, id)
    ensures Count(s, Foreign(id, l)) == 0
  {
    CountNone(s, Foreign(id, l));
  }

  // ---- runs that reach the bound ----

  function Throttled(limit: nat): Account { Account(Evolution, limit, 0, false, false, 0) }

  /** Account "a" has this limit, `value` slots counted, and a key that lapses at `expiry`. */
  ghost predicate Paced(s: State, limit: nat, value: nat, expiry: nat) {
    && "a" in s.lines && s.lines["a"].account == Throttled(limit) && s.lines["a"].rate.Value() == value
    && (if value == 0 then s.lines["a"].rate.NoRateKey? else s.lines["a"].rate.expiry == Some(expiry))
  }

  /** A new campaign send takes a slot and gets as far as the provider call. */
  lemma TakeSlot(t0: nat, steps: seq<Step>, limit: nat) returns (more: seq<Step>, s: State, e: Effect)
    requires var was := Run(Start(t0), steps);
      "a" in was.lines && was.lines["a"].account == Throttled(limit) && 0 <= was.lines["a"].rate.Value() < limit
    ensures var was := Run(Start(t0), steps);
      && s == was.(attempts := was.attempts + [NewAttempt(Campaign, "a", Throttled(limit), false)])
      && Run(Start(t0), more) == Put(s, |was.attempts|, e)
      && e == Effect(NewAttempt(Campaign, "a", Throttled(limit), false).(phase := Sending, cold := Some(false),
                       slot := Some(Slot(was.lines["a"].lifetime, was.now, true))),
                     CountedNow(was.lines["a"], was.now), was.quota)
  {
    hide Run, CountedNow;
    var was := Run(Start(t0), steps);
    RateCounted(was.lines["a"], was.now);
    more, s := NewJob(t0, steps, Campaign, "a");
    var i := |was.attempts|;
    more, e := Do(t0, more, s, i, Taken(s, i), Screen(false));
    more, e := Do(t0, more, s, i, e, RateIncr);
    if was.lines["a"].rate.Value() == 0 {
      more, e := Do(t0, more, s, i, e, RateExpire);
    }
    more, e := Do(t0, more, s, i, e, DailyRead);
  }

  /** The attempts of account "a" all see this limit and refund in their own lifetime if at all. */
  ghost predicate Plain(s: seq<Attempt>, limit: nat) {
    forall j :: 0 <= j < |s| && s[j].id == "a" ==>
      && s[j].snapshot == Throttled(limit)
      && (s[j].refund.Some? ==> Holds(s[j], "a", s[j].refund.value))
  }

  /** The same attempts, then others that never refund. */
  ghost predicate Appends(s: seq<Attempt>, t: seq<Attempt>) {
    |s| <= |t| && t[..|s|] == s && forall j :: |s| <= j < |t| ==> t[j].refund.None?
  }

  lemma AppendsOn(s: seq<Attempt>, t: seq<Attempt>, u: seq<Attempt>)
    requires Appends(s, t) && Appends(t, u)
    ensures Appends(s, u)
  {
    assert u[..|s|] == u[..|t|][..|s|];
    assert forall j :: 0 <= j < |t| ==> u[j] == u[..|t|][j];
  }

  lemma SendOne(t0: nat, steps: seq<Step>, limit: nat, value: nat, expiry: nat, from: nat) returns (more: seq<Step>)
    requires Paced(Run(Start(t0), steps), limit, value, expiry) && value < limit
    requires Plain(Run(Start(t0), steps).attempts, limit)
    ensures var s, t := Run(Start(t0), steps), Run(Start(t0), more);
      && t.now == s.now && Plain(t.attempts, limit) && Appends(s.attempts, t.attempts)
      && Paced(t, limit, value + 1, if value == 0 then s.now + MINUTE_MS else expiry)
      && Count(t.attempts, KeptIn("a", from)) == Count(s.attempts, KeptIn("a", from)) + (if from <= s.now < from + MINUTE_MS then 1 else 0)
  {
    hide Run, Count;
    var was := Run(Start(t0), steps);
    var s, e;
    more, s, e := TakeSlot(t0, steps, limit);
    var i := |was.attempts|;
    more, e := Do(t0, more, s, i, e, Send(true));
    assert Put(s, i, e).attempts == was.attempts + [e.attempt];
    CountAppend(was.attempts, e.attempt, KeptIn("a", from));
  }

  lemma {:induction false} SendMany(t0: nat, steps: seq<Step>, limit: nat, value: nat, expiry: nat, from: nat, n: nat)
    returns (more: seq<Step>)
    requires Paced(Run(Start(t0), steps), limit, value, expiry) && value + n <= limit
    requires Plain(Run(Start(t0), steps).attempts, limit)
    ensures var s, t := Run(Start(t0), steps), Run(Start(t0), more);
      && t.now == s.now && Plain(t.attempts, limit) && Appends(s.attempts, t.attempts)
      && Paced(t, limit, value + n, if value == 0 then s.now + MINUTE_MS else expiry)
      && Count(t.attempts, KeptIn("a", from)) == Count(s.attempts, KeptIn("a", from)) + (if from <= s.now < from + MINUTE_MS then n else 0)
  {
    hide Run, Count, Plain, Appends;
    if n == 0 {
      more := steps;
      Itself(Run(Start(t0), steps).attempts);
    } else {
      more := SendMany(t0, steps, limit, value, expiry, from, n - 1);
      var most := Run(Start(t0), more).attempts;
      more := SendOne(t0, more, limit, value + n - 1, if value == 0 then Run(Start(t0), steps).now + MINUTE_MS else expiry, from);
      AppendsOn(Run(Start(t0), steps).attempts, most, Run(Start(t0), more).attempts);
    }
  }

  lemma Itself(s: seq<Attempt>)
    ensures Appends(s, s)
  {
    assert s[..|s|] == s;
  }

  lemma Wait(t0: nat, steps: seq<Step>, ms: nat, limit: nat, value: nat, expiry: nat) returns (more: seq<Step>)
    requires Paced(Run(Start(t0), steps), limit, value, expiry) && value > 0
    ensures var s, t := Run(Start(t0), steps), Run(Start(t0), more);
      && t.now == s.now + ms && t.attempts == s.attempts
      && Paced(t, limit, if t.now < expiry then value else 0, expiry)
  {
    hide Run;
    more := Go(t0, steps, Tick(ms));
  }

  lemma Opening(limit: nat) returns (steps: seq<Step>)
    ensures var s := Run(Start(0), steps); s.now == 0 && s.attempts == [] && Paced(s, limit, 0, 0) && s.lines["a"].lifetime == 0
  {
    hide Run;
    assert Run(Start(0), []) == Start(0) by { EmptyRun(0); }
    steps := Go(0, [], Configure("a", Throttled(limit)));
  }

  /** For every limit a refund-free run reaches the bound: one send, the rest of the limit just before the key
      lapses, and the whole limit right after. From a limit of two on that breaks the promise. */
  lemma BoundIsReached(limit: nat) returns (steps: seq<Step>)
    requires limit >= 1
    ensures var s := Run(Start(0), steps).attempts;
      && RefundFree(s, "a") && (forall j :: 0 <= j < |s| && s[j].id == "a" ==> s[j].snapshot.msgsPerMinute == limit)
      && Count(s, KeptIn("a", 59_999)) == 2 * limit - 1
  {
    hide Run, Count;
    steps := Opening(limit);
    NothingKept(59_999);
    steps := SendOne(0, steps, limit, 0, 0, 59_999);
    var s1 := Run(Start(0), steps).attempts;
    steps := Wait(0, steps, 59_999, limit, 1, 60_000);
    steps := SendMany(0, steps, limit, 1, 60_000, 59_999, limit - 1);
    var s2 := Run(Start(0), steps).attempts;
    AppendsOn(s1, s2, s2) by { Itself(s2); }
    steps := Wait(0, steps, 1, limit, limit, 60_000);
    steps := SendMany(0, steps, limit, 0, 60_000, 59_999, limit);
    AppendsOn(s1, s2, Run(Start(0), steps).attempts);
    AppendsOn([], s1, Run(Start(0), steps).attempts);
  }

  lemma NothingKept(from: nat)
    ensures Count([], KeptIn("a", from)) == 0
  {
  }

  // ---- refunds within a lifetime ----

  /** A send that failed and gave its slot back at once, and, one millisecond before the key lapses, a send that
      counted the key up to one again and has not yet set its expiry. */
  lemma PendingExpiry(limit: nat) returns (steps: seq<Step>)
    requires limit >= 1
    ensures var s := Run(Start(0), steps);
      && s.now == 59_999 && Paced(s, limit, 1, 60_000) && Plain(s.attempts, limit)
      && |s.attempts| == 2 && s.attempts[1].phase == SettingRateExpiry && s.attempts[1].id == "a" && s.attempts[1].refund.None?
      && s.attempts[1].snapshot == Throttled(limit) && s.attempts[1].slot == Some(Slot(0, 59_999, true))
      && Count(s.attempts, KeptIn("a", 59_999)) == 1
  {
    hide Run, Count, DecrRate, IncrDay, ExpireDay, ExpireRate, Messages, CapFor;
    steps := GivenBack(limit);
    var first := Run(Start(0), steps).attempts[0];
    steps := Go(0, steps, Tick(59_999));
    var s, e;
    steps, s := NewJob(0, steps, Campaign, "a");
    steps, e := Do(0, steps, s, 1, Taken(s, 1), Screen(false));
    steps, e := Do(0, steps, s, 1, e, RateIncr);
    assert [] + [first] == [first] && Run(Start(0), steps).attempts == [first] + [e.attempt];
    NothingKept(59_999);
    CountAppend([], first, KeptIn("a", 59_999));
    CountAppend([first], e.attempt, KeptIn("a", 59_999));
  }

  lemma GivenBack(limit: nat) returns (steps: seq<Step>)
    requires limit >= 1
    ensures var s := Run(Start(0), steps);
      && s.now == 0 && |s.attempts| == 1 && Plain(s.attempts, limit)
      && s.attempts[0].id == "a" && s.attempts[0].refund == Some(0) && s.attempts[0].slot == Some(Slot(0, 0, true))
      && "a" in s.lines && s.lines["a"].account == Throttled(limit) && s.lines["a"].lifetime == 0
      && s.lines["a"].rate.RateKey? && s.lines["a"].rate.count == 0 && s.lines["a"].rate.expiry == Some(60_000)
  {
    hide Run;
    steps := Opening(limit);
    var s, e;
    steps, s, e := TakeSlot(0, steps, limit);
    steps, e := Do(0, steps, s, 0, e, Send(false));
    steps, e := Do(0, steps, s, 0, e, GetForRefund);
    steps, e := Do(0, steps, s, 0, e, DecrForRefund);
  }

  /** The factor two is reached under every limit without any refund crossing an expiry: the pending send lets the key
      lapse under a full minute's worth of sends, and the whole limit follows. */
  lemma FactorTwoIsReached(limit: nat) returns (steps: seq<Step>)
    requires limit >= 1
    ensures var s := Run(Start(0), steps).attempts;
      && (forall l: nat :: Count(s, Foreign("a", l)) == 0)
      && (forall j :: 0 <= j < |s| && s[j].id == "a" ==> s[j].snapshot.msgsPerMinute == limit)
      && Count(s, KeptIn("a", 59_999)) == 2 * limit && |s| >= 2 && s[1].phase == Done(Delivered)
  {
    hide Run, Count;
    steps := PendingExpiry(limit);
    var before := Run(Start(0), steps).attempts;
    steps := SendMany(0, steps, limit, 1, 60_000, 59_999, limit - 1);
    var mid := Run(Start(0), steps).attempts;
    steps := Wait(0, steps, 1, limit, limit, 60_000);
    steps := SendMany(0, steps, limit, 0, 60_000, 59_999, limit);
    AppendsOn(before, mid, Run(Start(0), steps).attempts);
    assert Run(Start(0), steps).attempts[1] == Run(Start(0), steps).attempts[..|before|][1];
    steps := FinishPending(steps, limit);
    forall l: nat
      ensures Count(Run(Start(0), steps).attempts, Foreign("a", l)) == 0
    {
      CountNone(Run(Start(0), steps).attempts, Foreign("a", l));
    }
  }

  /** The pending send sets the expiry and goes out. */
  /** Without a daily cap nothing stands between the minute slot and the provider. */
  lemma OnCapless(s: State, a: Attempt, line: Line, limit: nat)
    requires a.snapshot == Throttled(limit)
    ensures a.phase.Slotted? ==> Perform(s, a, line, DailyRead) == Effect(a.(phase := Sending), line, s.quota)
    ensures a.phase.Sending? ==>
              Perform(s, a, line, Send(true)) == Effect(a.(phase := Done(Delivered), sent := Some(s.period)), line, s.quota)
  {
  }

  lemma FinishPending(steps: seq<Step>, limit: nat) returns (more: seq<Step>)
    requires var s := Run(Start(0), steps);
      && Plain(s.attempts, limit) && "a" in s.lines
      && |s.attempts| >= 2 && s.attempts[1].phase == SettingRateExpiry && s.attempts[1].id == "a" && s.attempts[1].refund.None?
      && s.attempts[1].snapshot == Throttled(limit) && s.attempts[1].slot == Some(Slot(0, 59_999, true))
    ensures var s, t := Run(Start(0), steps).attempts, Run(Start(0), more).attempts;
      Plain(t, limit) && |t| == |s| && t[1].phase == Done(Delivered) && Count(t, KeptIn("a", 59_999)) == Count(s, KeptIn("a", 59_999))
  {
    hide Run, Count, Next, Perform, ExpireRate;
    var s := Run(Start(0), steps);
    var e := Taken(s, 1);
    PutTaken(s, 1);
    OnRate(s, e.attempt, e.line);
    more, e := Do(0, steps, s, 1, e, RateExpire);
    OnCapless(Put(s, 1, e), e.attempt, e.line, limit);
    more, e := Do(0, more, s, 1, e, DailyRead);
    OnCapless(Put(s, 1, e), e.attempt, e.line, limit);
    more, e := Do(0, more, s, 1, e, Send(true));
    CountUpdate(s.attempts, 1, e.attempt, KeptIn("a", 59_999));
  }

  // ---- who keeps the promise ----

  /** Every attempt of the account saw this limit. */
  ghost predicate LimitIs(s: seq<Attempt>, id: AccountId, limit: int) {
    forall j :: 0 <= j < |s| && s[j].id == id ==> s[j].snapshot.msgsPerMinute == limit
  }

  /** No refund-free run under this limit has more sends than the limit in any sixty seconds. */
  ghost predicate Slides(limit: nat) {
    forall t0: nat, steps: seq<Step>, id: AccountId, from: nat ::
      LimitIs(Run(Start(t0), steps).attempts, id, limit) && RefundFree(Run(Start(t0), steps).attempts, id)
      ==> Count(Run(Start(t0), steps).attempts, KeptIn(id, from)) <= limit
  }

  /** The promised sliding window holds of the refund-free runs if and only if the limit is one. */
  lemma SlidesIff(limit: nat)
    requires limit >= 1
    ensures Slides(limit) <==> limit == 1
  {
    hide Run, Count;
    if limit == 1 {
      forall t0: nat, steps: seq<Step>, id: AccountId, from: nat
        | LimitIs(Run(Start(t0), steps).attempts, id, limit) && RefundFree(Run(Start(t0), steps).attempts, id)
        ensures Count(Run(Start(t0), steps).attempts, KeptIn(id, from)) <= limit
      {
        TwiceLessOne(t0, steps, id, from, 1);
      }
    } else {
      var steps := BoundIsReached(limit);
      assert LimitIs(Run(Start(0), steps).attempts, "a", limit);
      assert Count(Run(Start(0), steps).attempts, KeptIn("a", 59_999)) > limit;
    }
  }

  /** An attempt under a limit of one that took the slot of this lifetime at this time. */
  predicate SlotUnderOne(a: Attempt, lifetime: nat, at: nat) {
    a.id == "a" && a.snapshot == Throttled(1) && a.slot == Some(Slot(lifetime, at, true))
  }

  /** One minute later, with the first send still waiting for its provider, a second one goes out. */
  lemma TwoSlots() returns (steps: seq<Step>)
    ensures var s := Run(Start(0), steps);
      && |s.attempts| == 2 && s.now == 60_000
      && SlotUnderOne(s.attempts[0], 0, 0) && s.attempts[0].phase.Sending? && s.attempts[0].refund.None?
      && SlotUnderOne(s.attempts[1], 1, 60_000) && s.attempts[1].refund.None?
      && "a" in s.lines && s.lines["a"].account == Throttled(1) && s.lines["a"].lifetime == 1 && s.lines["a"].rate.Value() == 1
  {
    hide Run;
    var s, e;
    steps := Opening(1);
    steps, s, e := TakeSlot(0, steps, 1);
    assert s.lines["a"].lifetime == 0;
    steps := Go(0, steps, Tick(60_000));
    steps, s, e := TakeSlot(0, steps, 1);
    steps, e := Do(0, steps, s, 1, e, Send(true));
  }

  /** Then the first one fails, and its refund lands in the second lifetime. */
  lemma SlotGivenBack() returns (steps: seq<Step>)
    ensures var s := Run(Start(0), steps);
      && |s.attempts| == 2 && s.now == 60_000
      && SlotUnderOne(s.attempts[0], 0, 0) && s.attempts[0].refund == Some(1)
      && SlotUnderOne(s.attempts[1], 1, 60_000) && s.attempts[1].refund.None?
      && "a" in s.lines && s.lines["a"].account == Throttled(1) && s.lines["a"].lifetime == 1 && s.lines["a"].rate.Value() == 0
  {
    hide Run;
    steps := TwoSlots();
    var s, e := Run(Start(0), steps), Taken(Run(Start(0), steps), 0);
    PutTaken(s, 0);
    steps, e := Do(0, steps, s, 0, e, Send(false));
    steps, e := Do(0, steps, s, 0, e, GetForRefund);
    steps, e := Do(0, steps, s, 0, e, DecrForRefund);
  }

  /** With refunds not even a limit of one holds: a send that fails after its key lapsed gives its slot back to the
      next lifetime, and two messages go out at the same moment. */
  lemma LateRefundBreaksOne() returns (steps: seq<Step>)
    ensures var s := Run(Start(0), steps).attempts;
      LimitIs(s, "a", 1) && Count(s, KeptIn("a", 60_000)) == 2 && Count(s, Foreign("a", 1)) == 1
  {
    hide Run;
    steps := SlotGivenBack();
    var before := Run(Start(0), steps).attempts;
    var s, e;
    steps, s, e := TakeSlot(0, steps, 1);
    steps, e := Do(0, steps, s, 2, e, Send(true));
    var after := Run(Start(0), steps).attempts;
    assert after == [before[0], before[1], e.attempt];
    CountThree(before[0], before[1], e.attempt, KeptIn("a", 60_000));
    CountThree(before[0], before[1], e.attempt, Foreign("a", 1));
  }

  lemma CountThree(a: Attempt, b: Attempt, c: Attempt, t: Tally)
    ensures Count([a, b, c], t) == Weight(a, t) + Weight(b, t) + Weight(c, t)
  {
    assert [a, b, c] == [] + [a] + [b] + [c];
    CountAppend([], a, t);
    CountAppend([a], b, t);
    CountAppend([a, b], c, t);
  }

  /** No run at all under this limit has more sends than the limit in any sixty seconds. */
  ghost predicate AlwaysSlides(limit: nat) {
    forall t0: nat, steps: seq<Step>, id: AccountId, from: nat ::
      LimitIs(Run(Start(t0), steps).attempts, id, limit) ==> Count(Run(Start(t0), steps).attempts, KeptIn(id, from)) <= limit
  }

  /** So over all runs the promise holds under no limit. */
  lemma NeverAlwaysSlides(limit: nat)
    requires limit >= 1
    ensures !AlwaysSlides(limit)
  {
    hide Run, Count;
    if limit == 1 {
      var steps := LateRefundBreaksOne();
      assert Count(Run(Start(0), steps).attempts, KeptIn("a", 60_000)) > limit;
    } else {
      var steps := BoundIsReached(limit);
      assert LimitIs(Run(Start(0), steps).attempts, "a", limit);
      assert Count(Run(Start(0), steps).attempts, KeptIn("a", 59_999)) > limit;
    }
  }
}
