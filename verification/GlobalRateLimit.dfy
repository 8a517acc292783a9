/**
 The per-IP throttle in front of the API. A request picks its minute when it arrives and increments the
 counter of that minute a little later, so requests of one minute may still be counting in the next;
 the key lives five seconds longer than the minute.
 */
module GlobalRateLimit {
  import opened Wrappers

  const WINDOW_MS: nat := 60_000
  const SLACK_MS: nat := 5_000

  datatype Config = Config(anonLimit: int, authedLimit: int)

  datatype Key = Key(ip: string, minute: nat)

  datatype Entry = Entry(count: nat, expires: Option<nat>)

  /** Expiring: counted as the first of its key, about to set the key's expiry. */
  datatype Phase = Waiting | Expiring | Passed(metered: bool) | Refused

  datatype Request = Request(ip: string, limit: int, arrived: nat, phase: Phase)

  datatype State = State(now: nat, keys: map<Key, Entry>, requests: seq<Request>)

  /** `up` says whether Redis answered. Steps of different requests interleave freely. */
  datatype Step =
    | Arrive(now: nat, ip: string, authed: bool)
    | Incr(now: nat, r: nat, up: bool)
    | Expire(now: nat, r: nat, up: bool)

  // ---- the protocol ----

  function LimitFor(c: Config, authed: bool): int { if authed then c.authedLimit else c.anonLimit }

  function KeyOf(q: Request): Key { Key(q.ip, q.arrived / WINDOW_MS) }

  /** What an INCR finds: an expired key counts as absent. */
  function Current(keys: map<Key, Entry>, k: Key, now: nat): Entry {
    if k in keys && (keys[k].expires.None? || now < keys[k].expires.value) then keys[k] else Entry(0, None)
  }

  /** An INCR counts on from an entry that has not expired at that moment and starts afresh otherwise. */
  lemma CurrentIs(keys: map<Key, Entry>, k: Key, now: nat)
    ensures k !in keys ==> Current(keys, k, now) == Entry(0, None)
    ensures k in keys && keys[k].expires.None? ==> Current(keys, k, now) == keys[k]
    ensures forall until: nat :: k in keys && keys[k].expires == Some(until) ==>
              Current(keys, k, now) == if until <= now then Entry(0, None) else keys[k]
  {
  }

  function Verdict(limit: int, count: nat): Phase { if count > limit then Refused else Passed(true) }

  function Enter(c: Config, now: nat, ip: string, authed: bool): Request {
    Request(ip, LimitFor(c, authed), now, if LimitFor(c, authed) <= 0 then Passed(false) else Waiting)
  }

  /** INCR: the new entry and where it leaves the request. */
  function Counted(keys: map<Key, Entry>, q: Request, now: nat): (Entry, Phase) {
    var e := Current(keys, KeyOf(q), now);
    (Entry(e.count + 1, e.expires), if e.count == 0 then Expiring else Verdict(q.limit, e.count + 1))
  }

  function Timed(keys: map<Key, Entry>, q: Request, now: nat): map<Key, Entry> {
    var k := KeyOf(q);
    if k in keys then keys[k := Entry(keys[k].count, Some(now + WINDOW_MS + SLACK_MS))] else keys
  }

  /** Total: a step from the past, or of a request that is not at that point, changes nothing. */
  function Next(c: Config, s: State, step: Step): State {
    if step.now < s.now then s
    else match step
      case Arrive(now, ip, authed) => State(now, s.keys, s.requests + [Enter(c, now, ip, authed)])
      case Incr(now, r, up) =>
        if !(r < |s.requests| && s.requests[r].phase == Waiting) then s
        else
          var q := s.requests[r];
          if !up then State(now, s.keys, s.requests[r := q.(phase := Passed(false))])
          else
            var (entry, phase) := Counted(s.keys, q, now);
            State(now, s.keys[KeyOf(q) := entry], s.requests[r := q.(phase := phase)])
      case Expire(now, r, up) =>
        if !(r < |s.requests| && s.requests[r].phase == Expiring) then s
        else
          var q := s.requests[r];
          State(now, if up then Timed(s.keys, q, now) else s.keys,
                s.requests[r := q.(phase := if up then Verdict(q.limit, 1) else Passed(true))])
  }

  const START: State := State(0, map[], [])

  function Run(c: Config, s: State, steps: seq<Step>): State {
    if steps == [] then s else Next(c, Run(c, s, steps[..|steps| - 1]), steps[|steps| - 1])
  }

  /** No request counts more than `slack` ms after it arrived. */
  predicate Prompt(c: Config, steps: seq<Step>, slack: nat) {
    if steps == [] then true
    else
      var s := Run(c, START, steps[..|steps| - 1]);
      var step := steps[|steps| - 1];
      && Prompt(c, steps[..|steps| - 1], slack)
      && (step.Incr? && step.r < |s.requests| && s.requests[step.r].phase == Waiting
          ==> step.now <= s.requests[step.r].arrived + slack)
  }

  // ---- the middleware ----

  class Middleware {
    const config: Config
    var now: nat
    var keys: map<Key, Entry>
    ghost var requests: seq<Request>

    constructor (config: Config)
      ensures this.config == config && View() == START
    {
      this.config := config;
      now, keys, requests := 0, map[], [];
    }

    ghost function View(): State
      reads this
    {
      State(now, keys, requests)
    }

    /** One request: it arrives, counts at `counting` and sets an expiry at `expiring`. With the limit off or
        Redis down it passes; otherwise it passes exactly when fewer than `limit` were counted before it. */
    method Use(ip: string, authed: bool, arrived: nat, counting: nat, expiring: nat, incrUp: bool, expireUp: bool)
      returns (ok: bool, ghost steps: seq<Step>)
      requires now <= arrived <= counting <= expiring
      modifies this
      ensures View() == Run(config, old(View()), steps)
      ensures var before := Current(old(keys), Key(ip, arrived / WINDOW_MS), counting).count;
        var limit := if authed then config.authedLimit else config.anonLimit;
        ok <==> (limit <= 0 || !incrUp || before < limit)
      ensures var k := Key(ip, arrived / 60_000);
        var was := Current(old(keys), k, counting);
        keys == if (if authed then config.authedLimit else config.anonLimit) <= 0 || !incrUp then old(keys)
                else old(keys)[k := Entry(was.count + 1, if was.count == 0 && expireUp then Some(expiring + 65_000) else was.expires)]
      ensures |requests| == |old(requests)| + 1 && requests[..|old(requests)|] == old(requests)
      ensures requests[|old(requests)|].ip == ip && requests[|old(requests)|].arrived == arrived
      ensures ok <==> requests[|old(requests)|].phase.Passed?
      ensures !ok <==> requests[|old(requests)|].phase.Refused?
    {
      hide Run, Current;
      ghost var start := View();
      ghost var r := |requests|;
      RunNothing(config, start);
      var limit := LimitFor(config, authed);
      var k := Key(ip, arrived / WINDOW_MS);
      var arrive := Arrive(arrived, ip, authed);
      now := arrived;
      requests := requests + [Enter(config, now, ip, authed)];
      RunMore(config, start, [], arrive);
      steps := [arrive];
      assert [] + [arrive] == steps;
      if limit <= 0 { return true, steps; }
      var incr := Incr(counting, r, incrUp);
      RunMore(config, start, steps, incr);
      steps := steps + [incr];
      now := counting;
      if !incrUp {
        requests := requests[r := requests[r].(phase := Passed(false))];
        return true, steps;
      }
      var e := Current(keys, k, counting);
      keys := keys[k := Entry(e.count + 1, e.expires)];
      var count := e.count + 1;
      if count == 1 {
        requests := requests[r := requests[r].(phase := Expiring)];
        var expire := Expire(expiring, r, expireUp);
        RunMore(config, start, steps, expire);
        steps := steps + [expire];
        now := expiring;
        if !expireUp {
          requests := requests[r := requests[r].(phase := Passed(true))];
          return true, steps;
        }
        keys := keys[k := Entry(1, Some(expiring + WINDOW_MS + SLACK_MS))];
      }
      requests := requests[r := requests[r].(phase := Verdict(limit, count))];
      ok := count <= limit;
    }
  }

  lemma RunNothing(c: Config, s: State)
    ensures Run(c, s, []) == s
  {
  }

  lemma RunMore(c: Config, s: State, steps: seq<Step>, step: Step)
    ensures Run(c, s, steps + [step]) == Next(c, Run(c, s, steps), step)
  {
    assert (steps + [step])[..|steps|] == steps;
  }

  // ---- counting requests ----

  predicate Within(q: Request, ip: string, from: nat, to: nat) { q.ip == ip && from <= q.arrived < to }

  predicate Admitted(q: Request, cap: int) { q.limit <= cap && (q.phase == Expiring || q.phase == Passed(true)) }

  predicate Charged(q: Request) { q.phase == Expiring || q.phase == Passed(true) || q.phase == Refused }

  /** Requests of this IP that arrived in [from, to), went through the counter and were let through,
      under a limit of at most `cap`. */
  function Admissions(qs: seq<Request>, ip: string, from: nat, to: nat, cap: int): nat {
    if qs == [] then 0
    else
      Admissions(qs[..|qs| - 1], ip, from, to, cap)
      + (if Within(qs[|qs| - 1], ip, from, to) && Admitted(qs[|qs| - 1], cap) then 1 else 0)
  }

  /** Requests of this key that went through the counter. */
  function Charges(qs: seq<Request>, k: Key): nat {
    if qs == [] then 0
    else Charges(qs[..|qs| - 1], k) + (if KeyOf(qs[|qs| - 1]) == k && Charged(qs[|qs| - 1]) then 1 else 0)
  }

  function Bucket(qs: seq<Request>, k: Key, cap: int): nat {
    Admissions(qs, k.ip, k.minute * WINDOW_MS, k.minute * WINDOW_MS + WINDOW_MS, cap)
  }

  lemma {:induction false} AdmissionsUpdate(qs: seq<Request>, r: nat, q: Request, ip: string, from: nat, to: nat, cap: int)
    requires r < |qs|
    ensures Admissions(qs[r := q], ip, from, to, cap)
      == Admissions(qs, ip, from, to, cap) - (if Within(qs[r], ip, from, to) && Admitted(qs[r], cap) then 1 else 0)
         + (if Within(q, ip, from, to) && Admitted(q, cap) then 1 else 0)
  {
    hide Within, Admitted;
    var n := |qs| - 1;
    if r < n {
      assert qs[r := q][..n] == qs[..n][r := q];
      AdmissionsUpdate(qs[..n], r, q, ip, from, to, cap);
    } else {
      assert qs[r := q][..n] == qs[..n];
    }
  }

  lemma {:induction false} ChargesUpdate(qs: seq<Request>, r: nat, q: Request, k: Key)
    requires r < |qs|
    ensures Charges(qs[r := q], k)
      == Charges(qs, k) - (if KeyOf(qs[r]) == k && Charged(qs[r]) then 1 else 0) + (if KeyOf(q) == k && Charged(q) then 1 else 0)
  {
    hide KeyOf, Charged;
    var n := |qs| - 1;
    if r < n {
      assert qs[r := q][..n] == qs[..n][r := q];
      ChargesUpdate(qs[..n], r, q, k);
    } else {
      assert qs[r := q][..n] == qs[..n];
    }
  }

  lemma AppendWaiting(qs: seq<Request>, q: Request, k: Key, cap: int)
    requires !Charged(q)
    ensures Charges(qs + [q], k) == Charges(qs, k) && Bucket(qs + [q], k, cap) == Bucket(qs, k, cap)
  {
    assert (qs + [q])[..|qs|] == qs;
  }

  lemma WithinIsBucket(q: Request, k: Key)
    ensures Within(q, k.ip, k.minute * WINDOW_MS, k.minute * WINDOW_MS + WINDOW_MS) <==> KeyOf(q) == k
  {
  }

  // ---- one minute ----

  function Min(x: int, y: int): int { if x < y then x else y }

  function Max(x: int, y: int): int { if x < y then y else x }

  /** The smaller of the limits that are switched on. */
  function Strict(c: Config): int {
    if c.anonLimit <= 0 then c.authedLimit
    else if c.authedLimit <= 0 then c.anonLimit
    else Min(c.anonLimit, c.authedLimit)
  }

  /** The entry of key k says how many were charged to it, and outlives everyone who may still be charged. */
  ghost predicate KeyInv(c: Config, s: State, k: Key, cap: int) {
    var charges := Charges(s.requests, k);
    var bucket := Bucket(s.requests, k, cap);
    && (if k in s.keys then s.keys[k].count == charges > 0 else charges == 0)
    && (k in s.keys && s.keys[k].expires.Some? ==> s.keys[k].expires.value >= k.minute * WINDOW_MS + WINDOW_MS + SLACK_MS)
    && bucket <= charges
    && (bucket > 0 ==> bucket <= cap)
    && (cap >= Max(c.anonLimit, c.authedLimit) ==> bucket >= Min(charges, Strict(c)))
  }

  ghost predicate RequestInv(c: Config, s: State, q: Request, k: Key) {
    && q.arrived <= s.now
    && (q.limit == c.anonLimit || q.limit == c.authedLimit)
    && (q.limit <= 0 ==> q.phase == Passed(false))
    && (KeyOf(q) == k && q.phase == Refused ==> k in s.keys && s.keys[k].count > q.limit)
  }

  ghost predicate Inv(c: Config, s: State, k: Key, cap: int) {
    KeyInv(c, s, k, cap) && forall r :: 0 <= r < |s.requests| ==> RequestInv(c, s, s.requests[r], k)
  }

  lemma ArriveInv(c: Config, s: State, step: Step, k: Key, cap: int)
    requires Inv(c, s, k, cap) && step.Arrive? && s.now <= step.now
    ensures Inv(c, Next(c, s, step), k, cap)
  {
    AppendWaiting(s.requests, Enter(c, step.now, step.ip, step.authed), k, cap);
  }

  /** Replacing a request by one that is as charged and as admitted as before. */
  lemma SameCharge(c: Config, s: State, t: State, r: nat, q: Request, k: Key, cap: int)
    requires Inv(c, s, k, cap) && r < |s.requests| && s.now <= t.now && t.requests == s.requests[r := q]
    requires q == s.requests[r].(phase := q.phase) && q.phase != Refused && (q.limit <= 0 ==> q.phase == Passed(false))
    requires Charged(q) == Charged(s.requests[r]) && Admitted(q, cap) == Admitted(s.requests[r], cap)
    requires k in s.keys <==> k in t.keys
    requires k in s.keys ==> t.keys[k].count == s.keys[k].count
    requires k in s.keys && t.keys[k] != s.keys[k] ==>
      t.keys[k].expires.Some? && t.keys[k].expires.value >= k.minute * WINDOW_MS + WINDOW_MS + SLACK_MS
    ensures Inv(c, t, k, cap)
  {
    hide Admissions, Charges, Strict;
    AdmissionsUpdate(s.requests, r, q, k.ip, k.minute * WINDOW_MS, k.minute * WINDOW_MS + WINDOW_MS, cap);
    ChargesUpdate(s.requests, r, q, k);
    WithinIsBucket(q, k);
    WithinIsBucket(s.requests[r], k);
  }

  lemma ExpireInv(c: Config, s: State, step: Step, k: Key, cap: int)
    requires Inv(c, s, k, cap) && step.Expire? && s.now <= step.now
    ensures Inv(c, Next(c, s, step), k, cap)
  {
    hide KeyInv;
    if step.r < |s.requests| && s.requests[step.r].phase == Expiring {
      var q := s.requests[step.r];
      assert RequestInv(c, s, q, k);
      SameCharge(c, s, Next(c, s, step), step.r, q.(phase := Passed(true)), k, cap);
    }
  }

  /** A prompt INCR finds the count of its whole minute. */
  lemma CurrentIsWhole(c: Config, s: State, k: Key, cap: int, q: Request, now: nat)
    requires Inv(c, s, k, cap) && KeyOf(q) == k && now <= q.arrived + SLACK_MS
    ensures Current(s.keys, k, now).count == Charges(s.requests, k)
    ensures Current(s.keys, k, now).expires == (if k in s.keys then s.keys[k].expires else None)
  {
    hide Charges, Bucket;
  }

  lemma IncrOwn(c: Config, s: State, step: Step, k: Key, cap: int)
    requires Inv(c, s, k, cap) && step.Incr? && step.up && s.now <= step.now
    requires step.r < |s.requests| && s.requests[step.r].phase == Waiting && KeyOf(s.requests[step.r]) == k
    requires step.now <= s.requests[step.r].arrived + SLACK_MS
    ensures Inv(c, Next(c, s, step), k, cap)
  {
    hide Charges, Admissions, Current;
    var q := s.requests[step.r];
    assert RequestInv(c, s, q, k);
    CurrentIsWhole(c, s, k, cap, q, step.now);
    var phase := Counted(s.keys, q, step.now).1;
    AdmissionsUpdate(s.requests, step.r, q.(phase := phase), k.ip, k.minute * WINDOW_MS, k.minute * WINDOW_MS + WINDOW_MS, cap);
    ChargesUpdate(s.requests, step.r, q.(phase := phase), k);
    WithinIsBucket(q, k);
    WithinIsBucket(q.(phase := phase), k);
  }

  lemma IncrInv(c: Config, s: State, step: Step, k: Key, cap: int)
    requires Inv(c, s, k, cap) && step.Incr? && s.now <= step.now
    requires step.r < |s.requests| && s.requests[step.r].phase == Waiting ==> step.now <= s.requests[step.r].arrived + SLACK_MS
    ensures Inv(c, Next(c, s, step), k, cap)
  {
    hide KeyInv, Current;
    if step.r < |s.requests| && s.requests[step.r].phase == Waiting {
      var q := s.requests[step.r];
      var t := Next(c, s, step);
      assert RequestInv(c, s, q, k);
      if !step.up {
        SameCharge(c, s, t, step.r, q.(phase := Passed(false)), k, cap);
      } else if KeyOf(q) == k {
        IncrOwn(c, s, step, k, cap);
      } else {
        IncrOther(c, s, step, k, cap);
      }
    }
  }

  lemma IncrOther(c: Config, s: State, step: Step, k: Key, cap: int)
    requires Inv(c, s, k, cap) && step.Incr? && step.up && s.now <= step.now
    requires step.r < |s.requests| && s.requests[step.r].phase == Waiting && KeyOf(s.requests[step.r]) != k
    ensures Inv(c, Next(c, s, step), k, cap)
  {
    hide Charges, Admissions, Current, Strict;
    var q := s.requests[step.r];
    assert RequestInv(c, s, q, k);
    var phase := Counted(s.keys, q, step.now).1;
    AdmissionsUpdate(s.requests, step.r, q.(phase := phase), k.ip, k.minute * WINDOW_MS, k.minute * WINDOW_MS + WINDOW_MS, cap);
    ChargesUpdate(s.requests, step.r, q.(phase := phase), k);
    WithinIsBucket(q, k);
    WithinIsBucket(q.(phase := phase), k);
  }

  lemma {:induction false} RunInv(c: Config, steps: seq<Step>, k: Key, cap: int)
    requires Prompt(c, steps, SLACK_MS)
    ensures Inv(c, Run(c, START, steps), k, cap)
  {
    hide Inv, Next;
    if steps == [] {
      StartInv(c, k, cap);
    } else {
      var front := steps[..|steps| - 1];
      var s := Run(c, START, front);
      var step := steps[|steps| - 1];
      RunInv(c, front, k, cap);
      if step.now < s.now {
        FromThePast(c, s, step);
      } else if step.Arrive? {
        ArriveInv(c, s, step, k, cap);
      } else if step.Incr? {
        IncrInv(c, s, step, k, cap);
      } else {
        ExpireInv(c, s, step, k, cap);
      }
    }
  }

  lemma StartInv(c: Config, k: Key, cap: int)
    ensures Inv(c, START, k, cap)
  {
  }

  lemma FromThePast(c: Config, s: State, step: Step)
    requires step.now < s.now
    ensures Next(c, s, step) == s
  {
  }

  /** Over any interleaving of prompt requests and any Redis failures, of the requests of one IP that arrive in
      one clock minute and are counted, those under a limit of at most `cap` are let through at most `cap` times;
      with `cap` the larger limit that bounds all of them, with the anonymous limit the anonymous ones. */
  lemma OneMinute(c: Config, steps: seq<Step>, ip: string, minute: nat, cap: nat)
    requires Prompt(c, steps, SLACK_MS)
    ensures Bucket(Run(c, START, steps).requests, Key(ip, minute), cap) <= cap
  {
    hide Run, Bucket;
    RunInv(c, steps, Key(ip, minute), cap);
  }

  /** With one limit for everybody the throttle is exact: of n counted requests min(n, limit) pass. */
  lemma ExactMinute(c: Config, steps: seq<Step>, k: Key)
    requires Prompt(c, steps, SLACK_MS) && c.anonLimit == c.authedLimit > 0
    ensures var qs := Run(c, START, steps).requests;
      Bucket(qs, k, c.anonLimit) == Min(Charges(qs, k), c.anonLimit)
  {
    hide Run, Bucket;
    RunInv(c, steps, k, c.anonLimit);
  }

  /** Nobody is refused before more requests of the same IP and minute were counted than the refused one's limit. */
  lemma RefusedOnlyWhenFull(c: Config, steps: seq<Step>, r: nat)
    requires Prompt(c, steps, SLACK_MS) && r < |Run(c, START, steps).requests|
    requires Run(c, START, steps).requests[r].phase == Refused
    ensures var qs := Run(c, START, steps).requests;
      Charges(qs, KeyOf(qs[r])) > qs[r].limit > 0
  {
    hide Run, Charges;
    var s := Run(c, START, steps);
    RunInv(c, steps, KeyOf(s.requests[r]), 0);
    assert RequestInv(c, s, s.requests[r], KeyOf(s.requests[r]));
  }

  // ---- any sixty seconds ----

  lemma {:induction false} AdmissionsSplit(qs: seq<Request>, ip: string, from: nat, mid: nat, to: nat, cap: int)
    requires from <= mid <= to
    ensures Admissions(qs, ip, from, to, cap) == Admissions(qs, ip, from, mid, cap) + Admissions(qs, ip, mid, to, cap)
  {
    if qs != [] { AdmissionsSplit(qs[..|qs| - 1], ip, from, mid, to, cap); }
  }

  /** Any sixty seconds of arrivals touch two clock minutes, so at most twice the larger limit is let through. */
  lemma AnySixtySeconds(c: Config, steps: seq<Step>, ip: string, from: nat)
    requires Prompt(c, steps, SLACK_MS)
    ensures var most := Max(0, Max(c.anonLimit, c.authedLimit));
      Admissions(Run(c, START, steps).requests, ip, from, from + WINDOW_MS, most) <= 2 * most
  {
    hide Run;
    var qs := Run(c, START, steps).requests;
    var most := Max(0, Max(c.anonLimit, c.authedLimit));
    var b := from / WINDOW_MS;
    var lo, mid, hi := b * WINDOW_MS, b * WINDOW_MS + WINDOW_MS, b * WINDOW_MS + WINDOW_MS + WINDOW_MS;
    AdmissionsSplit(qs, ip, from, mid, from + WINDOW_MS, most);
    AdmissionsSplit(qs, ip, lo, from, mid, most);
    AdmissionsSplit(qs, ip, mid, from + WINDOW_MS, hi, most);
    OneMinute(c, steps, ip, b, most);
    OneMinute(c, steps, ip, b + 1, most);
  }

  /** That bound counts every metered request: none has a limit above the larger one. */
  lemma {:induction false} NoOtherLimits(c: Config, steps: seq<Step>, r: nat)
    requires r < |Run(c, START, steps).requests|
    ensures var q := Run(c, START, steps).requests[r];
      q.limit == c.anonLimit || q.limit == c.authedLimit
  {
    if steps != [] {
      var front := steps[..|steps| - 1];
      if r < |Run(c, START, front).requests| { NoOtherLimits(c, front, r); }
    }
  }

  // ---- what the five seconds are worth ----

  /** A request of this IP at the start of minute 0, counted and let through. */
  function PassedAtZero(ip: string, limit: int): Request { Request(ip, limit, 0, Passed(true)) }

  /** n requests passed at the start of minute 0, whose key lapses after 65 seconds. */
  ghost predicate Crowd(s: State, ip: string, limit: int, n: nat) {
    && s.now == 0 && s.keys == (if n == 0 then map[] else map[Key(ip, 0) := Entry(n, Some(65_000))])
    && |s.requests| == n && forall r :: 0 <= r < n ==> s.requests[r] == PassedAtZero(ip, limit)
  }

  lemma OneMoreAtZero(c: Config, steps: seq<Step>, ip: string, authed: bool, n: nat, slack: nat) returns (more: seq<Step>)
    requires Crowd(Run(c, START, steps), ip, LimitFor(c, authed), n) && n < LimitFor(c, authed)
    requires steps == [] || Prompt(c, steps, slack)
    ensures Crowd(Run(c, START, more), ip, LimitFor(c, authed), n + 1) && Prompt(c, more, slack) && more != []
  {
    hide Run, Prompt, LimitFor;
    var k := Key(ip, 0);
    var before := Run(c, START, steps);
    PromptMore(c, steps, Arrive(0, ip, authed), slack);
    more := steps + [Arrive(0, ip, authed)];
    var q := Request(ip, LimitFor(c, authed), 0, Waiting);
    assert Run(c, START, more) == State(0, before.keys, before.requests + [q]);
    PromptMore(c, more, Incr(0, n, true), slack);
    more := more + [Incr(0, n, true)];
    if n == 0 {
      assert Run(c, START, more) == State(0, map[k := Entry(1, None)], [q.(phase := Expiring)]);
      PromptMore(c, more, Expire(0, 0, true), slack);
      more := more + [Expire(0, 0, true)];
    }
  }

  lemma {:induction false} FillMinute(c: Config, ip: string, authed: bool, n: nat, slack: nat) returns (steps: seq<Step>)
    requires n <= LimitFor(c, authed)
    ensures Crowd(Run(c, START, steps), ip, LimitFor(c, authed), n) && (steps == [] || Prompt(c, steps, slack))
  {
    hide Run, Prompt, LimitFor;
    if n == 0 {
      steps := [];
      RunNothing(c, START);
    } else {
      steps := FillMinute(c, ip, authed, n - 1, slack);
      steps := OneMoreAtZero(c, steps, ip, authed, n - 1, slack);
    }
  }

  lemma {:induction false} CrowdCounts(qs: seq<Request>, ip: string, limit: int)
    requires forall r :: 0 <= r < |qs| ==> qs[r] == PassedAtZero(ip, limit)
    ensures Bucket(qs, Key(ip, 0), limit) == |qs|
  {
    if qs != [] { CrowdCounts(qs[..|qs| - 1], ip, limit); }
  }

  /** The five seconds are needed: a request that counts any later may find its minute forgotten. Under every positive
      limit, whoever it is for, a full minute's worth of requests passes and one more of the same minute after it. */
  lemma LateCountEscapes(c: Config, ip: string, authed: bool, slack: nat) returns (steps: seq<Step>)
    requires LimitFor(c, authed) >= 1 && slack > SLACK_MS
    ensures Prompt(c, steps, slack)
    ensures Bucket(Run(c, START, steps).requests, Key(ip, 0), LimitFor(c, authed)) == LimitFor(c, authed) + 1
  {
    hide Run, Prompt, Bucket, LimitFor;
    var limit := LimitFor(c, authed);
    steps := FillMinute(c, ip, authed, limit, slack);
    var crowd := Run(c, START, steps).requests;
    CrowdCounts(crowd, ip, limit);
    PromptMore(c, steps, Arrive(59_999, ip, authed), slack);
    steps := steps + [Arrive(59_999, ip, authed)];
    var late := Request(ip, limit, 59_999, Waiting);
    assert Run(c, START, steps).requests == crowd + [late];
    PromptMore(c, steps, Incr(65_000, |crowd|, true), slack);
    steps := steps + [Incr(65_000, |crowd|, true)];
    late := late.(phase := Expiring);
    assert Run(c, START, steps).requests == crowd + [late];
    OneMoreCounts(crowd, late, Key(ip, 0), limit);
  }

  lemma OneMoreCounts(qs: seq<Request>, q: Request, k: Key, cap: int)
    requires KeyOf(q) == k && Admitted(q, cap)
    ensures Bucket(qs + [q], k, cap) == Bucket(qs, k, cap) + 1
  {
    assert (qs + [q])[..|qs|] == qs;
    WithinIsBucket(q, k);
  }

  /** Every run whose requests count within `slack` lets one IP through at most the larger limit per clock minute. */
  ghost predicate Bounded(c: Config, slack: nat) {
    forall steps: seq<Step>, ip: string, minute: nat :: Prompt(c, steps, slack) ==>
      Bucket(Run(c, START, steps).requests, Key(ip, minute), Largest(c)) <= Largest(c)
  }

  function Largest(c: Config): nat { Max(0, Max(c.anonLimit, c.authedLimit)) }

  /** With any limit switched on, the bound per minute holds if and only if requests count within the five seconds by
      which a key outlives its minute. */
  lemma BoundedIff(c: Config, slack: nat)
    requires Largest(c) >= 1
    ensures Bounded(c, slack) <==> slack <= SLACK_MS
  {
    hide Run, Prompt, Bucket;
    if slack <= SLACK_MS {
      forall steps: seq<Step>, ip: string, minute: nat | Prompt(c, steps, slack)
        ensures Bucket(Run(c, START, steps).requests, Key(ip, minute), Largest(c)) <= Largest(c)
      {
        PromptWeaker(c, steps, slack);
        OneMinute(c, steps, ip, minute, Largest(c));
      }
    } else {
      var steps := LateCountEscapes(c, "", c.authedLimit >= c.anonLimit, slack);
      assert Bucket(Run(c, START, steps).requests, Key("", 0), Largest(c)) > Largest(c);
    }
  }

  lemma {:induction false} PromptWeaker(c: Config, steps: seq<Step>, slack: nat)
    requires Prompt(c, steps, slack) && slack <= SLACK_MS
    ensures Prompt(c, steps, SLACK_MS)
  {
    hide Run;
    if steps != [] { PromptWeaker(c, steps[..|steps| - 1], slack); }
  }

  /** Running one step more, and what keeps the longer run prompt. */
  lemma PromptMore(c: Config, steps: seq<Step>, step: Step, slack: nat)
    ensures var s := Run(c, START, steps);
      && Run(c, START, steps + [step]) == Next(c, s, step)
      && (Prompt(c, steps + [step], slack)
          <==> (steps == [] || Prompt(c, steps, slack))
               && (step.Incr? && step.r < |s.requests| && s.requests[step.r].phase == Waiting
                   ==> step.now <= s.requests[step.r].arrived + slack))
  {
    assert (steps + [step])[..|steps|] == steps;
  }
}
