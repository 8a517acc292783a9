/**
 Subscriptions: checkout, cancellation and the provider's webhooks. A row is overwritten by every webhook, so
 what it says about the grace period is a fact about the whole history of the agency.
 */
module Billing {
  import opened Wrappers

  const GRACE_MS: nat := 7 * 86_400_000

  datatype Plan = FREE | STARTER | GROWTH | SCALE

  datatype Status = TRIALING | ACTIVE | PAST_DUE | CANCELLED

  /** `rzpId` is the provider's id of the subscription; the empty string stands for a missing one. */
  datatype Subscription = Subscription(rzpId: string, customerId: Option<string>, plan: Plan, status: Status,
                                       periodEnd: nat, graceUntil: Option<nat>)

  datatype Agency = Agency(plan: Plan, isActive: bool)

  /** The subscription table has one row per agency, and provider ids are unique in it. */
  datatype State = State(agencies: map<string, Agency>, rows: map<string, Subscription>)

  /** Whether the provider is configured, and the price of each plan that has one. */
  datatype Env = Env(configured: bool, prices: map<Plan, string>)

  /** The provider's answer to creating a subscription; periods are in seconds. */
  datatype Made = Made(id: string, customerId: Option<string>, currentEnd: nat, shortUrl: Option<string>)

  datatype Entity = Entity(id: Option<string>, status: Option<string>, currentEnd: Option<nat>)

  datatype Step =
    | Checkout(agency: string, plan: Plan, made: Option<Made>)
    | Cancel(agency: string, accepted: bool)
    | Webhook(entity: Option<Entity>, now: nat)
    | SetActive(agency: string, active: bool)

  /** What a step did, as far as the history of subscriptions goes. */
  datatype Event =
    | Nothing
    | Subscribed(agency: string, id: string, newRow: bool)
    | Dropped(agency: string)
    | Stopped(agency: string)
    | Applied(agency: string, status: Status, at: nat)
    | Switched(agency: string, active: bool)

  function MapStatus(s: Option<string>): Status {
    if s.None? then ACTIVE
    else if s.value in ["active", "authenticated", "completed"] then ACTIVE
    else if s.value in ["created", "pending"] then TRIALING
    else if s.value in ["halted", "paused"] then PAST_DUE
    else if s.value in ["cancelled", "expired"] then CANCELLED
    else ACTIVE
  }

  ghost predicate Unique(rows: map<string, Subscription>) {
    forall a, b :: a in rows && b in rows && rows[a].rzpId == rows[b].rzpId ==> a == b
  }

  /** The agency whose row carries this provider id. */
  ghost function Holder(rows: map<string, Subscription>, id: string): (r: Option<string>)
    ensures r.Some? ==> r.value in rows && rows[r.value].rzpId == id
    ensures r.None? ==> forall a :: a in rows ==> rows[a].rzpId != id
  {
    if exists a :: a in rows && rows[a].rzpId == id then
      var a :| a in rows && rows[a].rzpId == id;
      Some(a)
    else None
  }

  /** Free plans have no price, and neither do plans the deployment left out. */
  predicate Purchasable(env: Env, plan: Plan) {
    env.configured && plan != FREE && plan in env.prices && env.prices[plan] != ""
  }

  function Fresh(plan: Plan, made: Made): Subscription {
    Subscription(made.id, made.customerId, plan, TRIALING, made.currentEnd * 1000, None)
  }

  function AfterWebhook(row: Subscription, e: Entity, now: nat): Subscription {
    var status := MapStatus(e.status);
    row.(status := status,
         periodEnd := if e.currentEnd.Some? then e.currentEnd.value * 1000 else row.periodEnd,
         graceUntil := if status == ACTIVE then None
                       else if status == PAST_DUE && row.graceUntil.None? then Some(now + GRACE_MS)
                       else row.graceUntil)
  }

  /** One call, with what it did. A call that throws, or that the database refuses, leaves the state alone. */
  ghost function Perform(env: Env, s: State, step: Step): (State, Event) {
    match step
    case Checkout(a, plan, made) =>
      if a !in s.agencies then (s, Nothing)
      else if plan == FREE then
        (State(s.agencies[a := s.agencies[a].(plan := FREE)], s.rows - {a}), if a in s.rows then Dropped(a) else Nothing)
      else if !Purchasable(env, plan) || made.None? then (s, Nothing)
      else if Holder(s.rows, made.value.id).Some? && Holder(s.rows, made.value.id) != Some(a) then (s, Nothing)
      else
        var row := Fresh(plan, made.value);
        (s.(rows := s.rows[a := if a in s.rows then row.(graceUntil := s.rows[a].graceUntil) else row]),
         Subscribed(a, made.value.id, a !in s.rows))
    case Cancel(a, accepted) =>
      if a !in s.rows || s.rows[a].rzpId == "" || !accepted then (s, Nothing)
      else (s.(rows := s.rows[a := s.rows[a].(status := CANCELLED)]), Stopped(a))
    case Webhook(entity, now) =>
      if entity.None? || entity.value.id.None? || entity.value.id.value == "" then (s, Nothing)
      else
        var holder := Holder(s.rows, entity.value.id.value);
        if holder.None? then (s, Nothing)
        else
          var a := holder.value;
          var row := AfterWebhook(s.rows[a], entity.value, now);
          (State(if row.status == CANCELLED && a in s.agencies then s.agencies[a := s.agencies[a].(isActive := false)] else s.agencies,
                 s.rows[a := row]),
           Applied(a, row.status, now))
    case SetActive(a, active) =>
      if a !in s.agencies then (s, Nothing)
      else (s.(agencies := s.agencies[a := s.agencies[a].(isActive := active)]), Switched(a, active))
  }

  // ---- the service ----

  datatype Outcome = Created(id: string, url: Option<string>) | Free | Ended | Forbidden | NotFound | Failed

  class BillingService {
    const env: Env
    var agencies: map<string, Agency>
    var rows: map<string, Subscription>

    constructor (env: Env, agencies: map<string, Agency>)
      ensures this.env == env && View() == State(agencies, map[]) && Valid()
    {
      this.env := env;
      this.agencies, rows := agencies, map[];
    }

    ghost function View(): State
      reads this
    {
      State(agencies, rows)
    }

    /** The unique columns and the foreign key of the table. */
    ghost predicate Valid()
      reads this
    {
      Unique(rows) && rows.Keys <= agencies.Keys
    }

    method FindByProviderId(id: string) returns (r: Option<string>)
      requires Unique(rows)
      ensures r == Holder(rows, id)
    {
      if !exists a :: a in rows && rows[a].rzpId == id { return None; }
      var a :| a in rows && rows[a].rzpId == id;
      r := Some(a);
    }

    method Checkout(agency: string, plan: Plan, made: Option<Made>) returns (out: Outcome)
      requires Valid()
      modifies this
      ensures Valid()
      ensures View() == Perform(env, old(View()), Step.Checkout(agency, plan, made)).0
      ensures out.Created? ==>
        && made.Some? && out.id == made.value.id && agencies == old(agencies)
        && rows == old(rows)[agency := Subscription(out.id, made.value.customerId, plan, TRIALING, made.value.currentEnd * 1000,
                                                    if agency in old(rows) then old(rows)[agency].graceUntil else None)]
      ensures out.Free? ==>
        && rows == old(rows) - {agency} && agency in old(agencies)
        && agencies == old(agencies)[agency := old(agencies)[agency].(plan := FREE)]
      ensures !(out.Created? || out.Free?) ==> View() == old(View())
      ensures out.Forbidden? <==> plan != FREE && (!env.configured || plan !in env.prices || env.prices[plan] == "")
      ensures out.Created? <==>
                && plan != FREE && env.configured && plan in env.prices && env.prices[plan] != ""
                && made.Some? && agency in old(agencies)
                && forall b :: b in old(rows) && b != agency ==> old(rows)[b].rzpId != made.value.id
      ensures plan == FREE && agency in old(agencies) ==> out.Free?
    {
      if plan == FREE {
        if agency !in agencies { return Failed; }
        rows := rows - {agency};
        agencies := agencies[agency := agencies[agency].(plan := FREE)];
        return Free;
      }
      if !env.configured { return Forbidden; }
      if plan !in env.prices || env.prices[plan] == "" { return Forbidden; }
      if made.None? || agency !in agencies { return Failed; }
      var holder := FindByProviderId(made.value.id);
      if holder.Some? && holder.value != agency { return Failed; }
      var row := Fresh(plan, made.value);
      if agency in rows { row := row.(graceUntil := rows[agency].graceUntil); }
      rows := rows[agency := row];
      out := Created(made.value.id, made.value.shortUrl);
    }

    method Cancel(agency: string, accepted: bool) returns (out: Outcome)
      requires Valid()
      modifies this`rows
      ensures Valid()
      ensures View() == Perform(env, old(View()), Step.Cancel(agency, accepted)).0
      ensures out.NotFound? <==> agency !in old(rows) || old(rows)[agency].rzpId == ""
      ensures out.Ended? <==> agency in old(rows) && old(rows)[agency].rzpId != "" && accepted
      ensures rows == if out.Ended? then old(rows)[agency := old(rows)[agency].(status := CANCELLED)] else old(rows)
    {
      if agency !in rows || rows[agency].rzpId == "" { return NotFound; }
      if !accepted { return Failed; }
      rows := rows[agency := rows[agency].(status := CANCELLED)];
      out := Ended;
    }

    method ApplyWebhook(entity: Option<Entity>, now: nat) returns (applied: bool)
      requires Valid()
      modifies this
      ensures Valid()
      ensures View() == Perform(env, old(View()), Webhook(entity, now)).0
      ensures applied <==> Perform(env, old(View()), Webhook(entity, now)).1.Applied?
      ensures applied <==> entity.Some? && entity.value.id.Some? && entity.value.id.value != ""
                           && exists a :: a in old(rows) && old(rows)[a].rzpId == entity.value.id.value
      ensures !applied ==> View() == old(View())
    {
      if entity.None? || entity.value.id.None? || entity.value.id.value == "" { return false; }
      var existing := FindByProviderId(entity.value.id.value);
      if existing.None? { return false; }
      var a := existing.value;
      var e := entity.value;
      var status := MapStatus(e.status);
      var periodEnd := rows[a].periodEnd;
      if e.currentEnd.Some? { periodEnd := e.currentEnd.value * 1000; }
      var graceUntil := rows[a].graceUntil;
      if status == PAST_DUE && graceUntil.None? { graceUntil := Some(now + GRACE_MS); }
      if status == ACTIVE { graceUntil := None; }
      rows := rows[a := rows[a].(status := status, periodEnd := periodEnd, graceUntil := graceUntil)];
      if status == CANCELLED { agencies := agencies[a := agencies[a].(isActive := false)]; }
      applied := true;
    }
  }

  // ---- histories ----

  ghost function Run(env: Env, s: State, steps: seq<Step>): (State, seq<Event>) {
    if steps == [] then (s, [])
    else
      var (mid, log) := Run(env, s, steps[..|steps| - 1]);
      var (after, e) := Perform(env, mid, steps[|steps| - 1]);
      (after, log + [e])
  }

  /** No subscriptions yet. */
  function Opening(agencies: map<string, Agency>): State { State(agencies, map[]) }

  predicate PastDue(e: Event, a: string) { e.Applied? && e.agency == a && e.status == PAST_DUE }

  /** A new row, or a webhook that says the subscription is active. */
  predicate Clears(e: Event, a: string) {
    (e.Subscribed? && e.agency == a && e.newRow) || (e.Applied? && e.agency == a && e.status == ACTIVE)
  }

  /** Event i says the subscription is past due, and nothing since cleared that. */
  ghost predicate Owing(log: seq<Event>, a: string, i: nat) {
    i < |log| && PastDue(log[i], a) && forall j :: i < j < |log| ==> !Clears(log[j], a)
  }

  ghost predicate FirstOwing(log: seq<Event>, a: string, i: nat) {
    Owing(log, a, i) && forall j: nat :: j < i ==> !Owing(log, a, j)
  }

  ghost predicate GraceIs(log: seq<Event>, a: string, grace: Option<nat>) {
    && (grace.None? ==> forall i: nat :: !Owing(log, a, i))
    && (grace.Some? ==> exists i: nat :: FirstOwing(log, a, i) && grace.value == log[i].at + GRACE_MS)
  }

  lemma OwingMore(log: seq<Event>, e: Event, a: string, i: nat)
    ensures i < |log| ==> (Owing(log + [e], a, i) <==> Owing(log, a, i) && !Clears(e, a))
    ensures i == |log| ==> (Owing(log + [e], a, i) <==> PastDue(e, a))
    ensures i > |log| ==> !Owing(log + [e], a, i)
  {
    var more := log + [e];
    if i < |log| {
      assert forall j :: 0 <= j < |log| ==> more[j] == log[j];
      assert more[|log|] == e;
    }
  }

  /** An event that neither clears the grace nor starts one keeps it. */
  lemma GraceStays(log: seq<Event>, e: Event, a: string, grace: Option<nat>)
    requires GraceIs(log, a, grace) && !Clears(e, a) && (PastDue(e, a) ==> grace.Some?)
    ensures GraceIs(log + [e], a, grace)
  {
    hide Owing;
    forall i: nat
      ensures i < |log| ==> (Owing(log + [e], a, i) <==> Owing(log, a, i))
      ensures i >= |log| && !PastDue(e, a) ==> !Owing(log + [e], a, i)
    {
      OwingMore(log, e, a, i);
    }
    if grace.Some? {
      forall i: nat | Owing(log, a, i)
        ensures i < |log| && PastDue(log[i], a)
      {
        OwingIsPastDue(log, a, i);
      }
      var i: nat :| FirstOwing(log, a, i) && grace.value == log[i].at + GRACE_MS;
      assert FirstOwing(log + [e], a, i);
    } else {
      forall i: nat
        ensures !Owing(log + [e], a, i)
      {
        OwingMore(log, e, a, i);
      }
    }
  }

  lemma OwingIsPastDue(log: seq<Event>, a: string, i: nat)
    requires Owing(log, a, i)
    ensures i < |log| && PastDue(log[i], a)
  {
  }

  lemma GraceStarts(log: seq<Event>, e: Event, a: string)
    requires GraceIs(log, a, None) && PastDue(e, a)
    ensures GraceIs(log + [e], a, Some(e.at + GRACE_MS))
  {
    hide Owing;
    forall i: nat
      ensures Owing(log + [e], a, i) <==> i == |log|
    {
      OwingMore(log, e, a, i);
    }
    assert FirstOwing(log + [e], a, |log|);
  }

  lemma GraceEnds(log: seq<Event>, e: Event, a: string)
    requires Clears(e, a)
    ensures GraceIs(log + [e], a, None)
  {
    forall i: nat
      ensures !Owing(log + [e], a, i)
    {
      OwingMore(log, e, a, i);
    }
  }

  /** What one step does to the row of one agency. */
  lemma RowStep(env: Env, s: State, step: Step, a: string)
    ensures var (t, e) := Perform(env, s, step);
      && (a in t.rows && a !in s.rows ==> Clears(e, a) && t.rows[a].graceUntil == None)
      && (a in t.rows && a in s.rows ==>
            if Clears(e, a) then t.rows[a].graceUntil == None
            else if PastDue(e, a) && s.rows[a].graceUntil == None then t.rows[a].graceUntil == Some(e.at + GRACE_MS)
            else t.rows[a].graceUntil == s.rows[a].graceUntil)
  {
  }

  lemma RunMore(env: Env, s: State, steps: seq<Step>)
    requires steps != []
    ensures var (mid, log) := Run(env, s, steps[..|steps| - 1]);
      var (after, e) := Perform(env, mid, steps[|steps| - 1]);
      Run(env, s, steps) == (after, log + [e])
  {
  }

  lemma {:induction false} RunGrace(env: Env, agencies: map<string, Agency>, steps: seq<Step>, a: string)
    ensures var (s, log) := Run(env, Opening(agencies), steps);
      a in s.rows ==> GraceIs(log, a, s.rows[a].graceUntil)
  {
    hide Perform, Clears, PastDue, GraceIs;
    if steps != [] {
      var (mid, log) := Run(env, Opening(agencies), steps[..|steps| - 1]);
      var (after, e) := Perform(env, mid, steps[|steps| - 1]);
      RunGrace(env, agencies, steps[..|steps| - 1], a);
      RowStep(env, mid, steps[|steps| - 1], a);
      if a in after.rows {
        if Clears(e, a) {
          GraceEnds(log, e, a);
        } else if PastDue(e, a) && mid.rows[a].graceUntil == None {
          GraceStarts(log, e, a);
        } else {
          GraceStays(log, e, a, mid.rows[a].graceUntil);
        }
      }
    }
  }

  /** Over any mix of checkouts, cancellations and webhooks: a row is in grace exactly when a past-due webhook was
      applied since the last active one or the row's creation, and until seven days after the first such. */
  lemma GraceExactly(env: Env, agencies: map<string, Agency>, steps: seq<Step>, a: string, until: nat)
    requires a in Run(env, Opening(agencies), steps).0.rows
    ensures var (s, log) := Run(env, Opening(agencies), steps);
      && (s.rows[a].graceUntil.Some? <==> exists i: nat :: Owing(log, a, i))
      && (s.rows[a].graceUntil == Some(until) <==> exists i: nat :: FirstOwing(log, a, i) && until == log[i].at + GRACE_MS)
  {
    hide Run, Owing;
    RunGrace(env, agencies, steps, a);
  }

  // ---- which webhooks count ----

  predicate Replaces(e: Event, a: string) { (e.Subscribed? || e.Dropped?) && e.agency == a }

  /** Event i is the latest paid checkout of the agency, made under this id, and no free checkout followed. */
  ghost predicate Latest(log: seq<Event>, a: string, id: string, i: nat) {
    && i < |log| && log[i].Subscribed? && log[i].agency == a && log[i].id == id
    && forall j :: i < j < |log| ==> !Replaces(log[j], a)
  }

  lemma LatestMore(log: seq<Event>, e: Event, a: string, id: string, i: nat)
    ensures i < |log| ==> (Latest(log + [e], a, id, i) <==> Latest(log, a, id, i) && !Replaces(e, a))
    ensures i == |log| ==> (Latest(log + [e], a, id, i) <==> e.Subscribed? && e.agency == a && e.id == id)
    ensures i > |log| ==> !Latest(log + [e], a, id, i)
  {
    var more := log + [e];
    if i < |log| {
      assert forall j :: 0 <= j < |log| ==> more[j] == log[j];
      assert more[|log|] == e;
    }
  }

  predicate Carries(s: State, a: string, id: string) { a in s.rows && s.rows[a].rzpId == id }

  lemma CarriesStep(env: Env, s: State, step: Step, a: string, id: string)
    ensures var (t, e) := Perform(env, s, step);
      Carries(t, a, id) <==> if Replaces(e, a) then e.Subscribed? && e.id == id else Carries(s, a, id)
  {
  }

  lemma {:induction false} RunCarries(env: Env, agencies: map<string, Agency>, steps: seq<Step>, a: string, id: string)
    ensures var (s, log) := Run(env, Opening(agencies), steps);
      Carries(s, a, id) <==> exists i: nat :: Latest(log, a, id, i)
  {
    hide Perform, Latest, Replaces, Carries;
    if steps == [] {
      NoneYet(agencies, a, id);
    } else {
      var (mid, log) := Run(env, Opening(agencies), steps[..|steps| - 1]);
      var (after, e) := Perform(env, mid, steps[|steps| - 1]);
      RunCarries(env, agencies, steps[..|steps| - 1], a, id);
      CarriesStep(env, mid, steps[|steps| - 1], a, id);
      forall i: nat
        ensures Latest(log + [e], a, id, i) <==>
          if i < |log| then Latest(log, a, id, i) && !Replaces(e, a)
          else i == |log| && Replaces(e, a) && e.Subscribed? && e.id == id
      {
        LatestMore(log, e, a, id, i);
        ReplacesIs(e, a);
      }
      if Carries(after, a, id) && Replaces(e, a) {
        assert Latest(log + [e], a, id, |log|);
      } else if Carries(after, a, id) {
        var i: nat :| Latest(log, a, id, i);
        LatestInside(log, a, id, i);
        assert Latest(log + [e], a, id, i);
      }
    }
  }

  lemma ReplacesIs(e: Event, a: string)
    ensures Replaces(e, a) <==> (e.Subscribed? || e.Dropped?) && e.agency == a
  {
  }

  lemma LatestInside(log: seq<Event>, a: string, id: string, i: nat)
    requires Latest(log, a, id, i)
    ensures i < |log|
  {
  }

  lemma NoneYet(agencies: map<string, Agency>, a: string, id: string)
    ensures !Carries(Opening(agencies), a, id) && forall i: nat :: !Latest([], a, id, i)
  {
  }

  ghost predicate Sound(s: State) { Unique(s.rows) && s.rows.Keys <= s.agencies.Keys }

  lemma SoundStep(env: Env, s: State, step: Step)
    requires Sound(s)
    ensures Sound(Perform(env, s, step).0)
  {
  }

  lemma {:induction false} RunSound(env: Env, agencies: map<string, Agency>, steps: seq<Step>)
    ensures Sound(Run(env, Opening(agencies), steps).0)
  {
    hide Perform;
    if steps != [] {
      RunSound(env, agencies, steps[..|steps| - 1]);
      SoundStep(env, Run(env, Opening(agencies), steps[..|steps| - 1]).0, steps[|steps| - 1]);
    }
  }

  /** A webhook reaches an agency exactly when it names the subscription of that agency's latest paid checkout;
      webhooks of replaced or dropped subscriptions change nothing. */
  lemma AppliedExactly(env: Env, agencies: map<string, Agency>, steps: seq<Step>, entity: Entity, now: nat, a: string)
    requires entity.id.Some? && entity.id.value != ""
    ensures var (s, log) := Run(env, Opening(agencies), steps);
      var (t, e) := Perform(env, s, Webhook(Some(entity), now));
      && (e == Applied(a, MapStatus(entity.status), now) <==> exists i: nat :: Latest(log, a, entity.id.value, i))
      && ((forall b, i: nat :: !Latest(log, b, entity.id.value, i)) ==> t == s)
  {
    hide Run, Latest, MapStatus;
    var s := Run(env, Opening(agencies), steps).0;
    RunSound(env, agencies, steps);
    RunCarries(env, agencies, steps, a, entity.id.value);
    var holder := Holder(s.rows, entity.id.value);
    if holder.Some? { RunCarries(env, agencies, steps, holder.value, entity.id.value); }
  }

  // ---- suspension ----

  predicate Off(e: Event, a: string) {
    (e.Applied? && e.agency == a && e.status == CANCELLED) || (e.Switched? && e.agency == a && !e.active)
  }

  predicate On(e: Event, a: string) { e.Switched? && e.agency == a && e.active }

  ghost predicate Suspending(log: seq<Event>, a: string, i: nat) {
    i < |log| && Off(log[i], a) && forall j :: i < j < |log| ==> !On(log[j], a)
  }

  lemma SuspendingMore(log: seq<Event>, e: Event, a: string, i: nat)
    ensures i < |log| ==> (Suspending(log + [e], a, i) <==> Suspending(log, a, i) && !On(e, a))
    ensures i == |log| ==> (Suspending(log + [e], a, i) <==> Off(e, a))
    ensures i > |log| ==> !Suspending(log + [e], a, i)
  {
    var more := log + [e];
    if i < |log| {
      assert forall j :: 0 <= j < |log| ==> more[j] == log[j];
      assert more[|log|] == e;
    }
  }

  lemma ActiveStep(env: Env, s: State, step: Step, a: string)
    requires Sound(s) && a in s.agencies
    ensures var (t, e) := Perform(env, s, step);
      && a in t.agencies && !(On(e, a) && Off(e, a))
      && t.agencies[a].isActive == (if On(e, a) then true else if Off(e, a) then false else s.agencies[a].isActive)
  {
  }

  /** An agency that started active is suspended exactly when a cancellation was applied to it, or an
      administrator switched it off, and no administrator switched it on since. A grace period does not matter. */
  lemma {:induction false} SuspendedExactly(env: Env, agencies: map<string, Agency>, steps: seq<Step>, a: string)
    requires a in agencies && agencies[a].isActive
    ensures var (s, log) := Run(env, Opening(agencies), steps);
      a in s.agencies && (!s.agencies[a].isActive <==> exists i: nat :: Suspending(log, a, i))
  {
    hide Perform, Suspending, On, Off;
    if steps == [] {
      NeverSuspended(a);
    } else {
      var (mid, log) := Run(env, Opening(agencies), steps[..|steps| - 1]);
      var (after, e) := Perform(env, mid, steps[|steps| - 1]);
      SuspendedExactly(env, agencies, steps[..|steps| - 1], a);
      RunSound(env, agencies, steps[..|steps| - 1]);
      ActiveStep(env, mid, steps[|steps| - 1], a);
      forall i: nat
        ensures Suspending(log + [e], a, i) <==>
          if i < |log| then Suspending(log, a, i) && !On(e, a) else i == |log| && Off(e, a)
      {
        SuspendingMore(log, e, a, i);
      }
      if Off(e, a) {
        assert Suspending(log + [e], a, |log|);
      } else if !after.agencies[a].isActive {
        var i: nat :| Suspending(log, a, i);
        SuspendingInside(log, a, i);
        assert Suspending(log + [e], a, i);
      }
    }
  }

  lemma SuspendingInside(log: seq<Event>, a: string, i: nat)
    requires Suspending(log, a, i)
    ensures i < |log|
  {
  }

  lemma NeverSuspended(a: string)
    ensures forall i: nat :: !Suspending([], a, i)
  {
  }

  // ---- rows ----

  ghost predicate Consistent(s: State) {
    forall a :: a in s.rows ==>
      && (s.rows[a].status == PAST_DUE ==> s.rows[a].graceUntil.Some?)
      && (s.rows[a].status == ACTIVE ==> s.rows[a].graceUntil.None?)
  }

  /** A past-due row always has a grace period and an active one never does. */
  lemma {:induction false} RunConsistent(env: Env, agencies: map<string, Agency>, steps: seq<Step>)
    ensures Consistent(Run(env, Opening(agencies), steps).0)
  {
    hide MapStatus;
    if steps != [] {
      RunConsistent(env, agencies, steps[..|steps| - 1]);
    }
  }

  lemma WebhookOn(env: Env, s: State, a: string, e: Entity, now: nat)
    requires Sound(s) && a in s.rows && e.id == Some(s.rows[a].rzpId) && s.rows[a].rzpId != ""
    ensures var row := AfterWebhook(s.rows[a], e, now);
      Perform(env, s, Webhook(Some(e), now)).0
      == State(if row.status == CANCELLED then s.agencies[a := s.agencies[a].(isActive := false)] else s.agencies, s.rows[a := row])
  {
    hide AfterWebhook, MapStatus;
    assert Holder(s.rows, s.rows[a].rzpId) == Some(a);
  }

  /** What a webhook writes, word by word: the status it maps to, the period it names, the grace period started by
      the first past-due event and ended by an active one, and the agency switched off by a cancelled one. */
  lemma WebhookWrites(env: Env, s: State, a: string, word: Option<string>, end: Option<nat>, now: nat)
    requires Sound(s) && a in s.rows && s.rows[a].rzpId != ""
    ensures var was := s.rows[a];
      var t := Perform(env, s, Webhook(Some(Entity(Some(was.rzpId), word, end)), now)).0;
      && a in t.rows && t.rows == s.rows[a := t.rows[a]]
      && var row := t.rows[a];
         && row.status == (if word == Some("created") || word == Some("pending") then TRIALING
                           else if word == Some("halted") || word == Some("paused") then PAST_DUE
                           else if word == Some("cancelled") || word == Some("expired") then CANCELLED
                           else ACTIVE)
         && row.periodEnd == (if end.Some? then end.value * 1000 else was.periodEnd)
         && row.graceUntil == (if row.status == ACTIVE then None
                               else if row.status == PAST_DUE && was.graceUntil.None? then Some(now + 7 * 86_400_000)
                               else was.graceUntil)
         && row.rzpId == was.rzpId && row.customerId == was.customerId && row.plan == was.plan
         && t.agencies == (if row.status == CANCELLED then s.agencies[a := s.agencies[a].(isActive := false)] else s.agencies)
  {
    hide Perform, Holder, Unique;
    WebhookOn(env, s, a, Entity(Some(s.rows[a].rzpId), word, end), now);
  }

  /** The three events the documentation names, on the row that carries the subscription. */
  lemma DocumentedEvents(env: Env, s: State, a: string, end: Option<nat>, now: nat)
    requires Sound(s) && a in s.rows && s.rows[a].rzpId != ""
    ensures var on := Perform(env, s, Webhook(Some(Entity(Some(s.rows[a].rzpId), Some("active"), end)), now)).0;
      on.rows[a].status == ACTIVE && on.rows[a].graceUntil == None && on.agencies == s.agencies
    ensures var late := Perform(env, s, Webhook(Some(Entity(Some(s.rows[a].rzpId), Some("halted"), end)), now)).0;
      && late.rows[a].status == PAST_DUE && late.agencies == s.agencies
      && (s.rows[a].graceUntil == None ==> late.rows[a].graceUntil == Some(now + 7 * 24 * 3_600_000))
    ensures var off := Perform(env, s, Webhook(Some(Entity(Some(s.rows[a].rzpId), Some("cancelled"), end)), now)).0;
      off.rows[a].status == CANCELLED && !off.agencies[a].isActive && off.agencies[a].plan == s.agencies[a].plan
  {
    hide Perform, Holder, Unique;
    var id := Some(s.rows[a].rzpId);
    WebhookOn(env, s, a, Entity(id, Some("active"), end), now);
    WebhookOn(env, s, a, Entity(id, Some("halted"), end), now);
    WebhookOn(env, s, a, Entity(id, Some("cancelled"), end), now);
  }

  /** A running grace period does not put a cancellation off: the webhook suspends the agency and leaves the grace
      as it found it. */
  lemma SuspendedInGrace(env: Env, s: State, a: string, end: Option<nat>, now: nat)
    requires Sound(s) && a in s.rows && s.rows[a].rzpId != ""
    requires s.rows[a].graceUntil.Some? && now < s.rows[a].graceUntil.value
    ensures var t := Perform(env, s, Webhook(Some(Entity(Some(s.rows[a].rzpId), Some("cancelled"), end)), now)).0;
      a in t.agencies && !t.agencies[a].isActive && a in t.rows && t.rows[a].graceUntil == s.rows[a].graceUntil
  {
    hide Perform, Holder, Unique;
    WebhookOn(env, s, a, Entity(Some(s.rows[a].rzpId), Some("cancelled"), end), now);
  }

  /** A webhook delivered again, however late, finds its work done. */
  lemma WebhookReplay(env: Env, s: State, entity: Option<Entity>, now: nat, again: nat)
    requires Sound(s)
    ensures var once := Perform(env, s, Webhook(entity, now)).0;
      Perform(env, once, Webhook(entity, again)).0 == once
  {
    hide MapStatus;
    if entity.Some? && entity.value.id.Some? && Holder(s.rows, entity.value.id.value).Some? {
      SoundStep(env, s, Webhook(entity, now));
      var once := Perform(env, s, Webhook(entity, now)).0;
      var a := Holder(s.rows, entity.value.id.value).value;
      assert a in once.rows && once.rows[a].rzpId == entity.value.id.value;
    }
  }

  /** A paid checkout keeps the old grace: an agency that went past due at t1, bought another plan and goes past
      due on that one at t2 has its grace end seven days after t1, whatever t2. */
  lemma GraceSurvivesCheckout(env: Env, s: State, a: string, first: Made, second: Made, t1: nat, t2: nat)
    requires Purchasable(env, GROWTH) && Purchasable(env, SCALE) && s == Opening(map[a := Agency(FREE, true)])
    requires first.id != "" && second.id != ""
    ensures var s1 := Perform(env, s, Step.Checkout(a, GROWTH, Some(first))).0;
      var s2 := Perform(env, s1, Webhook(Some(Entity(Some(first.id), Some("halted"), None)), t1)).0;
      var s3 := Perform(env, s2, Step.Checkout(a, SCALE, Some(second))).0;
      var s4 := Perform(env, s3, Webhook(Some(Entity(Some(second.id), Some("halted"), None)), t2)).0;
      a in s4.rows && s4.rows[a].plan == SCALE && s4.rows[a].graceUntil == Some(t1 + GRACE_MS)
  {
    var s1 := Perform(env, s, Step.Checkout(a, GROWTH, Some(first))).0;
    assert s1.rows == map[a := Fresh(GROWTH, first)];
    assert Carries(s1, a, first.id);
    var s2 := Perform(env, s1, Webhook(Some(Entity(Some(first.id), Some("halted"), None)), t1)).0;
    var s3 := Perform(env, s2, Step.Checkout(a, SCALE, Some(second))).0;
    assert Carries(s3, a, second.id);
  }
}
