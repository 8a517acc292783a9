/**
 Starting a campaign again. A further start overwrites the number of recipients and queues only contacts without a
 remembered job, while the old jobs and the delivered count stay.
 */
module CampaignRestart {
  import opened Wrappers
  import opened CampaignFanout

  /** While start f queues its jobs: nobody starts the campaign, no other start queues and the queue forgets nothing.
      Workers, pauses and contacts do as they like. */
  predicate Undisturbed(steps: seq<Step>, f: nat) {
    forall i :: 0 <= i < |steps| ==> !steps[i].Begin? && !steps[i].Evict? && (steps[i].Enqueue? ==> steps[i].fan == f)
  }

  /** How many of these contacts have no remembered job. */
  function Unremembered(todo: seq<nat>, jobs: seq<Job>): nat {
    if todo == [] then 0
    else
      var n := |todo| - 1;
      Unremembered(todo[..n], jobs) + (if Count(jobs, KeptOf(todo[n])) > 0 then 0 else 1)
  }

  /** State u lies between the beginning and the end of start f, which has this list and found the jobs `was`. */
  ghost predicate Underway(was: seq<Job>, todo: seq<nat>, f: nat, u: State) {
    && |u.fans| == f + 1 && u.fans[f].todo == todo && u.fans[f].next <= |todo|
    && |u.jobs| == |was| + Unremembered(todo[..u.fans[f].next], was)
    && forall c: nat :: Count(u.jobs, KeptOf(c)) > 0 <==> Count(was, KeptOf(c)) > 0 || Reached(todo, u.fans[f].next, c)
  }

  predicate Reached(todo: seq<nat>, n: nat, c: nat)
    requires n <= |todo|
  {
    c in todo[..n]
  }

  lemma ReachedMore(todo: seq<nat>, n: nat, c: nat)
    requires n < |todo| && Distinct(todo)
    ensures Reached(todo, n + 1, c) <==> Reached(todo, n, c) || c == todo[n]
    ensures !Reached(todo, n, todo[n])
  {
    assert todo[..n + 1] == todo[..n] + [todo[n]];
  }

  lemma QueueOn(was: seq<Job>, todo: seq<nat>, f: nat, u: State, now: nat)
    requires Underway(was, todo, f, u) && Distinct(todo) && u.fans[f].next < |todo|
    ensures Underway(was, todo, f, Queued(u, f, now))
  {
    hide Count, Reached, Distinct;
    var n := u.fans[f].next;
    var contact := todo[n];
    var t := Queued(u, f, now);
    ReachedMore(todo, n, contact);
    assert todo[..n + 1][..n] == todo[..n];
    forall c: nat
      ensures Count(t.jobs, KeptOf(c)) > 0 <==> Count(was, KeptOf(c)) > 0 || Reached(todo, n + 1, c)
    {
      ReachedMore(todo, n, c);
      if t.jobs != u.jobs { CountAppend(u.jobs, t.jobs[|u.jobs|], KeptOf(c)); }
    }
  }

  /** Jobs change, but stay remembered as they are. */
  lemma WorkGoesOn(was: seq<Job>, todo: seq<nat>, f: nat, u: State, t: State, i: nat)
    requires Underway(was, todo, f, u) && t.fans == u.fans && i < |u.jobs| == |t.jobs| && t.jobs == u.jobs[i := t.jobs[i]]
    requires t.jobs[i].contact == u.jobs[i].contact && t.jobs[i].kept == u.jobs[i].kept
    ensures Underway(was, todo, f, t)
  {
    hide Count;
    forall c: nat
      ensures Count(t.jobs, KeptOf(c)) == Count(u.jobs, KeptOf(c))
    {
      CountUpdate(u.jobs, i, t.jobs[i], KeptOf(c));
    }
  }

  lemma SameProgress(was: seq<Job>, todo: seq<nat>, f: nat, u: State, t: State)
    requires Underway(was, todo, f, u) && t.fans == u.fans && t.jobs == u.jobs
    ensures Underway(was, todo, f, t)
  {
  }

  lemma UnderwayStep(workers: nat, was: seq<Job>, todo: seq<nat>, f: nat, u: State, step: Step)
    requires Underway(was, todo, f, u) && Distinct(todo) && Undisturbed([step], f)
    ensures Underway(was, todo, f, Next(workers, u, step))
  {
    hide Count, Sendable, Select, Put, Drop, Underway, Queued, Advance;
    assert [step][0] == step;
    var t := Next(workers, u, step);
    assert |u.fans| == f + 1 && u.fans[f].todo == todo by { Shape(was, todo, f, u); }
    if step.Enqueue? && u.fans[f].next < |todo| && u.fans[f].at <= step.now {
      QueueOn(was, todo, f, u, step.now);
    } else if (step.Take? || step.Work? || step.Throw?) && step.job < |u.jobs| && t.jobs != u.jobs {
      WorkGoesOn(was, todo, f, u, t, step.job);
    } else {
      SameProgress(was, todo, f, u, t);
    }
  }

  lemma Shape(was: seq<Job>, todo: seq<nat>, f: nat, u: State)
    requires Underway(was, todo, f, u)
    ensures |u.fans| == f + 1 && u.fans[f].todo == todo
  {
  }

  lemma {:induction false} RunUnderway(workers: nat, s: State, filter: set<string>, now: nat, steps: seq<Step>)
    requires Undisturbed(steps, |s.fans|) && UniqueIds(s.contacts)
    ensures Underway(s.jobs, Select(s.contacts, s.campaign.clientId, filter), |s.fans|, Run(workers, Begun(s, filter, now), steps))
  {
    hide Next, Underway;
    var todo := Select(s.contacts, s.campaign.clientId, filter);
    if steps == [] {
      JustBegun(s, filter, now);
    } else {
      var n := |steps| - 1;
      assert forall i :: 0 <= i < n ==> steps[..n][i] == steps[i];
      RunUnderway(workers, s, filter, now, steps[..n]);
      SelectDistinct(s.contacts, s.campaign.clientId, filter);
      UnderwayStep(workers, s.jobs, todo, |s.fans|, Run(workers, Begun(s, filter, now), steps[..n]), steps[n]);
    }
  }

  lemma JustBegun(s: State, filter: set<string>, now: nat)
    ensures Underway(s.jobs, Select(s.contacts, s.campaign.clientId, filter), |s.fans|, Begun(s, filter, now))
  {
    hide Count, Select;
  }

  // ---- remembered jobs among the selected contacts ----

  lemma {:induction false} OneMoreAmong(jobs: seq<Job>, ids: seq<nat>, c: nat)
    requires c !in ids
    ensures Count(jobs, KeptAmong(ids + [c])) == Count(jobs, KeptAmong(ids)) + Count(jobs, KeptOf(c))
  {
    if jobs != [] { OneMoreAmong(jobs[..|jobs| - 1], ids, c); }
  }

  /** Every selected contact is either new to the queue or has its one remembered job. */
  lemma {:induction false} NewOrRemembered(todo: seq<nat>, jobs: seq<Job>)
    requires Distinct(todo) && forall c: nat :: Count(jobs, KeptOf(c)) <= 1
    ensures Unremembered(todo, jobs) + Count(jobs, KeptAmong(todo)) == |todo|
  {
    hide Count;
    if todo == [] {
      CountZero(jobs, KeptAmong([]));
    } else {
      var n := |todo| - 1;
      NewOrRemembered(todo[..n], jobs);
      assert todo == todo[..n] + [todo[n]];
      OneMoreAmong(jobs, todo[..n], todo[n]);
    }
  }

  lemma {:induction false} CountAll(jobs: seq<Job>, q: Query)
    ensures Count(jobs, q) <= |jobs|
    ensures Count(jobs, q) == |jobs| <==> forall i :: 0 <= i < |jobs| ==> Is(q, jobs[i])
  {
    hide Is;
    if jobs != [] {
      var n := |jobs| - 1;
      CountAll(jobs[..n], q);
      assert forall i :: 0 <= i < n ==> jobs[..n][i] == jobs[i];
    }
  }

  // ---- a further start ----

  lemma {:induction false} RunConcat(workers: nat, s: State, xs: seq<Step>, ys: seq<Step>)
    ensures Run(workers, s, xs + ys) == Run(workers, Run(workers, s, xs), ys)
  {
    hide Next;
    if ys == [] {
      assert xs + ys == xs;
    } else {
      var front := ys[..|ys| - 1];
      assert (xs + ys)[..|xs + ys| - 1] == xs + front;
      RunConcat(workers, s, xs, front);
    }
  }

  /** Before the call: every job there is is still remembered, and its contact is selected again. */
  predicate Covers(s: State, client: string, filter: set<string>) {
    forall i :: 0 <= i < |s.jobs| ==> s.jobs[i].kept && s.jobs[i].contact in Select(s.contacts, client, filter)
  }

  /** Once a further start has queued everything, recipients = pending + delivered + blocked + skipped + given up on if
      and only if, before the call, every job was still remembered and its contact selected again. */
  lemma FurtherStart(workers: nat, s0: State, before: seq<Step>, filter: set<string>, now: nat, during: seq<Step>)
    requires Initial(s0) && Undisturbed(during, |Run(workers, s0, before).fans|)
    requires var s := Run(workers, s0, before);
      var t := Run(workers, Begun(s, filter, now), during);
      |t.fans| == |s.fans| + 1 && t.fans[|s.fans|].next == |t.fans[|s.fans|].todo|
    ensures var s := Run(workers, s0, before);
      var t := Run(workers, s0, before + [Begin(s.campaign.clientId, filter, now)] + during);
      t.fans != [] && (Conserved(t) <==> Covers(s, s.campaign.clientId, filter))
  {
    hide Run, Count, Select, UniqueIds, Unremembered, Conserved;
    var s := Run(workers, s0, before);
    var begin := Begin(s.campaign.clientId, filter, now);
    var todo := Select(s.contacts, s.campaign.clientId, filter);
    RunMore(workers, s0, before, begin);
    RunConcat(workers, s0, before + [begin], during);
    var t := Run(workers, Begun(s, filter, now), during);
    RunInStep(workers, s0, before);
    RunUnderway(workers, s, filter, now, during);
    assert todo[..|todo|] == todo;
    SelectDistinct(s.contacts, s.campaign.clientId, filter);
    forall c: nat
      ensures Count(s.jobs, KeptOf(c)) <= 1
    {
      RunRationed(workers, s0, before, c);
    }
    NewOrRemembered(todo, s.jobs);
    CountAll(s.jobs, KeptAmong(todo));
    ConservedIff(workers, s0, before + [begin] + during);
  }

  // ---- afterwards ----

  /** Every start has queued everything. */
  ghost predicate AllQueued(s: State) { forall f :: 0 <= f < |s.fans| ==> s.fans[f].next == |s.fans[f].todo| }

  lemma SettledStep(workers: nat, s: State, step: Step)
    requires AllQueued(s) && !step.Begin?
    ensures Next(workers, s, step).fans == s.fans && |Next(workers, s, step).jobs| == |s.jobs|
  {
    hide Count, Sendable, Select, Put, Drop, Advance;
  }

  lemma {:induction false} RunSettled(workers: nat, s: State, later: seq<Step>)
    requires AllQueued(s) && forall i :: 0 <= i < |later| ==> !later[i].Begin?
    ensures Run(workers, s, later).fans == s.fans && |Run(workers, s, later).jobs| == |s.jobs|
  {
    hide Next;
    if later != [] {
      var n := |later| - 1;
      assert forall i :: 0 <= i < n ==> later[..n][i] == later[i];
      RunSettled(workers, s, later[..n]);
      SettledStep(workers, Run(workers, s, later[..n]), later[n]);
    }
  }

  /** What holds when all starts have queued everything holds until the next start, whatever happens to the jobs. */
  lemma StaysAsItIs(workers: nat, s0: State, steps: seq<Step>, later: seq<Step>)
    requires Initial(s0) && Run(workers, s0, steps).fans != [] && AllQueued(Run(workers, s0, steps))
    requires forall i :: 0 <= i < |later| ==> !later[i].Begin?
    ensures var s, t := Run(workers, s0, steps), Run(workers, s0, steps + later);
      t.fans != [] && (Conserved(t) <==> Conserved(s))
  {
    hide Run, Conserved;
    RunConcat(workers, s0, steps, later);
    RunSettled(workers, Run(workers, s0, steps), later);
    ConservedIff(workers, s0, steps);
    ConservedIff(workers, s0, steps + later);
  }

  /** A second start that breaks it for good: the one recipient of the first, whose job is queued, opts out in between.
      Both starts have queued everything they have, and nothing short of another start makes up for it. */
  lemma SecondStartBreaks(workers: nat, s: State, c: Contact, later: seq<Step>)
    requires Initial(s) && s.contacts == [c] && Wanted(c, s.campaign.clientId, {})
    requires forall i :: 0 <= i < |later| ==> !later[i].Begin?
    ensures var begin := Begin(s.campaign.clientId, {}, 0);
      var t := Run(workers, s, [begin, Enqueue(0, 0), PutContact(c.(optedOut := true)), begin] + later);
      |t.fans| == 2 && AllQueued(t) && !Conserved(t)
  {
    hide Run, Conserved;
    var begin := Begin(s.campaign.clientId, {}, 0);
    var before := [begin, Enqueue(0, 0), PutContact(c.(optedOut := true))];
    var mid := OptedOut(workers, s, c);
    NoSteps(workers, Begun(mid, {}, 0));
    FurtherStart(workers, s, before, {}, 0, []);
    var both := before + [begin] + [];
    assert both == [begin, Enqueue(0, 0), PutContact(c.(optedOut := true)), begin];
    assert !Covers(mid, s.campaign.clientId, {});
    RunMore(workers, s, before, begin);
    assert before + [begin] == both;
    StaysAsItIs(workers, s, both, later);
    RunConcat(workers, s, both, later);
    RunSettled(workers, Run(workers, s, both), later);
  }

  lemma NoSteps(workers: nat, s: State)
    ensures Run(workers, s, []) == s
  {
  }

  /** One start, completed, and its one recipient opted out. */
  lemma OptedOut(workers: nat, s: State, c: Contact) returns (t: State)
    requires Initial(s) && s.contacts == [c] && Wanted(c, s.campaign.clientId, {})
    ensures t == Run(workers, s, [Begin(s.campaign.clientId, {}, 0), Enqueue(0, 0), PutContact(c.(optedOut := true))])
    ensures t.campaign.clientId == s.campaign.clientId && t.contacts == [c.(optedOut := true)]
    ensures |t.fans| == 1 && t.fans[0].next == |t.fans[0].todo| == 1
    ensures |t.jobs| == 1 && t.jobs[0].contact == c.id
    ensures Select(t.contacts, s.campaign.clientId, {}) == []
  {
    hide Run, Count;
    var begin := Begin(s.campaign.clientId, {}, 0);
    var put := PutContact(c.(optedOut := true));
    RunOne(workers, s, begin);
    RunMore(workers, s, [begin], Enqueue(0, 0));
    RunMore(workers, s, [begin, Enqueue(0, 0)], put);
    assert [begin] + [Enqueue(0, 0)] == [begin, Enqueue(0, 0)] && [begin, Enqueue(0, 0)] + [put] == [begin, Enqueue(0, 0), put];
    assert Select([c][..0], s.campaign.clientId, {}) == [] && Select(s.contacts, s.campaign.clientId, {}) == [c.id];
    assert [c][..0] == [] && [c.(optedOut := true)][..0] == [];
    CountZero(s.jobs, KeptOf(c.id));
    t := Run(workers, s, [begin, Enqueue(0, 0), put]);
  }
}
