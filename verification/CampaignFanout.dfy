/**
 One campaign: start selects the recipients and queues one delayed job for each, workers run the jobs
 concurrently, pause may come at any time, and contacts change meanwhile.
 */
module CampaignFanout {
  import opened Wrappers

  const GAP_MS: nat := 200

  datatype CampaignStatus = DRAFT | SCHEDULED | SENDING | SENT | PAUSED

  datatype Campaign = Campaign(clientId: string, status: CampaignStatus, recipients: nat, delivered: nat)

  datatype Contact = Contact(id: nat, clientId: string, phone: string, tags: set<string>, optedOut: bool, isBlocked: bool)

  /** GaveUp: the queue's last allowed try threw. */
  datatype Outcome = Delivered | Blocked | Skipped | GaveUp

  const MAX_TRIES: nat := 5

  /** What a worker has done of its job: Checked has seen the campaign sending, Found the contact willing,
      Armed an account connected; Sent has yet to count the delivery. */
  datatype Phase = Waiting | Taken | Checked | Found(to: string) | Armed(to: string) | Sent | Done(outcome: Outcome)

  /** `kept`: the queue still remembers the job's id. `thrown`: how many tries ended in an exception. */
  datatype Job = Job(fan: nat, contact: nat, addedAt: nat, delay: nat, kept: bool, thrown: nat, phase: Phase)

  /** One call of start: the selected contacts, how many are queued, and when it last queued one. */
  datatype Fan = Fan(todo: seq<nat>, next: nat, at: nat)

  /** The outbox lists the contacts of all sends, in order. */
  datatype State = State(campaign: Campaign, contacts: seq<Contact>, connected: bool, fans: seq<Fan>, jobs: seq<Job>, outbox: seq<nat>)

  datatype Step =
    | Begin(client: string, filter: set<string>, now: nat)
    | Enqueue(fan: nat, now: nat)
    | Pause(client: string)
    | Take(job: nat)
    | Work(job: nat, ok: bool)
    | Throw(job: nat)
    | Evict(job: nat)
    | PutContact(contact: Contact)
    | DropContact(id: nat)
    | Connect(on: bool)

  // ---- contacts ----

  function IndexOf(contacts: seq<Contact>, id: nat): (r: Option<nat>)
    ensures r.Some? ==> r.value < |contacts| && contacts[r.value].id == id
    ensures r.None? ==> forall i :: 0 <= i < |contacts| ==> contacts[i].id != id
  {
    Find(contacts, (c: Contact) => c.id, id)
  }

  predicate Wanted(c: Contact, client: string, filter: set<string>) {
    c.clientId == client && !c.optedOut && !c.isBlocked && (filter == {} || c.tags * filter != {})
  }

  function Select(contacts: seq<Contact>, client: string, filter: set<string>): seq<nat> {
    if contacts == [] then []
    else
      var last := contacts[|contacts| - 1];
      Select(contacts[..|contacts| - 1], client, filter) + (if Wanted(last, client, filter) then [last.id] else [])
  }

  function Put(contacts: seq<Contact>, c: Contact): seq<Contact> {
    var i := IndexOf(contacts, c.id);
    if i.Some? then contacts[i.value := c] else contacts + [c]
  }

  function Drop(contacts: seq<Contact>, id: nat): seq<Contact> {
    var i := IndexOf(contacts, id);
    if i.Some? then contacts[..i.value] + contacts[i.value + 1..] else contacts
  }

  /** The contact's phone, unless it is gone, opted out or blocked. */
  function Sendable(contacts: seq<Contact>, id: nat): Option<string> {
    var i := IndexOf(contacts, id);
    if i.None? || contacts[i.value].optedOut || contacts[i.value].isBlocked then None else Some(contacts[i.value].phone)
  }

  /** A contact may be sent to exactly while it is there and neither opted out nor blocked; its phone is where to. */
  lemma SendableIff(contacts: seq<Contact>, id: nat, phone: string)
    requires forall i, j :: 0 <= i < j < |contacts| ==> contacts[i].id != contacts[j].id
    ensures Sendable(contacts, id) == Some(phone)
            <==> exists k :: 0 <= k < |contacts| && contacts[k].id == id && contacts[k].phone == phone
                             && !contacts[k].optedOut && !contacts[k].isBlocked
  {
    var i := IndexOf(contacts, id);
    if k :| 0 <= k < |contacts| && contacts[k].id == id && contacts[k].phone == phone && !contacts[k].optedOut && !contacts[k].isBlocked {
      assert i == Some(k);
    }
  }

  // ---- counting jobs ----

  datatype Query = Any | Of(contact: nat) | KeptOf(contact: nat) | KeptAmong(contacts: seq<nat>) | SentTo(contact: nat) | Pending | Busy | PastCheck
                 | Counted | Ended(outcome: Outcome)

  predicate Is(q: Query, j: Job) {
    match q
    case Any => true
    case Of(c) => j.contact == c
    case KeptOf(c) => j.contact == c && j.kept
    case KeptAmong(cs) => j.contact in cs && j.kept
    case SentTo(c) => j.contact == c && (j.phase == Sent || j.phase == Done(Delivered))
    case Pending => !j.phase.Done?
    case Busy => !j.phase.Done? && !j.phase.Waiting?
    case PastCheck => j.phase.Checked? || j.phase.Found? || j.phase.Armed?
    case Counted => j.phase == Sent || j.phase == Done(Delivered)
    case Ended(o) => j.phase == Done(o)
  }

  function Count(jobs: seq<Job>, q: Query): nat {
    if jobs == [] then 0 else Count(jobs[..|jobs| - 1], q) + (if Is(q, jobs[|jobs| - 1]) then 1 else 0)
  }

  // ---- the protocol ----

  /** The next operation of a worker on its job; `ok` is the provider's answer when the operation is the send. */
  function Advance(s: State, j: Job, ok: bool): Phase {
    match j.phase
    case Waiting => Waiting
    case Taken => if s.campaign.status == SENDING then Checked else Done(Skipped)
    case Checked =>
      var to := Sendable(s.contacts, j.contact);
      if to.Some? then Found(to.value) else Done(Skipped)
    case Found(to) => if s.connected then Armed(to) else Done(Skipped)
    case Armed(_) => if ok then Sent else Done(Blocked)
    case Sent => Done(Delivered)
    case Done(o) => Done(o)
  }

  function Worked(s: State, i: nat, ok: bool): State
    requires i < |s.jobs|
  {
    var j := s.jobs[i];
    s.(jobs := s.jobs[i := j.(phase := Advance(s, j, ok))],
       outbox := if j.phase.Armed? && ok then s.outbox + [j.contact] else s.outbox,
       campaign := if j.phase.Sent? then s.campaign.(delivered := s.campaign.delivered + 1) else s.campaign)
  }

  /** One of the look-ups before the send throws: the job goes back to the queue, unless that was its last try.
      What the send itself throws is caught. */
  function Thrown(j: Job): Job {
    if !(j.phase.Taken? || j.phase.Checked? || j.phase.Found?) then j
    else j.(thrown := j.thrown + 1, phase := if j.thrown + 1 < MAX_TRIES then Waiting else Done(GaveUp))
  }

  function Queued(s: State, f: nat, now: nat): State
    requires f < |s.fans| && s.fans[f].next < |s.fans[f].todo|
  {
    var fan := s.fans[f];
    var contact := fan.todo[fan.next];
    s.(fans := s.fans[f := fan.(next := fan.next + 1, at := now)],
       jobs := if Count(s.jobs, KeptOf(contact)) > 0 then s.jobs
               else s.jobs + [Job(f, contact, now, fan.next * GAP_MS, true, 0, Waiting)])
  }

  function Begun(s: State, filter: set<string>, now: nat): State {
    var todo := Select(s.contacts, s.campaign.clientId, filter);
    s.(campaign := s.campaign.(status := SENDING, recipients := |todo|), fans := s.fans + [Fan(todo, 0, now)])
  }

  /** Total: a step that is not enabled changes nothing. At most `workers` jobs are in progress. */
  function Next(workers: nat, s: State, step: Step): State {
    match step
    case Begin(client, filter, now) => if client == s.campaign.clientId then Begun(s, filter, now) else s
    case Enqueue(f, now) =>
      if f < |s.fans| && s.fans[f].next < |s.fans[f].todo| && s.fans[f].at <= now then Queued(s, f, now) else s
    case Pause(client) => if client == s.campaign.clientId then s.(campaign := s.campaign.(status := PAUSED)) else s
    case Take(i) =>
      if i < |s.jobs| && s.jobs[i].phase.Waiting? && Count(s.jobs, Busy) < workers
      then s.(jobs := s.jobs[i := s.jobs[i].(phase := Taken)]) else s
    case Work(i, ok) => if i < |s.jobs| then Worked(s, i, ok) else s
    case Throw(i) => if i < |s.jobs| then s.(jobs := s.jobs[i := Thrown(s.jobs[i])]) else s
    case Evict(i) =>
      if i < |s.jobs| && s.jobs[i].phase.Done? then s.(jobs := s.jobs[i := s.jobs[i].(kept := false)]) else s
    case PutContact(c) => s.(contacts := Put(s.contacts, c))
    case DropContact(id) => s.(contacts := Drop(s.contacts, id))
    case Connect(on) => s.(connected := on)
  }

  function Run(workers: nat, s: State, steps: seq<Step>): State {
    if steps == [] then s else Next(workers, Run(workers, s, steps[..|steps| - 1]), steps[|steps| - 1])
  }

  ghost predicate UniqueIds(contacts: seq<Contact>) {
    forall i, j :: 0 <= i < j < |contacts| ==> contacts[i].id != contacts[j].id
  }

  /** A campaign nobody started yet. */
  ghost predicate Initial(s: State) {
    UniqueIds(s.contacts) && s.campaign.delivered == 0 && s.fans == [] && s.jobs == [] && s.outbox == []
  }

  // ---- the service ----

  class CampaignService {
    const workers: nat
    var campaign: Campaign
    var contacts: seq<Contact>
    var connected: bool
    var jobs: seq<Job>
    var fans: seq<Fan>
    ghost var outbox: seq<nat>

    constructor (workers: nat, campaign: Campaign, contacts: seq<Contact>, connected: bool)
      ensures this.workers == workers && View() == State(campaign, contacts, connected, [], [], [])
    {
      this.workers, this.campaign, this.contacts, this.connected := workers, campaign, contacts, connected;
      jobs, fans, outbox := [], [], [];
    }

    ghost function View(): State
      reads this
    {
      State(campaign, contacts, connected, fans, jobs, outbox)
    }

    /** The selection, the status and count, then one delayed job after the other. */
    method Start(client: string, filter: set<string>, now: nat) returns (queued: Option<nat>)
      modifies this
      ensures client != old(campaign).clientId ==> queued == None && View() == old(View())
      ensures client == old(campaign).clientId ==>
        var todo := Select(old(contacts), client, filter);
        && queued == Some(|todo|)
        && View() == Run(workers, old(View()), [Begin(client, filter, now)] + Enqueues(|old(fans)|, |todo|, now))
        && campaign.status == SENDING && campaign.recipients == |todo|
        && fans == old(fans) + [Fan(todo, |todo|, now)]
        && (Distinct(todo) && (forall p :: 0 <= p < |todo| ==> Count(old(jobs), KeptOf(todo[p])) == 0)
            ==> jobs == old(jobs) + DelayedJobs(|old(fans)|, todo, |todo|, now))
    {
      hide Run, Select, Count;
      if client != campaign.clientId { return None; }
      ghost var s := View();
      var f := |fans|;
      var recipients := Select(contacts, client, filter);
      campaign := campaign.(status := SENDING, recipients := |recipients|);
      fans := fans + [Fan(recipients, 0, now)];
      ghost var begin := [Begin(client, filter, now)];
      RunOne(workers, s, Begin(client, filter, now));
      assert begin + Enqueues(f, 0, now) == begin;
      var i := 0;
      while i < |recipients|
        invariant 0 <= i <= |recipients|
        invariant fans == old(fans) + [Fan(recipients, i, now)]
        invariant campaign == old(campaign).(status := SENDING, recipients := |recipients|)
        invariant View() == Run(workers, s, begin + Enqueues(f, i, now))
        invariant Distinct(recipients) && (forall p :: 0 <= p < |recipients| ==> Count(old(jobs), KeptOf(recipients[p])) == 0)
                  ==> jobs == old(jobs) + DelayedJobs(f, recipients, i, now)
      {
        DelayedNext(old(jobs), f, recipients, i, now);
        if Count(jobs, KeptOf(recipients[i])) == 0 {
          jobs := jobs + [Job(f, recipients[i], now, i * GAP_MS, true, 0, Waiting)];
        }
        fans := fans[f := Fan(recipients, i + 1, now)];
        RunMore(workers, s, begin + Enqueues(f, i, now), Enqueue(f, now));
        assert begin + Enqueues(f, i, now) + [Enqueue(f, now)] == begin + Enqueues(f, i + 1, now);
        i := i + 1;
      }
      queued := Some(|recipients|);
    }

    method PauseCampaign(client: string) returns (found: bool)
      modifies this`campaign
      ensures found <==> client == old(campaign).clientId
      ensures campaign == if found then old(campaign).(status := PAUSED) else old(campaign)
      ensures View() == Next(workers, old(View()), Pause(client))
    {
      if client != campaign.clientId { return false; }
      campaign := campaign.(status := PAUSED);
      found := true;
    }

    /** One job from start to end, undisturbed: sent exactly when the campaign is sending, the contact willing,
        an account connected and the provider accepts. */
    method RunJob(i: nat, ok: bool) returns (outcome: Outcome)
      requires i < |jobs| && jobs[i].phase.Waiting? && Count(jobs, Busy) < workers
      modifies this`jobs, this`campaign, this`outbox
      ensures View() == Run(workers, old(View()), [Take(i)] + Works(i, 5, ok))
      ensures jobs == old(jobs)[i := old(jobs)[i].(phase := Done(outcome))]
      ensures outcome.Skipped? <==> old(campaign).status != SENDING || Sendable(contacts, jobs[i].contact).None? || !connected
      ensures !outcome.Skipped? ==> (outcome.Delivered? <==> ok)
      ensures outbox == if outcome.Delivered? then old(outbox) + [jobs[i].contact] else old(outbox)
      ensures campaign == old(campaign).(delivered := old(campaign).delivered + (if outcome.Delivered? then 1 else 0))
    {
      hide Run, Count;
      WholeJob(workers, View(), i, ok);
      outcome := Skipped;
      if campaign.status == SENDING {
        var to := Sendable(contacts, jobs[i].contact);
        if to.Some? && connected {
          if ok {
            outbox := outbox + [jobs[i].contact];
            campaign := campaign.(delivered := campaign.delivered + 1);
            outcome := Delivered;
          } else {
            outcome := Blocked;
          }
        }
      }
      jobs := jobs[i := jobs[i].(phase := Done(outcome))];
    }
  }

  /** The jobs of one start: in the order of the selection, each to fall due 200 ms after the one before. */
  function DelayedJobs(f: nat, todo: seq<nat>, n: nat, now: nat): (r: seq<Job>)
    requires n <= |todo|
    ensures |r| == n
    ensures forall p :: 0 <= p < n ==> r[p] == Job(f, todo[p], now, 200 * p, true, 0, Waiting)
  {
    seq(n, p requires 0 <= p < n => Job(f, todo[p], now, p * GAP_MS, true, 0, Waiting))
  }

  lemma DelayedNext(before: seq<Job>, f: nat, todo: seq<nat>, n: nat, now: nat)
    requires n < |todo|
    ensures before + DelayedJobs(f, todo, n, now) + [Job(f, todo[n], now, n * GAP_MS, true, 0, Waiting)]
            == before + DelayedJobs(f, todo, n + 1, now)
    ensures Distinct(todo) ==> Count(before + DelayedJobs(f, todo, n, now), KeptOf(todo[n])) == Count(before, KeptOf(todo[n]))
    ensures before + DelayedJobs(f, todo, 0, now) == before
  {
    if Distinct(todo) { DelayedCount(before, f, todo, n, now, todo[n]); }
  }

  lemma {:induction false} DelayedCount(before: seq<Job>, f: nat, todo: seq<nat>, n: nat, now: nat, c: nat)
    requires n <= |todo| && forall p :: 0 <= p < n ==> todo[p] != c
    ensures Count(before + DelayedJobs(f, todo, n, now), KeptOf(c)) == Count(before, KeptOf(c))
  {
    if n == 0 {
      assert before + DelayedJobs(f, todo, 0, now) == before;
    } else {
      var jobs := before + DelayedJobs(f, todo, n, now);
      assert jobs[..|jobs| - 1] == before + DelayedJobs(f, todo, n - 1, now);
      DelayedCount(before, f, todo, n - 1, now, c);
    }
  }

  function Enqueues(f: nat, n: nat, now: nat): (r: seq<Step>)
    ensures |r| == n
  {
    seq(n, i requires 0 <= i < n => Enqueue(f, now))
  }

  function Works(i: nat, n: nat, ok: bool): (r: seq<Step>)
    ensures |r| == n
  {
    seq(n, k requires 0 <= k < n => Work(i, ok))
  }

  lemma RunMore(workers: nat, s: State, steps: seq<Step>, step: Step)
    ensures Run(workers, s, steps + [step]) == Next(workers, Run(workers, s, steps), step)
  {
    assert (steps + [step])[..|steps|] == steps;
  }

  lemma RunOne(workers: nat, s: State, step: Step)
    ensures Run(workers, s, [step]) == Next(workers, s, step)
  {
    assert [step][..0] == [];
    assert Run(workers, s, [step][..0]) == s;
  }

  lemma WorkOn(workers: nat, s: State, i: nat, n: nat, ok: bool)
    ensures Run(workers, s, [Take(i)] + Works(i, n + 1, ok))
      == Next(workers, Run(workers, s, [Take(i)] + Works(i, n, ok)), Work(i, ok))
  {
    RunMore(workers, s, [Take(i)] + Works(i, n, ok), Work(i, ok));
    assert [Take(i)] + Works(i, n, ok) + [Work(i, ok)] == [Take(i)] + Works(i, n + 1, ok);
  }

  /** State s with job i moved on to `phase`. */
  function At(s: State, i: nat, phase: Phase): State
    requires i < |s.jobs|
  {
    var sent := phase == Sent || phase == Done(Delivered);
    s.(jobs := s.jobs[i := s.jobs[i].(phase := phase)],
       outbox := if sent then s.outbox + [s.jobs[i].contact] else s.outbox,
       campaign := if phase == Done(Delivered) then s.campaign.(delivered := s.campaign.delivered + 1) else s.campaign)
  }

  lemma AtNext(workers: nat, s: State, i: nat, phase: Phase, ok: bool)
    requires i < |s.jobs| && !phase.Waiting?
    ensures Next(workers, At(s, i, phase), Work(i, ok)) == At(s, i, Advance(s, s.jobs[i].(phase := phase), ok))
  {
    var t := At(s, i, phase);
    var next := Advance(s, s.jobs[i].(phase := phase), ok);
    assert t.jobs[i := t.jobs[i].(phase := next)] == s.jobs[i := s.jobs[i].(phase := next)];
  }

  lemma WholeJob(workers: nat, s: State, i: nat, ok: bool)
    requires i < |s.jobs| && s.jobs[i].phase.Waiting? && Count(s.jobs, Busy) < workers
    ensures Run(workers, s, [Take(i)] + Works(i, 5, ok))
      == At(s, i, Done(if s.campaign.status != SENDING || Sendable(s.contacts, s.jobs[i].contact).None? || !s.connected then Skipped
                       else if ok then Delivered else Blocked))
  {
    hide Run, Sendable, At, Count;
    RunOne(workers, s, Take(i));
    assert [Take(i)] + Works(i, 0, ok) == [Take(i)];
    TakenIs(workers, s, i);
    var phase := Taken;
    for n := 0 to 5
      invariant !phase.Waiting?
      invariant n == 0 ==> phase == Taken
      invariant n > 0 && s.campaign.status != SENDING ==> phase == Done(Skipped)
      invariant s.campaign.status == SENDING ==> phase == Stage(s, s.jobs[i], n, ok)
      invariant Run(workers, s, [Take(i)] + Works(i, n, ok)) == At(s, i, phase)
    {
      WorkOn(workers, s, i, n, ok);
      AtNext(workers, s, i, phase, ok);
      phase := Advance(s, s.jobs[i].(phase := phase), ok);
    }
  }

  /** Where n operations bring an undisturbed job of a sending campaign. */
  function Stage(s: State, j: Job, n: nat, ok: bool): Phase {
    var to := Sendable(s.contacts, j.contact);
    if n == 0 then Taken
    else if n == 1 then Checked
    else if to.None? then Done(Skipped)
    else if n == 2 then Found(to.value)
    else if !s.connected then Done(Skipped)
    else if n == 3 then Armed(to.value)
    else if !ok then Done(Blocked)
    else if n == 4 then Sent
    else Done(Delivered)
  }

  lemma TakenIs(workers: nat, s: State, i: nat)
    requires i < |s.jobs| && s.jobs[i].phase.Waiting? && Count(s.jobs, Busy) < workers
    ensures Next(workers, s, Take(i)) == At(s, i, Taken)
  {
  }

  // ---- counting ----

  lemma {:induction false} CountUpdate(jobs: seq<Job>, i: nat, j: Job, q: Query)
    requires i < |jobs|
    ensures Count(jobs[i := j], q) == Count(jobs, q) - (if Is(q, jobs[i]) then 1 else 0) + (if Is(q, j) then 1 else 0)
  {
    hide Is;
    var n := |jobs| - 1;
    if i < n {
      assert jobs[i := j][..n] == jobs[..n][i := j];
      CountUpdate(jobs[..n], i, j, q);
    } else {
      assert jobs[i := j][..n] == jobs[..n];
    }
  }

  lemma CountAppend(jobs: seq<Job>, j: Job, q: Query)
    ensures Count(jobs + [j], q) == Count(jobs, q) + (if Is(q, j) then 1 else 0)
  {
    assert (jobs + [j])[..|jobs|] == jobs;
  }

  lemma {:induction false} CountZero(jobs: seq<Job>, q: Query)
    ensures Count(jobs, q) == 0 <==> forall i :: 0 <= i < |jobs| ==> !Is(q, jobs[i])
  {
    hide Is;
    if jobs != [] {
      var n := |jobs| - 1;
      CountZero(jobs[..n], q);
      assert forall i :: 0 <= i < n ==> jobs[..n][i] == jobs[i];
    }
  }

  lemma {:induction false} CountMonotone(jobs: seq<Job>, p: Query, q: Query)
    requires forall i :: 0 <= i < |jobs| && Is(p, jobs[i]) ==> Is(q, jobs[i])
    ensures Count(jobs, p) <= Count(jobs, q)
  {
    hide Is;
    if jobs != [] {
      var n := |jobs| - 1;
      assert forall i :: 0 <= i < n ==> jobs[..n][i] == jobs[i];
      CountMonotone(jobs[..n], p, q);
    }
  }

  lemma {:induction false} Partition(jobs: seq<Job>)
    ensures |jobs| == Count(jobs, Pending) + Count(jobs, Ended(Delivered)) + Count(jobs, Ended(Blocked)) + Count(jobs, Ended(Skipped))
                      + Count(jobs, Ended(GaveUp))
  {
    if jobs != [] {
      Partition(jobs[..|jobs| - 1]);
      var phase := jobs[|jobs| - 1].phase;
      assert phase.Done? ==> phase.outcome.Delivered? || phase.outcome.Blocked? || phase.outcome.Skipped? || phase.outcome.GaveUp?;
    }
  }

  // ---- deliveries ----

  /** The campaign's counter and the outbox agree with the jobs. */
  ghost predicate Booked(s: State, c: nat) {
    && s.campaign.delivered == Count(s.jobs, Ended(Delivered))
    && |s.outbox| == Count(s.jobs, Counted)
    && multiset(s.outbox)[c] == Count(s.jobs, SentTo(c))
  }

  lemma BookedUpdate(s: State, t: State, i: nat, c: nat)
    requires Booked(s, c) && i < |s.jobs| == |t.jobs| && t.jobs == s.jobs[i := t.jobs[i]]
    requires t.jobs[i].contact == s.jobs[i].contact
    requires var was, now := s.jobs[i].phase, t.jobs[i].phase;
      && t.campaign.delivered == s.campaign.delivered + (if was == Sent && now == Done(Delivered) then 1 else 0)
      && t.outbox == (if was.Armed? && now == Sent then s.outbox + [s.jobs[i].contact] else s.outbox)
      && (was == now || (was == Sent && now == Done(Delivered)) || (was.Armed? && now == Sent)
          || (!was.Done? && was != Sent && now != Sent && now != Done(Delivered)))
    ensures Booked(t, c)
  {
    hide Count;
    CountUpdate(s.jobs, i, t.jobs[i], Ended(Delivered));
    CountUpdate(s.jobs, i, t.jobs[i], Counted);
    CountUpdate(s.jobs, i, t.jobs[i], SentTo(c));
  }

  lemma BookedStep(workers: nat, s: State, step: Step, c: nat)
    requires Booked(s, c)
    ensures Booked(Next(workers, s, step), c)
  {
    hide Count, Sendable, Select, Put, Drop, Booked;
    var t := Next(workers, s, step);
    if (step.Take? || step.Work? || step.Throw? || step.Evict?) && step.job < |s.jobs| {
      if t.jobs != s.jobs { BookedUpdate(s, t, step.job, c); } else { BookedSame(s, t, c); }
    } else if step.Enqueue? && t.jobs != s.jobs {
      BookedQueue(s, t, c);
    } else {
      BookedSame(s, t, c);
    }
  }

  lemma BookedSame(s: State, t: State, c: nat)
    requires Booked(s, c) && t.jobs == s.jobs && t.outbox == s.outbox && t.campaign.delivered == s.campaign.delivered
    ensures Booked(t, c)
  {
  }

  lemma BookedQueue(s: State, t: State, c: nat)
    requires Booked(s, c) && |t.jobs| == |s.jobs| + 1 && t.jobs == s.jobs + [t.jobs[|s.jobs|]] && t.jobs[|s.jobs|].phase.Waiting?
    requires t.outbox == s.outbox && t.campaign == s.campaign
    ensures Booked(t, c)
  {
    hide Count;
    CountAppend(s.jobs, t.jobs[|s.jobs|], Ended(Delivered));
    CountAppend(s.jobs, t.jobs[|s.jobs|], Counted);
    CountAppend(s.jobs, t.jobs[|s.jobs|], SentTo(c));
  }

  lemma {:induction false} RunBooked(workers: nat, s: State, steps: seq<Step>, c: nat)
    requires Initial(s)
    ensures Booked(Run(workers, s, steps), c)
  {
    hide Next;
    if steps != [] {
      RunBooked(workers, s, steps[..|steps| - 1], c);
      BookedStep(workers, Run(workers, s, steps[..|steps| - 1]), steps[|steps| - 1], c);
    }
  }

  // ---- recipients ----

  lemma {:induction false} SelectWanted(contacts: seq<Contact>, client: string, filter: set<string>)
    ensures forall id :: id in Select(contacts, client, filter) <==>
      exists i :: 0 <= i < |contacts| && contacts[i].id == id && Wanted(contacts[i], client, filter)
  {
    if contacts != [] {
      var n := |contacts| - 1;
      SelectWanted(contacts[..n], client, filter);
      assert forall i :: 0 <= i < n ==> contacts[..n][i] == contacts[i];
    }
  }

  /** Recipients are exactly the client's contacts who neither opted out nor are blocked and who, if a tag filter is
      given, carry one of its tags; each is selected once. */
  lemma SelectIs(contacts: seq<Contact>, client: string, filter: set<string>)
    requires UniqueIds(contacts)
    ensures Distinct(Select(contacts, client, filter))
    ensures forall id :: id in Select(contacts, client, filter) <==>
      exists i :: 0 <= i < |contacts| && contacts[i].id == id && contacts[i].clientId == client
                  && !contacts[i].optedOut && !contacts[i].isBlocked
                  && (filter == {} || exists tag :: tag in contacts[i].tags && tag in filter)
  {
    hide Select, Wanted;
    SelectDistinct(contacts, client, filter);
    forall i | 0 <= i < |contacts|
      ensures Wanted(contacts[i], client, filter)
              <==> contacts[i].clientId == client && !contacts[i].optedOut && !contacts[i].isBlocked
                   && (filter == {} || exists tag :: tag in contacts[i].tags && tag in filter)
    {
      WantedIff(contacts[i], client, filter);
    }
  }

  lemma WantedIff(c: Contact, client: string, filter: set<string>)
    ensures Wanted(c, client, filter)
            <==> c.clientId == client && !c.optedOut && !c.isBlocked && (filter == {} || exists tag :: tag in c.tags && tag in filter)
  {
    if c.tags * filter != {} {
      var tag :| tag in c.tags * filter;
    }
    if tag :| tag in c.tags && tag in filter {
      assert tag in c.tags * filter;
    }
  }

  lemma {:induction false} SelectDistinct(contacts: seq<Contact>, client: string, filter: set<string>)
    requires UniqueIds(contacts)
    ensures Distinct(Select(contacts, client, filter))
    ensures forall id :: id in Select(contacts, client, filter) <==>
      exists i :: 0 <= i < |contacts| && contacts[i].id == id && Wanted(contacts[i], client, filter)
  {
    SelectWanted(contacts, client, filter);
    if contacts != [] {
      var n := |contacts| - 1;
      assert forall i :: 0 <= i < n ==> contacts[..n][i] == contacts[i];
      SelectDistinct(contacts[..n], client, filter);
      var front := Select(contacts[..n], client, filter);
      forall i | 0 <= i < |front|
        ensures front[i] != contacts[n].id
      {
        assert front[i] in front;
      }
    }
  }

  ghost predicate FansSound(s: State) {
    && UniqueIds(s.contacts)
    && (forall f :: 0 <= f < |s.fans| ==> Distinct(s.fans[f].todo) && s.fans[f].next <= |s.fans[f].todo|)
  }

  /** After a single start the jobs follow the selection. */
  ghost predicate InStep(s: State) {
    && (s.fans == [] ==> s.jobs == [])
    && (|s.fans| == 1 ==>
          && |s.jobs| == s.fans[0].next <= |s.fans[0].todo| && s.campaign.recipients == |s.fans[0].todo|
          && (forall k :: 0 <= k < |s.jobs| ==> s.jobs[k].contact == s.fans[0].todo[k]))
  }

  lemma FansSoundStep(workers: nat, s: State, step: Step)
    requires FansSound(s)
    ensures FansSound(Next(workers, s, step))
  {
    hide Count, Select, Sendable;
    if step.Begin? { SelectDistinct(s.contacts, s.campaign.clientId, step.filter); }
  }

  lemma InStepStep(workers: nat, s: State, step: Step)
    requires FansSound(s) && InStep(s)
    ensures InStep(Next(workers, s, step))
  {
    hide Select, Sendable, Put, Drop, Count;
    if step.Enqueue? && step.fan < |s.fans| && |s.fans| == 1 && s.fans[0].next < |s.fans[0].todo| {
      CountZero(s.jobs, KeptOf(s.fans[0].todo[s.fans[0].next]));
    }
  }

  lemma {:induction false} RunInStep(workers: nat, s: State, steps: seq<Step>)
    requires Initial(s)
    ensures var t := Run(workers, s, steps); FansSound(t) && InStep(t)
  {
    hide Next;
    if steps != [] {
      var mid := Run(workers, s, steps[..|steps| - 1]);
      RunInStep(workers, s, steps[..|steps| - 1]);
      FansSoundStep(workers, mid, steps[|steps| - 1]);
      InStepStep(workers, mid, steps[|steps| - 1]);
    }
  }

  /** Recipients of the latest start that are still to be queued. */
  function Unqueued(fans: seq<Fan>): int
    requires fans != []
  {
    |fans[|fans| - 1].todo| - fans[|fans| - 1].next
  }

  ghost predicate Conserved(s: State)
    requires s.fans != []
  {
    s.campaign.recipients == Unqueued(s.fans) + Count(s.jobs, Pending) + s.campaign.delivered
                             + Count(s.jobs, Ended(Blocked)) + Count(s.jobs, Ended(Skipped)) + Count(s.jobs, Ended(GaveUp))
  }

  /** For one start, at every moment: every recipient is still to be queued, pending, delivered, blocked, skipped or
      given up on, and `delivered` is the campaign's own counter. */
  lemma Conservation(workers: nat, s: State, steps: seq<Step>)
    requires Initial(s) && |Run(workers, s, steps).fans| == 1
    ensures Conserved(Run(workers, s, steps))
  {
    hide Run, Count;
    RunInStep(workers, s, steps);
    ConservedIff(workers, s, steps);
  }

  /** For any number of starts it holds exactly while there are as many jobs as the latest start has queued. */
  lemma ConservedIff(workers: nat, s: State, steps: seq<Step>)
    requires Initial(s) && Run(workers, s, steps).fans != []
    ensures var t := Run(workers, s, steps);
      Conserved(t) <==> |t.jobs| == t.fans[|t.fans| - 1].next
  {
    hide Run, Count;
    RunBooked(workers, s, steps, 0);
    RunRecipients(workers, s, steps);
    Partition(Run(workers, s, steps).jobs);
  }

  lemma {:induction false} RunRecipients(workers: nat, s: State, steps: seq<Step>)
    requires Initial(s)
    ensures LatestCounted(Run(workers, s, steps))
  {
    hide Next;
    if steps != [] {
      RunRecipients(workers, s, steps[..|steps| - 1]);
      RecipientsStep(workers, Run(workers, s, steps[..|steps| - 1]), steps[|steps| - 1]);
    }
  }

  ghost predicate LatestCounted(s: State) { s.fans != [] ==> s.campaign.recipients == |s.fans[|s.fans| - 1].todo| }

  lemma RecipientsStep(workers: nat, s: State, step: Step)
    requires LatestCounted(s)
    ensures LatestCounted(Next(workers, s, step))
  {
    hide Count, Sendable, Select, Put, Drop, Advance;
  }

  /** No job throws more than five times, and one that did is over. */
  lemma {:induction false} RunTries(workers: nat, s: State, steps: seq<Step>)
    requires Initial(s)
    ensures forall i :: 0 <= i < |Run(workers, s, steps).jobs| ==>
      var j := Run(workers, s, steps).jobs[i];
      j.thrown <= 5 && (j.thrown == 5 <==> j.phase == Done(GaveUp))
  {
    hide Count, Sendable, Select, Put, Drop;
    if steps != [] { RunTries(workers, s, steps[..|steps| - 1]); }
  }

  // ---- at most once ----

  /** How many starts have queued this contact. */
  function Calls(fans: seq<Fan>, c: nat): (r: nat)
    requires forall f :: 0 <= f < |fans| ==> fans[f].next <= |fans[f].todo|
    ensures r <= |fans|
  {
    if fans == [] then 0
    else
      var last := fans[|fans| - 1];
      Calls(fans[..|fans| - 1], c) + (if c in last.todo[..last.next] then 1 else 0)
  }

  lemma {:induction false} CallsUpdate(fans: seq<Fan>, f: nat, fan: Fan, c: nat)
    requires forall g :: 0 <= g < |fans| ==> fans[g].next <= |fans[g].todo|
    requires f < |fans| && fan.next <= |fan.todo|
    ensures Calls(fans[f := fan], c) == Calls(fans, c) - (if c in fans[f].todo[..fans[f].next] then 1 else 0)
                                        + (if c in fan.todo[..fan.next] then 1 else 0)
  {
    var n := |fans| - 1;
    if f < n {
      assert fans[f := fan][..n] == fans[..n][f := fan];
      CallsUpdate(fans[..n], f, fan, c);
    } else {
      assert fans[f := fan][..n] == fans[..n];
    }
  }

  ghost predicate Rationed(s: State, c: nat) {
    FansSound(s) && Count(s.jobs, KeptOf(c)) <= 1 && Count(s.jobs, Of(c)) <= Calls(s.fans, c)
  }

  lemma RationedQueue(s: State, f: nat, now: nat, c: nat)
    requires Rationed(s, c) && f < |s.fans| && s.fans[f].next < |s.fans[f].todo|
    ensures Count(Queued(s, f, now).jobs, KeptOf(c)) <= 1
    ensures Count(Queued(s, f, now).jobs, Of(c)) <= Calls(Queued(s, f, now).fans, c)
  {
    hide Count, Calls, UniqueIds;
    var fan := s.fans[f];
    var t := Queued(s, f, now);
    CallsUpdate(s.fans, f, fan.(next := fan.next + 1, at := now), c);
    assert fan.todo[..fan.next + 1] == fan.todo[..fan.next] + [fan.todo[fan.next]];
    if t.jobs != s.jobs {
      CountAppend(s.jobs, t.jobs[|s.jobs|], KeptOf(c));
      CountAppend(s.jobs, t.jobs[|s.jobs|], Of(c));
    }
  }

  lemma CallsBegin(fans: seq<Fan>, fan: Fan, c: nat)
    requires forall f :: 0 <= f < |fans| ==> fans[f].next <= |fans[f].todo|
    requires fan.next == 0
    ensures Calls(fans + [fan], c) == Calls(fans, c)
  {
    assert (fans + [fan])[..|fans|] == fans;
  }

  lemma RationedStep(workers: nat, s: State, step: Step, c: nat)
    requires Rationed(s, c)
    ensures Rationed(Next(workers, s, step), c)
  {
    hide Count, Calls, Sendable, Select, Put, Drop, UniqueIds, Distinct;
    var t := Next(workers, s, step);
    FansSoundStep(workers, s, step);
    if (step.Take? || step.Work? || step.Throw? || step.Evict?) && step.job < |s.jobs| {
      CountUpdate(s.jobs, step.job, t.jobs[step.job], KeptOf(c));
      CountUpdate(s.jobs, step.job, t.jobs[step.job], Of(c));
      assert s.jobs[step.job := s.jobs[step.job]] == s.jobs;
    } else if step.Enqueue? && step.fan < |s.fans| && s.fans[step.fan].next < |s.fans[step.fan].todo| {
      RationedQueue(s, step.fan, step.now, c);
    } else if step.Begin? && t != s {
      CallsBegin(s.fans, t.fans[|s.fans|], c);
    }
  }

  lemma {:induction false} RunRationed(workers: nat, s: State, steps: seq<Step>, c: nat)
    requires Initial(s)
    ensures Rationed(Run(workers, s, steps), c)
  {
    hide Next;
    if steps != [] {
      RunRationed(workers, s, steps[..|steps| - 1], c);
      RationedStep(workers, Run(workers, s, steps[..|steps| - 1]), steps[|steps| - 1], c);
    }
  }

  /** Over any run, whatever the queue forgets, a contact is sent to at most once per start that queued it. */
  lemma AtMostOncePerStart(workers: nat, s: State, steps: seq<Step>, c: nat)
    requires Initial(s)
    ensures var t := Run(workers, s, steps);
      FansSound(t) && multiset(t.outbox)[c] <= Calls(t.fans, c) <= |t.fans|
  {
    hide Run, Calls, Count;
    var t := Run(workers, s, steps);
    RunRationed(workers, s, steps, c);
    RunBooked(workers, s, steps, c);
    CountMonotone(t.jobs, SentTo(c), Of(c));
  }

  ghost predicate AllKept(s: State) { forall i :: 0 <= i < |s.jobs| ==> s.jobs[i].kept }

  lemma KeptStep(workers: nat, s: State, step: Step)
    requires AllKept(s) && !step.Evict?
    ensures AllKept(Next(workers, s, step))
  {
    hide Count, Sendable, Select, Put, Drop, Advance;
  }

  lemma {:induction false} RunKeeps(workers: nat, s: State, steps: seq<Step>)
    requires Initial(s) && forall i :: 0 <= i < |steps| ==> !steps[i].Evict?
    ensures AllKept(Run(workers, s, steps))
  {
    hide Next;
    if steps != [] {
      var n := |steps| - 1;
      assert forall i :: 0 <= i < n ==> steps[..n][i] == steps[i];
      RunKeeps(workers, s, steps[..n]);
      KeptStep(workers, Run(workers, s, steps[..n]), steps[n]);
    }
  }

  /** While the queue remembers its jobs a contact is sent to at most once however often the campaign is started. */
  lemma AtMostOnce(workers: nat, s: State, steps: seq<Step>, c: nat)
    requires Initial(s) && forall i :: 0 <= i < |steps| ==> !steps[i].Evict?
    ensures multiset(Run(workers, s, steps).outbox)[c] <= 1
  {
    hide Run, Calls, Count;
    var t := Run(workers, s, steps);
    RunRationed(workers, s, steps, c);
    RunBooked(workers, s, steps, c);
    RunKeeps(workers, s, steps);
    CountMonotone(t.jobs, SentTo(c), KeptOf(c));
  }

  // ---- the throttle ----

  /** A job's delay, or the moment it falls due. */
  datatype Clock = ByDelay | ByDue

  function Moment(k: Clock, j: Job): nat { if k.ByDelay? then j.delay else j.addedAt + j.delay }

  ghost predicate Staggered(jobs: seq<Job>, f: nat, k: Clock) {
    forall a, b :: 0 <= a < b < |jobs| && jobs[a].fan == f && jobs[b].fan == f ==> Moment(k, jobs[a]) + GAP_MS <= Moment(k, jobs[b])
  }

  ghost predicate Throttled(s: State, f: nat, k: Clock) {
    && Staggered(s.jobs, f, k)
    && (forall a :: 0 <= a < |s.jobs| && s.jobs[a].fan == f ==>
          f < |s.fans| && s.jobs[a].delay + GAP_MS <= s.fans[f].next * GAP_MS && s.jobs[a].addedAt <= s.fans[f].at)
  }

  /** Jobs keep their place and their times, and starts only move on. */
  lemma ThrottledSame(s: State, t: State, f: nat, k: Clock)
    requires Throttled(s, f, k) && |t.jobs| == |s.jobs| && |t.fans| >= |s.fans|
    requires forall a :: 0 <= a < |s.jobs| ==>
      t.jobs[a].fan == s.jobs[a].fan && t.jobs[a].delay == s.jobs[a].delay && t.jobs[a].addedAt == s.jobs[a].addedAt
    requires f < |s.fans| ==> s.fans[f].next <= t.fans[f].next && s.fans[f].at <= t.fans[f].at
    ensures Throttled(t, f, k)
  {
  }

  lemma ThrottledQueue(s: State, g: nat, now: nat, f: nat, k: Clock)
    requires Throttled(s, f, k) && g < |s.fans| && s.fans[g].next < |s.fans[g].todo| && s.fans[g].at <= now
    ensures Throttled(Queued(s, g, now), f, k)
  {
    hide Count;
  }

  lemma ThrottledStep(workers: nat, s: State, step: Step, f: nat, k: Clock)
    requires Throttled(s, f, k)
    ensures Throttled(Next(workers, s, step), f, k)
  {
    hide Count, Sendable, Select, Put, Drop, Throttled, Queued, Advance;
    if step.Enqueue? && step.fan < |s.fans| && s.fans[step.fan].next < |s.fans[step.fan].todo| && s.fans[step.fan].at <= step.now {
      ThrottledQueue(s, step.fan, step.now, f, k);
    } else {
      ThrottledSame(s, Next(workers, s, step), f, k);
    }
  }

  lemma {:induction false} RunThrottled(workers: nat, s: State, steps: seq<Step>, f: nat, k: Clock)
    requires Initial(s)
    ensures Throttled(Run(workers, s, steps), f, k)
  {
    hide Next;
    if steps != [] {
      RunThrottled(workers, s, steps[..|steps| - 1], f, k);
      ThrottledStep(workers, Run(workers, s, steps[..|steps| - 1]), steps[|steps| - 1], f, k);
    }
  }

  function CountWithin(jobs: seq<Job>, f: nat, k: Clock, from: int, to: int): nat {
    if jobs == [] then 0
    else
      var last := jobs[|jobs| - 1];
      CountWithin(jobs[..|jobs| - 1], f, k, from, to) + (if last.fan == f && from <= Moment(k, last) < to then 1 else 0)
  }

  lemma {:induction false} EarlierOnly(jobs: seq<Job>, f: nat, k: Clock, from: int, to: int, top: int)
    requires forall a :: 0 <= a < |jobs| && jobs[a].fan == f ==> Moment(k, jobs[a]) < top <= to
    ensures CountWithin(jobs, f, k, from, to) == CountWithin(jobs, f, k, from, top)
    ensures top <= from ==> CountWithin(jobs, f, k, from, to) == 0
  {
    if jobs != [] {
      var n := |jobs| - 1;
      assert forall a :: 0 <= a < n ==> jobs[..n][a] == jobs[a];
      EarlierOnly(jobs[..n], f, k, from, to, top);
    }
  }

  lemma {:induction false} WindowCount(jobs: seq<Job>, f: nat, k: Clock, from: int, to: int)
    requires Staggered(jobs, f, k) && from <= to
    ensures CountWithin(jobs, f, k, from, to) <= (to - from + GAP_MS - 1) / GAP_MS
  {
    hide Moment;
    if jobs != [] {
      var n := |jobs| - 1;
      var last := jobs[n];
      assert forall a :: 0 <= a < n ==> jobs[..n][a] == jobs[a];
      if last.fan == f && from <= Moment(k, last) < to {
        var top := Moment(k, last) - GAP_MS + 1;
        EarlierOnly(jobs[..n], f, k, from, to, top);
        if from < top { WindowCount(jobs[..n], f, k, from, top); }
      } else {
        WindowCount(jobs[..n], f, k, from, to);
      }
    }
  }

  /** Of one start, at most ceil(width / 200) jobs have their delay, or fall due, in any window of that width. */
  lemma AnyWindow(workers: nat, s: State, steps: seq<Step>, f: nat, k: Clock, from: nat, width: nat)
    requires Initial(s)
    ensures CountWithin(Run(workers, s, steps).jobs, f, k, from, from + width) <= (width + 199) / 200
  {
    hide Run, CountWithin;
    RunThrottled(workers, s, steps, f, k);
    WindowCount(Run(workers, s, steps).jobs, f, k, from, from + width);
  }

  // ---- pausing and opting out ----

  lemma PausedStep(workers: nat, s: State, step: Step)
    requires s.campaign.status != SENDING && !step.Begin?
    ensures var t := Next(workers, s, step);
      && t.campaign.status != SENDING
      && |t.outbox| + Count(t.jobs, PastCheck) <= |s.outbox| + Count(s.jobs, PastCheck)
  {
    hide Count, Sendable, Select, Put, Drop;
    var t := Next(workers, s, step);
    if (step.Take? || step.Work? || step.Throw? || step.Evict?) && step.job < |s.jobs| {
      CountUpdate(s.jobs, step.job, t.jobs[step.job], PastCheck);
      assert s.jobs[step.job := s.jobs[step.job]] == s.jobs;
    } else if step.Enqueue? && t.jobs != s.jobs {
      CountAppend(s.jobs, t.jobs[|s.jobs|], PastCheck);
    }
  }

  lemma {:induction false} PausedRun(workers: nat, s: State, steps: seq<Step>)
    requires s.campaign.status != SENDING && forall i :: 0 <= i < |steps| ==> !steps[i].Begin?
    ensures var t := Run(workers, s, steps);
      && t.campaign.status != SENDING
      && |t.outbox| + Count(t.jobs, PastCheck) <= |s.outbox| + Count(s.jobs, PastCheck)
  {
    hide Next, Count;
    if steps != [] {
      var n := |steps| - 1;
      assert forall i :: 0 <= i < n ==> steps[..n][i] == steps[i];
      PausedRun(workers, s, steps[..n]);
      PausedStep(workers, Run(workers, s, steps[..n]), steps[n]);
    }
  }

  lemma BusyStep(workers: nat, s: State, step: Step)
    requires Count(s.jobs, Busy) <= workers
    ensures Count(Next(workers, s, step).jobs, Busy) <= workers
  {
    hide Count, Sendable, Select, Put, Drop;
    var t := Next(workers, s, step);
    if (step.Take? || step.Work? || step.Throw? || step.Evict?) && step.job < |s.jobs| {
      CountUpdate(s.jobs, step.job, t.jobs[step.job], Busy);
      assert s.jobs[step.job := s.jobs[step.job]] == s.jobs;
    } else if step.Enqueue? && t.jobs != s.jobs {
      CountAppend(s.jobs, t.jobs[|s.jobs|], Busy);
    }
  }

  lemma {:induction false} RunBusy(workers: nat, s: State, steps: seq<Step>)
    requires Initial(s)
    ensures Count(Run(workers, s, steps).jobs, Busy) <= workers
  {
    hide Next;
    if steps != [] {
      RunBusy(workers, s, steps[..|steps| - 1]);
      BusyStep(workers, Run(workers, s, steps[..|steps| - 1]), steps[|steps| - 1]);
    }
  }

  /** After a pause, until the next start, only jobs already in progress can still send: no more than there are
      workers, however many jobs wait. */
  lemma PauseStops(workers: nat, s: State, before: seq<Step>, after: seq<Step>)
    requires Initial(s) && forall i :: 0 <= i < |after| ==> !after[i].Begin?
    ensures var paused := Next(workers, Run(workers, s, before), Pause(s.campaign.clientId));
      |Run(workers, paused, after).outbox| <= |paused.outbox| + workers
  {
    hide Run, Count;
    var mid := Run(workers, s, before);
    RunSameClient(workers, s, before);
    RunBusy(workers, s, before);
    CountMonotone(mid.jobs, PastCheck, Busy);
    PausedRun(workers, Next(workers, mid, Pause(s.campaign.clientId)), after);
  }

  lemma {:induction false} RunSameClient(workers: nat, s: State, steps: seq<Step>)
    ensures Run(workers, s, steps).campaign.clientId == s.campaign.clientId
  {
    hide Count, Sendable, Select, Put, Drop;
    if steps != [] { RunSameClient(workers, s, steps[..|steps| - 1]); }
  }

  /** Nobody may send to this contact any more, and no worker is past finding that out. */
  ghost predicate ShutOut(s: State, c: nat) {
    Sendable(s.contacts, c) == None && forall i :: 0 <= i < |s.jobs| && s.jobs[i].contact == c ==> !s.jobs[i].phase.Found? && !s.jobs[i].phase.Armed?
  }

  /** The contact stays opted out, blocked or deleted. */
  predicate KeepsOut(step: Step, c: nat) {
    step.PutContact? && step.contact.id == c ==> step.contact.optedOut || step.contact.isBlocked
  }

  lemma PutSendable(contacts: seq<Contact>, x: Contact, c: nat)
    requires UniqueIds(contacts)
    ensures Sendable(Put(contacts, x), c)
      == if x.id == c then (if x.optedOut || x.isBlocked then None else Some(x.phone)) else Sendable(contacts, c)
  {
    hide IndexOf;
    var more := Put(contacts, x);
    var i, at := IndexOf(contacts, c), IndexOf(contacts, x.id);
    assert more[if at.Some? then at.value else |contacts|] == x;
    if i.Some? {
      assert more[i.value].id == c;
    }
  }

  lemma DropSendable(contacts: seq<Contact>, id: nat, c: nat)
    requires UniqueIds(contacts) && Sendable(contacts, c) == None
    ensures Sendable(Drop(contacts, id), c) == None
  {
    var fewer := Drop(contacts, id);
    var i, j := IndexOf(contacts, c), IndexOf(fewer, c);
    if j.Some? {
      assert fewer[j.value] in contacts;
    }
  }

  lemma ShutOutWork(s: State, i: nat, ok: bool, c: nat)
    requires ShutOut(s, c) && i < |s.jobs|
    ensures ShutOut(Worked(s, i, ok), c)
    ensures multiset(Worked(s, i, ok).outbox)[c] == multiset(s.outbox)[c]
  {
    hide Sendable;
  }

  lemma ShutOutStep(workers: nat, s: State, step: Step, c: nat)
    requires FansSound(s) && ShutOut(s, c) && KeepsOut(step, c)
    ensures ShutOut(Next(workers, s, step), c)
    ensures multiset(Next(workers, s, step).outbox)[c] == multiset(s.outbox)[c]
  {
    hide Count, Sendable, Select, Put, Drop, UniqueIds, Worked, Distinct;
    if step.PutContact? {
      PutSendable(s.contacts, step.contact, c);
    } else if step.DropContact? {
      DropSendable(s.contacts, step.id, c);
    } else if step.Work? && step.job < |s.jobs| {
      ShutOutWork(s, step.job, step.ok, c);
    }
  }

  /** From then on, through any starts, the contact is never sent to again. */
  lemma {:induction false} OptOutHolds(workers: nat, s: State, steps: seq<Step>, c: nat)
    requires FansSound(s) && ShutOut(s, c) && forall i :: 0 <= i < |steps| ==> KeepsOut(steps[i], c)
    ensures var t := Run(workers, s, steps);
      FansSound(t) && ShutOut(t, c) && multiset(t.outbox)[c] == multiset(s.outbox)[c]
  {
    hide Next, ShutOut, KeepsOut, FansSound;
    if steps != [] {
      var n := |steps| - 1;
      assert forall i :: 0 <= i < n ==> steps[..n][i] == steps[i];
      OptOutHolds(workers, s, steps[..n], c);
      ShutOutStep(workers, Run(workers, s, steps[..n]), steps[n], c);
      FansSoundStep(workers, Run(workers, s, steps[..n]), steps[n]);
    }
  }
}
