/**
 What a campaign message rests on: over any run, every job whose message went out saw the campaign sending, its contact
 willing and an account connected, each at a moment of that run at which it was the job's turn to look.
 */
module CampaignConsent {
  import opened Wrappers
  import opened CampaignFanout

  datatype Check = OfStatus | OfContact | OfAccount

  /** The checks a job in this phase has behind it. */
  predicate Needs(p: Phase, check: Check) {
    var sent := p.Armed? || p.Sent? || p == Done(Delivered) || p == Done(Blocked);
    match check
    case OfStatus => sent || p.Found? || p.Checked?
    case OfContact => sent || p.Found?
    case OfAccount => sent
  }

  /** Job i, of contact c, is about to make the check, and it would succeed. */
  ghost predicate Succeeds(t: State, i: nat, c: nat, check: Check) {
    && i < |t.jobs| && t.jobs[i].contact == c
    && (check.OfStatus? ==> t.jobs[i].phase.Taken? && t.campaign.status == SENDING)
    && (check.OfContact? ==> t.jobs[i].phase.Checked? && Willing(t.contacts, c))
    && (check.OfAccount? ==> t.jobs[i].phase.Found? && t.connected)
  }

  ghost predicate Willing(contacts: seq<Contact>, c: nat) {
    exists k :: 0 <= k < |contacts| && contacts[k].id == c && !contacts[k].optedOut && !contacts[k].isBlocked
  }

  ghost predicate Succeeded(workers: nat, s: State, steps: seq<Step>, i: nat, c: nat, check: Check) {
    exists n :: 0 <= n < |steps| && Succeeds(Run(workers, s, steps[..n]), i, c, check)
  }

  lemma SendableWilling(contacts: seq<Contact>, c: nat)
    requires Sendable(contacts, c).Some?
    ensures Willing(contacts, c)
  {
    var k := IndexOf(contacts, c).value;
    assert contacts[k].id == c;
  }

  /** A step takes a job past a check only by making it. */
  lemma NextNeeds(workers: nat, t: State, step: Step, i: nat, check: Check)
    requires i < |Next(workers, t, step).jobs| && Needs(Next(workers, t, step).jobs[i].phase, check)
    ensures var c := Next(workers, t, step).jobs[i].contact;
      i < |t.jobs| && t.jobs[i].contact == c && (Needs(t.jobs[i].phase, check) || Succeeds(t, i, c, check))
  {
    hide Count, Sendable, Select, Put, Drop, Willing;
    if step.Work? && i < |t.jobs| && Sendable(t.contacts, t.jobs[i].contact).Some? {
      SendableWilling(t.contacts, t.jobs[i].contact);
    }
  }

  lemma SucceededFront(workers: nat, s: State, steps: seq<Step>, i: nat, c: nat, check: Check)
    requires steps != []
    requires var front := steps[..|steps| - 1];
      Succeeded(workers, s, front, i, c, check) || Succeeds(Run(workers, s, front), i, c, check)
    ensures Succeeded(workers, s, steps, i, c, check)
  {
    hide Run, Succeeds;
    var front := steps[..|steps| - 1];
    if Succeeded(workers, s, front, i, c, check) {
      var n :| 0 <= n < |front| && Succeeds(Run(workers, s, front[..n]), i, c, check);
      assert front[..n] == steps[..n];
    }
  }

  lemma {:induction false} RunNeeds(workers: nat, s: State, steps: seq<Step>, i: nat, check: Check)
    requires Initial(s) && i < |Run(workers, s, steps).jobs| && Needs(Run(workers, s, steps).jobs[i].phase, check)
    ensures Succeeded(workers, s, steps, i, Run(workers, s, steps).jobs[i].contact, check)
  {
    hide Next, Needs, Succeeds, Succeeded;
    if steps != [] {
      var front := steps[..|steps| - 1];
      var t := Run(workers, s, front);
      NextNeeds(workers, t, steps[|steps| - 1], i, check);
      if Needs(t.jobs[i].phase, check) { RunNeeds(workers, s, front, i, check); }
      SucceededFront(workers, s, steps, i, t.jobs[i].contact, check);
    }
  }

  /** A job whose message went out looked three times during the run, and found the campaign sending, the contact there
      and neither opted out nor blocked, and an account connected. */
  lemma SentWasWilling(workers: nat, s: State, steps: seq<Step>, i: nat)
    requires Initial(s) && i < |Run(workers, s, steps).jobs|
    requires Run(workers, s, steps).jobs[i].phase in [Sent, Done(Delivered)]
    ensures var c := Run(workers, s, steps).jobs[i].contact;
      && (exists n :: 0 <= n < |steps| && OnTurn(Run(workers, s, steps[..n]), i, c, Taken)
                      && Run(workers, s, steps[..n]).campaign.status == SENDING)
      && (exists n :: 0 <= n < |steps| && OnTurn(Run(workers, s, steps[..n]), i, c, Checked)
                      && Willing(Run(workers, s, steps[..n]).contacts, c))
      && (exists n :: 0 <= n < |steps| && Succeeds(Run(workers, s, steps[..n]), i, c, OfAccount)
                      && Run(workers, s, steps[..n]).connected)
  {
    hide Run, Willing;
    var c := Run(workers, s, steps).jobs[i].contact;
    RunNeeds(workers, s, steps, i, OfStatus);
    RunNeeds(workers, s, steps, i, OfContact);
    RunNeeds(workers, s, steps, i, OfAccount);
    var n :| 0 <= n < |steps| && Succeeds(Run(workers, s, steps[..n]), i, c, OfStatus);
    assert OnTurn(Run(workers, s, steps[..n]), i, c, Taken);
    var m :| 0 <= m < |steps| && Succeeds(Run(workers, s, steps[..m]), i, c, OfContact);
    assert OnTurn(Run(workers, s, steps[..m]), i, c, Checked);
  }

  predicate OnTurn(t: State, i: nat, c: nat, phase: Phase) {
    i < |t.jobs| && t.jobs[i].contact == c && t.jobs[i].phase == phase
  }
}
