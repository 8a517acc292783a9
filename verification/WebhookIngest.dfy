/**
 Webhook ingestion: providers deliver messages and statuses at least once; the service stores each inbound
 message once and queues one job for it.
 */
module WebhookIngest {
  import opened Wrappers

  datatype Provider = Evolution | MetaCloud

  /** `identifier` is the phone number id for Meta and the instance name for Evolution. */
  datatype Account = Account(id: string, provider: Provider, identifier: string, clientId: string)

  datatype Inbound = Inbound(waMessageId: string, fromPhone: string, toAccount: string, pushName: Option<string>,
                             content: Option<string>)

  datatype Status = Status(waMessageId: string, status: string)

  datatype Contact = Contact(clientId: string, phone: string, name: Option<string>, lastSeenAt: nat)

  datatype ConversationStatus = OPEN | ASSIGNED | RESOLVED | SNOOZED

  datatype Conversation = Conversation(clientId: string, contact: nat, accountId: string,
                                       status: ConversationStatus, lastMessageAt: Option<nat>)

  datatype Message = Message(waMessageId: Option<string>, inbound: bool, conversation: nat, content: Option<string>, isRead: bool)

  datatype Job = Job(message: nat, conversation: nat)

  datatype Db = Db(contacts: seq<Contact>, conversations: seq<Conversation>, messages: seq<Message>, jobs: seq<Job>)

  // ---- look-ups ----

  function FindAccount(accounts: seq<Account>, provider: Provider, identifier: string): (r: Option<Account>)
    ensures r.Some? ==> r.value in accounts && r.value.provider == provider && r.value.identifier == identifier
    ensures r.None? ==> forall a :: a in accounts ==> a.provider != provider || a.identifier != identifier
  {
    if accounts == [] then None
    else if accounts[0].provider == provider && accounts[0].identifier == identifier then Some(accounts[0])
    else FindAccount(accounts[1..], provider, identifier)
  }

  predicate Stored(messages: seq<Message>, id: string) {
    exists i :: 0 <= i < |messages| && messages[i].waMessageId == Some(id)
  }

  function FindContact(contacts: seq<Contact>, clientId: string, phone: string): (r: Option<nat>)
    ensures r.Some? ==> r.value < |contacts| && contacts[r.value].clientId == clientId && contacts[r.value].phone == phone
    ensures r.None? ==> forall i :: 0 <= i < |contacts| ==> contacts[i].clientId != clientId || contacts[i].phone != phone
  {
    if contacts == [] then None
    else if contacts[|contacts| - 1].clientId == clientId && contacts[|contacts| - 1].phone == phone then Some(|contacts| - 1)
    else FindContact(contacts[..|contacts| - 1], clientId, phone)
  }

  predicate Live(c: Conversation, clientId: string, contact: nat, accountId: string) {
    c.clientId == clientId && c.contact == contact && c.accountId == accountId && !c.status.RESOLVED?
  }

  /** The newest conversation of the contact on the account that is not resolved. */
  function FindConversation(cs: seq<Conversation>, clientId: string, contact: nat, accountId: string): (r: Option<nat>)
    ensures r.Some? ==> r.value < |cs| && Live(cs[r.value], clientId, contact, accountId)
    ensures r.Some? ==> forall i :: r.value < i < |cs| ==> !Live(cs[i], clientId, contact, accountId)
    ensures r.None? ==> forall i :: 0 <= i < |cs| ==> !Live(cs[i], clientId, contact, accountId)
  {
    if cs == [] then None
    else if Live(cs[|cs| - 1], clientId, contact, accountId) then Some(|cs| - 1)
    else FindConversation(cs[..|cs| - 1], clientId, contact, accountId)
  }

  // ---- one message ----

  function UpsertContact(contacts: seq<Contact>, clientId: string, m: Inbound, now: nat): (seq<Contact>, nat) {
    var found := FindContact(contacts, clientId, m.fromPhone);
    if found.None? then (contacts + [Contact(clientId, m.fromPhone, m.pushName, now)], |contacts|)
    else
      var c := contacts[found.value];
      (contacts[found.value := c.(lastSeenAt := now, name := if m.pushName.Some? then m.pushName else c.name)], found.value)
  }

  function OpenConversation(cs: seq<Conversation>, clientId: string, contact: nat, accountId: string): (r: (seq<Conversation>, nat))
    ensures r.1 < |r.0|
  {
    var found := FindConversation(cs, clientId, contact, accountId);
    if found.None? then (cs + [Conversation(clientId, contact, accountId, OPEN, None)], |cs|) else (cs, found.value)
  }

  /** Known account and sender present. */
  predicate Accepted(accounts: seq<Account>, provider: Provider, m: Inbound) {
    FindAccount(accounts, provider, m.toAccount).Some? && m.fromPhone != ""
  }

  function Ingest(accounts: seq<Account>, db: Db, provider: Provider, m: Inbound, now: nat): Db {
    if !Accepted(accounts, provider, m) || (m.waMessageId != "" && Stored(db.messages, m.waMessageId)) then db
    else
      var acct := FindAccount(accounts, provider, m.toAccount).value;
      var (contacts, contact) := UpsertContact(db.contacts, acct.clientId, m, now);
      var (cs, conv) := OpenConversation(db.conversations, acct.clientId, contact, acct.id);
      var id := if m.waMessageId == "" then None else Some(m.waMessageId);
      Db(contacts,
         cs[conv := cs[conv].(lastMessageAt := Some(now))],
         db.messages + [Message(id, true, conv, m.content, false)],
         db.jobs + [Job(|db.messages|, conv)])
  }

  predicate Seen(status: string) { status == "read" || status == "delivered" }

  function Mark(m: Message, s: Status): Message {
    if m.waMessageId == Some(s.waMessageId) then m.(isRead := Seen(s.status)) else m
  }

  function MarkAll(messages: seq<Message>, s: Status): seq<Message> {
    seq(|messages|, i requires 0 <= i < |messages| => Mark(messages[i], s))
  }

  // ---- the service ----

  class WebhookService {
    const accounts: seq<Account>
    var contacts: seq<Contact>
    var conversations: seq<Conversation>
    var messages: seq<Message>
    var jobs: seq<Job>

    constructor (accounts: seq<Account>)
      ensures this.accounts == accounts && View() == Db([], [], [], [])
    {
      this.accounts := accounts;
      contacts, conversations, messages, jobs := [], [], [], [];
    }

    ghost function View(): Db
      reads this
    {
      Db(contacts, conversations, messages, jobs)
    }

    method SaveContact(clientId: string, m: Inbound, now: nat) returns (contact: nat)
      modifies this`contacts
      ensures contacts == UpsertContact(old(contacts), clientId, m, now).0
      ensures contact == UpsertContact(old(contacts), clientId, m, now).1
    {
      var existing := FindContact(contacts, clientId, m.fromPhone);
      if existing.Some? {
        contact := existing.value;
        contacts := contacts[contact := contacts[contact].(lastSeenAt := now)];
        if m.pushName.Some? { contacts := contacts[contact := contacts[contact].(name := m.pushName)]; }
      } else {
        contact := |contacts|;
        contacts := contacts + [Contact(clientId, m.fromPhone, m.pushName, now)];
      }
    }

    method IngestInbound(provider: Provider, m: Inbound, now: nat)
      modifies this
      ensures View() == Ingest(accounts, old(View()), provider, m, now)
    {
      var found := FindAccount(accounts, provider, m.toAccount);
      if found.None? { return; }
      var acct := found.value;
      if m.waMessageId != "" && Stored(messages, m.waMessageId) { return; }
      if m.fromPhone == "" { return; }
      var contact := SaveContact(acct.clientId, m, now);
      var conversation;
      var open := FindConversation(conversations, acct.clientId, contact, acct.id);
      if open.Some? {
        conversation := open.value;
      } else {
        conversation := |conversations|;
        conversations := conversations + [Conversation(acct.clientId, contact, acct.id, OPEN, None)];
      }
      var message := |messages|;
      messages := messages + [Message(if m.waMessageId == "" then None else Some(m.waMessageId), true, conversation, m.content, false)];
      conversations := conversations[conversation := conversations[conversation].(lastMessageAt := Some(now))];
      jobs := jobs + [Job(message, conversation)];
    }

    method HandleParsedEvents(provider: Provider, batch: seq<Inbound>, statuses: seq<Status>, now: nat)
      modifies this
      ensures View() == Run(accounts, old(View()), BatchSteps(provider, batch, statuses, now))
    {
      hide Ingest, MarkAll;
      ghost var start := View();
      ghost var steps := BatchSteps(provider, batch, statuses, now);
      assert steps[..0] == [];
      for i := 0 to |batch|
        invariant View() == Run(accounts, start, steps[..i])
      {
        IngestInbound(provider, batch[i], now);
        assert steps[..i + 1][..i] == steps[..i];
      }
      for i := 0 to |statuses|
        invariant View() == Run(accounts, start, steps[..|batch| + i])
      {
        messages := MarkAll(messages, statuses[i]);
        assert steps[..|batch| + i + 1][..|batch| + i] == steps[..|batch| + i];
      }
      assert steps[..|batch| + |statuses|] == steps;
    }
  }

  // ---- runs ----

  /** Besides webhook events, agents and flows may set a conversation's status at any time. */
  datatype Step =
    | Arrive(provider: Provider, m: Inbound, now: nat)
    | Report(s: Status)
    | SetStatus(conversation: nat, status: ConversationStatus)

  function Next(accounts: seq<Account>, db: Db, step: Step): Db {
    match step
    case Arrive(p, m, now) => Ingest(accounts, db, p, m, now)
    case Report(s) => db.(messages := MarkAll(db.messages, s))
    case SetStatus(c, status) =>
      if c < |db.conversations| then db.(conversations := db.conversations[c := db.conversations[c].(status := status)]) else db
  }

  function Run(accounts: seq<Account>, db: Db, steps: seq<Step>): Db {
    if steps == [] then db
    else Next(accounts, Run(accounts, db, steps[..|steps| - 1]), steps[|steps| - 1])
  }

  function ArriveAll(provider: Provider, batch: seq<Inbound>, now: nat): seq<Step> {
    seq(|batch|, i requires 0 <= i < |batch| => Arrive(provider, batch[i], now))
  }

  function ReportAll(statuses: seq<Status>): seq<Step> {
    seq(|statuses|, i requires 0 <= i < |statuses| => Report(statuses[i]))
  }

  /** The events of one delivery: its messages, then its statuses. */
  function BatchSteps(provider: Provider, batch: seq<Inbound>, statuses: seq<Status>, now: nat): seq<Step> {
    ArriveAll(provider, batch, now) + ReportAll(statuses)
  }

  // ---- exactly once ----

  /** The accepted messages of a run, with repetitions, in order of arrival. */
  function Arrivals(accounts: seq<Account>, steps: seq<Step>): seq<Inbound> {
    if steps == [] then []
    else
      var last := steps[|steps| - 1];
      Arrivals(accounts, steps[..|steps| - 1])
      + (if last.Arrive? && Accepted(accounts, last.provider, last.m) then [last.m] else [])
  }

  predicate HasId(ms: seq<Inbound>, id: string) { exists i :: 0 <= i < |ms| && ms[i].waMessageId == id }

  /** The first arrival of every id that was not stored before. */
  function Firsts(before: seq<Message>, ms: seq<Inbound>): seq<Inbound> {
    if ms == [] then []
    else
      var n := |ms| - 1;
      Firsts(before, ms[..n])
      + (if Stored(before, ms[n].waMessageId) || HasId(ms[..n], ms[n].waMessageId) then [] else [ms[n]])
  }

  predicate Identified(steps: seq<Step>) {
    forall i :: 0 <= i < |steps| && steps[i].Arrive? ==> steps[i].m.waMessageId != ""
  }

  /** Row k stores message m, whatever its read mark. */
  predicate Stores(row: Message, m: Inbound) {
    row.waMessageId == Some(m.waMessageId) && row.inbound && row.content == m.content
  }

  /** The job for row k. */
  function JobFor(messages: seq<Message>, k: nat): Job
    requires k < |messages|
  {
    Job(k, messages[k].conversation)
  }

  /** The table is the old rows, up to read marks, followed by one row per first arrival, in order; the queue
      is the old jobs followed by one job per new row. */
  ghost predicate OncePerId(before: Db, after: Db, firsts: seq<Inbound>) {
    && |after.messages| == |before.messages| + |firsts|
    && (forall k :: 0 <= k < |before.messages| ==>
          after.messages[k].(isRead := false) == before.messages[k].(isRead := false))
    && (forall k :: 0 <= k < |firsts| ==> Stores(after.messages[|before.messages| + k], firsts[k]))
    && |after.jobs| == |before.jobs| + |firsts| && after.jobs[..|before.jobs|] == before.jobs
    && (forall j :: |before.jobs| <= j < |after.jobs| ==>
          after.jobs[j] == JobFor(after.messages, j - |before.jobs| + |before.messages|))
  }

  lemma {:induction false} FirstsIds(before: seq<Message>, ms: seq<Inbound>, id: string)
    ensures HasId(Firsts(before, ms), id) <==> HasId(ms, id) && !Stored(before, id)
  {
    if ms != [] {
      var n := |ms| - 1;
      var front := ms[..n];
      FirstsIds(before, front, id);
      HasIdSnoc(ms, id);
      if Stored(before, ms[n].waMessageId) || HasId(front, ms[n].waMessageId) {
        assert Firsts(before, ms) == Firsts(before, front);
      } else {
        var fs := Firsts(before, front) + [ms[n]];
        assert Firsts(before, ms) == fs;
        assert fs[..|fs| - 1] == Firsts(before, front);
        HasIdSnoc(fs, id);
      }
    }
  }

  lemma HasIdSnoc(ms: seq<Inbound>, id: string)
    requires ms != []
    ensures HasId(ms, id) <==> HasId(ms[..|ms| - 1], id) || ms[|ms| - 1].waMessageId == id
  {
    var front := ms[..|ms| - 1];
    assert forall i :: 0 <= i < |front| ==> front[i] == ms[i];
    if HasId(front, id) {
      var i :| 0 <= i < |front| && front[i].waMessageId == id;
      assert ms[i].waMessageId == id;
    }
    if HasId(ms, id) && ms[|ms| - 1].waMessageId != id {
      var i :| 0 <= i < |ms| && ms[i].waMessageId == id;
      assert front[i].waMessageId == id;
    }
  }

  /** What is stored is what was stored before or arrived first since. */
  lemma StoredIff(before: Db, after: Db, firsts: seq<Inbound>, id: string)
    requires OncePerId(before, after, firsts)
    ensures Stored(after.messages, id) <==> Stored(before.messages, id) || HasId(firsts, id)
  {
    var n := |before.messages|;
    if Stored(after.messages, id) {
      var i :| 0 <= i < |after.messages| && after.messages[i].waMessageId == Some(id);
      if i < n {
        assert before.messages[i].waMessageId == after.messages[i].waMessageId;
      } else {
        assert Stores(after.messages[n + (i - n)], firsts[i - n]);
      }
    }
    if Stored(before.messages, id) {
      var i :| 0 <= i < n && before.messages[i].waMessageId == Some(id);
      assert after.messages[i].waMessageId == Some(id);
    }
    if HasId(firsts, id) {
      var i :| 0 <= i < |firsts| && firsts[i].waMessageId == id;
      assert Stores(after.messages[n + i], firsts[i]);
    }
  }

  lemma RepeatIsIgnored(accounts: seq<Account>, db: Db, p: Provider, m: Inbound, now: nat)
    requires m.waMessageId != "" && Stored(db.messages, m.waMessageId)
    ensures Ingest(accounts, db, p, m, now) == db
  {
  }

  /** Delivering one message twice in a row is delivering it once, at whatever times, exactly when the message is
      refused anyway or carries an id; without an id it is stored each time. */
  lemma RepeatIgnoredIff(accounts: seq<Account>, db: Db, p: Provider, m: Inbound, now: nat, again: nat)
    ensures var once := Ingest(accounts, db, p, m, now);
      Ingest(accounts, once, p, m, again) == once <==> !Accepted(accounts, p, m) || m.waMessageId != ""
  {
    hide Accepted;
    var once := Ingest(accounts, db, p, m, now);
    if Accepted(accounts, p, m) {
      if m.waMessageId != "" {
        if !Stored(db.messages, m.waMessageId) {
          assert once.messages[|db.messages|].waMessageId == Some(m.waMessageId);
        }
        RepeatIsIgnored(accounts, once, p, m, again);
      } else {
        assert |Ingest(accounts, once, p, m, again).messages| == |once.messages| + 1;
      }
    }
  }

  lemma NothingYet(db: Db)
    ensures OncePerId(db, db, [])
  {
    assert db.jobs[..|db.jobs|] == db.jobs;
  }

  /** At-least-once delivery, exactly-once storage: after any run of events with non-empty ids, interleaved with
      any conversation changes, one row and one job per distinct accepted id, in order of first arrival and
      with the first arrival's content. */
  lemma {:induction false} ExactlyOnce(accounts: seq<Account>, db: Db, steps: seq<Step>)
    requires Identified(steps)
    ensures OncePerId(db, Run(accounts, db, steps), Firsts(db.messages, Arrivals(accounts, steps)))
  {
    hide Ingest, MarkAll, OncePerId, Stored, HasId, Accepted;
    if steps == [] {
      NothingYet(db);
    } else {
      var n := |steps| - 1;
      var front := steps[..n];
      var step := steps[n];
      assert forall i :: 0 <= i < n ==> front[i] == steps[i];
      ExactlyOnce(accounts, db, front);
      var mid := Run(accounts, db, front);
      var ms := Arrivals(accounts, front);
      var firsts := Firsts(db.messages, ms);
      if step.Arrive? && Accepted(accounts, step.provider, step.m) {
        var m := step.m;
        var all := ms + [m];
        assert Arrivals(accounts, steps) == all && all[..|all| - 1] == ms;
        StoredIff(db, mid, firsts, m.waMessageId);
        FirstsIds(db.messages, ms, m.waMessageId);
        if Stored(mid.messages, m.waMessageId) {
          assert Firsts(db.messages, all) == firsts;
          RepeatIsIgnored(accounts, mid, step.provider, m, step.now);
        } else {
          OnceMore(accounts, db, mid, firsts, step.provider, m, step.now);
        }
      } else {
        assert Arrivals(accounts, steps) == ms;
        OthersStoreNothing(accounts, db, mid, firsts, step);
      }
    }
  }

  /** A refused arrival, a status report or a conversation change adds no row and no job. */
  lemma OthersStoreNothing(accounts: seq<Account>, db: Db, mid: Db, firsts: seq<Inbound>, step: Step)
    requires OncePerId(db, mid, firsts) && (step.Arrive? ==> !Accepted(accounts, step.provider, step.m))
    ensures OncePerId(db, Next(accounts, mid, step), firsts)
  {
    hide Accepted;
    if step.Report? {
      var after := Next(accounts, mid, step);
      assert forall k :: 0 <= k < |mid.messages| ==> after.messages[k] == Mark(mid.messages[k], step.s);
    }
  }

  lemma OnceMore(accounts: seq<Account>, db: Db, mid: Db, firsts: seq<Inbound>, p: Provider, m: Inbound, now: nat)
    requires OncePerId(db, mid, firsts) && Accepted(accounts, p, m) && m.waMessageId != "" && !Stored(mid.messages, m.waMessageId)
    ensures OncePerId(db, Ingest(accounts, mid, p, m, now), firsts + [m])
  {
    var after := Ingest(accounts, mid, p, m, now);
    assert forall k :: 0 <= k < |mid.messages| ==> after.messages[k] == mid.messages[k];
    assert forall k :: 0 <= k < |mid.jobs| ==> after.jobs[k] == mid.jobs[k];
    assert after.jobs[..|db.jobs|] == mid.jobs[..|db.jobs|];
  }

  // ---- where a message lands ----

  /** Conversation c belongs to an account with this provider and identifier, to that account's client, and to a
      contact of that client with the sender's number. */
  ghost predicate Between(accounts: seq<Account>, db: Db, c: nat, p: Provider, m: Inbound) {
    && c < |db.conversations| && db.conversations[c].contact < |db.contacts|
    && var conv := db.conversations[c]; var contact := db.contacts[conv.contact];
       && (exists a :: a in accounts && a.provider == p && a.identifier == m.toAccount
                       && conv.accountId == a.id && conv.clientId == a.clientId)
       && contact.clientId == conv.clientId && contact.phone == m.fromPhone
  }

  /** Row k holds the message, inbound and in the conversation of the two parties. */
  ghost predicate Landed(accounts: seq<Account>, db: Db, k: nat, p: Provider, m: Inbound) {
    && k < |db.messages| && db.messages[k].inbound && db.messages[k].content == m.content
    && db.messages[k].waMessageId == (if m.waMessageId == "" then None else Some(m.waMessageId))
    && Between(accounts, db, db.messages[k].conversation, p, m)
  }

  lemma AcceptedIff(accounts: seq<Account>, p: Provider, m: Inbound)
    ensures Accepted(accounts, p, m)
            <==> m.fromPhone != "" && exists a :: a in accounts && a.provider == p && a.identifier == m.toAccount
  {
  }

  /** One accepted new message adds one row and one job in a conversation of the two parties that is not resolved.
      A conversation is opened only if all those of the parties are resolved, a contact only if the client has none
      with the number, and every other contact and conversation stays as it was. */
  lemma IngestLands(accounts: seq<Account>, db: Db, p: Provider, m: Inbound, now: nat)
    requires Accepted(accounts, p, m) && (m.waMessageId != "" ==> !Stored(db.messages, m.waMessageId))
    ensures var t := Ingest(accounts, db, p, m, now); var n := |db.messages|;
      && |t.messages| == n + 1 && t.messages[..n] == db.messages && Landed(accounts, t, n, p, m) && !t.messages[n].isRead
      && t.jobs == db.jobs + [Job(n, t.messages[n].conversation)]
      && var c := t.messages[n].conversation;
         && !t.conversations[c].status.RESOLVED? && t.conversations[c].lastMessageAt == Some(now)
         && |db.conversations| <= |t.conversations| <= |db.conversations| + 1
         && (forall j :: 0 <= j < |db.conversations| && j != c ==> t.conversations[j] == db.conversations[j])
         && (c < |db.conversations| ==> |t.conversations| == |db.conversations|
                                        && t.conversations[c] == db.conversations[c].(lastMessageAt := Some(now)))
         && (c >= |db.conversations| ==> forall j :: 0 <= j < |db.conversations| && SamePair(db.conversations[j], t.conversations[c])
                                          ==> db.conversations[j].status.RESOLVED?)
  {
    var acct := FindAccount(accounts, p, m.toAccount).value;
    var (contacts, contact) := UpsertContact(db.contacts, acct.clientId, m, now);
    UpsertIs(db.contacts, acct.clientId, m, now);
    var t := Ingest(accounts, db, p, m, now);
    assert t.messages[..|db.messages|] == db.messages;
    assert t.contacts == contacts;
    var c := t.messages[|db.messages|].conversation;
    assert t.conversations[c].accountId == acct.id && t.conversations[c].clientId == acct.clientId && t.conversations[c].contact == contact;
  }

  /** The contact of the client with the sender's number, seen now and renamed if the sender gave a name; it is
      created only if there was none, and no other contact changes. */
  lemma UpsertIs(cs: seq<Contact>, clientId: string, m: Inbound, now: nat)
    ensures var (after, i) := UpsertContact(cs, clientId, m, now);
      && i < |after| && after[i].clientId == clientId && after[i].phone == m.fromPhone && after[i].lastSeenAt == now
      && (m.pushName.Some? ==> after[i].name == m.pushName)
      && (forall j :: 0 <= j < |cs| && j != i ==> after[j] == cs[j])
      && (if i < |cs| then |after| == |cs| && (m.pushName.None? ==> after[i].name == cs[i].name)
          else |after| == |cs| + 1 && after[i].name == m.pushName
               && forall j :: 0 <= j < |cs| ==> cs[j].clientId != clientId || cs[j].phone != m.fromPhone)
  {
  }

  /** Nobody moves: rows stay in their conversations, conversations with their parties, contacts keep their number. */
  ghost predicate Stays(before: Db, after: Db) {
    && |before.contacts| <= |after.contacts| && |before.conversations| <= |after.conversations|
    && |before.messages| <= |after.messages|
    && (forall j :: 0 <= j < |before.contacts| ==>
          after.contacts[j].clientId == before.contacts[j].clientId && after.contacts[j].phone == before.contacts[j].phone)
    && (forall j :: 0 <= j < |before.conversations| ==> SamePair(before.conversations[j], after.conversations[j]))
    && (forall j :: 0 <= j < |before.messages| ==> after.messages[j].(isRead := false) == before.messages[j].(isRead := false))
  }

  lemma StepStays(accounts: seq<Account>, db: Db, step: Step)
    ensures Stays(db, Next(accounts, db, step))
  {
    hide Ingest;
    if step.Arrive? {
      IngestStays(accounts, db, step.provider, step.m, step.now);
    }
  }

  lemma IngestStays(accounts: seq<Account>, db: Db, p: Provider, m: Inbound, now: nat)
    ensures Stays(db, Ingest(accounts, db, p, m, now))
  {
    if Accepted(accounts, p, m) {
      UpsertIs(db.contacts, FindAccount(accounts, p, m.toAccount).value.clientId, m, now);
    }
  }

  lemma LandedStays(accounts: seq<Account>, before: Db, after: Db, k: nat, p: Provider, m: Inbound)
    requires Landed(accounts, before, k, p, m) && Stays(before, after)
    ensures Landed(accounts, after, k, p, m)
  {
    var was, row := before.messages[k], after.messages[k];
    assert row.(isRead := false) == was.(isRead := false);
    assert row.inbound == was.(isRead := false).inbound && row.content == was.(isRead := false).content;
    assert SamePair(before.conversations[was.conversation], after.conversations[was.conversation]);
  }

  /** Row k is where an arrival of this message, among these steps, belongs. */
  ghost predicate LandedFrom(accounts: seq<Account>, db: Db, k: nat, steps: seq<Step>, m: Inbound) {
    exists j :: 0 <= j < |steps| && steps[j].Arrive? && steps[j].m == m && Landed(accounts, db, k, steps[j].provider, m)
  }

  ghost predicate AllLanded(accounts: seq<Account>, before: Db, after: Db, steps: seq<Step>, firsts: seq<Inbound>) {
    forall k :: 0 <= k < |firsts| ==> LandedFrom(accounts, after, |before.messages| + k, steps, firsts[k])
  }

  lemma LandedFromStays(accounts: seq<Account>, mid: Db, k: nat, steps: seq<Step>, m: Inbound)
    requires steps != [] && LandedFrom(accounts, mid, k, steps[..|steps| - 1], m)
    ensures LandedFrom(accounts, Next(accounts, mid, steps[|steps| - 1]), k, steps, m)
  {
    hide Next, Landed, Stays;
    var front := steps[..|steps| - 1];
    var after := Next(accounts, mid, steps[|steps| - 1]);
    var j :| 0 <= j < |front| && front[j].Arrive? && front[j].m == m && Landed(accounts, mid, k, front[j].provider, m);
    StepStays(accounts, mid, steps[|steps| - 1]);
    LandedStays(accounts, mid, after, k, front[j].provider, m);
    assert steps[j] == front[j];
  }

  /** The message a step brings for the first time. */
  function Fresh(accounts: seq<Account>, before: seq<Message>, ms: seq<Inbound>, step: Step): seq<Inbound> {
    if step.Arrive? && Accepted(accounts, step.provider, step.m)
       && !Stored(before, step.m.waMessageId) && !HasId(ms, step.m.waMessageId)
    then [step.m] else []
  }

  lemma FirstsStep(accounts: seq<Account>, before: seq<Message>, steps: seq<Step>)
    requires steps != []
    ensures var ms := Arrivals(accounts, steps[..|steps| - 1]);
      Firsts(before, Arrivals(accounts, steps)) == Firsts(before, ms) + Fresh(accounts, before, ms, steps[|steps| - 1])
  {
    hide Accepted, Stored, HasId;
    var ms := Arrivals(accounts, steps[..|steps| - 1]);
    var step := steps[|steps| - 1];
    if step.Arrive? && Accepted(accounts, step.provider, step.m) {
      var all := ms + [step.m];
      assert Arrivals(accounts, steps) == all && all[..|all| - 1] == ms;
    } else {
      assert Arrivals(accounts, steps) == ms;
    }
  }

  /** Every message lands with its parties: after any run of identified events, interleaved with any conversation
      changes, the row of every first arrival lies in a conversation between its sender and the account it was sent
      to, with that account's client. */
  lemma {:induction false} LandsWhereSent(accounts: seq<Account>, db: Db, steps: seq<Step>)
    requires Identified(steps)
    ensures AllLanded(accounts, db, Run(accounts, db, steps), steps, Firsts(db.messages, Arrivals(accounts, steps)))
  {
    hide OncePerId, Stored, HasId, Accepted, Next, LandedFrom, Firsts, Arrivals;
    if steps == [] {
      assert Firsts(db.messages, Arrivals(accounts, steps)) == [] by { NoFirsts(accounts, db.messages, steps); }
    } else {
      var front := steps[..|steps| - 1];
      assert forall i :: 0 <= i < |front| ==> front[i] == steps[i];
      LandsWhereSent(accounts, db, front);
      var mid := Run(accounts, db, front);
      var firsts := Firsts(db.messages, Arrivals(accounts, front));
      FirstsStep(accounts, db.messages, steps);
      forall k | 0 <= k < |firsts|
        ensures LandedFrom(accounts, Next(accounts, mid, steps[|front|]), |db.messages| + k, steps, firsts[k])
      {
        LandedFromStays(accounts, mid, |db.messages| + k, steps, firsts[k]);
      }
      NewRowLands(accounts, db, steps);
    }
  }

  lemma NoFirsts(accounts: seq<Account>, before: seq<Message>, steps: seq<Step>)
    requires steps == []
    ensures Firsts(before, Arrivals(accounts, steps)) == []
  {
  }

  lemma NewRowLands(accounts: seq<Account>, db: Db, steps: seq<Step>)
    requires steps != [] && Identified(steps)
    ensures var front := steps[..|steps| - 1]; var last := steps[|front|];
      var firsts := Firsts(db.messages, Arrivals(accounts, front));
      Fresh(accounts, db.messages, Arrivals(accounts, front), last) != [] ==>
        LandedFrom(accounts, Next(accounts, Run(accounts, db, front), last), |db.messages| + |firsts|, steps, last.m)
  {
    hide Run, Landed, Accepted, Stored, HasId, Firsts, Arrivals, Ingest;
    var front := steps[..|steps| - 1];
    var last := steps[|front|];
    assert forall i :: 0 <= i < |front| ==> front[i] == steps[i];
    var ms := Arrivals(accounts, front);
    if Fresh(accounts, db.messages, ms, last) != [] {
      ExactlyOnce(accounts, db, front);
      FirstsIds(db.messages, ms, last.m.waMessageId);
      StoredIff(db, Run(accounts, db, front), Firsts(db.messages, ms), last.m.waMessageId);
      IngestLands(accounts, Run(accounts, db, front), last.provider, last.m, last.now);
    }
  }

  // ---- contacts ----

  ghost predicate UniqueContacts(cs: seq<Contact>) {
    forall i, j :: 0 <= i < j < |cs| ==> cs[i].clientId != cs[j].clientId || cs[i].phone != cs[j].phone
  }

  /** At most one conversation per contact and account that is not resolved. */
  ghost predicate OneLive(cs: seq<Conversation>) {
    forall i, j :: 0 <= i < j < |cs| ==> !SamePair(cs[i], cs[j]) || cs[i].status.RESOLVED? || cs[j].status.RESOLVED?
  }

  predicate SamePair(c: Conversation, d: Conversation) {
    c.clientId == d.clientId && c.contact == d.contact && c.accountId == d.accountId
  }

  lemma UpsertUnique(cs: seq<Contact>, clientId: string, m: Inbound, now: nat)
    requires UniqueContacts(cs)
    ensures UniqueContacts(UpsertContact(cs, clientId, m, now).0)
  {
  }

  lemma OpenOneLive(cs: seq<Conversation>, clientId: string, contact: nat, accountId: string)
    requires OneLive(cs)
    ensures OneLive(OpenConversation(cs, clientId, contact, accountId).0)
  {
  }

  lemma UniqueStep(accounts: seq<Account>, db: Db, step: Step)
    requires UniqueContacts(db.contacts)
    ensures UniqueContacts(Next(accounts, db, step).contacts)
  {
    if step.Arrive? && Accepted(accounts, step.provider, step.m) {
      UpsertUnique(db.contacts, FindAccount(accounts, step.provider, step.m.toAccount).value.clientId, step.m, step.now);
    }
  }

  /** Contacts stay unique per client and phone over any run. */
  lemma {:induction false} RunUniqueContacts(accounts: seq<Account>, db: Db, steps: seq<Step>)
    requires UniqueContacts(db.contacts)
    ensures UniqueContacts(Run(accounts, db, steps).contacts)
  {
    hide Next;
    if steps != [] {
      RunUniqueContacts(accounts, db, steps[..|steps| - 1]);
      UniqueStep(accounts, Run(accounts, db, steps[..|steps| - 1]), steps[|steps| - 1]);
    }
  }

  /** Ingestion alone never opens a second conversation beside one that is not resolved. */
  lemma {:induction false} IngestKeepsOneLive(accounts: seq<Account>, db: Db, steps: seq<Step>)
    requires OneLive(db.conversations) && forall i :: 0 <= i < |steps| ==> !steps[i].SetStatus?
    ensures OneLive(Run(accounts, db, steps).conversations)
  {
    if steps != [] {
      var n := |steps| - 1;
      assert forall i :: 0 <= i < n ==> steps[..n][i] == steps[i];
      IngestKeepsOneLive(accounts, db, steps[..n]);
      var mid := Run(accounts, db, steps[..n]);
      var step := steps[n];
      if step.Arrive? && Accepted(accounts, step.provider, step.m) {
        var acct := FindAccount(accounts, step.provider, step.m.toAccount).value;
        var contact := UpsertContact(mid.contacts, acct.clientId, step.m, step.now).1;
        OpenOneLive(mid.conversations, acct.clientId, contact, acct.id);
      }
    }
  }

  // ---- replay ----

  lemma {:induction false} RunConcat(accounts: seq<Account>, db: Db, xs: seq<Step>, ys: seq<Step>)
    ensures Run(accounts, db, xs + ys) == Run(accounts, Run(accounts, db, xs), ys)
  {
    hide Next;
    if ys == [] {
      assert xs + ys == xs;
    } else {
      var front := ys[..|ys| - 1];
      assert (xs + ys)[..|xs + ys| - 1] == xs + front;
      RunConcat(accounts, db, xs, front);
    }
  }

  /** Nothing in these events is new to the table. */
  ghost predicate AllKnown(accounts: seq<Account>, db: Db, provider: Provider, batch: seq<Inbound>) {
    forall i :: 0 <= i < |batch| && Accepted(accounts, provider, batch[i]) ==> Stored(db.messages, batch[i].waMessageId)
  }

  predicate Nonempty(batch: seq<Inbound>) { forall i :: 0 <= i < |batch| ==> batch[i].waMessageId != "" }

  lemma {:induction false} KnownIsIgnored(accounts: seq<Account>, db: Db, provider: Provider, batch: seq<Inbound>, now: nat)
    requires Nonempty(batch) && AllKnown(accounts, db, provider, batch)
    ensures Run(accounts, db, ArriveAll(provider, batch, now)) == db
  {
    if batch != [] {
      var n := |batch| - 1;
      var steps := ArriveAll(provider, batch, now);
      assert steps[..n] == ArriveAll(provider, batch[..n], now);
      assert forall i :: 0 <= i < n ==> batch[..n][i] == batch[i];
      KnownIsIgnored(accounts, db, provider, batch[..n], now);
    }
  }

  lemma {:induction false} BatchIsStored(accounts: seq<Account>, db: Db, provider: Provider, batch: seq<Inbound>, now: nat)
    requires Nonempty(batch)
    ensures AllKnown(accounts, Run(accounts, db, ArriveAll(provider, batch, now)), provider, batch)
  {
    if batch != [] {
      var n := |batch| - 1;
      var steps := ArriveAll(provider, batch, now);
      assert steps[..n] == ArriveAll(provider, batch[..n], now);
      BatchIsStored(accounts, db, provider, batch[..n], now);
      var mid := Run(accounts, db, steps[..n]);
      var after := Run(accounts, db, steps);
      forall i | 0 <= i < |batch| && Accepted(accounts, provider, batch[i])
        ensures Stored(after.messages, batch[i].waMessageId)
      {
        if i < n {
          assert batch[..n][i] == batch[i];
          var j :| 0 <= j < |mid.messages| && mid.messages[j].waMessageId == Some(batch[i].waMessageId);
          assert after.messages[j].waMessageId == Some(batch[i].waMessageId);
        } else if !Stored(mid.messages, batch[n].waMessageId) {
          assert after.messages[|mid.messages|].waMessageId == Some(batch[n].waMessageId);
        }
      }
    }
  }

  /** The mark the last status of an id leaves. */
  function LastMark(statuses: seq<Status>, id: Option<string>): Option<bool> {
    if statuses == [] then None
    else if id == Some(statuses[|statuses| - 1].waMessageId) then Some(statuses[|statuses| - 1].status in ["read", "delivered"])
    else LastMark(statuses[..|statuses| - 1], id)
  }

  function Marked(m: Message, statuses: seq<Status>): Message {
    var last := LastMark(statuses, m.waMessageId);
    if last.Some? then m.(isRead := last.value) else m
  }

  /** Statuses touch nothing but read marks, and of each id only the last one counts. */
  lemma {:induction false} ReportsMark(accounts: seq<Account>, db: Db, statuses: seq<Status>)
    ensures Run(accounts, db, ReportAll(statuses))
            == db.(messages := seq(|db.messages|, i requires 0 <= i < |db.messages| => Marked(db.messages[i], statuses)))
  {
    if statuses == [] {
      assert seq(|db.messages|, i requires 0 <= i < |db.messages| => Marked(db.messages[i], statuses)) == db.messages;
    } else {
      var n := |statuses| - 1;
      assert ReportAll(statuses)[..n] == ReportAll(statuses[..n]);
      ReportsMark(accounts, db, statuses[..n]);
    }
  }

  /** Delivering a batch of identified messages and statuses again, at whatever time, leaves the state as it is. */
  lemma ReplayChangesNothing(accounts: seq<Account>, db: Db, provider: Provider, batch: seq<Inbound>,
                             statuses: seq<Status>, now: nat, again: nat)
    requires Nonempty(batch)
    ensures var once := Run(accounts, db, BatchSteps(provider, batch, statuses, now));
      Run(accounts, once, BatchSteps(provider, batch, statuses, again)) == once
  {
    hide Run, Next, Ingest;
    var arrived := Run(accounts, db, ArriveAll(provider, batch, now));
    var once := Run(accounts, db, BatchSteps(provider, batch, statuses, now));
    RunConcat(accounts, db, ArriveAll(provider, batch, now), ReportAll(statuses));
    BatchIsStored(accounts, db, provider, batch, now);
    ReportsMark(accounts, arrived, statuses);
    forall i | 0 <= i < |batch| && Accepted(accounts, provider, batch[i])
      ensures Stored(once.messages, batch[i].waMessageId)
    {
      var j :| 0 <= j < |arrived.messages| && arrived.messages[j].waMessageId == Some(batch[i].waMessageId);
      assert once.messages[j].waMessageId == Some(batch[i].waMessageId);
    }
    RunConcat(accounts, once, ArriveAll(provider, batch, again), ReportAll(statuses));
    KnownIsIgnored(accounts, once, provider, batch, again);
    ReportsMark(accounts, once, statuses);
    assert forall i :: 0 <= i < |once.messages| ==> Marked(once.messages[i], statuses) == once.messages[i];
  }
}
