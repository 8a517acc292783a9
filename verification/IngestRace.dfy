/**
 Webhook ingestion by many handlers at once: every database and queue operation is one step, any of them may
 fail, and the unique column on message ids is what keeps concurrent deliveries of one message apart.
 */
module IngestRace {
  import opened Wrappers
  import opened WebhookIngest

  /** What became of a delivery; a row is the message it had stored by then. */
  datatype End = Ignored | Duplicate | Queued(row: nat) | Broken(left: Option<nat>)

  /** What a handler is about to do next. */
  datatype Phase =
    | Arrived                       // look for the message id
    | Screened                      // upsert the contact
    | Known(contact: nat)           // look for an open conversation
    | Unplaced(contact: nat)        // create one
    | Placed(conversation: nat)     // create the message
    | Written(row: nat)             // note the time in the conversation
    | Noted(row: nat)               // queue the job
    | Ended(end: End)

  /** One delivery of a message to a known account. */
  datatype Handler = Handler(m: Inbound, clientId: string, accountId: string, phase: Phase)

  datatype World = World(db: Db, handlers: seq<Handler>)

  /** `up` says whether the operation succeeds. Meanwhile outbound rows are written, by the campaign worker with their
      id and otherwise without, the outbound worker fills ids in, and agents and flows set statuses. */
  datatype Move =
    | Deliver(clientId: string, accountId: string, m: Inbound)
    | Go(h: nat, now: nat, up: bool)
    | WriteOutbound(conversation: nat, id: Option<string>)
    | SetId(row: nat, column: string)
    | SetStatus(conversation: nat, status: ConversationStatus)

  // ---- one operation ----

  function RowOf(p: Phase): Option<nat> {
    match p
    case Written(r) => Some(r)
    case Noted(r) => Some(r)
    case Ended(Queued(r)) => Some(r)
    case Ended(Broken(r)) => r
    case _ => None
  }

  function Column(m: Inbound): Option<string> { if m.waMessageId == "" then None else Some(m.waMessageId) }

  predicate Taken(db: Db, id: Option<string>) { id.Some? && Stored(db.messages, id.value) }

  /** What a successful operation does. Creating a row with a taken id throws. */
  function Operate(db: Db, h: Handler, now: nat): (Db, Phase) {
    match h.phase
    case Arrived =>
      if Taken(db, Column(h.m)) then (db, Ended(Duplicate))
      else if h.m.fromPhone == "" then (db, Ended(Ignored))
      else (db, Screened)
    case Screened =>
      var (contacts, contact) := UpsertContact(db.contacts, h.clientId, h.m, now);
      (db.(contacts := contacts), Known(contact))
    case Known(contact) =>
      var found := FindConversation(db.conversations, h.clientId, contact, h.accountId);
      (db, if found.Some? then Placed(found.value) else Unplaced(contact))
    case Unplaced(contact) =>
      (db.(conversations := db.conversations + [Conversation(h.clientId, contact, h.accountId, OPEN, None)]), Placed(|db.conversations|))
    case Placed(conv) =>
      if Taken(db, Column(h.m)) then (db, Ended(Broken(None)))
      else (db.(messages := db.messages + [Message(Column(h.m), true, conv, h.m.content, false)]), Written(|db.messages|))
    case Written(row) =>
      var conv := if row < |db.messages| then db.messages[row].conversation else 0;
      (if conv < |db.conversations| then db.(conversations := db.conversations[conv := db.conversations[conv].(lastMessageAt := Some(now))])
       else db, Noted(row))
    case Noted(row) =>
      (db.(jobs := db.jobs + [Job(row, if row < |db.messages| then db.messages[row].conversation else 0)]), Ended(Queued(row)))
    case Ended(_) => (db, h.phase)
  }

  /** A failed operation changes nothing and ends the handler, whose error is logged. */
  function Perform(db: Db, h: Handler, now: nat, up: bool): (Db, Phase) {
    if up || h.phase.Ended? then Operate(db, h, now) else (db, Ended(Broken(RowOf(h.phase))))
  }

  function Next(w: World, move: Move): World {
    match move
    case Deliver(client, account, m) => w.(handlers := w.handlers + [Handler(m, client, account, Arrived)])
    case Go(i, now, up) =>
      if i >= |w.handlers| then w
      else
        var (db, phase) := Perform(w.db, w.handlers[i], now, up);
        World(db, w.handlers[i := w.handlers[i].(phase := phase)])
    case WriteOutbound(conv, id) =>
      if Taken(w.db, id) then w else w.(db := w.db.(messages := w.db.messages + [Message(id, false, conv, None, false)]))
    case SetId(r, id) =>
      if r < |w.db.messages| && !w.db.messages[r].inbound && w.db.messages[r].waMessageId.None? && !Taken(w.db, Some(id))
      then w.(db := w.db.(messages := w.db.messages[r := w.db.messages[r].(waMessageId := Some(id))]))
      else w
    case SetStatus(c, status) =>
      if c < |w.db.conversations|
      then w.(db := w.db.(conversations := w.db.conversations[c := w.db.conversations[c].(status := status)]))
      else w
  }

  const EMPTY := World(Db([], [], [], []), [])

  function Run(moves: seq<Move>): World {
    if moves == [] then EMPTY else Next(Run(moves[..|moves| - 1]), moves[|moves| - 1])
  }

  // ---- rows, owners and jobs ----

  ghost predicate UniqueColumn(rows: seq<Message>) {
    forall i, j :: 0 <= i < j < |rows| && rows[i].waMessageId.Some? ==> rows[i].waMessageId != rows[j].waMessageId
  }

  predicate Owns(h: Handler, r: nat) { RowOf(h.phase) == Some(r) }

  /** Every handler's row is its message, no two handlers have the same row, and every inbound row has a handler. */
  ghost predicate RowsOwned(w: World) {
    && (forall i :: 0 <= i < |w.handlers| && RowOf(w.handlers[i].phase).Some? ==>
          && RowOf(w.handlers[i].phase).value < |w.db.messages|
          && w.db.messages[RowOf(w.handlers[i].phase).value].inbound
          && w.db.messages[RowOf(w.handlers[i].phase).value].waMessageId == Column(w.handlers[i].m)
          && w.db.messages[RowOf(w.handlers[i].phase).value].content == w.handlers[i].m.content)
    && (forall i, j :: 0 <= i < j < |w.handlers| && RowOf(w.handlers[i].phase).Some? ==>
          RowOf(w.handlers[i].phase) != RowOf(w.handlers[j].phase))
    && (forall r :: 0 <= r < |w.db.messages| && w.db.messages[r].inbound ==> HasOwner(w.handlers, r))
  }

  predicate HasOwner(hs: seq<Handler>, r: nat) { exists i :: 0 <= i < |hs| && Owns(hs[i], r) }

  predicate IsQueued(p: Phase) { p.Ended? && p.end.Queued? }

  predicate HasQueuer(hs: seq<Handler>, r: nat) { exists i :: 0 <= i < |hs| && hs[i].phase == Ended(Queued(r)) }

  predicate HasJob(jobs: seq<Job>, r: nat) { exists k :: 0 <= k < |jobs| && jobs[k].message == r }

  /** There is a job for a row exactly when the row's handler got to queue it, and never a second one. */
  ghost predicate JobsMatch(w: World) {
    && (forall k :: 0 <= k < |w.db.jobs| ==> HasQueuer(w.handlers, w.db.jobs[k].message))
    && (forall i :: 0 <= i < |w.handlers| && IsQueued(w.handlers[i].phase) ==> HasJob(w.db.jobs, w.handlers[i].phase.end.row))
    && (forall k, l :: 0 <= k < l < |w.db.jobs| ==> w.db.jobs[k].message != w.db.jobs[l].message)
  }

  /** A delivery that ended as stored or as a duplicate left its message in the table. */
  ghost predicate EndsStored(w: World) {
    forall i :: 0 <= i < |w.handlers| && w.handlers[i].phase.Ended? && w.handlers[i].phase.end.Duplicate? ==>
      Taken(w.db, Column(w.handlers[i].m))
  }

  ghost predicate Inv(w: World) {
    UniqueColumn(w.db.messages) && RowsOwned(w) && JobsMatch(w) && EndsStored(w) && UniqueContacts(w.db.contacts)
  }

  // ---- steps ----

  lemma OwnerStays(hs: seq<Handler>, hs': seq<Handler>, r: nat)
    requires HasOwner(hs, r) && |hs| <= |hs'|
    requires forall i :: 0 <= i < |hs| && RowOf(hs[i].phase).Some? ==> RowOf(hs'[i].phase) == RowOf(hs[i].phase)
    ensures HasOwner(hs', r)
  {
    var i :| 0 <= i < |hs| && Owns(hs[i], r);
    assert Owns(hs'[i], r);
  }

  lemma OwnersStay(w: World, w': World)
    requires RowsOwned(w) && |w.handlers| <= |w'.handlers|
    requires forall i :: 0 <= i < |w.handlers| && RowOf(w.handlers[i].phase).Some? ==>
      RowOf(w'.handlers[i].phase) == RowOf(w.handlers[i].phase)
    ensures forall r :: 0 <= r < |w.db.messages| && w.db.messages[r].inbound ==> HasOwner(w'.handlers, r)
  {
    hide HasOwner, RowOf;
    forall r | 0 <= r < |w.db.messages| && w.db.messages[r].inbound
      ensures HasOwner(w'.handlers, r)
    {
      OwnerStays(w.handlers, w'.handlers, r);
    }
  }

  /** The same rows, jobs and handlers, except that handler i changed phase and kept its row. */
  lemma SameRows(w: World, w': World, i: nat, p: Phase)
    requires RowsOwned(w) && i < |w.handlers| && w'.handlers == w.handlers[i := w.handlers[i].(phase := p)]
    requires w'.db.messages == w.db.messages && RowOf(p) == RowOf(w.handlers[i].phase)
    ensures RowsOwned(w')
  {
    hide HasOwner, RowOf;
    OwnersStay(w, w');
  }

  lemma SameJobs(w: World, w': World, i: nat, p: Phase)
    requires JobsMatch(w) && i < |w.handlers| && w'.handlers == w.handlers[i := w.handlers[i].(phase := p)]
    requires w'.db.jobs == w.db.jobs
    requires p == w.handlers[i].phase || (!IsQueued(p) && !IsQueued(w.handlers[i].phase))
    ensures JobsMatch(w')
  {
    hide HasJob, HasQueuer;
    forall k | 0 <= k < |w'.db.jobs|
      ensures HasQueuer(w'.handlers, w'.db.jobs[k].message)
    {
      QueuerStays(w.handlers, w'.handlers, w.db.jobs[k].message);
    }
  }

  lemma QueuerStays(hs: seq<Handler>, hs': seq<Handler>, r: nat)
    requires HasQueuer(hs, r) && |hs| <= |hs'|
    requires forall i :: 0 <= i < |hs| && IsQueued(hs[i].phase) ==> hs'[i].phase == hs[i].phase
    ensures HasQueuer(hs', r)
  {
    var i :| 0 <= i < |hs| && hs[i].phase == Ended(Queued(r));
    assert hs'[i].phase == Ended(Queued(r));
  }

  lemma JobStays(jobs: seq<Job>, job: Job, r: nat)
    ensures HasJob(jobs, r) ==> HasJob(jobs + [job], r)
    ensures HasJob(jobs + [job], job.message)
  {
    var more := jobs + [job];
    assert more[|jobs|].message == job.message;
    if HasJob(jobs, r) {
      var k :| 0 <= k < |jobs| && jobs[k].message == r;
      assert more[k].message == r;
    }
  }

  /** Handler i stores its message. */
  lemma NewRow(w: World, w': World, i: nat, row: Message)
    requires RowsOwned(w) && i < |w.handlers| && RowOf(w.handlers[i].phase).None?
    requires w'.handlers == w.handlers[i := w.handlers[i].(phase := Written(|w.db.messages|))]
    requires w'.db.messages == w.db.messages + [row] && row.inbound
    requires row.waMessageId == Column(w.handlers[i].m) && row.content == w.handlers[i].m.content
    ensures RowsOwned(w')
  {
    hide HasOwner;
    OwnersStay(w, w');
    NowOwned(w'.handlers, i, |w.db.messages|);
  }

  lemma NowOwned(hs: seq<Handler>, i: nat, r: nat)
    requires i < |hs| && Owns(hs[i], r)
    ensures HasOwner(hs, r)
  {
  }

  /** A row that no handler owns. */
  lemma OutboundRow(w: World, w': World, row: Message)
    requires RowsOwned(w) && w'.handlers == w.handlers && w'.db.messages == w.db.messages + [row] && !row.inbound
    ensures RowsOwned(w')
  {
    hide HasOwner, RowOf;
  }

  /** Handler i queues the job of its row; nobody else had that row, so nobody queued it before. */
  lemma NewJob(w: World, w': World, i: nat, job: Job)
    requires RowsOwned(w) && JobsMatch(w) && i < |w.handlers| && w.handlers[i].phase == Noted(job.message)
    requires w'.handlers == w.handlers[i := w.handlers[i].(phase := Ended(Queued(job.message)))] && w'.db.jobs == w.db.jobs + [job]
    ensures JobsMatch(w')
  {
    hide HasJob, HasQueuer, RowsOwned;
    forall k | 0 <= k < |w.db.jobs|
      ensures w.db.jobs[k].message != job.message
      ensures HasQueuer(w'.handlers, w.db.jobs[k].message)
    {
      OneOwner(w, i, w.db.jobs[k].message);
      QueuerStays(w.handlers, w'.handlers, w.db.jobs[k].message);
    }
    NowQueued(w'.handlers, i, job.message);
    forall j | 0 <= j < |w'.handlers| && IsQueued(w'.handlers[j].phase)
      ensures HasJob(w'.db.jobs, w'.handlers[j].phase.end.row)
    {
      JobStays(w.db.jobs, job, w'.handlers[j].phase.end.row);
    }
  }

  lemma NowQueued(hs: seq<Handler>, i: nat, r: nat)
    requires i < |hs| && hs[i].phase == Ended(Queued(r))
    ensures HasQueuer(hs, r)
  {
  }

  /** A handler whose row is not queued by itself has a row that nobody queued. */
  lemma OneOwner(w: World, i: nat, r: nat)
    requires RowsOwned(w) && i < |w.handlers| && !IsQueued(w.handlers[i].phase) && HasQueuer(w.handlers, r)
    ensures RowOf(w.handlers[i].phase) != Some(r)
  {
    var j :| 0 <= j < |w.handlers| && w.handlers[j].phase == Ended(Queued(r));
    assert RowOf(w.handlers[j].phase) == Some(r) && i != j;
  }

  lemma TakenStays(db: Db, db': Db, id: Option<string>)
    requires Taken(db, id) && |db.messages| <= |db'.messages|
    requires forall r :: 0 <= r < |db.messages| && db.messages[r].waMessageId.Some? ==> db'.messages[r] == db.messages[r]
    ensures Taken(db', id)
  {
    var r :| 0 <= r < |db.messages| && db.messages[r].waMessageId == Some(id.value);
    assert db'.messages[r].waMessageId == Some(id.value);
  }

  lemma UniqueMore(rows: seq<Message>, row: Message)
    requires UniqueColumn(rows) && (row.waMessageId.Some? ==> !Stored(rows, row.waMessageId.value))
    ensures UniqueColumn(rows + [row])
  {
  }

  lemma GoKeeps(w: World, i: nat, now: nat, up: bool)
    requires Inv(w) && i < |w.handlers|
    ensures Inv(Next(w, Go(i, now, up)))
  {
    hide RowsOwned, JobsMatch, UniqueColumn, UniqueContacts, Stored, FindConversation, UpsertContact;
    var h := w.handlers[i];
    var w' := Next(w, Go(i, now, up));
    var p := w'.handlers[i].phase;
    if up && h.phase.Placed? && !Taken(w.db, Column(h.m)) {
      var row := w'.db.messages[|w.db.messages|];
      NewRow(w, w', i, row);
      SameJobs(w, w', i, p);
      UniqueMore(w.db.messages, row);
    } else if up && h.phase.Noted? {
      SameRows(w, w', i, p);
      NewJob(w, w', i, w'.db.jobs[|w.db.jobs|]);
    } else {
      SameRows(w, w', i, p);
      SameJobs(w, w', i, p);
      if up && h.phase.Screened? { UpsertUnique(w.db.contacts, h.clientId, h.m, now); }
    }
    forall j | 0 <= j < |w'.handlers| && w'.handlers[j].phase.Ended? && w'.handlers[j].phase.end.Duplicate?
      ensures Taken(w'.db, Column(w'.handlers[j].m))
    {
      if w.handlers[j].phase.Ended? && w.handlers[j].phase.end.Duplicate? { TakenStays(w.db, w'.db, Column(w.handlers[j].m)); }
    }
  }

  lemma DeliverKeeps(w: World, move: Move)
    requires Inv(w) && move.Deliver?
    ensures Inv(Next(w, move))
  {
    hide UniqueColumn, UniqueContacts, Stored, HasJob, HasQueuer, RowsOwned;
    var w' := Next(w, move);
    MoreHandlers(w, w');
    forall k | 0 <= k < |w'.db.jobs|
      ensures HasQueuer(w'.handlers, w'.db.jobs[k].message)
    {
      QueuerStays(w.handlers, w'.handlers, w.db.jobs[k].message);
    }
  }

  lemma MoreHandlers(w: World, w': World)
    requires RowsOwned(w) && |w'.handlers| == |w.handlers| + 1 && w'.handlers[..|w.handlers|] == w.handlers
    requires w'.handlers[|w.handlers|].phase == Arrived && w'.db == w.db
    ensures RowsOwned(w')
  {
    hide HasOwner;
    assert forall i :: 0 <= i < |w.handlers| ==> w'.handlers[i] == w'.handlers[..|w.handlers|][i];
    OwnersStay(w, w');
  }

  lemma OtherKeeps(w: World, move: Move)
    requires Inv(w) && (move.WriteOutbound? || move.SetId? || move.SetStatus?)
    ensures Inv(Next(w, move))
  {
    hide RowsOwned, UniqueColumn, UniqueContacts, Stored, HasJob, HasQueuer, JobsMatch;
    var w' := Next(w, move);
    SameQueue(w, w');
    if move.WriteOutbound? && !Taken(w.db, move.id) {
      var row := w'.db.messages[|w.db.messages|];
      OutboundRow(w, w', row);
      UniqueMore(w.db.messages, row);
    } else {
      SameOwners(w, w');
      if w'.db.messages != w.db.messages { UniqueFilled(w.db.messages, move.row, move.column); }
    }
    forall j | 0 <= j < |w'.handlers| && w'.handlers[j].phase.Ended? && w'.handlers[j].phase.end.Duplicate?
      ensures Taken(w'.db, Column(w'.handlers[j].m))
    {
      TakenStays(w.db, w'.db, Column(w.handlers[j].m));
    }
  }

  lemma SameQueue(w: World, w': World)
    requires JobsMatch(w) && w'.handlers == w.handlers && w'.db.jobs == w.db.jobs
    ensures JobsMatch(w')
  {
  }

  lemma SameOwners(w: World, w': World)
    requires RowsOwned(w) && w'.handlers == w.handlers && |w'.db.messages| == |w.db.messages|
    requires forall r :: 0 <= r < |w.db.messages| ==>
      w'.db.messages[r] == w.db.messages[r] || (!w.db.messages[r].inbound && !w'.db.messages[r].inbound)
    ensures RowsOwned(w')
  {
    hide HasOwner, RowOf;
  }

  lemma UniqueFilled(rows: seq<Message>, r: nat, id: string)
    requires UniqueColumn(rows) && r < |rows| && !Stored(rows, id)
    ensures UniqueColumn(rows[r := rows[r].(waMessageId := Some(id))])
  {
  }

  lemma {:induction false} RunKeeps(moves: seq<Move>)
    ensures Inv(Run(moves))
  {
    hide Next, Inv;
    if moves == [] {
      EmptyKeeps();
    } else {
      var front := moves[..|moves| - 1];
      var move := moves[|moves| - 1];
      RunKeeps(front);
      if move.Go? {
        if move.h < |Run(front).handlers| { GoKeeps(Run(front), move.h, move.now, move.up); } else { NoHandler(Run(front), move); }
      } else if move.Deliver? {
        DeliverKeeps(Run(front), move);
      } else {
        OtherKeeps(Run(front), move);
      }
    }
  }

  lemma NoHandler(w: World, move: Move)
    requires move.Go? && move.h >= |w.handlers|
    ensures Next(w, move) == w
  {
  }

  lemma EmptyKeeps()
    ensures Inv(EMPTY)
  {
  }

  // ---- at most once, however many handlers run ----

  /** However many handlers work on however many deliveries of a message at once, and whatever fails: at most one row
      carries its id, at most one job is queued for a row, only inbound rows have jobs, and contacts stay unique. */
  lemma AtMostOnce(moves: seq<Move>)
    ensures var db := Run(moves).db;
      && UniqueColumn(db.messages) && UniqueContacts(db.contacts)
      && (forall k :: 0 <= k < |db.jobs| ==> db.jobs[k].message < |db.messages| && db.messages[db.jobs[k].message].inbound)
      && (forall k, l :: 0 <= k < l < |db.jobs| ==> db.jobs[k].message != db.jobs[l].message)
  {
    hide Run, UniqueColumn, UniqueContacts;
    RunKeeps(moves);
    var w := Run(moves);
    forall k | 0 <= k < |w.db.jobs|
      ensures w.db.jobs[k].message < |w.db.messages| && w.db.messages[w.db.jobs[k].message].inbound
    {
      assert HasQueuer(w.handlers, w.db.jobs[k].message);
      var i :| 0 <= i < |w.handlers| && w.handlers[i].phase == Ended(Queued(w.db.jobs[k].message));
      assert RowOf(w.handlers[i].phase) == Some(w.db.jobs[k].message);
    }
  }

  /** Handler i stored row r and did not get to queue its job. */
  predicate Stranded(h: Handler, r: nat) { h.phase == Ended(Broken(Some(r))) }

  /** Once all handlers have ended, an inbound row has its job exactly when the handler that stored it did not break
      afterwards; redelivery does not repair it, since the row is there. */
  lemma JobIffNotStranded(moves: seq<Move>, r: nat)
    requires var w := Run(moves);
      && (forall i :: 0 <= i < |w.handlers| ==> w.handlers[i].phase.Ended?)
      && r < |w.db.messages| && w.db.messages[r].inbound
    ensures var w := Run(moves);
      HasJob(w.db.jobs, r) <==> !exists i :: 0 <= i < |w.handlers| && Stranded(w.handlers[i], r)
  {
    hide Run, UniqueColumn, UniqueContacts, RowsOwned, JobsMatch;
    RunKeeps(moves);
    var w := Run(moves);
    var o := OwnerOf(w, r);
    if IsQueued(w.handlers[o].phase) {
      QueuedHasJob(w, o);
      forall i | 0 <= i < |w.handlers| && Stranded(w.handlers[i], r)
        ensures false
      {
        NowQueued(w.handlers, o, r);
        OneOwner(w, i, r);
      }
    } else {
      assert Stranded(w.handlers[o], r);
      if HasJob(w.db.jobs, r) {
        JobHasQueuer(w, r);
        OneOwner(w, o, r);
      }
    }
  }

  lemma OwnerOf(w: World, r: nat) returns (o: nat)
    requires RowsOwned(w) && r < |w.db.messages| && w.db.messages[r].inbound
    ensures o < |w.handlers| && Owns(w.handlers[o], r)
  {
    assert HasOwner(w.handlers, r);
    o :| 0 <= o < |w.handlers| && Owns(w.handlers[o], r);
  }

  lemma QueuedHasJob(w: World, i: nat)
    requires JobsMatch(w) && i < |w.handlers| && IsQueued(w.handlers[i].phase)
    ensures HasJob(w.db.jobs, w.handlers[i].phase.end.row)
  {
  }

  lemma JobHasQueuer(w: World, r: nat)
    requires JobsMatch(w) && HasJob(w.db.jobs, r)
    ensures HasQueuer(w.handlers, r)
  {
    var k :| 0 <= k < |w.db.jobs| && w.db.jobs[k].message == r;
    assert HasQueuer(w.handlers, w.db.jobs[k].message);
  }

  /** A delivery that ended well left a row with its id, and by AtMostOnce the only one. */
  lemma EndedWellIsStored(moves: seq<Move>, i: nat)
    requires var w := Run(moves);
      i < |w.handlers| && w.handlers[i].m.waMessageId != "" && w.handlers[i].phase.Ended?
      && (w.handlers[i].phase.end.Queued? || w.handlers[i].phase.end.Duplicate?)
    ensures Stored(Run(moves).db.messages, Run(moves).handlers[i].m.waMessageId)
  {
    hide Run, UniqueColumn, UniqueContacts, JobsMatch;
    RunKeeps(moves);
    var w := Run(moves);
    if w.handlers[i].phase.end.Queued? {
      var r := RowOf(w.handlers[i].phase).value;
      assert w.db.messages[r].waMessageId == Some(w.handlers[i].m.waMessageId);
    }
  }

  // ---- one open conversation ----

  /** A handler creates a conversation ... */
  predicate Creates(w: World, move: Move) {
    move.Go? && move.up && move.h < |w.handlers| && w.handlers[move.h].phase.Unplaced?
  }

  /** ... although by now there is one. */
  predicate Clashes(w: World, move: Move) {
    Creates(w, move)
    && FindConversation(w.db.conversations, w.handlers[move.h].clientId, w.handlers[move.h].phase.contact, w.handlers[move.h].accountId).Some?
  }

  predicate Reopens(w: World, move: Move) {
    && move.SetStatus? && move.conversation < |w.db.conversations|
    && w.db.conversations[move.conversation].status.RESOLVED? && !move.status.RESOLVED?
  }

  /** Creating a conversation keeps at most one open per contact and account exactly when the look-up would still
      find none. */
  lemma CreateKeepsIff(w: World, move: Move)
    requires OneLive(w.db.conversations) && Creates(w, move)
    ensures OneLive(Next(w, move).db.conversations) <==> !Clashes(w, move)
  {
    var h := w.handlers[move.h];
    var cs := w.db.conversations;
    var added := Conversation(h.clientId, h.phase.contact, h.accountId, OPEN, None);
    var found := FindConversation(cs, h.clientId, h.phase.contact, h.accountId);
    assert Next(w, move).db.conversations == cs + [added];
    if found.Some? {
      assert SamePair((cs + [added])[found.value], (cs + [added])[|cs|]);
    }
  }

  /** The same conversations, up to their time stamps. */
  ghost predicate SameStatuses(cs: seq<Conversation>, ds: seq<Conversation>) {
    |cs| == |ds| && forall i :: 0 <= i < |cs| ==> ds[i].(lastMessageAt := None) == cs[i].(lastMessageAt := None)
  }

  lemma OthersSame(w: World, move: Move)
    requires !move.SetStatus? && !Creates(w, move)
    ensures SameStatuses(w.db.conversations, Next(w, move).db.conversations)
  {
    hide Stored, FindConversation, UpsertContact;
  }

  lemma SameOneLive(cs: seq<Conversation>, ds: seq<Conversation>)
    requires SameStatuses(cs, ds)
    ensures OneLive(cs) <==> OneLive(ds)
  {
    assert forall i :: 0 <= i < |cs| ==>
      cs[i].status == ds[i].status && cs[i].clientId == ds[i].clientId && cs[i].contact == ds[i].contact && cs[i].accountId == ds[i].accountId;
  }

  lemma StatusKeeps(w: World, move: Move)
    requires OneLive(w.db.conversations) && move.SetStatus? && !Reopens(w, move)
    ensures OneLive(Next(w, move).db.conversations)
  {
  }

  lemma MoreConversations(cs: seq<Conversation>, c: Conversation)
    requires !OneLive(cs)
    ensures !OneLive(cs + [c])
  {
    var i, j :| 0 <= i < j < |cs| && SamePair(cs[i], cs[j]) && !cs[i].status.RESOLVED? && !cs[j].status.RESOLVED?;
    assert SamePair((cs + [c])[i], (cs + [c])[j]);
  }

  /** Over any run, with any statuses set and none reopened: no clash, no second open conversation. */
  lemma {:induction false} NoClashNoSecond(moves: seq<Move>)
    requires forall n :: 0 <= n < |moves| ==> !Clashes(Run(moves[..n]), moves[n]) && !Reopens(Run(moves[..n]), moves[n])
    ensures OneLive(Run(moves).db.conversations)
  {
    hide Next, OneLive, Clashes, Reopens, Creates, FindConversation;
    if moves == [] {
      NoneOpen();
    } else {
      var n := |moves| - 1;
      var w := Run(moves[..n]);
      assert forall k :: 0 <= k < n ==> moves[..n][..k] == moves[..k] && moves[..n][k] == moves[k];
      NoClashNoSecond(moves[..n]);
      if Creates(w, moves[n]) {
        CreateKeepsIff(w, moves[n]);
      } else if moves[n].SetStatus? {
        StatusKeeps(w, moves[n]);
      } else {
        OthersSame(w, moves[n]);
        SameOneLive(w.db.conversations, Next(w, moves[n]).db.conversations);
      }
    }
  }

  lemma NoneOpen()
    ensures OneLive(Run([]).db.conversations)
  {
  }

  /** Whether any move of a run clashes. */
  ghost predicate ClashFree(moves: seq<Move>) { forall n :: 0 <= n < |moves| ==> !Clashes(Run(moves[..n]), moves[n]) }

  /** A run is free of clashes when its beginning is and its last move does not clash. */
  lemma ClashFreeMore(moves: seq<Move>)
    requires moves != []
    ensures var n := |moves| - 1;
      ClashFree(moves) <==> ClashFree(moves[..n]) && !Clashes(Run(moves[..n]), moves[n])
  {
    hide Run, Clashes;
    var n := |moves| - 1;
    assert forall k :: 0 <= k < n ==> moves[..n][..k] == moves[..k] && moves[..n][k] == moves[k];
    if !ClashFree(moves[..n]) {
      var k :| 0 <= k < n && Clashes(Run(moves[..n][..k]), moves[..n][k]);
      assert Clashes(Run(moves[..k]), moves[k]);
    }
    if ClashFree(moves[..n]) && !Clashes(Run(moves[..n]), moves[n]) {
      forall k | 0 <= k < |moves|
        ensures !Clashes(Run(moves[..k]), moves[k])
      {
        if k < n { assert !Clashes(Run(moves[..n][..k]), moves[..n][k]); }
      }
    }
  }

  /** While no status is set, handlers running at once leave at most one open conversation per contact and account if
      and only if none of them ever creates one after another has. */
  lemma {:induction false} OneLiveIff(moves: seq<Move>)
    requires forall n :: 0 <= n < |moves| ==> !moves[n].SetStatus?
    ensures OneLive(Run(moves).db.conversations) <==> ClashFree(moves)
  {
    hide Next, OneLive, Clashes, ClashFree;
    if moves == [] {
      NoneOpen();
      assert ClashFree([]) by { NothingClashes(); }
    } else {
      var n := |moves| - 1;
      assert forall k :: 0 <= k < n ==> moves[..n][k] == moves[k];
      OneLiveIff(moves[..n]);
      LastMove(Run(moves[..n]), moves[n]);
      ClashFreeMore(moves);
    }
  }

  lemma NothingClashes()
    ensures ClashFree([])
  {
  }

  lemma LastMove(w: World, move: Move)
    requires !move.SetStatus?
    ensures OneLive(Next(w, move).db.conversations) <==> OneLive(w.db.conversations) && !Clashes(w, move)
  {
    hide Next, OneLive, Clashes;
    if Creates(w, move) {
      if OneLive(w.db.conversations) {
        CreateKeepsIff(w, move);
      } else {
        var added := CreatedBy(w, move);
        MoreConversations(w.db.conversations, added);
      }
    } else {
      OthersSame(w, move);
      SameOneLive(w.db.conversations, Next(w, move).db.conversations);
      NoClash(w, move);
    }
  }

  lemma CreatedBy(w: World, move: Move) returns (added: Conversation)
    requires Creates(w, move)
    ensures Next(w, move).db.conversations == w.db.conversations + [added]
  {
    added := Conversation(w.handlers[move.h].clientId, w.handlers[move.h].phase.contact, w.handlers[move.h].accountId, OPEN, None);
  }

  lemma NoClash(w: World, move: Move)
    requires !Creates(w, move)
    ensures !Clashes(w, move)
  {
  }

  // ---- one handler per contact at a time ----

  predicate SameContact(g: Handler, h: Handler)
    requires g.phase.Unplaced? && h.phase.Unplaced?
  {
    g.clientId == h.clientId && g.accountId == h.accountId && g.phase.contact == h.phase.contact
  }

  /** No two handlers are between looking for and creating the conversation of one contact. */
  ghost predicate Exclusive(w: World) {
    forall i, j :: 0 <= i < j < |w.handlers| && w.handlers[i].phase.Unplaced? && w.handlers[j].phase.Unplaced? ==>
      !SameContact(w.handlers[i], w.handlers[j])
  }

  /** What such a handler found missing is still missing. */
  ghost predicate StillMissing(w: World) {
    forall i :: 0 <= i < |w.handlers| && w.handlers[i].phase.Unplaced? ==> Missing(w.db.conversations, w.handlers[i])
  }

  predicate Missing(cs: seq<Conversation>, h: Handler)
    requires h.phase.Unplaced?
  {
    forall k :: 0 <= k < |cs| ==> !Live(cs[k], h.clientId, h.phase.contact, h.accountId)
  }

  lemma MissingKept(w: World, move: Move)
    requires StillMissing(w) && Exclusive(w) && !Reopens(w, move)
    ensures StillMissing(Next(w, move))
  {
    hide Stored, UpsertContact;
    var w' := Next(w, move);
    forall i | 0 <= i < |w'.handlers| && w'.handlers[i].phase.Unplaced?
      ensures Missing(w'.db.conversations, w'.handlers[i])
    {
      if i < |w.handlers| && w.handlers[i].phase.Unplaced? {
        assert Missing(w.db.conversations, w.handlers[i]);
        if Creates(w, move) {
          assert i != move.h;
          if i < move.h { assert !SameContact(w.handlers[i], w.handlers[move.h]); } else { assert !SameContact(w.handlers[move.h], w.handlers[i]); }
        }
      }
    }
  }

  /** At every moment exclusive, and no move reopens. */
  ghost predicate Orderly(moves: seq<Move>) {
    forall n :: 0 <= n < |moves| ==> Exclusive(Run(moves[..n])) && !Reopens(Run(moves[..n]), moves[n])
  }

  lemma OrderlyPrefix(moves: seq<Move>, n: nat)
    requires Orderly(moves) && n <= |moves|
    ensures Orderly(moves[..n])
  {
    hide Exclusive, Reopens, Run;
    forall k | 0 <= k < n
      ensures Exclusive(Run(moves[..n][..k])) && !Reopens(Run(moves[..n][..k]), moves[..n][k])
    {
      assert moves[..n][..k] == moves[..k];
    }
  }

  lemma OrderlyAt(moves: seq<Move>, n: nat)
    requires Orderly(moves) && n < |moves|
    ensures Exclusive(Run(moves[..n])) && !Reopens(Run(moves[..n]), moves[n])
  {
  }

  /** One handler per contact at that point is enough: over any run in which two are never there at once, and no status
      is reopened, nobody clashes and every contact keeps at most one open conversation. */
  lemma ExclusiveKeepsOne(moves: seq<Move>)
    requires Orderly(moves)
    ensures ClashFree(moves) && OneLive(Run(moves).db.conversations)
  {
    hide Exclusive, Reopens, OneLive, Run, Orderly, Clashes, StillMissing;
    forall n | 0 <= n < |moves|
      ensures !Clashes(Run(moves[..n]), moves[n]) && !Reopens(Run(moves[..n]), moves[n])
    {
      OrderlyPrefix(moves, n);
      OrderlyAt(moves, n);
      RunMissing(moves[..n]);
      MissingNoClash(Run(moves[..n]), moves[n]);
    }
    NoClashNoSecond(moves);
  }

  lemma MissingNoClash(w: World, move: Move)
    requires StillMissing(w)
    ensures !Clashes(w, move)
  {
    if Creates(w, move) { assert Missing(w.db.conversations, w.handlers[move.h]); }
  }

  lemma {:induction false} RunMissing(moves: seq<Move>)
    requires Orderly(moves)
    ensures StillMissing(Run(moves))
  {
    hide Next, Exclusive, Reopens, Orderly;
    if moves != [] {
      var n := |moves| - 1;
      OrderlyPrefix(moves, n);
      OrderlyAt(moves, n);
      RunMissing(moves[..n]);
      MissingKept(Run(moves[..n]), moves[n]);
    }
  }

  // ---- what interleaving and failures can do ----

  lemma Move1(moves: seq<Move>, move: Move) returns (more: seq<Move>)
    ensures more == moves + [move] && Run(more) == Next(Run(moves), move)
  {
    more := moves + [move];
    assert more[..|moves|] == moves;
  }

  /** The queue fails after the message was stored: the row has no job, and the next delivery is a duplicate. */
  lemma JobCanBeLost(client: string, account: string, m: Inbound) returns (moves: seq<Move>)
    requires m.waMessageId != "" && m.fromPhone != ""
    ensures var w := Run(moves);
      && |w.handlers| == 2 && w.handlers[0].m == w.handlers[1].m == m
      && Stranded(w.handlers[0], 0) && w.handlers[1].phase == Ended(Duplicate)
      && |w.db.messages| == 1 && w.db.jobs == []
  {
    hide Run, Stored;
    moves := StoredOnly(client, account, m);
    moves := Move1(moves, Go(0, 0, false));
    moves := Move1(moves, Deliver(client, account, m));
    var db := Run(moves).db;
    assert Stored(db.messages, m.waMessageId) by { RowIsStored(db.messages, m.waMessageId); }
    moves := Move1(moves, Go(1, 0, true));
  }

  lemma RowIsStored(rows: seq<Message>, id: string)
    requires rows != [] && rows[0].waMessageId == Some(id)
    ensures Stored(rows, id)
  {
  }

  lemma NoneStored(id: string)
    ensures !Stored([], id)
  {
  }

  lemma StoredOnly(client: string, account: string, m: Inbound) returns (moves: seq<Move>)
    requires m.waMessageId != "" && m.fromPhone != ""
    ensures var w := Run(moves);
      && w.handlers == [Handler(m, client, account, Noted(0))]
      && |w.db.messages| == 1 && w.db.messages[0].waMessageId == Some(m.waMessageId) && w.db.jobs == []
  {
    hide Run, Stored;
    assert Run([]) == EMPTY by { EmptyRun(); }
    NoneStored(m.waMessageId);
    moves := Move1([], Deliver(client, account, m));
    moves := Move1(moves, Go(0, 0, true));
    moves := Move1(moves, Go(0, 0, true));
    moves := Move1(moves, Go(0, 0, true));
    moves := Move1(moves, Go(0, 0, true));
    moves := Move1(moves, Go(0, 0, true));
    moves := Move1(moves, Go(0, 0, true));
  }

  lemma EmptyRun()
    ensures Run([]) == EMPTY
  {
  }

  /** Two messages of a new contact, handled at once, open two conversations; one after the other they open one. */
  lemma TwoConversations(client: string, account: string, m: Inbound, n: Inbound) returns (moves: seq<Move>)
    requires m.fromPhone == n.fromPhone != ""
    ensures var w := Run(moves);
      |w.db.conversations| == 2 && |w.db.contacts| == 1
      && Live(w.db.conversations[0], client, 0, account) && Live(w.db.conversations[1], client, 0, account)
  {
    hide Run, Stored;
    moves := BothScreened(client, account, m, n);
    moves := Move1(moves, Go(0, 0, true));
    moves := Move1(moves, Go(1, 0, true));
    moves := Move1(moves, Go(0, 0, true));
    moves := Move1(moves, Go(1, 0, true));
    moves := Move1(moves, Go(0, 0, true));
    moves := Move1(moves, Go(1, 0, true));
  }

  lemma BothScreened(client: string, account: string, m: Inbound, n: Inbound) returns (moves: seq<Move>)
    requires m.fromPhone == n.fromPhone != ""
    ensures Run(moves) == World(EMPTY.db, [Handler(m, client, account, Screened), Handler(n, client, account, Screened)])
  {
    hide Run, Stored;
    assert Run([]) == EMPTY by { EmptyRun(); }
    NoneStored(m.waMessageId);
    NoneStored(n.waMessageId);
    moves := Move1([], Deliver(client, account, m));
    moves := Move1(moves, Deliver(client, account, n));
    moves := Move1(moves, Go(0, 0, true));
    moves := Move1(moves, Go(1, 0, true));
  }
}
