/**
 Where messages land when handlers run at once: whatever the interleaving and whatever fails, the row of a delivery
 lies in a conversation between its account's client and its sender, and the row's job names that conversation.
 */
module RaceLanding {
  import opened Wrappers
  import opened WebhookIngest
  import opened IngestRace

  /** The contact is the sender, as a contact of the handler's client. */
  predicate IsSender(db: Db, h: Handler, contact: nat) {
    contact < |db.contacts| && db.contacts[contact].clientId == h.clientId && db.contacts[contact].phone == h.m.fromPhone
  }

  /** The conversation is on the handler's account, with its client and the sender. */
  predicate IsTheirs(db: Db, h: Handler, c: nat) {
    c < |db.conversations| && db.conversations[c].clientId == h.clientId && db.conversations[c].accountId == h.accountId
    && IsSender(db, h, db.conversations[c].contact)
  }

  ghost predicate InPlace(db: Db, h: Handler) {
    && (h.phase.Known? || h.phase.Unplaced? ==> IsSender(db, h, h.phase.contact))
    && (h.phase.Placed? ==> IsTheirs(db, h, h.phase.conversation))
    && (RowOf(h.phase).Some? ==>
          RowOf(h.phase).value < |db.messages| && IsTheirs(db, h, db.messages[RowOf(h.phase).value].conversation))
  }

  ghost predicate JobsInPlace(db: Db) {
    forall k :: 0 <= k < |db.jobs| ==>
      db.jobs[k].message < |db.messages| && db.jobs[k].conversation == db.messages[db.jobs[k].message].conversation
  }

  ghost predicate AllInPlace(w: World) {
    JobsInPlace(w.db) && forall i :: 0 <= i < |w.handlers| ==> InPlace(w.db, w.handlers[i])
  }

  /** Rows stay in their conversations, conversations with their parties, contacts keep client and number. */
  ghost predicate Firm(before: Db, after: Db) {
    && |before.contacts| <= |after.contacts| && |before.conversations| <= |after.conversations|
    && |before.messages| <= |after.messages|
    && (forall j :: 0 <= j < |before.contacts| ==>
          after.contacts[j].clientId == before.contacts[j].clientId && after.contacts[j].phone == before.contacts[j].phone)
    && (forall j :: 0 <= j < |before.conversations| ==> SamePair(before.conversations[j], after.conversations[j]))
    && (forall j :: 0 <= j < |before.messages| ==> after.messages[j].conversation == before.messages[j].conversation)
  }

  lemma OperateFirm(db: Db, h: Handler, now: nat)
    ensures Firm(db, Operate(db, h, now).0)
  {
    hide Stored, FindConversation;
    if h.phase.Screened? { UpsertIs(db.contacts, h.clientId, h.m, now); }
  }

  lemma NextFirm(w: World, move: Move)
    ensures Firm(w.db, IngestRace.Next(w, move).db)
  {
    hide Operate, Stored;
    if move.Go? && move.h < |w.handlers| { OperateFirm(w.db, w.handlers[move.h], move.now); }
  }

  lemma StaysInPlace(before: Db, after: Db, h: Handler)
    requires InPlace(before, h) && Firm(before, after)
    ensures InPlace(after, h)
  {
    if h.phase.Placed? {
      assert SamePair(before.conversations[h.phase.conversation], after.conversations[h.phase.conversation]);
    }
    if RowOf(h.phase).Some? {
      var c := before.messages[RowOf(h.phase).value].conversation;
      assert SamePair(before.conversations[c], after.conversations[c]);
    }
  }

  lemma OperateInPlace(db: Db, h: Handler, now: nat, up: bool)
    requires InPlace(db, h) && JobsInPlace(db)
    ensures var (after, phase) := Perform(db, h, now, up);
      InPlace(after, h.(phase := phase)) && JobsInPlace(after)
  {
    hide Stored;
    if h.phase.Screened? { UpsertIs(db.contacts, h.clientId, h.m, now); }
  }

  lemma NextInPlace(w: World, move: Move)
    requires AllInPlace(w)
    ensures AllInPlace(IngestRace.Next(w, move))
  {
    hide Perform, Stored, InPlace, Firm;
    var w' := IngestRace.Next(w, move);
    NextFirm(w, move);
    forall i | 0 <= i < |w.handlers| ensures InPlace(w'.db, w.handlers[i]) { StaysInPlace(w.db, w'.db, w.handlers[i]); }
    if move.Go? && move.h < |w.handlers| {
      OperateInPlace(w.db, w.handlers[move.h], move.now, move.up);
    } else if move.Deliver? {
      NewInPlace(w.db, move.clientId, move.accountId, move.m);
    }
  }

  lemma NewInPlace(db: Db, clientId: string, accountId: string, m: Inbound)
    ensures InPlace(db, Handler(m, clientId, accountId, Arrived))
  {
  }

  lemma {:induction false} RunInPlace(moves: seq<Move>)
    ensures AllInPlace(IngestRace.Run(moves))
  {
    hide IngestRace.Next;
    if moves != [] {
      RunInPlace(moves[..|moves| - 1]);
      NextInPlace(IngestRace.Run(moves[..|moves| - 1]), moves[|moves| - 1]);
    }
  }

  /** Over every interleaving, with failures anywhere: a delivery that stored its message stored it in a conversation on
      its account, with that account's client and the sender, and every job names its row's conversation. */
  lemma RaceLands(moves: seq<Move>, i: nat, r: nat)
    requires i < |IngestRace.Run(moves).handlers| && RowOf(IngestRace.Run(moves).handlers[i].phase) == Some(r)
    ensures var db, h := IngestRace.Run(moves).db, IngestRace.Run(moves).handlers[i];
      && r < |db.messages| && db.messages[r].conversation < |db.conversations|
      && var conv := db.conversations[db.messages[r].conversation];
         && conv.clientId == h.clientId && conv.accountId == h.accountId && conv.contact < |db.contacts|
         && db.contacts[conv.contact].clientId == h.clientId && db.contacts[conv.contact].phone == h.m.fromPhone
         && forall k :: 0 <= k < |db.jobs| && db.jobs[k].message == r ==> db.jobs[k].conversation == db.messages[r].conversation
  {
    hide IngestRace.Run;
    RunInPlace(moves);
  }
}
