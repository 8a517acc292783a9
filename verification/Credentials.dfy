/**
 When a credential works: over every run, each kind of secret is accepted exactly under a condition on the calls
 made since it was issued, stated on those calls and not on the tables.
 */
module Credentials {
  import opened Wrappers
  import opened AuthTokens

  // ---- one-time codes ----

  /** How many codes other than c were entered for the subject by the deadline. */
  function Wrong(calls: seq<Call>, s: Subject, c: string, deadline: nat): nat {
    if calls == [] then 0
    else
      var last := calls[|calls| - 1];
      Wrong(calls[..|calls| - 1], s, c, deadline)
      + (if last.VerifyOtp? && last.subject == s && last.code != c && last.now <= deadline then 1 else 0)
  }

  /** c was entered for the subject by the deadline. */
  predicate Entered(calls: seq<Call>, s: Subject, c: string, deadline: nat) {
    exists k :: 0 <= k < |calls| && IsEntry(calls[k], s, c, deadline)
  }

  predicate IsEntry(call: Call, s: Subject, c: string, deadline: nat) {
    call.VerifyOtp? && call.subject == s && call.code == c && call.now <= deadline
  }

  predicate NoIssue(calls: seq<Call>, s: Subject) {
    forall k :: 0 <= k < |calls| ==> !(calls[k].IssueOtp? && calls[k].subject == s)
  }

  /** Row r is the code c of the subject, and its other codes are all consumed. */
  ghost predicate TheCode(rows: seq<Otp>, r: nat, s: Subject, c: string, deadline: nat) {
    && r < |rows| && rows[r].subject == s && rows[r].code == c && rows[r].expiresAt == deadline
    && forall j :: 0 <= j < |rows| && j != r && rows[j].subject == s ==> rows[j].consumedAt.Some?
  }

  ghost predicate CodeState(rows: seq<Otp>, r: nat, wrong: nat, entered: bool)
    requires r < |rows|
  {
    && (wrong < 5 ==> (rows[r].consumedAt.Some? <==> entered))
    && (rows[r].consumedAt.None? ==> rows[r].attempts == if wrong < 5 then wrong else 5)
  }

  lemma PendingIs(rows: seq<Otp>, r: nat, s: Subject, c: string, deadline: nat)
    requires TheCode(rows, r, s, c, deadline)
    ensures Pending(rows, s) == if rows[r].consumedAt.None? then Some(r) else None
  {
  }

  lemma CodeStep(db: Db, call: Call, r: nat, s: Subject, c: string, deadline: nat, wrong: nat, entered: bool)
    requires TheCode(db.otps, r, s, c, deadline) && CodeState(db.otps, r, wrong, entered)
    requires !(call.IssueOtp? && call.subject == s)
    ensures TheCode(Next(db, call).otps, r, s, c, deadline)
    ensures CodeState(Next(db, call).otps, r,
                      wrong + (if call.VerifyOtp? && call.subject == s && call.code != c && call.now <= deadline then 1 else 0),
                      entered || IsEntry(call, s, c, deadline))
  {
    PendingIs(db.otps, r, s, c, deadline);
    if call.IssueOtp? {
      var consumed := ConsumePending(db.otps, call.subject, call.now);
      assert forall i :: 0 <= i < |db.otps| ==> Next(db, call).otps[i] == consumed[i];
    }
  }

  lemma EnteredStep(calls: seq<Call>, s: Subject, c: string, deadline: nat)
    requires calls != []
    ensures Entered(calls, s, c, deadline)
            <==> Entered(calls[..|calls| - 1], s, c, deadline) || IsEntry(calls[|calls| - 1], s, c, deadline)
  {
    var front := calls[..|calls| - 1];
    if Entered(front, s, c, deadline) {
      var k :| 0 <= k < |front| && IsEntry(front[k], s, c, deadline);
      assert IsEntry(calls[k], s, c, deadline);
    }
    if k :| 0 <= k < |calls| - 1 && IsEntry(calls[k], s, c, deadline) {
      assert IsEntry(front[k], s, c, deadline);
    }
  }

  lemma {:induction false} CodeRun(db: Db, calls: seq<Call>, r: nat, s: Subject, c: string, deadline: nat)
    requires TheCode(db.otps, r, s, c, deadline) && CodeState(db.otps, r, 0, false) && NoIssue(calls, s)
    ensures TheCode(Run(db, calls).otps, r, s, c, deadline)
    ensures CodeState(Run(db, calls).otps, r, Wrong(calls, s, c, deadline), Entered(calls, s, c, deadline))
  {
    hide Next, TheCode, CodeState;
    if calls != [] {
      var front := calls[..|calls| - 1];
      CodeRun(db, front, r, s, c, deadline);
      EnteredStep(calls, s, c, deadline);
      CodeStep(Run(db, front), calls[|calls| - 1], r, s, c, deadline, Wrong(front, s, c, deadline), Entered(front, s, c, deadline));
    }
  }

  lemma CodeIssued(db: Db, s: Subject, c: string, t: nat)
    ensures var rows := Next(db, IssueOtp(s, c, t)).otps;
      TheCode(rows, |db.otps|, s, c, t + 600_000) && CodeState(rows, |db.otps|, 0, false)
  {
    var consumed := ConsumePending(db.otps, s, t);
    assert forall i :: 0 <= i < |db.otps| ==> Next(db, IssueOtp(s, c, t)).otps[i] == consumed[i];
  }

  /** A code issued at time t, until the next one is issued: an entry is accepted if and only if it is that code,
      ten minutes have not passed, fewer than five wrong codes were entered in time, and it was not entered before. */
  lemma CodeWorksIff(db: Db, s: Subject, c: string, t: nat, calls: seq<Call>, entry: string, now: nat)
    requires NoIssue(calls, s)
    ensures var deadline := t + 600_000;
      VerifySpec(Run(Next(db, IssueOtp(s, c, t)), calls).otps, s, entry, now).1
      <==> entry == c && now <= deadline && Wrong(calls, s, c, deadline) < 5 && !Entered(calls, s, c, deadline)
  {
    hide Run, Next, Wrong, Entered;
    var r := |db.otps|;
    CodeIssued(db, s, c, t);
    CodeRun(Next(db, IssueOtp(s, c, t)), calls, r, s, c, t + 600_000);
    PendingIs(Run(Next(db, IssueOtp(s, c, t)), calls).otps, r, s, c, t + 600_000);
  }

  // ---- reset links ----

  /** A reset with this link, in time and with a long enough password, was asked for. */
  predicate IsUse(call: Call, token: string, deadline: nat) {
    call.ConfirmReset? && call.token == token && |call.password| >= 8 && call.now <= deadline
  }

  predicate UsedIn(calls: seq<Call>, token: string, deadline: nat) {
    exists k :: 0 <= k < |calls| && IsUse(calls[k], token, deadline)
  }

  ghost predicate TheLink(db: Db, r: nat, s: Subject, token: string, deadline: nat, used: bool) {
    && r < |db.emails| && db.emails[r].hash == token && db.emails[r].subject == s
    && db.emails[r].purpose.PasswordReset? && db.emails[r].expiresAt == deadline
    && (db.emails[r].usedAt.Some? <==> used && s in db.passwords)
    && forall j :: 0 <= j < |db.emails| && j != r ==> db.emails[j].hash != token
  }

  lemma LinkStep(db: Db, call: Call, r: nat, s: Subject, token: string, deadline: nat, used: bool)
    requires TheLink(db, r, s, token, deadline, used)
    ensures TheLink(Next(db, call), r, s, token, deadline, used || IsUse(call, token, deadline))
    ensures s in Next(db, call).passwords <==> s in db.passwords
  {
    if call.ConfirmReset? {
      var found := FindEmail(db.emails, call.token);
      assert call.token == token ==> found == Some(r);
      assert call.token != token ==> found != Some(r);
    }
  }

  lemma UsedInStep(calls: seq<Call>, token: string, deadline: nat)
    requires calls != []
    ensures UsedIn(calls, token, deadline)
            <==> UsedIn(calls[..|calls| - 1], token, deadline) || IsUse(calls[|calls| - 1], token, deadline)
  {
    var front := calls[..|calls| - 1];
    if UsedIn(front, token, deadline) {
      var k :| 0 <= k < |front| && IsUse(front[k], token, deadline);
      assert IsUse(calls[k], token, deadline);
    }
    if k :| 0 <= k < |calls| - 1 && IsUse(calls[k], token, deadline) {
      assert IsUse(front[k], token, deadline);
    }
  }

  lemma {:induction false} LinkRun(db: Db, calls: seq<Call>, r: nat, s: Subject, token: string, deadline: nat)
    requires TheLink(db, r, s, token, deadline, false)
    ensures TheLink(Run(db, calls), r, s, token, deadline, UsedIn(calls, token, deadline))
    ensures s in Run(db, calls).passwords <==> s in db.passwords
  {
    hide Next, TheLink;
    if calls != [] {
      var front := calls[..|calls| - 1];
      LinkRun(db, front, r, s, token, deadline);
      UsedInStep(calls, token, deadline);
      LinkStep(Run(db, front), calls[|calls| - 1], r, s, token, deadline, UsedIn(front, token, deadline));
    }
  }

  /** A link sent at time t resets the password if and only if the new password has eight characters, thirty
      minutes have not passed, the account exists, and the link was not used in that way before. */
  lemma LinkWorksIff(db: Db, s: Subject, token: string, t: nat, calls: seq<Call>, password: string, now: nat)
    requires NewHash(db, token)
    ensures var end := Run(Next(db, RequestReset(Some(s), token, t)), calls);
      var deadline := t + 1_800_000;
      && (ResetSpec(end, token, password, now).1 == Reset
          <==> |password| >= 8 && now <= deadline && s in db.passwords && !UsedIn(calls, token, deadline))
      && (ResetSpec(end, token, password, now).1 == Reset
          ==> ResetSpec(end, token, password, now).0.passwords == end.passwords[s := password])
  {
    hide Run, Next, UsedIn;
    var r, deadline := |db.emails|, t + 1_800_000;
    var sent := Next(db, RequestReset(Some(s), token, t));
    LinkSent(db, s, token, t);
    LinkRun(sent, calls, r, s, token, deadline);
    assert FindEmail(Run(sent, calls).emails, token) == Some(r);
  }

  lemma LinkSent(db: Db, s: Subject, token: string, t: nat)
    requires NewHash(db, token)
    ensures TheLink(Next(db, RequestReset(Some(s), token, t)), |db.emails|, s, token, t + 1_800_000, false)
    ensures Next(db, RequestReset(Some(s), token, t)).passwords == db.passwords
  {
  }

  // ---- refresh tokens ----

  /** The call ends the token's life: it is presented, logged out, or its subject's password is reset. */
  ghost predicate EndsToken(db: Db, call: Call, token: string, s: Subject) {
    match call
    case Rotate(p, _, _, _) => p == token
    case Revoke(p, _) => p == token
    case ConfirmReset(link, password, now) =>
      && ResetSpec(db, link, password, now).1 == Reset
      && db.emails[FindEmail(db.emails, link).value].subject == s
    case _ => false
  }

  ghost predicate Ended(db: Db, calls: seq<Call>, token: string, s: Subject) {
    exists k :: 0 <= k < |calls| && EndsToken(Run(db, calls[..k]), calls[k], token, s)
  }

  /** Every call draws new names. */
  ghost predicate AllFresh(db: Db, calls: seq<Call>) {
    forall k :: 0 <= k < |calls| ==> DrawsFresh(Run(db, calls[..k]), calls[k])
  }

  /** Row r is the token; while it is unrevoked it is the only row of its family. */
  ghost predicate TheToken(rows: seq<Refresh>, r: nat, s: Subject, token: string, family: string, expiresAt: nat, ended: bool) {
    && r < |rows| && rows[r].hash == token && rows[r].subject == s && rows[r].family == family && rows[r].expiresAt == expiresAt
    && (rows[r].revokedAt.Some? <==> ended)
    && (forall j :: 0 <= j < |rows| && j != r ==> rows[j].hash != token)
    && (!ended ==> forall j :: 0 <= j < |rows| && j != r ==> rows[j].family != family)
  }

  lemma TokenStep(db: Db, call: Call, r: nat, s: Subject, token: string, family: string, expiresAt: nat, ended: bool)
    requires TheToken(db.tokens, r, s, token, family, expiresAt, ended) && DrawsFresh(db, call)
    ensures TheToken(Next(db, call).tokens, r, s, token, family, expiresAt, ended || EndsToken(db, call, token, s))
  {
    hide TheToken;
    if call.Rotate? {
      TokenRotate(db, call, r, s, token, family, expiresAt, ended);
    } else {
      TokenOther(db, call, r, s, token, family, expiresAt, ended);
    }
  }

  lemma TokenRotate(db: Db, call: Call, r: nat, s: Subject, token: string, family: string, expiresAt: nat, ended: bool)
    requires TheToken(db.tokens, r, s, token, family, expiresAt, ended) && DrawsFresh(db, call) && call.Rotate?
    ensures TheToken(Next(db, call).tokens, r, s, token, family, expiresAt, ended || call.presented == token)
  {
    var found := FindToken(db.tokens, call.presented);
    assert call.presented == token ==> found == Some(r);
    assert call.presented != token ==> found != Some(r);
    var rows := Next(db, call).tokens;
    assert |db.tokens| <= |rows| && forall j :: 0 <= j < |db.tokens| ==> rows[j].hash == db.tokens[j].hash && rows[j].family == db.tokens[j].family;
  }

  lemma TokenOther(db: Db, call: Call, r: nat, s: Subject, token: string, family: string, expiresAt: nat, ended: bool)
    requires TheToken(db.tokens, r, s, token, family, expiresAt, ended) && DrawsFresh(db, call) && !call.Rotate?
    ensures TheToken(Next(db, call).tokens, r, s, token, family, expiresAt, ended || EndsToken(db, call, token, s))
  {
    var rows := Next(db, call).tokens;
    assert |db.tokens| <= |rows| && forall j :: 0 <= j < |db.tokens| ==> rows[j].hash == db.tokens[j].hash && rows[j].family == db.tokens[j].family;
  }

  lemma EndedStep(db: Db, calls: seq<Call>, token: string, s: Subject)
    requires calls != []
    ensures var front := calls[..|calls| - 1];
      Ended(db, calls, token, s) <==> Ended(db, front, token, s) || EndsToken(Run(db, front), calls[|calls| - 1], token, s)
  {
    hide Run, EndsToken;
    var front := calls[..|calls| - 1];
    forall k | 0 <= k < |front| ensures front[..k] == calls[..k] && front[k] == calls[k] {
    }
    if Ended(db, front, token, s) {
      var k :| 0 <= k < |front| && EndsToken(Run(db, front[..k]), front[k], token, s);
      assert EndsToken(Run(db, calls[..k]), calls[k], token, s);
    }
    if k :| 0 <= k < |front| && EndsToken(Run(db, calls[..k]), calls[k], token, s) {
      assert EndsToken(Run(db, front[..k]), front[k], token, s);
    }
  }

  lemma FreshFront(db: Db, calls: seq<Call>)
    requires AllFresh(db, calls) && calls != []
    ensures AllFresh(db, calls[..|calls| - 1]) && DrawsFresh(Run(db, calls[..|calls| - 1]), calls[|calls| - 1])
  {
    hide Run, DrawsFresh;
    var front := calls[..|calls| - 1];
    forall k | 0 <= k < |front| ensures DrawsFresh(Run(db, front[..k]), front[k]) {
      assert front[..k] == calls[..k];
    }
  }

  lemma {:induction false} TokenRun(db: Db, calls: seq<Call>, r: nat, s: Subject, token: string, family: string, expiresAt: nat)
    requires TheToken(db.tokens, r, s, token, family, expiresAt, false) && AllFresh(db, calls)
    ensures TheToken(Run(db, calls).tokens, r, s, token, family, expiresAt, Ended(db, calls, token, s))
  {
    hide Next, TheToken, AllFresh, Ended, EndsToken, DrawsFresh;
    if calls == [] {
      assert !Ended(db, calls, token, s) by { NothingEnds(db, token, s); }
    } else {
      var front := calls[..|calls| - 1];
      FreshFront(db, calls);
      TokenRun(db, front, r, s, token, family, expiresAt);
      EndedStep(db, calls, token, s);
      TokenStep(Run(db, front), calls[|calls| - 1], r, s, token, family, expiresAt, Ended(db, front, token, s));
    }
  }

  lemma NothingEnds(db: Db, token: string, s: Subject)
    ensures !Ended(db, [], token, s)
  {
  }

  /** The refresh token of a login is exchanged for a new one if and only if it has not expired and since the login
      it was neither presented nor logged out nor was its subject's password reset. Presenting it in any other case
      is detected as reuse. */
  lemma TokenWorksIff(db: Db, s: Subject, token: string, family: string, expiresAt: nat, calls: seq<Call>,
                      drawn: string, until: nat, now: nat)
    requires DrawsFresh(db, Login(s, token, family, expiresAt))
    requires AllFresh(Next(db, Login(s, token, family, expiresAt)), calls)
    ensures var at := Next(db, Login(s, token, family, expiresAt));
      RotateSpec(Run(at, calls).tokens, token, drawn, until, now).1
      == if now <= expiresAt && !Ended(at, calls, token, s) then Rotated(s, drawn) else ReuseDetected
  {
    hide Run, Ended, AllFresh;
    var at := Next(db, Login(s, token, family, expiresAt));
    var r := |db.tokens|;
    assert TheToken(at.tokens, r, s, token, family, expiresAt, false);
    TokenRun(at, calls, r, s, token, family, expiresAt);
    assert FindToken(Run(at, calls).tokens, token) == Some(r);
  }
}
