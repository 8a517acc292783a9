/**
 Refresh-token rotation, password reset and one-time codes as one serial state machine over their rows,
 each call one step. Random tokens are drawn names and hashing is injective, so a row's hash is the token.
 */
module AuthTokens {
  import opened Wrappers

  datatype SubjectType = SuperAdmin | Agency | Client | TeamMember
  datatype Subject = Subject(kind: SubjectType, id: string)

  datatype Refresh = Refresh(subject: Subject, family: string, hash: string, expiresAt: nat,
                             revokedAt: Option<nat>, replacedBy: Option<string>)

  datatype Purpose = PasswordReset | EmailVerify
  datatype EmailToken = EmailToken(subject: Subject, purpose: Purpose, hash: string, expiresAt: nat, usedAt: Option<nat>)

  datatype Otp = Otp(subject: Subject, code: string, expiresAt: nat, consumedAt: Option<nat>, attempts: nat)

  datatype Db = Db(tokens: seq<Refresh>, emails: seq<EmailToken>, otps: seq<Otp>, passwords: map<Subject, string>)

  const RESET_TTL: nat := 30 * 60_000
  const OTP_TTL: nat := 10 * 60_000
  const OTP_MAX_ATTEMPTS: nat := 5

  // ---- refresh tokens ----

  /** Which rows an updateMany touches. */
  datatype Which = OfFamily(family: string) | OfSubject(subject: Subject) | OfHash(hash: string)

  predicate Picks(which: Which, r: Refresh) {
    match which
    case OfFamily(f) => r.family == f
    case OfSubject(s) => r.subject == s
    case OfHash(h) => r.hash == h
  }

  function RevokedRow(r: Refresh, which: Which, now: nat): Refresh {
    if Picks(which, r) && r.revokedAt.None? then r.(revokedAt := Some(now)) else r
  }

  /** updateMany: revoke the picked rows that are not revoked yet. */
  function RevokeAll(rows: seq<Refresh>, which: Which, now: nat): seq<Refresh> {
    seq(|rows|, i requires 0 <= i < |rows| => RevokedRow(rows[i], which, now))
  }

  function FindToken(rows: seq<Refresh>, hash: string): (r: Option<nat>)
    ensures r.Some? ==> r.value < |rows| && rows[r.value].hash == hash
    ensures r.None? ==> forall i :: 0 <= i < |rows| ==> rows[i].hash != hash
  {
    Find(rows, (r: Refresh) => r.hash, hash)
  }

  datatype RotateResult = NotFound | ReuseDetected | Rotated(subject: Subject, token: string)

  predicate Dead(r: Refresh, now: nat) { r.revokedAt.Some? || r.expiresAt < now }

  function RotateSpec(rows: seq<Refresh>, presented: string, drawn: string, expiresAt: nat, now: nat): (seq<Refresh>, RotateResult) {
    var found := FindToken(rows, presented);
    if found.None? then (rows, NotFound)
    else
      var r := rows[found.value];
      if Dead(r, now) then (RevokeAll(rows, OfFamily(r.family), now), ReuseDetected)
      else
        ((rows + [Refresh(r.subject, r.family, drawn, expiresAt, None, None)])
           [found.value := r.(revokedAt := Some(now), replacedBy := Some(drawn))],
         Rotated(r.subject, drawn))
  }

  // ---- reset links ----

  function FindEmail(rows: seq<EmailToken>, hash: string): (r: Option<nat>)
    ensures r.Some? ==> r.value < |rows| && rows[r.value].hash == hash
    ensures r.None? ==> forall i :: 0 <= i < |rows| ==> rows[i].hash != hash
  {
    Find(rows, (e: EmailToken) => e.hash, hash)
  }

  datatype ResetResult = TooShort | Invalid | NoSubject | Reset

  predicate Usable(e: EmailToken, now: nat) {
    e.purpose.PasswordReset? && e.usedAt.None? && e.expiresAt >= now
  }

  /** The three writes are one transaction: a subject that is gone undoes them all. */
  function ResetSpec(db: Db, token: string, password: string, now: nat): (Db, ResetResult) {
    if |password| < 8 then (db, TooShort)
    else
      var found := FindEmail(db.emails, token);
      if found.None? || !Usable(db.emails[found.value], now) then (db, Invalid)
      else
        var e := db.emails[found.value];
        if e.subject !in db.passwords then (db, NoSubject)
        else
          (Db(RevokeAll(db.tokens, OfSubject(e.subject), now),
              db.emails[found.value := e.(usedAt := Some(now))],
              db.otps,
              db.passwords[e.subject := password]),
           Reset)
  }

  // ---- one-time codes ----

  function ConsumeRow(o: Otp, s: Subject, now: nat): Otp {
    if o.subject == s && o.consumedAt.None? then o.(consumedAt := Some(now)) else o
  }

  function ConsumePending(rows: seq<Otp>, s: Subject, now: nat): seq<Otp> {
    seq(|rows|, i requires 0 <= i < |rows| => ConsumeRow(rows[i], s, now))
  }

  /** The newest unconsumed code of the subject. */
  function Pending(rows: seq<Otp>, s: Subject): (r: Option<nat>)
    ensures r.Some? ==> r.value < |rows| && rows[r.value].subject == s && rows[r.value].consumedAt.None?
    ensures r.Some? ==> forall i :: r.value < i < |rows| && rows[i].subject == s ==> rows[i].consumedAt.Some?
    ensures r.None? ==> forall i :: 0 <= i < |rows| && rows[i].subject == s ==> rows[i].consumedAt.Some?
  {
    if rows == [] then None
    else if rows[|rows| - 1].subject == s && rows[|rows| - 1].consumedAt.None? then Some(|rows| - 1)
    else Pending(rows[..|rows| - 1], s)
  }

  predicate Open(o: Otp, now: nat) { o.expiresAt >= now && o.attempts < OTP_MAX_ATTEMPTS }

  function VerifySpec(rows: seq<Otp>, s: Subject, code: string, now: nat): (seq<Otp>, bool) {
    var found := Pending(rows, s);
    if found.None? || !Open(rows[found.value], now) then (rows, false)
    else
      var o := rows[found.value];
      if o.code != code then (rows[found.value := o.(attempts := o.attempts + 1)], false)
      else (rows[found.value := o.(consumedAt := Some(now))], true)
  }

  // ---- the services ----

  class AuthStore {
    var tokens: seq<Refresh>
    var emails: seq<EmailToken>
    var otps: seq<Otp>
    var passwords: map<Subject, string>

    ghost function View(): Db
      reads this
    {
      Db(tokens, emails, otps, passwords)
    }

    /** A login opens a new family, a rotation continues one. The new token is found from now on, alive until it
        expires, and what any other token finds stays as it was. */
    method IssueRefresh(subject: Subject, token: string, family: string, expiresAt: nat)
      modifies this`tokens
      ensures tokens == old(tokens) + [Refresh(subject, family, token, expiresAt, None, None)]
      ensures FindToken(tokens, token) == Some(|old(tokens)|)
      ensures forall now: nat :: now <= expiresAt ==> !Dead(tokens[|old(tokens)|], now)
      ensures forall other: string :: other != token ==> FindToken(tokens, other) == FindToken(old(tokens), other)
      ensures var call := Login(subject, token, family, expiresAt);
        DrawsFresh(old(View()), call) ==> View() == Next(old(View()), call)
    {
      var was := tokens;
      tokens := tokens + [Refresh(subject, family, token, expiresAt, None, None)];
      assert tokens[..|was|] == was;
    }

    method Rotate(presented: string, drawn: string, expiresAt: nat, now: nat) returns (r: RotateResult)
      modifies this`tokens
      ensures (tokens, r) == RotateSpec(old(tokens), presented, drawn, expiresAt, now)
      ensures r == NotFound <==> forall i :: 0 <= i < |old(tokens)| ==> old(tokens)[i].hash != presented
      ensures r == NotFound ==> tokens == old(tokens)
      ensures r != NotFound ==>
                var i := FindToken(old(tokens), presented).value; var o := old(tokens)[i];
                if o.revokedAt.Some? || now > o.expiresAt then
                  && r == ReuseDetected && |tokens| == |old(tokens)|
                  && forall j :: 0 <= j < |tokens| ==>
                       if old(tokens)[j].family == o.family && old(tokens)[j].revokedAt.None?
                       then tokens[j] == old(tokens)[j].(revokedAt := Some(now)) else tokens[j] == old(tokens)[j]
                else
                  && r == Rotated(o.subject, drawn) && |tokens| == |old(tokens)| + 1
                  && tokens[|old(tokens)|] == Refresh(o.subject, o.family, drawn, expiresAt, None, None)
                  && tokens[i] == o.(revokedAt := Some(now), replacedBy := Some(drawn))
                  && forall j :: 0 <= j < |old(tokens)| && j != i ==> tokens[j] == old(tokens)[j]
      ensures var call := Call.Rotate(presented, drawn, expiresAt, now);
        DrawsFresh(old(View()), call) ==> View() == Next(old(View()), call)
    {
      var found := FindToken(tokens, presented);
      if found.None? { return NotFound; }
      var i := found.value;
      var existing := tokens[i];
      if existing.revokedAt.Some? || existing.expiresAt < now {
        tokens := RevokeAll(tokens, OfFamily(existing.family), now);
        return ReuseDetected;
      }
      IssueRefresh(existing.subject, drawn, existing.family, expiresAt);
      tokens := tokens[i := tokens[i].(revokedAt := Some(now), replacedBy := Some(drawn))];
      return Rotated(existing.subject, drawn);
    }

    /** Afterwards every row of the presented token is revoked, at the time it first was, and every other row is
        the same; an unknown token changes nothing. */
    method Revoke(presented: string, now: nat)
      modifies this`tokens
      ensures |tokens| == |old(tokens)|
      ensures forall i :: 0 <= i < |tokens| && old(tokens)[i].hash == presented ==>
                tokens[i] == old(tokens)[i].(revokedAt := if old(tokens)[i].revokedAt.Some? then old(tokens)[i].revokedAt else Some(now))
      ensures forall i :: 0 <= i < |tokens| && old(tokens)[i].hash != presented ==> tokens[i] == old(tokens)[i]
      ensures FindToken(old(tokens), presented).None? ==> tokens == old(tokens)
      ensures View() == Next(old(View()), Call.Revoke(presented, now))
    {
      tokens := RevokeAll(tokens, OfHash(presented), now);
    }

    /** `subject` is the account with that e-mail address, if there is one. */
    method RequestReset(subject: Option<Subject>, token: string, now: nat)
      modifies this`emails
      ensures emails == old(emails)
                + (if subject.None? then [] else [EmailToken(subject.value, PasswordReset, token, now + RESET_TTL, None)])
      ensures var call := Call.RequestReset(subject, token, now);
        DrawsFresh(old(View()), call) ==> View() == Next(old(View()), call)
    {
      if subject.None? { return; }
      emails := emails + [EmailToken(subject.value, PasswordReset, token, now + RESET_TTL, None)];
    }

    method ConfirmReset(token: string, password: string, now: nat) returns (r: ResetResult)
      modifies this
      ensures (View(), r) == ResetSpec(old(View()), token, password, now)
      ensures r == TooShort <==> |password| < 8
      ensures r != TooShort ==>
                var found := FindEmail(old(emails), token);
                if found.None? then r == Invalid
                else
                  var e := old(emails)[found.value];
                  if e.purpose != PasswordReset || e.usedAt.Some? || now > e.expiresAt then r == Invalid
                  else if e.subject !in old(passwords) then r == NoSubject
                  else
                    && r == Reset && otps == old(otps)
                    && passwords == old(passwords)[e.subject := password]
                    && emails == old(emails)[found.value := e.(usedAt := Some(now))]
                    && |tokens| == |old(tokens)|
                    && forall j :: 0 <= j < |tokens| ==>
                         if old(tokens)[j].subject == e.subject && old(tokens)[j].revokedAt.None?
                         then tokens[j] == old(tokens)[j].(revokedAt := Some(now)) else tokens[j] == old(tokens)[j]
      ensures r != Reset ==> View() == old(View())
      ensures View() == Next(old(View()), Call.ConfirmReset(token, password, now))
    {
      if |password| < 8 { return TooShort; }
      var found := FindEmail(emails, token);
      if found.None? { return Invalid; }
      var i := found.value;
      var row := emails[i];
      if row.purpose != PasswordReset || row.usedAt.Some? || row.expiresAt < now { return Invalid; }
      if row.subject !in passwords { return NoSubject; }
      emails := emails[i := row.(usedAt := Some(now))];
      passwords := passwords[row.subject := password];
      tokens := RevokeAll(tokens, OfSubject(row.subject), now);
      return Reset;
    }

    method IssueOtp(subject: Subject, code: string, now: nat)
      modifies this`otps
      ensures otps == ConsumePending(old(otps), subject, now) + [Otp(subject, code, now + OTP_TTL, None, 0)]
      ensures Pending(otps, subject) == Some(|old(otps)|)
      ensures View() == Next(old(View()), Call.IssueOtp(subject, code, now))
    {
      otps := ConsumePending(otps, subject, now);
      otps := otps + [Otp(subject, code, now + OTP_TTL, None, 0)];
    }

    method VerifyOtp(subject: Subject, code: string, now: nat) returns (ok: bool)
      modifies this`otps
      ensures (otps, ok) == VerifySpec(old(otps), subject, code, now)
      ensures var found := Pending(old(otps), subject);
        if found.None? then !ok && otps == old(otps)
        else
          var o := old(otps)[found.value];
          if now > o.expiresAt || o.attempts >= 5 then !ok && otps == old(otps)
          else if code == o.code then ok && otps == old(otps)[found.value := o.(consumedAt := Some(now))]
          else !ok && otps == old(otps)[found.value := o.(attempts := o.attempts + 1)]
      ensures View() == Next(old(View()), Call.VerifyOtp(subject, code, now))
    {
      var found := Pending(otps, subject);
      if found.None? { return false; }
      var i := found.value;
      var row := otps[i];
      if row.expiresAt < now || row.attempts >= OTP_MAX_ATTEMPTS { return false; }
      if row.code != code {
        otps := otps[i := row.(attempts := row.attempts + 1)];
        return false;
      }
      otps := otps[i := row.(consumedAt := Some(now))];
      return true;
    }
  }

  // ---- runs ----

  datatype Call =
    | Login(subject: Subject, token: string, family: string, expiresAt: nat)
    | Rotate(presented: string, drawn: string, expiresAt: nat, now: nat)
    | Revoke(presented: string, now: nat)
    | RequestReset(account: Option<Subject>, token: string, now: nat)
    | ConfirmReset(token: string, password: string, now: nat)
    | IssueOtp(subject: Subject, code: string, now: nat)
    | VerifyOtp(subject: Subject, code: string, now: nat)

  predicate NewHash(db: Db, h: string) {
    && (forall i :: 0 <= i < |db.tokens| ==> db.tokens[i].hash != h)
    && (forall i :: 0 <= i < |db.emails| ==> db.emails[i].hash != h)
  }

  predicate NewFamily(db: Db, f: string) { forall i :: 0 <= i < |db.tokens| ==> db.tokens[i].family != f }

  /** The random names a call draws are new. */
  predicate DrawsFresh(db: Db, call: Call) {
    match call
    case Login(_, token, family, _) => NewHash(db, token) && NewFamily(db, family)
    case Rotate(_, drawn, _, _) => NewHash(db, drawn)
    case RequestReset(_, token, _) => NewHash(db, token)
    case _ => true
  }

  function Next(db: Db, call: Call): Db {
    if !DrawsFresh(db, call) then db else
    match call
    case Login(s, t, f, e) => db.(tokens := db.tokens + [Refresh(s, f, t, e, None, None)])
    case Rotate(p, t, e, now) => db.(tokens := RotateSpec(db.tokens, p, t, e, now).0)
    case Revoke(p, now) => db.(tokens := RevokeAll(db.tokens, OfHash(p), now))
    case RequestReset(s, t, now) =>
      if s.None? then db else db.(emails := db.emails + [EmailToken(s.value, PasswordReset, t, now + RESET_TTL, None)])
    case ConfirmReset(t, p, now) => ResetSpec(db, t, p, now).0
    case IssueOtp(s, c, now) => db.(otps := ConsumePending(db.otps, s, now) + [Otp(s, c, now + OTP_TTL, None, 0)])
    case VerifyOtp(s, c, now) => db.(otps := VerifySpec(db.otps, s, c, now).0)
  }

  function Run(db: Db, calls: seq<Call>): Db {
    if calls == [] then db else Next(Run(db, calls[..|calls| - 1]), calls[|calls| - 1])
  }

  lemma {:induction false} RunConcat(db: Db, xs: seq<Call>, ys: seq<Call>)
    ensures Run(db, xs + ys) == Run(Run(db, xs), ys)
  {
    if ys == [] {
      assert xs + ys == xs;
    } else {
      var front := ys[..|ys| - 1];
      assert (xs + ys)[..|xs + ys| - 1] == xs + front;
      RunConcat(db, xs, front);
    }
  }

  /** Nothing issued yet. */
  predicate Empty(db: Db) { db.tokens == [] && db.emails == [] && db.otps == [] }

  // ---- families ----

  ghost predicate UniqueHashes(rows: seq<Refresh>) {
    forall i, j :: 0 <= i < j < |rows| ==> rows[i].hash != rows[j].hash
  }

  ghost predicate OneSubject(rows: seq<Refresh>) {
    forall i, j :: 0 <= i < j < |rows| && rows[i].family == rows[j].family ==> rows[i].subject == rows[j].subject
  }

  /** Only the newest row of a family can be unrevoked. */
  ghost predicate OnlyNewestLive(rows: seq<Refresh>) {
    forall i, j :: 0 <= i < j < |rows| && rows[i].family == rows[j].family ==> rows[i].revokedAt.Some?
  }

  /** Row j is the next row of row i's family. */
  ghost predicate IsNext(rows: seq<Refresh>, i: int, j: int) {
    && 0 <= i < j < |rows| && rows[j].family == rows[i].family
    && forall k :: i < k < j ==> rows[k].family != rows[i].family
  }

  ghost predicate NewestOf(rows: seq<Refresh>, i: int) {
    0 <= i < |rows| && forall k :: i < k < |rows| ==> rows[k].family != rows[i].family
  }

  /** `replacedBy` names the next row of the family and nothing else, so the links run from each family's
      first row to its newest, forwards in time, without gaps or branches. */
  ghost predicate Chained(rows: seq<Refresh>) {
    forall i :: 0 <= i < |rows| ==>
      if rows[i].replacedBy.None? then NewestOf(rows, i)
      else exists j :: IsNext(rows, i, j) && rows[j].hash == rows[i].replacedBy.value
  }

  ghost predicate Families(rows: seq<Refresh>) {
    UniqueHashes(rows) && OneSubject(rows) && OnlyNewestLive(rows) && Chained(rows)
  }

  /** Two tables that differ at most in when rows were revoked, none being un-revoked. */
  ghost predicate MoreRevoked(before: seq<Refresh>, after: seq<Refresh>) {
    && |after| == |before|
    && forall i :: 0 <= i < |before| ==>
         && after[i].hash == before[i].hash && after[i].family == before[i].family && after[i].subject == before[i].subject
         && after[i].replacedBy == before[i].replacedBy && (before[i].revokedAt.Some? ==> after[i].revokedAt.Some?)
  }

  lemma RevokeAllMore(rows: seq<Refresh>, which: Which, now: nat)
    ensures MoreRevoked(rows, RevokeAll(rows, which, now))
    ensures forall i :: 0 <= i < |rows| && Picks(which, rows[i]) ==> RevokeAll(rows, which, now)[i].revokedAt.Some?
  {
  }

  lemma MoreRevokedFamilies(before: seq<Refresh>, after: seq<Refresh>)
    requires Families(before) && MoreRevoked(before, after)
    ensures Families(after)
  {
    forall i | 0 <= i < |after|
      ensures if after[i].replacedBy.None? then NewestOf(after, i)
              else exists j :: IsNext(after, i, j) && after[j].hash == after[i].replacedBy.value
    {
      if after[i].replacedBy.Some? {
        var j :| IsNext(before, i, j) && before[j].hash == before[i].replacedBy.value;
        assert IsNext(after, i, j);
      } else {
        assert NewestOf(before, i);
      }
    }
  }

  lemma LoginFamilies(rows: seq<Refresh>, r: Refresh)
    requires Families(rows) && r.replacedBy.None?
    requires forall i :: 0 <= i < |rows| ==> rows[i].hash != r.hash && rows[i].family != r.family
    ensures Families(rows + [r])
  {
    var after := rows + [r];
    forall i | 0 <= i < |after|
      ensures if after[i].replacedBy.None? then NewestOf(after, i)
              else exists j :: IsNext(after, i, j) && after[j].hash == after[i].replacedBy.value
    {
      if i < |rows| {
        assert after[i] == rows[i];
        if after[i].replacedBy.Some? {
          var j :| IsNext(rows, i, j) && rows[j].hash == rows[i].replacedBy.value;
          assert IsNext(after, i, j);
        } else {
          assert NewestOf(rows, i);
        }
      }
    }
  }

  /** An unrevoked row is the newest of its family. */
  lemma LiveIsNewest(rows: seq<Refresh>, i: nat)
    requires Families(rows) && i < |rows| && rows[i].revokedAt.None?
    ensures NewestOf(rows, i) && rows[i].replacedBy.None?
  {
    forall k | i < k < |rows| ensures rows[k].family != rows[i].family {
    }
  }

  lemma RotatedFamilies(rows: seq<Refresh>, i: nat, drawn: string, expiresAt: nat, now: nat)
    requires Families(rows) && i < |rows| && rows[i].revokedAt.None?
    requires forall k :: 0 <= k < |rows| ==> rows[k].hash != drawn
    ensures Families((rows + [Refresh(rows[i].subject, rows[i].family, drawn, expiresAt, None, None)])
                       [i := rows[i].(revokedAt := Some(now), replacedBy := Some(drawn))])
  {
    LiveIsNewest(rows, i);
    var n := |rows|;
    var r := Refresh(rows[i].subject, rows[i].family, drawn, expiresAt, None, None);
    var after := (rows + [r])[i := rows[i].(revokedAt := Some(now), replacedBy := Some(drawn))];
    assert forall k :: 0 <= k < n && k != i ==> after[k] == rows[k];
    assert after[n] == r;
    forall k | 0 <= k < |after|
      ensures if after[k].replacedBy.None? then NewestOf(after, k)
              else exists j :: IsNext(after, k, j) && after[j].hash == after[k].replacedBy.value
    {
      if k == i {
        assert IsNext(after, i, n);
      } else if k < n {
        if after[k].replacedBy.Some? {
          var j :| IsNext(rows, k, j) && rows[j].hash == rows[k].replacedBy.value;
          assert IsNext(after, k, j);
        } else {
          assert NewestOf(rows, k);
          assert rows[k].family != rows[i].family;
        }
      }
    }
  }

  lemma FamiliesStep(db: Db, call: Call)
    requires Families(db.tokens)
    ensures Families(Next(db, call).tokens)
  {
    if DrawsFresh(db, call) {
      match call {
        case Login(s, t, f, e) => LoginFamilies(db.tokens, Refresh(s, f, t, e, None, None));
        case Rotate(p, t, e, now) =>
          var found := FindToken(db.tokens, p);
          if found.Some? {
            if Dead(db.tokens[found.value], now) {
              Revocation(db.tokens, OfFamily(db.tokens[found.value].family), now);
            } else {
              RotatedFamilies(db.tokens, found.value, t, e, now);
            }
          }
        case Revoke(p, now) => Revocation(db.tokens, OfHash(p), now);
        case ConfirmReset(t, p, now) =>
          var found := FindEmail(db.emails, t);
          if found.Some? { Revocation(db.tokens, OfSubject(db.emails[found.value].subject), now); }
        case _ =>
      }
    }
  }

  lemma Revocation(rows: seq<Refresh>, which: Which, now: nat)
    requires Families(rows)
    ensures Families(RevokeAll(rows, which, now))
  {
    RevokeAllMore(rows, which, now);
    MoreRevokedFamilies(rows, RevokeAll(rows, which, now));
  }

  /** Over any run of logins, rotations, logouts, resets and codes: one subject and at most one unrevoked token
      per family, and `replacedBy` links that chain each family's rows in the order they were issued. */
  lemma {:induction false} RunFamilies(db: Db, calls: seq<Call>)
    requires Empty(db)
    ensures Families(Run(db, calls).tokens)
  {
    if calls != [] {
      var front := calls[..|calls| - 1];
      RunFamilies(db, front);
      FamiliesStep(Run(db, front), calls[|calls| - 1]);
    }
  }

  lemma AtMostOneLive(db: Db, calls: seq<Call>, i: nat, j: nat)
    requires Empty(db)
    requires var rows := Run(db, calls).tokens; i < |rows| && j < |rows| && rows[i].family == rows[j].family
    ensures var rows := Run(db, calls).tokens;
      && rows[i].subject == rows[j].subject
      && (rows[i].revokedAt.None? && rows[j].revokedAt.None? ==> i == j)
  {
    hide Run;
    RunFamilies(db, calls);
  }

  // ---- dead families ----

  /** The family exists and all its tokens are revoked. */
  ghost predicate DeadFamily(rows: seq<Refresh>, f: string) {
    && (exists i :: 0 <= i < |rows| && rows[i].family == f)
    && (forall i :: 0 <= i < |rows| && rows[i].family == f ==> rows[i].revokedAt.Some?)
  }

  lemma DeadStep(db: Db, call: Call, f: string)
    requires DeadFamily(db.tokens, f)
    ensures DeadFamily(Next(db, call).tokens, f)
  {
    var rows := db.tokens;
    var after := Next(db, call).tokens;
    var w :| 0 <= w < |rows| && rows[w].family == f;
    assert |after| >= |rows| && after[w].family == f;
    forall i | 0 <= i < |after| && after[i].family == f
      ensures after[i].revokedAt.Some?
    {
      if i < |rows| {
        assert after[i].family == rows[i].family;
      }
    }
  }

  /** A family without unrevoked tokens never gains one again. */
  lemma {:induction false} DeadForever(db: Db, calls: seq<Call>, f: string)
    requires DeadFamily(db.tokens, f)
    ensures DeadFamily(Run(db, calls).tokens, f)
  {
    hide Next, DeadFamily;
    if calls != [] {
      var front := calls[..|calls| - 1];
      DeadForever(db, front, f);
      DeadStep(Run(db, front), calls[|calls| - 1], f);
    }
  }

  /** Presenting a revoked or expired token kills its family for good. */
  lemma ReuseKillsFamily(db: Db, presented: string, drawn: string, expiresAt: nat, now: nat, later: seq<Call>, i: nat)
    requires NewHash(db, drawn) && FindToken(db.tokens, presented) == Some(i) && Dead(db.tokens[i], now)
    ensures DeadFamily(Run(Next(db, Rotate(presented, drawn, expiresAt, now)), later).tokens, db.tokens[i].family)
  {
    hide Run;
    var f := db.tokens[i].family;
    var after := Next(db, Rotate(presented, drawn, expiresAt, now));
    assert after.tokens == RevokeAll(db.tokens, OfFamily(f), now);
    assert after.tokens[i].family == f;
    assert DeadFamily(after.tokens, f);
    DeadForever(after, later, f);
  }

  // ---- password reset ----

  /** A successful reset leaves the subject no unrevoked token, and every unrevoked token it has later belongs
      to a family that did not exist at the reset. */
  lemma ResetLogsOut(db: Db, token: string, password: string, now: nat, later: seq<Call>)
    requires Families(db.tokens) && ResetSpec(db, token, password, now).1 == Reset
    ensures var s := db.emails[FindEmail(db.emails, token).value].subject;
      var at := Next(db, ConfirmReset(token, password, now));
      && at.passwords[s] == password
      && (forall i :: 0 <= i < |at.tokens| && at.tokens[i].subject == s ==> at.tokens[i].revokedAt.Some?)
      && (forall i, j :: 0 <= i < |Run(at, later).tokens| && Run(at, later).tokens[i].subject == s
            && Run(at, later).tokens[i].revokedAt.None? && 0 <= j < |at.tokens| && at.tokens[j].subject == s
            ==> Run(at, later).tokens[i].family != at.tokens[j].family)
  {
    hide Run, Next;
    var s := db.emails[FindEmail(db.emails, token).value].subject;
    var at := Next(db, ConfirmReset(token, password, now));
    ResetNow(db, token, password, now);
    FamiliesStep(db, ConfirmReset(token, password, now));
    var end := Run(at, later);
    forall i, j | 0 <= i < |end.tokens| && end.tokens[i].subject == s && end.tokens[i].revokedAt.None?
                  && 0 <= j < |at.tokens| && at.tokens[j].subject == s
      ensures end.tokens[i].family != at.tokens[j].family
    {
      SubjectFamilyDead(at.tokens, s, j);
      DeadForever(at, later, at.tokens[j].family);
    }
  }

  lemma ResetNow(db: Db, token: string, password: string, now: nat)
    requires ResetSpec(db, token, password, now).1 == Reset
    ensures var s := db.emails[FindEmail(db.emails, token).value].subject;
      var at := Next(db, ConfirmReset(token, password, now));
      && at.passwords[s] == password && s in at.passwords
      && (forall i :: 0 <= i < |at.tokens| && at.tokens[i].subject == s ==> at.tokens[i].revokedAt.Some?)
  {
  }

  lemma SubjectFamilyDead(rows: seq<Refresh>, s: Subject, j: nat)
    requires OneSubject(rows) && j < |rows| && rows[j].subject == s
    requires forall i :: 0 <= i < |rows| && rows[i].subject == s ==> rows[i].revokedAt.Some?
    ensures DeadFamily(rows, rows[j].family)
  {
    forall i | 0 <= i < |rows| && rows[i].family == rows[j].family
      ensures rows[i].revokedAt.Some?
    {
      assert rows[i].subject == s;
    }
  }

  ghost predicate Used(db: Db, token: string) {
    exists i :: 0 <= i < |db.emails| && db.emails[i].hash == token && db.emails[i].usedAt.Some?
      && forall j :: 0 <= j < |db.emails| && db.emails[j].hash == token ==> j == i
  }

  lemma UsedStep(db: Db, call: Call, token: string)
    requires Used(db, token)
    ensures Used(Next(db, call), token)
  {
    var i :| 0 <= i < |db.emails| && db.emails[i].hash == token && db.emails[i].usedAt.Some?
      && forall j :: 0 <= j < |db.emails| && db.emails[j].hash == token ==> j == i;
    var after := Next(db, call);
    assert after.emails[i].hash == token && after.emails[i].usedAt.Some?;
    forall j | 0 <= j < |after.emails| && after.emails[j].hash == token ensures j == i {
      if j < |db.emails| { assert after.emails[j].hash == db.emails[j].hash; }
    }
  }

  lemma {:induction false} UsedForever(db: Db, calls: seq<Call>, token: string)
    requires Used(db, token)
    ensures Used(Run(db, calls), token)
  {
    hide Next, Used;
    if calls != [] {
      UsedForever(db, calls[..|calls| - 1], token);
      UsedStep(Run(db, calls[..|calls| - 1]), calls[|calls| - 1], token);
    }
  }

  ghost predicate UniqueLinks(db: Db) {
    forall i, j :: 0 <= i < j < |db.emails| ==> db.emails[i].hash != db.emails[j].hash
  }

  lemma {:induction false} RunUniqueLinks(db: Db, calls: seq<Call>)
    requires Empty(db)
    ensures UniqueLinks(Run(db, calls))
  {
    if calls != [] {
      var front := calls[..|calls| - 1];
      RunUniqueLinks(db, front);
      UniqueLinksStep(Run(db, front), calls[|calls| - 1]);
    }
  }

  lemma UniqueLinksStep(db: Db, call: Call)
    requires UniqueLinks(db)
    ensures UniqueLinks(Next(db, call))
  {
    var after := Next(db, call).emails;
    assert forall j :: 0 <= j < |db.emails| ==> after[j].hash == db.emails[j].hash;
  }

  /** A reset link works at most once: after it has worked, no later attempt in the run succeeds. */
  lemma ResetOnlyOnce(db: Db, before: seq<Call>, token: string, password: string, now: nat,
                      between: seq<Call>, again: string, later: nat)
    requires Empty(db) && ResetSpec(Run(db, before), token, password, now).1 == Reset
    ensures ResetSpec(Run(Next(Run(db, before), ConfirmReset(token, password, now)), between), token, again, later).1 != Reset
  {
    hide Run, Next;
    var at := Run(db, before);
    RunUniqueLinks(db, before);
    ResetUses(at, token, password, now);
    var after := Next(at, ConfirmReset(token, password, now));
    UsedForever(after, between, token);
    var end := Run(after, between);
    assert Used(end, token);
  }

  lemma ResetUses(db: Db, token: string, password: string, now: nat)
    requires UniqueLinks(db) && ResetSpec(db, token, password, now).1 == Reset
    ensures Used(Next(db, ConfirmReset(token, password, now)), token)
  {
    var i := FindEmail(db.emails, token).value;
    var after := Next(db, ConfirmReset(token, password, now));
    assert after.emails[i].usedAt.Some? && after.emails[i].hash == token;
    assert forall j :: 0 <= j < |db.emails| ==> after.emails[j].hash == db.emails[j].hash;
  }

  // ---- one-time codes ----

  /** At most one unconsumed code per subject, and no code beyond five wrong attempts. */
  ghost predicate OtpInv(rows: seq<Otp>) {
    && (forall i, j :: 0 <= i < j < |rows| && rows[i].subject == rows[j].subject ==> rows[i].consumedAt.Some?)
    && (forall i :: 0 <= i < |rows| ==> rows[i].attempts <= OTP_MAX_ATTEMPTS)
  }

  lemma OtpStep(db: Db, call: Call)
    requires OtpInv(db.otps)
    ensures OtpInv(Next(db, call).otps)
  {
    var after := Next(db, call).otps;
    match call {
      case IssueOtp(s, c, now) =>
        var consumed := ConsumePending(db.otps, s, now);
        assert forall i :: 0 <= i < |db.otps| ==> after[i] == consumed[i];
      case _ =>
    }
  }

  lemma {:induction false} RunOtp(db: Db, calls: seq<Call>)
    requires Empty(db)
    ensures OtpInv(Run(db, calls).otps)
  {
    if calls != [] {
      var front := calls[..|calls| - 1];
      RunOtp(db, front);
      OtpStep(Run(db, front), calls[|calls| - 1]);
    }
  }

  /** The code row a call accepts. */
  function Accepts(db: Db, call: Call): Option<nat> {
    if call.VerifyOtp? && VerifySpec(db.otps, call.subject, call.code, call.now).1 then Pending(db.otps, call.subject) else None
  }

  /** The code row a call enters a wrong code against. */
  function Misses(db: Db, call: Call): Option<nat> {
    if call.VerifyOtp? then
      var found := Pending(db.otps, call.subject);
      if found.Some? && Open(db.otps[found.value], call.now) && db.otps[found.value].code != call.code then found else None
    else None
  }

  /** What is accepted is the right code, in time, entered against the subject's newest unconsumed row. */
  lemma AcceptedIsRight(db: Db, call: Call, r: nat)
    requires Accepts(db, call) == Some(r)
    ensures r < |db.otps| && call.VerifyOtp? && db.otps[r].subject == call.subject && db.otps[r].consumedAt.None?
    ensures db.otps[r].code == call.code && call.now <= db.otps[r].expiresAt && db.otps[r].attempts < 5
    ensures forall i :: r < i < |db.otps| && db.otps[i].subject == call.subject ==> db.otps[i].consumedAt.Some?
  {
  }

  lemma OtpRowStep(db: Db, call: Call, r: nat)
    requires r < |db.otps|
    ensures var after := Next(db, call).otps;
      && r < |after|
      && (db.otps[r].consumedAt.Some? ==> after[r].consumedAt.Some?)
      && (Accepts(db, call) == Some(r) ==> db.otps[r].consumedAt.None? && after[r].consumedAt.Some?)
      && after[r].attempts == db.otps[r].attempts + (if Misses(db, call) == Some(r) then 1 else 0)
  {
  }

  lemma {:induction false} ConsumedForever(db: Db, calls: seq<Call>, r: nat)
    requires r < |db.otps| && db.otps[r].consumedAt.Some?
    ensures r < |Run(db, calls).otps| && Run(db, calls).otps[r].consumedAt.Some?
  {
    hide Next;
    if calls != [] {
      ConsumedForever(db, calls[..|calls| - 1], r);
      OtpRowStep(Run(db, calls[..|calls| - 1]), calls[|calls| - 1], r);
    }
  }

  /** A code is accepted at most once. */
  lemma AcceptedOnce(db: Db, first: Call, between: seq<Call>, second: Call, r: nat)
    requires Accepts(db, first) == Some(r)
    ensures Accepts(Run(Next(db, first), between), second) != Some(r)
  {
    hide Run, Next;
    OtpRowStep(db, first, r);
    ConsumedForever(Next(db, first), between, r);
  }

  /** How many wrong codes a run enters against a row. */
  function MissCount(db: Db, calls: seq<Call>, r: nat): nat {
    if calls == [] then 0
    else
      var front := calls[..|calls| - 1];
      MissCount(db, front, r) + (if Misses(Run(db, front), calls[|calls| - 1]) == Some(r) then 1 else 0)
  }

  lemma {:induction false} AttemptsAreMisses(db: Db, calls: seq<Call>, r: nat)
    requires Empty(db)
    ensures MissCount(db, calls, r) == if r < |Run(db, calls).otps| then Run(db, calls).otps[r].attempts else 0
  {
    hide Next, Misses, Pending;
    if calls != [] {
      var front := calls[..|calls| - 1];
      AttemptsAreMisses(db, front, r);
      var at := Run(db, front);
      if r < |at.otps| {
        OtpRowStep(at, calls[|calls| - 1], r);
      } else {
        NewOtpRow(at, calls[|calls| - 1], r);
      }
    }
  }

  lemma NewOtpRow(db: Db, call: Call, r: nat)
    requires r >= |db.otps|
    ensures Misses(db, call) != Some(r)
    ensures r < |Next(db, call).otps| ==> Next(db, call).otps[r].attempts == 0
  {
  }

  /** In any run, at most five wrong codes are entered against any one code; the sixth try, right or wrong, is
      refused without being counted. */
  lemma FiveWrongAttempts(db: Db, calls: seq<Call>, r: nat)
    requires Empty(db)
    ensures MissCount(db, calls, r) <= OTP_MAX_ATTEMPTS
    ensures forall call :: MissCount(db, calls, r) == OTP_MAX_ATTEMPTS ==>
              Misses(Run(db, calls), call) != Some(r) && Accepts(Run(db, calls), call) != Some(r)
  {
    hide Run, MissCount;
    AttemptsAreMisses(db, calls, r);
    RunOtp(db, calls);
  }
}
