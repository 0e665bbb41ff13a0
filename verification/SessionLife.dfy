/**
  How long a refresh token is good, and how long its reuse is noticed (api/auth_handlers.go), over any interleaving of
  logins, refreshes, replays, logouts and purges.
 */
module SessionLife {
  import opened RefreshTokens

  function At(es: seq<Event>, i: nat): State
    requires i <= |es|
  {
    Exec(START, es[..i])
  }

  /*** A token's life ***/

  /** The statement hands out the token: a login, or the insert of a rotation. */
  predicate HandsOut(s: State, e: Event, t: Token) {
    match e
    case Login(_, family, token) => token == t && t !in s.issued && family !in s.families
    case Issue(h, token) => token == t && t !in s.issued && h in s.handlers && s.handlers[h].Purged?
    case _ => false
  }

  function FamilyOf(s: State, e: Event, t: Token): Family
    requires HandsOut(s, e, t)
  {
    if e.Login? then e.family else s.handlers[e.h].family
  }

  /** The statement ends the token's life: it is presented in time, logged out, or revoked with its family. */
  predicate Spends(s: State, e: Event, t: Token, f: Family, expires: int) {
    match e
    case Claim(h, token) => token == t && h !in s.handlers && s.now < expires
    case Logout(token) => token == t
    case RevokeFamily(h) => h in s.handlers && s.handlers[h] == Replayed(f)
    case _ => false
  }

  /** The row of a token that was handed out, and whether something has ended its life. */
  ghost predicate Tracks(s: State, t: Token, f: Family, expires: int, spent: bool) {
    && t in s.issued
    && (t in s.rows ==> s.rows[t].family == f && s.rows[t].expires == expires)
    && (LiveRow(s, t) ==> !spent)
    && (!spent && s.now <= expires ==> LiveRow(s, t))
  }

  lemma StepTracks(s: State, e: Event, t: Token, f: Family, expires: int, spent: bool)
    requires Tracks(s, t, f, expires, spent)
    ensures Tracks(Apply(s, e), t, f, expires, spent || Spends(s, e, t, f, expires))
  {
  }

  lemma HandedOut(s: State, e: Event, t: Token)
    requires HandsOut(s, e, t)
    ensures Tracks(Apply(s, e), t, FamilyOf(s, e, t), s.now + REFRESH_TTL, false)
  {
  }

  /** A statement between `i` and `n` spends the token. */
  ghost predicate SpentBetween(es: seq<Event>, i: nat, n: nat, t: Token, f: Family, expires: int)
    requires n <= |es|
  {
    exists j | i < j < n :: Spends(At(es, j), es[j], t, f, expires)
  }

  lemma FirstTracks(es: seq<Event>, i: nat, t: Token)
    requires i < |es| && HandsOut(At(es, i), es[i], t)
    ensures var f, expires := FamilyOf(At(es, i), es[i], t), At(es, i).now + REFRESH_TTL;
            Tracks(At(es, i + 1), t, f, expires, SpentBetween(es, i, i + 1, t, f, expires))
  {
    Next(es, i);
    HandedOut(At(es, i), es[i], t);
  }

  lemma {:induction false} RunTracks(es: seq<Event>, i: nat, n: nat, t: Token)
    requires i < n <= |es| && HandsOut(At(es, i), es[i], t)
    ensures var f, expires := FamilyOf(At(es, i), es[i], t), At(es, i).now + REFRESH_TTL;
            Tracks(At(es, n), t, f, expires, SpentBetween(es, i, n, t, f, expires))
  {
    var f, expires := FamilyOf(At(es, i), es[i], t), At(es, i).now + REFRESH_TTL;
    if n == i + 1 {
      FirstTracks(es, i, t);
    } else {
      RunTracks(es, i, n - 1, t);
      TracksNext(es, i, n - 1, t, f, expires);
    }
  }

  lemma TracksNext(es: seq<Event>, i: nat, n: nat, t: Token, f: Family, expires: int)
    requires i < n < |es| && Tracks(At(es, n), t, f, expires, SpentBetween(es, i, n, t, f, expires))
    ensures Tracks(At(es, n + 1), t, f, expires, SpentBetween(es, i, n + 1, t, f, expires))
  {
    Next(es, n);
    StepTracks(At(es, n), es[n], t, f, expires, SpentBetween(es, i, n, t, f, expires));
    SpentNext(es, i, n, t, f, expires);
  }

  lemma Next(es: seq<Event>, n: nat)
    requires n < |es|
    ensures At(es, n + 1) == Apply(At(es, n), es[n])
  {
    assert es[..n + 1] == es[..n] + [es[n]];
    ExecSnoc(START, es[..n], es[n]);
  }

  lemma SpentNext(es: seq<Event>, i: nat, n: nat, t: Token, f: Family, expires: int)
    requires i < n < |es|
    ensures SpentBetween(es, i, n + 1, t, f, expires)
       <==> SpentBetween(es, i, n, t, f, expires) || Spends(At(es, n), es[n], t, f, expires)
  {
  }

  /**
    How long a token is good: from the statement that handed it out on, it can be claimed if and only if its thirty
    days are not over and nobody has presented it, logged it out or had its family revoked. No other refresh, replay,
    logout or purge takes it away.
   */
  lemma TokenLives(es: seq<Event>, i: nat, t: Token)
    requires i < |es| && HandsOut(At(es, i), es[i], t)
    ensures var f, expires, s := FamilyOf(At(es, i), es[i], t), At(es, i).now + REFRESH_TTL, Exec(START, es);
            Claimable(s.rows, t, s.now) <==> s.now < expires && !SpentBetween(es, i, |es|, t, f, expires)
  {
    RunTracks(es, i, |es|, t);
    assert es[..|es|] == es;
  }

  /*** How long reuse is noticed ***/

  /** The statement is a claim that honours the token. */
  predicate Honours(s: State, e: Event, t: Token) {
    e.Claim? && e.token == t && e.h !in s.handlers && Claimable(s.rows, t, s.now)
  }

  /** The statement takes the spent token off file: its logout, or a purge after its own expiry. */
  predicate Forgets(s: State, e: Event, t: Token, expires: int) {
    match e
    case Logout(token) => token == t
    case Purge(h) => h in s.handlers && s.handlers[h].Rotating? && expires < s.now
    case _ => false
  }

  ghost predicate OnFile(s: State, t: Token, r: Row, forgotten: bool) {
    && t in s.issued
    && (t in s.rows <==> !forgotten)
    && (t in s.rows ==> s.rows[t] == r.(revoked := true))
  }

  lemma StepKeepsFile(s: State, e: Event, t: Token, r: Row, forgotten: bool)
    requires OnFile(s, t, r, forgotten)
    ensures OnFile(Apply(s, e), t, r, forgotten || Forgets(s, e, t, r.expires))
  {
  }

  ghost predicate ForgottenBetween(es: seq<Event>, i: nat, n: nat, t: Token, expires: int)
    requires n <= |es|
  {
    exists j | i < j < n :: Forgets(At(es, j), es[j], t, expires)
  }

  lemma ForgottenNext(es: seq<Event>, i: nat, n: nat, t: Token, expires: int)
    requires i < n < |es|
    ensures ForgottenBetween(es, i, n + 1, t, expires)
       <==> ForgottenBetween(es, i, n, t, expires) || Forgets(At(es, n), es[n], t, expires)
  {
  }

  lemma SpentIsOnFile(es: seq<Event>, i: nat, t: Token)
    requires i < |es| && Honours(At(es, i), es[i], t)
    ensures var r := At(es, i).rows[t]; OnFile(At(es, i + 1), t, r, ForgottenBetween(es, i, i + 1, t, r.expires))
  {
    Next(es, i);
    ExecKeepsInv(START, es[..i]);
  }

  lemma {:induction false} RunKeepsFile(es: seq<Event>, i: nat, n: nat, t: Token)
    requires i < n <= |es| && Honours(At(es, i), es[i], t)
    ensures var r := At(es, i).rows[t]; OnFile(At(es, n), t, r, ForgottenBetween(es, i, n, t, r.expires))
  {
    var r := At(es, i).rows[t];
    if n == i + 1 {
      SpentIsOnFile(es, i, t);
    } else {
      RunKeepsFile(es, i, n - 1, t);
      OnFileNext(es, i, n - 1, t, r);
    }
  }

  lemma OnFileNext(es: seq<Event>, i: nat, n: nat, t: Token, r: Row)
    requires i < n < |es| && OnFile(At(es, n), t, r, ForgottenBetween(es, i, n, t, r.expires))
    ensures OnFile(At(es, n + 1), t, r, ForgottenBetween(es, i, n + 1, t, r.expires))
  {
    Next(es, n);
    StepKeepsFile(At(es, n), es[n], t, r, ForgottenBetween(es, i, n, t, r.expires));
    ForgottenNext(es, i, n, t, r.expires);
  }

  /**
    How long a spent token stays on file as revoked: until its own logout, or the first purge after its own expiry,
    and exactly until then.
   */
  lemma SpentTokenStaysOnFile(es: seq<Event>, i: nat, t: Token)
    requires i < |es| && Honours(At(es, i), es[i], t)
    ensures var r := At(es, i).rows[t];
            StoredRevoked(Exec(START, es).rows, t) <==> !ForgottenBetween(es, i, |es|, t, r.expires)
  {
    RunKeepsFile(es, i, |es|, t);
    assert es[..|es|] == es;
  }

  /**
    Reuse detection: a handler that was refused a token honoured before finds it a replay of its family if and only if
    the token is still on file; otherwise it is answered like any unknown token and the family is left alone.
   */
  lemma ReplayIsNoticed(es: seq<Event>, i: nat, t: Token, h: nat)
    requires i < |es| && Honours(At(es, i), es[i], t)
    requires var s := Exec(START, es); h in s.handlers && s.handlers[h] == Suspect(t)
    ensures var r, s := At(es, i).rows[t], Exec(START, es + [Lookup(h)]);
            if ForgottenBetween(es, i, |es|, t, r.expires) then h !in s.handlers && s.rows == Exec(START, es).rows
            else h in s.handlers && s.handlers[h] == Replayed(r.family)
  {
    RunKeepsFile(es, i, |es|, t);
    assert es[..|es|] == es;
    ExecSnoc(START, es, Lookup(h));
  }

  /** Before the token's own expiry, and unless it is logged out, a replay of it is always noticed. */
  lemma ReplayInTimeIsNoticed(es: seq<Event>, i: nat, t: Token, h: nat)
    requires i < |es| && Honours(At(es, i), es[i], t)
    requires var s := Exec(START, es); h in s.handlers && s.handlers[h] == Suspect(t)
    requires Exec(START, es).now <= At(es, i).rows[t].expires
    requires forall j | i < j < |es| :: es[j] != Logout(t)
    ensures var s := Exec(START, es + [Lookup(h)]);
            h in s.handlers && s.handlers[h] == Replayed(At(es, i).rows[t].family)
  {
    ReplayIsNoticed(es, i, t, h);
    forall j | i < j < |es| ensures !Forgets(At(es, j), es[j], t, At(es, i).rows[t].expires) {
      ClockForward(es, j, |es|);
      assert es[..|es|] == es;
    }
  }

  lemma {:induction false} ClockForward(es: seq<Event>, i: nat, n: nat)
    requires i <= n <= |es|
    ensures At(es, i).now <= At(es, n).now
    decreases n
  {
    if i < n {
      ClockForward(es, i, n - 1);
      Next(es, n - 1);
    }
  }

  /** Once off the table, a token never comes back. */
  lemma {:induction false} GoneStaysGone(es: seq<Event>, i: nat, n: nat, t: Token)
    requires i <= n <= |es| && t in At(es, i).issued && t !in At(es, i).rows
    ensures t in At(es, n).issued && t !in At(es, n).rows
    decreases n
  {
    if i < n {
      GoneStaysGone(es, i, n - 1, t);
      Next(es, n - 1);
    }
  }

  /** A logout is final: the token is neither honoured nor taken for a replay in any continuation. */
  lemma LogoutIsFinal(es: seq<Event>, i: nat, t: Token)
    requires i < |es| && es[i] == Logout(t) && t in At(es, i).issued
    ensures var s := Exec(START, es); !Claimable(s.rows, t, s.now) && !StoredRevoked(s.rows, t)
  {
    Next(es, i);
    GoneStaysGone(es, i + 1, |es|, t);
    assert es[..|es|] == es;
  }
}
