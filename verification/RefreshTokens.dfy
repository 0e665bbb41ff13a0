/**
  Refresh-token rotation with reuse detection (api/auth_handlers.go; the technique of section 4.14.2 of RFC 9700).
  Token hashes, family ids and handler names are plain identities.
 */
module RefreshTokens {
  import opened Prelude

  type Token = nat
  type Family = nat
  type User = nat

  datatype Row = Row(user: User, family: Family, expires: int, revoked: bool)

  type Rows = map<Token, Row>

  const REFRESH_TTL: int := 30 * 24 * 3600

  /*** The SQL statements, on table contents ***/

  predicate Claimable(rows: Rows, t: Token, now: int) {
    t in rows && !rows[t].revoked && rows[t].expires > now
  }

  predicate StoredRevoked(rows: Rows, t: Token) {
    t in rows && rows[t].revoked
  }

  function Revoke(r: Row): Row {
    r.(revoked := true)
  }

  function ClaimRow(rows: Rows, t: Token): Rows
    requires t in rows
  {
    rows[t := Revoke(rows[t])]
  }

  function RevokeFamilyRows(rows: Rows, f: Family): Rows {
    map t | t in rows :: if rows[t].family == f then Revoke(rows[t]) else rows[t]
  }

  function Unexpired(rows: Rows, now: int): Rows {
    rows - set t | t in rows && rows[t].expires < now
  }

  function Without(rows: Rows, t: Token): Rows {
    rows - {t}
  }

  /** A rotation's effect on the table, row by row: nothing but the presented token and what has expired is touched. */
  ghost predicate Rotated(before: Rows, after: Rows, t: Token, minted: Option<Token>, now: int) {
    && t in before && t in after && after[t] == before[t].(revoked := true)
    && (forall u | u in before && u != t && now <= before[u].expires :: u in after && after[u] == before[u])
    && (forall u | u in after :: now <= after[u].expires && (u in before || minted == Some(u)))
  }

  /** A replay's effect: the whole family is revoked, and no other row changes. */
  ghost predicate FamilyDown(before: Rows, after: Rows, f: Family) {
    && after.Keys == before.Keys
    && (forall u | u in before && before[u].family == f :: after[u] == before[u].(revoked := true))
    && (forall u | u in before && before[u].family != f :: after[u] == before[u])
  }

  /** A logout's effect: the presented token's row goes, every other stays. */
  ghost predicate LoggedOut(before: Rows, after: Rows, t: Token) {
    t !in after && forall u | u != t :: (u in after <==> u in before) && (u in before ==> after[u] == before[u])
  }

  /*** The handlers, run without interference ***/

  class Store {
    var rows: Rows

    method Claim(t: Token, now: int) returns (claimed: Option<Row>)
      modifies this
      ensures if Claimable(old(rows), t, now)
              then rows == ClaimRow(old(rows), t) && claimed == Some(Revoke(old(rows)[t]))
              else claimed == None && rows == old(rows)
    {
      if t in rows && !rows[t].revoked && rows[t].expires > now {
        rows := rows[t := rows[t].(revoked := true)];
        return Some(rows[t]);
      }
      return None;
    }

    method FamilyOfRevoked(t: Token) returns (f: Option<Family>)
      ensures f == if StoredRevoked(rows, t) then Some(rows[t].family) else None
    {
      return if t in rows && rows[t].revoked then Some(rows[t].family) else None;
    }

    method RevokeFamily(f: Family)
      modifies this
      ensures rows == RevokeFamilyRows(old(rows), f) && FamilyDown(old(rows), rows, f)
    {
      var todo := rows.Keys;
      ghost var before := rows;
      while todo != {}
        invariant todo <= before.Keys && rows.Keys == before.Keys
        invariant forall t | t in before ::
          rows[t] == if t !in todo && before[t].family == f then Revoke(before[t]) else before[t]
        decreases todo
      {
        var t :| t in todo;
        if rows[t].family == f {
          rows := rows[t := rows[t].(revoked := true)];
        }
        todo := todo - {t};
      }
    }

    method PurgeExpired(now: int)
      modifies this
      ensures rows == Unexpired(old(rows), now)
    {
      rows := rows - set t | t in rows && rows[t].expires < now;
    }

    method Insert(t: Token, row: Row) returns (ok: bool)
      modifies this
      ensures ok <==> t !in old(rows)
      ensures rows == if ok then old(rows)[t := row] else old(rows)
    {
      ok := t !in rows;
      if ok {
        rows := rows[t := row];
      }
    }

    method Delete(t: Token)
      modifies this
      ensures rows == Without(old(rows), t) && LoggedOut(old(rows), rows, t)
    {
      rows := rows - {t};
    }
  }

  datatype Response = Unauthorized | Session(user: User, token: Token) | ServerError

  class Auth {
    const store: Store

    constructor (store: Store)
      ensures this.store == store
    {
      this.store := store;
    }

    /** `minted` is the new token, absent when minting or the random source fails. */
    method IssueTokens(user: User, family: Family, minted: Option<Token>, now: int) returns (response: Response)
      modifies store
      ensures if minted.Some? && minted.value !in old(store.rows)
              then response == Session(user, minted.value)
                   && store.rows == old(store.rows)[minted.value := Row(user, family, now + REFRESH_TTL, false)]
              else response == ServerError && store.rows == old(store.rows)
    {
      if minted.None? {
        return ServerError;
      }
      var ok := store.Insert(minted.value, Row(user, family, now + REFRESH_TTL, false));
      return if ok then Session(user, minted.value) else ServerError;
    }

    /**
      A claimable token is consumed and replaced within its family; a replayed one takes its whole family down;
      anything else changes nothing. Whatever happens, the presented token cannot be claimed again.
     */
    method Refresh(cookie: Option<Token>, minted: Option<Token>, now: int) returns (response: Response)
      modifies store
      ensures cookie.None? ==> response == Unauthorized && store.rows == old(store.rows)
      ensures cookie.Some? && Claimable(old(store.rows), cookie.value, now) ==>
        var kept := Unexpired(ClaimRow(old(store.rows), cookie.value), now);
        var r := old(store.rows)[cookie.value];
        if minted.Some? && minted.value !in kept
        then response == Session(r.user, minted.value)
             && store.rows == kept[minted.value := Row(r.user, r.family, now + REFRESH_TTL, false)]
        else response == ServerError && store.rows == kept
      ensures cookie.Some? && StoredRevoked(old(store.rows), cookie.value) ==>
        response == Unauthorized
        && store.rows == RevokeFamilyRows(old(store.rows), old(store.rows)[cookie.value].family)
      ensures cookie.Some? && !Claimable(old(store.rows), cookie.value, now)
              && !StoredRevoked(old(store.rows), cookie.value) ==>
        response == Unauthorized && store.rows == old(store.rows)
      ensures cookie.Some? && minted != cookie ==> !Claimable(store.rows, cookie.value, now)
      ensures cookie.Some? && Claimable(old(store.rows), cookie.value, now) ==>
        Rotated(old(store.rows), store.rows, cookie.value, minted, now)
      ensures cookie.Some? && StoredRevoked(old(store.rows), cookie.value) ==>
        FamilyDown(old(store.rows), store.rows, old(store.rows)[cookie.value].family)
    {
      if cookie.None? {
        return Unauthorized;
      }
      var claimed := store.Claim(cookie.value, now);
      if claimed.None? {
        var family := store.FamilyOfRevoked(cookie.value);
        if family.Some? {
          store.RevokeFamily(family.value);
        }
        return Unauthorized;
      }
      store.PurgeExpired(now);
      response := IssueTokens(claimed.value.user, claimed.value.family, minted, now);
    }

    method Logout(cookie: Option<Token>)
      modifies store
      ensures store.rows == if cookie.Some? then Without(old(store.rows), cookie.value) else old(store.rows)
      ensures cookie.Some? ==> LoggedOut(old(store.rows), store.rows, cookie.value)
    {
      if cookie.Some? {
        store.Delete(cookie.value);
      }
    }
  }

  /*** Interleaved statements ***/

  /** Where a refresh request stands between its statements. */
  datatype Phase =
    | Suspect(token: Token)
    | Replayed(family: Family)
    | Rotating(user: User, family: Family)
    | Purged(user: User, family: Family)

  datatype Honour = Honour(token: Token, family: Family)

  /** `issued` and `families` are all identities ever handed out, `honoured` all successful claims so far. */
  datatype State = State(rows: Rows, now: int, handlers: map<nat, Phase>, issued: set<Token>,
                         families: set<Family>, honoured: seq<Honour>)

  const START := State(map[], 0, map[], {}, {}, [])

  datatype Event =
    | Tick(now: int)
    | Login(user: User, family: Family, token: Token)
    | Claim(h: nat, token: Token)
    | Lookup(h: nat)
    | RevokeFamily(h: nat)
    | Purge(h: nat)
    | Issue(h: nat, token: Token)
    | Fail(h: nat)
    | Logout(token: Token)

  function Drop(handlers: map<nat, Phase>, h: nat): map<nat, Phase> {
    handlers - {h}
  }

  function FreshRow(user: User, family: Family, now: int): Row {
    Row(user, family, now + REFRESH_TTL, false)
  }

  /** One statement; an event that does not fit the handler's phase changes nothing. */
  function Apply(s: State, e: Event): State {
    match e
    case Tick(now) => if s.now <= now then s.(now := now) else s
    case Login(user, family, token) =>
      if family in s.families || token in s.issued then s
      else s.(rows := s.rows[token := FreshRow(user, family, s.now)],
              families := s.families + {family}, issued := s.issued + {token})
    case Claim(h, token) =>
      if h in s.handlers then s
      else if Claimable(s.rows, token, s.now) then
        var r := s.rows[token];
        s.(rows := ClaimRow(s.rows, token), handlers := s.handlers[h := Rotating(r.user, r.family)],
           honoured := s.honoured + [Honour(token, r.family)])
      else s.(handlers := s.handlers[h := Suspect(token)])
    case Lookup(h) =>
      if h in s.handlers && s.handlers[h].Suspect? then
        var t := s.handlers[h].token;
        if StoredRevoked(s.rows, t) then s.(handlers := s.handlers[h := Replayed(s.rows[t].family)])
        else s.(handlers := Drop(s.handlers, h))
      else s
    case RevokeFamily(h) =>
      if h in s.handlers && s.handlers[h].Replayed?
      then s.(rows := RevokeFamilyRows(s.rows, s.handlers[h].family), handlers := Drop(s.handlers, h))
      else s
    case Purge(h) =>
      if h in s.handlers && s.handlers[h].Rotating?
      then s.(rows := Unexpired(s.rows, s.now),
              handlers := s.handlers[h := Purged(s.handlers[h].user, s.handlers[h].family)])
      else s
    case Issue(h, token) =>
      if h in s.handlers && s.handlers[h].Purged? && token !in s.issued
      then s.(rows := s.rows[token := FreshRow(s.handlers[h].user, s.handlers[h].family, s.now)],
              handlers := Drop(s.handlers, h), issued := s.issued + {token})
      else s
    case Fail(h) => s.(handlers := Drop(s.handlers, h))
    case Logout(token) => s.(rows := Without(s.rows, token))
  }

  function Exec(s: State, es: seq<Event>): State {
    if es == [] then s else Apply(Exec(s, es[..|es| - 1]), es[|es| - 1])
  }

  /*** Invariant ***/

  predicate LiveRow(s: State, t: Token) {
    t in s.rows && !s.rows[t].revoked
  }

  /** A handler between its claim and its insert. */
  predicate InFlight(s: State, h: nat) {
    h in s.handlers && (s.handlers[h].Rotating? || s.handlers[h].Purged?)
  }

  ghost predicate Known(s: State) {
    && (forall t | t in s.rows :: t in s.issued && s.rows[t].family in s.families)
    && (forall h | h in s.handlers && !s.handlers[h].Suspect? :: s.handlers[h].family in s.families)
  }

  ghost predicate OneLiveRow(s: State) {
    forall t, u | LiveRow(s, t) && LiveRow(s, u) && s.rows[t].family == s.rows[u].family :: t == u
  }

  ghost predicate OneRotation(s: State) {
    forall h, k | InFlight(s, h) && InFlight(s, k) && s.handlers[h].family == s.handlers[k].family :: h == k
  }

  ghost predicate RowOrRotation(s: State) {
    forall t, h | LiveRow(s, t) && InFlight(s, h) :: s.rows[t].family != s.handlers[h].family
  }

  /** At most one holder per family: an unrevoked row or a rotation in flight. */
  ghost predicate OneHolder(s: State) {
    OneLiveRow(s) && OneRotation(s) && RowOrRotation(s)
  }

  /** Everything in a family names one user. */
  ghost predicate RowsNameOneUser(s: State) {
    forall t, u | t in s.rows && u in s.rows && s.rows[t].family == s.rows[u].family :: s.rows[t].user == s.rows[u].user
  }

  ghost predicate RotationsNameTheUser(s: State) {
    forall t, h | t in s.rows && InFlight(s, h) && s.rows[t].family == s.handlers[h].family ::
      s.rows[t].user == s.handlers[h].user
  }

  ghost predicate OneUser(s: State) {
    RowsNameOneUser(s) && RotationsNameTheUser(s)
  }

  /** A token that was honoured is spent for good. */
  ghost predicate HonouredOnce(s: State) {
    && (forall i | 0 <= i < |s.honoured| :: s.honoured[i].token in s.issued && !LiveRow(s, s.honoured[i].token))
    && (forall i, j | 0 <= i < j < |s.honoured| :: s.honoured[i].token != s.honoured[j].token)
  }

  ghost predicate Inv(s: State) {
    Known(s) && OneHolder(s) && OneUser(s) && HonouredOnce(s)
  }

  lemma ApplyKeepsKnown(s: State, e: Event)
    requires Known(s)
    ensures Known(Apply(s, e))
  {
  }

  lemma ApplyKeepsOneLiveRow(s: State, e: Event)
    requires Known(s) && OneHolder(s)
    ensures OneLiveRow(Apply(s, e))
  {
  }

  lemma ApplyKeepsOneRotation(s: State, e: Event)
    requires Known(s) && OneHolder(s)
    ensures OneRotation(Apply(s, e))
  {
  }

  lemma ApplyKeepsRowOrRotation(s: State, e: Event)
    requires Known(s) && OneHolder(s)
    ensures RowOrRotation(Apply(s, e))
  {
    var t := Apply(s, e);
    forall k, h | LiveRow(t, k) && InFlight(t, h) ensures t.rows[k].family != t.handlers[h].family {
      match e
      case Claim(c, token) => assert LiveRow(s, k);
      case Issue(c, token) => assert InFlight(s, h);
      case _ => assert InFlight(s, h);
    }
  }

  lemma ApplyKeepsOneHolder(s: State, e: Event)
    requires Known(s) && OneHolder(s)
    ensures OneHolder(Apply(s, e))
  {
    ApplyKeepsOneLiveRow(s, e);
    ApplyKeepsOneRotation(s, e);
    ApplyKeepsRowOrRotation(s, e);
  }

  lemma ApplyKeepsRowsNameOneUser(s: State, e: Event)
    requires Known(s) && OneUser(s)
    ensures RowsNameOneUser(Apply(s, e))
  {
  }

  lemma ApplyKeepsRotationsNameTheUser(s: State, e: Event)
    requires Known(s) && OneUser(s) && OneHolder(s)
    ensures RotationsNameTheUser(Apply(s, e))
  {
    var t := Apply(s, e);
    forall k, h | k in t.rows && InFlight(t, h) && t.rows[k].family == t.handlers[h].family
      ensures t.rows[k].user == t.handlers[h].user
    {
      match e
      case Claim(c, token) =>
        if h == c && !InFlight(s, h) {
          assert s.rows[token].family == s.rows[k].family;
        } else {
          assert InFlight(s, h);
        }
      case _ => assert InFlight(s, h);
    }
  }

  lemma ApplyKeepsHonouredOnce(s: State, e: Event)
    requires Known(s) && HonouredOnce(s)
    ensures HonouredOnce(Apply(s, e))
  {
  }

  lemma {:induction false} ExecKeepsInv(s: State, es: seq<Event>)
    requires Inv(s)
    ensures Inv(Exec(s, es))
  {
    if es != [] {
      var t, e := Exec(s, es[..|es| - 1]), es[|es| - 1];
      ExecKeepsInv(s, es[..|es| - 1]);
      ApplyKeepsKnown(t, e);
      ApplyKeepsOneHolder(t, e);
      ApplyKeepsRowsNameOneUser(t, e);
      ApplyKeepsRotationsNameTheUser(t, e);
      ApplyKeepsHonouredOnce(t, e);
    }
  }

  /*** Main results ***/

  function LiveTokens(s: State, f: Family): set<Token> {
    set t | t in s.rows && LiveRow(s, t) && s.rows[t].family == f
  }

  function Rotations(s: State, f: Family): set<nat> {
    set h | h in s.handlers && InFlight(s, h) && s.handlers[h].family == f
  }

  lemma AtMostOneElement(a: set<nat>)
    requires forall x, y | x in a && y in a :: x == y
    ensures |a| <= 1
  {
    if a != {} {
      var x :| x in a;
      assert a == {x};
    }
  }

  /**
    Rotation invariant: after any interleaving of statements, a family's unrevoked rows and rotations in flight
    number at most one, and all its rows name one user.
   */
  lemma RotationInvariant(es: seq<Event>, f: Family)
    ensures var s := Exec(START, es);
            |LiveTokens(s, f)| + |Rotations(s, f)| <= 1
            && forall t, u | t in s.rows && u in s.rows && s.rows[t].family == s.rows[u].family == f ::
                 s.rows[t].user == s.rows[u].user
  {
    ExecKeepsInv(START, es);
    var s := Exec(START, es);
    AtMostOneElement(LiveTokens(s, f));
    AtMostOneElement(Rotations(s, f));
    if LiveTokens(s, f) != {} {
      var t :| t in LiveTokens(s, f);
      assert LiveRow(s, t);
      assert Rotations(s, f) == {};
    }
  }

  /** No token is honoured twice over a whole run. */
  lemma NoTokenHonouredTwice(es: seq<Event>)
    ensures var s := Exec(START, es);
            forall i, j | 0 <= i < j < |s.honoured| :: s.honoured[i].token != s.honoured[j].token
  {
    ExecKeepsInv(START, es);
  }

  /** Nothing is left in the family to claim or to issue from. */
  ghost predicate Dead(s: State, f: Family) {
    && f in s.families
    && (forall t | LiveRow(s, t) :: s.rows[t].family != f)
    && (forall h | InFlight(s, h) :: s.handlers[h].family != f)
  }

  lemma DeadStaysDead(s: State, e: Event, f: Family)
    requires Known(s) && Dead(s, f)
    ensures Dead(Apply(s, e), f)
    ensures var t := Apply(s, e);
            t.honoured == s.honoured
            || (|t.honoured| == |s.honoured| + 1 && t.honoured[..|s.honoured|] == s.honoured
                && t.honoured[|s.honoured|].family != f)
  {
  }

  /** No claim after `s` is for the family. */
  ghost predicate NeverHonouredAgain(s: State, f: Family) {
    forall es: seq<Event> ::
      |Exec(s, es).honoured| >= |s.honoured|
      && forall i | |s.honoured| <= i < |Exec(s, es).honoured| :: Exec(s, es).honoured[i].family != f
  }

  lemma {:induction false} DeadIsNeverHonoured(s: State, es: seq<Event>, f: Family)
    requires Inv(s) && Dead(s, f)
    ensures Dead(Exec(s, es), f) && |Exec(s, es).honoured| >= |s.honoured|
    ensures forall i | |s.honoured| <= i < |Exec(s, es).honoured| :: Exec(s, es).honoured[i].family != f
  {
    if es != [] {
      var before := es[..|es| - 1];
      DeadIsNeverHonoured(s, before, f);
      ExecKeepsInv(s, before);
      DeadStaysDead(Exec(s, before), es[|es| - 1], f);
    }
  }

  lemma {:induction false} FreshNat(a: set<nat>) returns (n: nat)
    ensures forall x | x in a :: x < n
    decreases |a|
  {
    if a == {} {
      n := 0;
    } else {
      var x :| x in a;
      assert a == (a - {x}) + {x};
      n := FreshNat(a - {x});
      if n <= x {
        n := x + 1;
      }
    }
  }

  lemma ExecSnoc(s: State, es: seq<Event>, e: Event)
    ensures Exec(s, es + [e]) == Apply(Exec(s, es), e)
  {
    assert (es + [e])[..|es|] == es;
  }

  /** A rotation in flight can still finish, and its token can then be claimed. */
  lemma RotationCanBeHonoured(s: State, h: nat) returns (es: seq<Event>)
    requires InFlight(s, h)
    ensures var t := Exec(s, es);
            |t.honoured| == |s.honoured| + 1 && t.honoured[|s.honoured|].family == s.handlers[h].family
  {
    var token := FreshNat(s.issued);
    var k := FreshNat(s.handlers.Keys);
    es := [] + [Purge(h)];
    ExecSnoc(s, [], Purge(h));
    ExecSnoc(s, es, Issue(h, token));
    es := es + [Issue(h, token)];
    ExecSnoc(s, es, Claim(k, token));
    es := es + [Claim(k, token)];
  }

  /**
    The theft response: once a replay's family revocation has run, no token of that family is ever honoured
    again exactly when no rotation of the family was in flight at that statement.
   */
  lemma TheftResponseIsFinal(es: seq<Event>, h: nat)
    requires var s := Exec(START, es); h in s.handlers && s.handlers[h].Replayed?
    ensures var s := Exec(START, es);
            var f := s.handlers[h].family;
            NeverHonouredAgain(Apply(s, RevokeFamily(h)), f) <==> Rotations(s, f) == {}
  {
    var s := Exec(START, es);
    var f := s.handlers[h].family;
    var t := Apply(s, RevokeFamily(h));
    ExecKeepsInv(START, es);
    ExecSnoc(START, es, RevokeFamily(h));
    ExecKeepsInv(START, es + [RevokeFamily(h)]);
    if Rotations(s, f) == {} {
      RevokedFamilyIsDead(s, h);
      forall more: seq<Event>
        ensures |Exec(t, more).honoured| >= |t.honoured|
                && forall i | |t.honoured| <= i < |Exec(t, more).honoured| :: Exec(t, more).honoured[i].family != f
      {
        DeadIsNeverHonoured(t, more, f);
      }
    } else {
      var k :| k in Rotations(s, f);
      assert InFlight(t, k);
      var more := RotationCanBeHonoured(t, k);
      assert Exec(t, more).honoured[|t.honoured|].family == f;
    }
  }

  lemma RevokedFamilyIsDead(s: State, h: nat)
    requires Known(s) && h in s.handlers && s.handlers[h].Replayed? && s.handlers[h].family in s.families
    requires Rotations(s, s.handlers[h].family) == {}
    ensures Dead(Apply(s, RevokeFamily(h)), s.handlers[h].family)
  {
    var t, f := Apply(s, RevokeFamily(h)), s.handlers[h].family;
    forall k | InFlight(t, k) ensures t.handlers[k].family != f {
      assert InFlight(s, k) && k !in Rotations(s, f);
    }
  }

  /** The revocation touches no other family. */
  lemma TheftResponseSparesOthers(s: State, h: nat, token: Token)
    requires h in s.handlers && s.handlers[h].Replayed?
    ensures var t := Apply(s, RevokeFamily(h));
            token in s.rows && s.rows[token].family != s.handlers[h].family ==>
              token in t.rows && t.rows[token] == s.rows[token]
              && (Claimable(t.rows, token, t.now) <==> Claimable(s.rows, token, s.now))
    ensures forall k | k != h && k in s.handlers ::
              k in Apply(s, RevokeFamily(h)).handlers && Apply(s, RevokeFamily(h)).handlers[k] == s.handlers[k]
  {
  }

  /** Run without interference, the statements of a rotation do what `Auth.Refresh` promises. */
  lemma RotationRunAlone(s: State, h: nat, t: Token, minted: Token)
    requires Known(s) && h !in s.handlers && Claimable(s.rows, t, s.now) && minted !in s.issued
    ensures Exec(s, [Claim(h, t), Purge(h), Issue(h, minted)]).rows
         == Unexpired(ClaimRow(s.rows, t), s.now)[minted := FreshRow(s.rows[t].user, s.rows[t].family, s.now)]
    ensures Rotated(s.rows, Exec(s, [Claim(h, t), Purge(h), Issue(h, minted)]).rows, t, Some(minted), s.now)
  {
    ExecSnoc(s, [], Claim(h, t));
    ExecSnoc(s, [Claim(h, t)], Purge(h));
    ExecSnoc(s, [Claim(h, t), Purge(h)], Issue(h, minted));
    assert [] + [Claim(h, t)] == [Claim(h, t)];
    assert [Claim(h, t)] + [Purge(h)] == [Claim(h, t), Purge(h)];
    assert [Claim(h, t), Purge(h)] + [Issue(h, minted)] == [Claim(h, t), Purge(h), Issue(h, minted)];
    RotatedRows(s.rows, t, minted, FreshRow(s.rows[t].user, s.rows[t].family, s.now), s.now);
  }

  lemma RotatedRows(rows: Rows, t: Token, minted: Token, row: Row, now: int)
    requires Claimable(rows, t, now) && minted !in rows && now <= row.expires
    ensures Rotated(rows, Unexpired(ClaimRow(rows, t), now)[minted := row], t, Some(minted), now)
  {
  }

  /** And so do the statements of a replay. */
  lemma ReplayRunAlone(s: State, h: nat, t: Token)
    requires h !in s.handlers && StoredRevoked(s.rows, t)
    ensures Exec(s, [Claim(h, t), Lookup(h), RevokeFamily(h)]).rows == RevokeFamilyRows(s.rows, s.rows[t].family)
  {
    ExecSnoc(s, [], Claim(h, t));
    ExecSnoc(s, [Claim(h, t)], Lookup(h));
    ExecSnoc(s, [Claim(h, t), Lookup(h)], RevokeFamily(h));
    assert [] + [Claim(h, t)] == [Claim(h, t)];
    assert [Claim(h, t)] + [Lookup(h)] == [Claim(h, t), Lookup(h)];
    assert [Claim(h, t), Lookup(h)] + [RevokeFamily(h)] == [Claim(h, t), Lookup(h), RevokeFamily(h)];
  }
}
