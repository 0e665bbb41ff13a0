/**
  One browser against the rotation server: the cookie jar, the single-flight refresh of web/src/lib/api.ts, its
  logins and logouts, and any number of other clients.
 */
module Browser {
  import opened Prelude
  import opened RefreshTokens

  /** A refresh a tab is waiting for; `presented` is the cookie it sent. */
  datatype Flight =
    | Sent(presented: Option<Token>)
    | AtServer(token: Token)
    | Answered(presented: Option<Token>, setCookie: Option<Token>)

  datatype LogoutFlight = LogoutSent(presented: Option<Token>) | LogoutServed

  /**
    `mine` and `myFamilies` are all tokens and families ever handed to this browser, `delivered` the tokens that
    were ever in its jar, `logins` the login responses under way.
   */
  datatype System = System(server: State, cookie: Option<Token>, flights: map<nat, Flight>, logins: map<nat, Token>,
                           logouts: map<nat, LogoutFlight>, mine: set<Token>, myFamilies: set<Family>,
                           delivered: set<Token>)

  const FIRST := System(RefreshTokens.START, None, map[], map[], map[], {}, {}, {})

  /**
    `Serve` runs the next statement of a tab's refresh; `ResponseLost` is a refresh that was claimed and never
    answered; `Other` is a statement of some other client.
   */
  datatype Action =
    | Refresh(tab: nat)
    | Serve(tab: nat, minted: Token)
    | Arrive(tab: nat)
    | RequestLost(tab: nat)
    | ResponseLost(tab: nat)
    | ServeLogin(id: nat, user: User, family: Family, minted: Token)
    | LoginArrives(id: nat)
    | SendLogout(id: nat)
    | ServeLogout(id: nat)
    | LogoutArrives(id: nat)
    | Other(e: Event)

  /** Server-side names of refresh requests: even for this browser's tabs, odd for everyone else. */
  function HandlerOf(tab: nat): nat {
    2 * tab
  }

  predicate IsForeign(s: System, e: Event) {
    match e
    case Tick(_) => true
    case Login(_, _, _) => true
    case Claim(h, token) => h % 2 == 1 && token in s.server.issued - s.mine
    case Logout(token) => token !in s.mine
    case Lookup(h) => h % 2 == 1
    case RevokeFamily(h) => h % 2 == 1
    case Purge(h) => h % 2 == 1
    case Issue(h, _) => h % 2 == 1
    case Fail(h) => h % 2 == 1
  }

  /** The next statement of a refresh that has reached the server. */
  function NextStatement(p: Phase, h: nat, minted: Token): Event {
    match p
    case Suspect(_) => Lookup(h)
    case Replayed(_) => RefreshTokens.RevokeFamily(h)
    case Rotating(_, _) => RefreshTokens.Purge(h)
    case Purged(_, _) => Issue(h, minted)
  }

  function ServeStep(s: System, tab: nat, minted: Token): System
    requires tab in s.flights
  {
    var h := HandlerOf(tab);
    match s.flights[tab]
    case Sent(None) => s.(flights := s.flights[tab := Answered(None, None)])
    case Sent(Some(t)) =>
      if h in s.server.handlers then s
      else s.(server := Apply(s.server, Claim(h, t)), flights := s.flights[tab := AtServer(t)])
    case AtServer(t) =>
      if h !in s.server.handlers then s.(flights := s.flights[tab := Answered(Some(t), None)])
      else
        var p := s.server.handlers[h];
        if p.Purged? && minted in s.server.issued then s
        else
          var next := s.(server := Apply(s.server, NextStatement(p, h, minted)));
          if p.Purged?
          then next.(flights := s.flights[tab := Answered(Some(t), Some(minted))], mine := s.mine + {minted})
          else next
    case Answered(_, _) => s
  }

  function Step(s: System, a: Action): System {
    match a
    case Refresh(tab) => if tab in s.flights then s else s.(flights := s.flights[tab := Sent(s.cookie)])
    case Serve(tab, minted) => if tab in s.flights then ServeStep(s, tab, minted) else s
    case Arrive(tab) =>
      if tab in s.flights && s.flights[tab].Answered? then
        var c := s.flights[tab].setCookie;
        var t := s.(flights := s.flights - {tab});
        if c.Some? then t.(cookie := c, delivered := s.delivered + {c.value}) else t
      else s
    case RequestLost(tab) =>
      if tab in s.flights && s.flights[tab].Sent?
      then s.(flights := s.flights - {tab})
      else s
    case ResponseLost(tab) =>
      if tab in s.flights && !s.flights[tab].Sent?
      then s.(flights := s.flights - {tab},
              server := Apply(s.server, Fail(HandlerOf(tab))))
      else s
    case ServeLogin(id, user, family, minted) =>
      if id in s.logins || family in s.server.families || minted in s.server.issued then s
      else s.(server := Apply(s.server, Login(user, family, minted)), logins := s.logins[id := minted],
              mine := s.mine + {minted}, myFamilies := s.myFamilies + {family})
    case LoginArrives(id) =>
      if id in s.logins
      then s.(cookie := Some(s.logins[id]), delivered := s.delivered + {s.logins[id]},
              logins := s.logins - {id})
      else s
    case SendLogout(id) => if id in s.logouts then s else s.(logouts := s.logouts[id := LogoutSent(s.cookie)])
    case ServeLogout(id) =>
      if id in s.logouts && s.logouts[id].LogoutSent? then
        var t := s.(logouts := s.logouts[id := LogoutServed]);
        (match s.logouts[id].presented
          case None => t
          case Some(token) => t.(server := Apply(s.server, Logout(token))))
      else s
    case LogoutArrives(id) =>
      if id in s.logouts && s.logouts[id].LogoutServed?
      then s.(cookie := None, logouts := s.logouts - {id})
      else s
    case Other(e) => if IsForeign(s, e) then s.(server := Apply(s.server, e)) else s
  }

  function PlayFrom(s: System, actions: seq<Action>): System {
    if actions == [] then s else Step(PlayFrom(s, actions[..|actions| - 1]), actions[|actions| - 1])
  }

  /** The tab's refresh has claimed no token, so nothing it may still be answered sets a cookie. */
  predicate ClaimedNothing(s: System, tab: nat) {
    && (tab in s.flights && s.flights[tab].Answered? ==> s.flights[tab].setCookie.None?)
    && (HandlerOf(tab) in s.server.handlers ==> s.server.handlers[HandlerOf(tab)].Suspect?)
  }

  /** An action of a browser with these tabs whose claimed rotations complete and whose responses to them arrive. */
  predicate Allowed(s: System, a: Action, tabs: set<nat>) {
    match a
    case Refresh(k) => k in tabs
    case Serve(k, _) => k in tabs
    case Arrive(k) => k in tabs
    case RequestLost(k) => k in tabs
    case ResponseLost(k) => k in tabs && ClaimedNothing(s, k)
    case _ => true
  }

  predicate RunIn(s: System, actions: seq<Action>, tabs: set<nat>) {
    actions == [] ||
    var n := |actions| - 1;
    RunIn(s, actions[..n], tabs) && Allowed(PlayFrom(s, actions[..n]), actions[n], tabs)
  }

  /*** Invariant for one tab ***/

  predicate Clean(s: System, t: Token) {
    !StoredRevoked(s.server.rows, t)
  }

  ghost predicate Issued(v: State, mine: set<Token>, families: set<Family>) {
    && mine <= v.issued && families <= v.families
    && forall t | t in v.rows :: t in v.issued && v.rows[t].family in v.families
  }

  ghost predicate OwnRows(v: State, mine: set<Token>, families: set<Family>) {
    forall t | t in v.rows :: t in mine <==> v.rows[t].family in families
  }

  /** What a request of another client may hold. */
  predicate ForeignPhase(v: State, mine: set<Token>, families: set<Family>, p: Phase) {
    if p.Suspect? then p.token in v.issued - mine else p.family in v.families - families
  }

  ghost predicate ForeignHandlers(v: State, mine: set<Token>, families: set<Family>) {
    forall h | h in v.handlers && h % 2 == 1 :: ForeignPhase(v, mine, families, v.handlers[h])
  }

  /** A browser's tokens and families are its own. */
  ghost predicate Sep(v: State, mine: set<Token>, families: set<Family>) {
    Issued(v, mine, families) && OwnRows(v, mine, families) && ForeignHandlers(v, mine, families)
  }

  ghost predicate Separate(s: System) {
    Sep(s.server, s.mine, s.myFamilies)
  }

  /** A token still on its way to the jar is clean and was never in it. */
  ghost predicate InTransit(s: System, t: Token) {
    t in s.mine && t !in s.delivered && Clean(s, t)
  }

  ghost predicate JarInv(s: System) {
    && s.delivered <= s.mine
    && (s.cookie.Some? ==> s.cookie.value in s.delivered)
    && (forall id | id in s.logins :: InTransit(s, s.logins[id]))
    && (forall i, j | i in s.logins && j in s.logins && s.logins[i] == s.logins[j] :: i == j)
    && (forall i | i in s.logouts && s.logouts[i].LogoutSent? && s.logouts[i].presented.Some? ::
          s.logouts[i].presented.value in s.delivered)
  }

  predicate CookieClean(s: System) {
    s.cookie.Some? ==> Clean(s, s.cookie.value)
  }

  /** While a claimed rotation is under way the jar may still hold the spent token, and only that one. */
  predicate CookieCleanOr(s: System, t: Token) {
    s.cookie.Some? && s.cookie.value != t ==> Clean(s, s.cookie.value)
  }

  /** The tab's refresh, stage by stage. */
  ghost predicate TabInv(s: System, tab: nat) {
    var h := HandlerOf(tab);
    if tab !in s.flights then CookieClean(s) && h !in s.server.handlers
    else match s.flights[tab]
      case Sent(presented) =>
        CookieClean(s) && h !in s.server.handlers
        && (presented.Some? ==> presented.value in s.delivered && Clean(s, presented.value))
      case AtServer(t) =>
        t in s.delivered &&
        if h !in s.server.handlers then CookieClean(s)
        else (match s.server.handlers[h]
          case Suspect(u) => u == t && CookieClean(s) && Clean(s, t)
          case Replayed(_) => false
          case Rotating(_, f) => f in s.myFamilies && CookieCleanOr(s, t)
          case Purged(_, f) => f in s.myFamilies && CookieCleanOr(s, t))
      case Answered(presented, setCookie) =>
        h !in s.server.handlers &&
        match setCookie
        case None => CookieClean(s)
        case Some(n) =>
          InTransit(s, n) && presented.Some? && CookieCleanOr(s, presented.value)
          && forall id | id in s.logins :: s.logins[id] != n
  }

  /** Only this tab has a refresh under way. */
  ghost predicate OnlyTab(s: System, tab: nat) {
    (forall k | k in s.flights :: k == tab)
    && (forall h | h in s.server.handlers && h % 2 == 0 :: h == HandlerOf(tab))
  }

  ghost predicate Inv(s: System, tab: nat) {
    Separate(s) && JarInv(s) && TabInv(s, tab) && OnlyTab(s, tab)
  }

  /** An allowed action of a browser with one tab, other than losing a response. */
  predicate Ordinary(s: System, a: Action, tab: nat) {
    Allowed(s, a, {tab}) && !a.ResponseLost?
  }

  lemma ForeignClaimKeepsSep(v: State, mine: set<Token>, families: set<Family>, h: nat, token: Token)
    requires Sep(v, mine, families) && h % 2 == 1 && token in v.issued - mine
    ensures Sep(Apply(v, Claim(h, token)), mine, families)
  {
    var w := Apply(v, Claim(h, token));
    forall k | k in w.handlers && k % 2 == 1 ensures ForeignPhase(w, mine, families, w.handlers[k]) {
      assert k != h ==> ForeignPhase(v, mine, families, v.handlers[k]);
    }
  }

  lemma ForeignStepKeepsSep(v: State, mine: set<Token>, families: set<Family>, e: Event)
    requires Sep(v, mine, families)
    requires e.Lookup? || e.RevokeFamily? || e.Purge? || e.Issue? || e.Fail?
    requires e.h % 2 == 1
    ensures Sep(Apply(v, e), mine, families)
  {
    var w := Apply(v, e);
    assert e.h in v.handlers ==> ForeignPhase(v, mine, families, v.handlers[e.h]);
    forall k | k in w.handlers && k % 2 == 1 ensures ForeignPhase(w, mine, families, w.handlers[k]) {
      assert ForeignPhase(v, mine, families, v.handlers[k]);
    }
  }

  lemma TableStepKeepsSep(v: State, mine: set<Token>, families: set<Family>, e: Event)
    requires Sep(v, mine, families) && (e.Tick? || e.Login? || e.Logout?)
    ensures Sep(Apply(v, e), mine, families)
  {
    var w := Apply(v, e);
    forall k | k in w.handlers && k % 2 == 1 ensures ForeignPhase(w, mine, families, w.handlers[k]) {
      assert ForeignPhase(v, mine, families, v.handlers[k]);
    }
  }

  lemma OwnLoginKeepsSep(v: State, mine: set<Token>, families: set<Family>, e: Event)
    requires Sep(v, mine, families) && e.Login? && e.family !in v.families && e.token !in v.issued
    ensures Sep(Apply(v, e), mine + {e.token}, families + {e.family})
  {
    var w := Apply(v, e);
    forall k | k in w.handlers && k % 2 == 1
      ensures ForeignPhase(w, mine + {e.token}, families + {e.family}, w.handlers[k])
    {
      assert ForeignPhase(v, mine, families, v.handlers[k]);
    }
  }

  /** A statement of the browser's own refresh, other than a family revocation. */
  lemma OwnStepKeepsSep(v: State, mine: set<Token>, families: set<Family>, e: Event)
    requires Sep(v, mine, families)
    requires e.Claim? || e.Lookup? || e.Purge?
    requires e.h % 2 == 0
    ensures Sep(Apply(v, e), mine, families)
  {
    var w := Apply(v, e);
    forall k | k in w.handlers && k % 2 == 1 ensures ForeignPhase(w, mine, families, w.handlers[k]) {
      assert ForeignPhase(v, mine, families, v.handlers[k]);
    }
  }

  lemma OwnIssueKeepsSep(v: State, mine: set<Token>, families: set<Family>, e: Event)
    requires Sep(v, mine, families) && e.Issue? && e.h % 2 == 0 && e.token !in v.issued
    requires e.h in v.handlers && v.handlers[e.h].Purged? && v.handlers[e.h].family in families
    ensures Sep(Apply(v, e), mine + {e.token}, families)
  {
    var w := Apply(v, e);
    forall k | k in w.handlers && k % 2 == 1 ensures ForeignPhase(w, mine + {e.token}, families, w.handlers[k]) {
      assert ForeignPhase(v, mine, families, v.handlers[k]);
    }
  }

  lemma OtherKeepsSep(v: State, mine: set<Token>, families: set<Family>, e: Event, s: System)
    requires Sep(v, mine, families) && v == s.server && mine == s.mine && IsForeign(s, e)
    ensures Sep(Apply(v, e), mine, families)
  {
    match e
    case Claim(h, token) => ForeignClaimKeepsSep(v, mine, families, h, token);
    case Tick(_) => TableStepKeepsSep(v, mine, families, e);
    case Login(_, _, _) => TableStepKeepsSep(v, mine, families, e);
    case Logout(_) => TableStepKeepsSep(v, mine, families, e);
    case _ => ForeignStepKeepsSep(v, mine, families, e);
  }

  lemma ServeKeepsSep(s: System, tab: nat, minted: Token)
    requires Inv(s, tab) && tab in s.flights
    ensures Separate(ServeStep(s, tab, minted))
  {
    var h, v := HandlerOf(tab), s.server;
    match s.flights[tab]
    case Sent(None) =>
    case Sent(Some(t)) => OwnStepKeepsSep(v, s.mine, s.myFamilies, Claim(h, t));
    case AtServer(t) =>
      if h in v.handlers {
        match v.handlers[h]
        case Suspect(_) => OwnStepKeepsSep(v, s.mine, s.myFamilies, Lookup(h));
        case Replayed(_) =>
        case Rotating(_, _) => OwnStepKeepsSep(v, s.mine, s.myFamilies, RefreshTokens.Purge(h));
        case Purged(_, _) =>
          if minted !in v.issued {
            OwnIssueKeepsSep(v, s.mine, s.myFamilies, Issue(h, minted));
          }
      }
    case Answered(_, _) =>
  }

  lemma StepKeepsSeparate(s: System, a: Action, tab: nat)
    requires Inv(s, tab) && Ordinary(s, a, tab)
    ensures Separate(Step(s, a))
  {
    match a
    case Serve(_, minted) =>
      if tab in s.flights {
        ServeKeepsSep(s, tab, minted);
      }
    case ServeLogin(id, user, family, minted) =>
      if !(id in s.logins || family in s.server.families || minted in s.server.issued) {
        OwnLoginKeepsSep(s.server, s.mine, s.myFamilies, Login(user, family, minted));
      }
    case ServeLogout(id) =>
      if id in s.logouts && s.logouts[id].LogoutSent? && s.logouts[id].presented.Some? {
        TableStepKeepsSep(s.server, s.mine, s.myFamilies, Logout(s.logouts[id].presented.value));
      }
    case Other(e) =>
      if IsForeign(s, e) {
        OtherKeepsSep(s.server, s.mine, s.myFamilies, e, s);
      }
    case _ =>
  }

  lemma StepKeepsOnlyTab(s: System, a: Action, tab: nat)
    requires OnlyTab(s, tab) && Ordinary(s, a, tab)
    ensures OnlyTab(Step(s, a), tab)
  {
  }

  lemma ServeCleanStays(s: System, tab: nat, minted: Token, t: Token)
    requires Inv(s, tab) && t in s.mine && Clean(s, t) && tab in s.flights
    ensures Clean(ServeStep(s, tab, minted), t) || s.flights[tab] == Sent(Some(t))
  {
  }

  /** Nobody but the tab's own claim revokes one of this browser's tokens. */
  lemma CleanStays(s: System, a: Action, tab: nat, t: Token)
    requires Inv(s, tab) && Ordinary(s, a, tab) && t in s.mine && Clean(s, t)
    ensures Clean(Step(s, a), t) || (a.Serve? && tab in s.flights && s.flights[tab] == Sent(Some(t)))
  {
    if a.Serve? {
      if tab in s.flights {
        ServeCleanStays(s, tab, a.minted, t);
      }
    }
  }

  lemma LoginsStayInTransit(s: System, a: Action, tab: nat, id: nat)
    requires Inv(s, tab) && Ordinary(s, a, tab) && id in Step(s, a).logins
    ensures InTransit(Step(s, a), Step(s, a).logins[id])
  {
    if id in s.logins {
      assert InTransit(s, s.logins[id]);
      CleanStays(s, a, tab, s.logins[id]);
    }
  }

  lemma LoginsStayDistinct(s: System, a: Action, tab: nat)
    requires Inv(s, tab) && Ordinary(s, a, tab)
    ensures var logins := Step(s, a).logins;
            forall i, j | i in logins && j in logins && logins[i] == logins[j] :: i == j
  {
    forall id | id in s.logins ensures s.logins[id] in s.server.issued {
      assert InTransit(s, s.logins[id]);
    }
  }

  lemma JarStays(s: System, a: Action, tab: nat)
    requires Inv(s, tab) && Ordinary(s, a, tab)
    ensures var t := Step(s, a);
            s.delivered <= t.delivered <= t.mine && (t.cookie.Some? ==> t.cookie.value in t.delivered)
  {
    match a
    case LoginArrives(id) =>
      if id in s.logins {
        assert InTransit(s, s.logins[id]);
      }
    case _ =>
  }

  lemma LogoutsStay(s: System, a: Action, tab: nat)
    requires Inv(s, tab) && Ordinary(s, a, tab)
    ensures var t := Step(s, a);
            forall i | i in t.logouts && t.logouts[i].LogoutSent? && t.logouts[i].presented.Some? ::
              t.logouts[i].presented.value in t.delivered
  {
    var t := Step(s, a);
    JarStays(s, a, tab);
    forall i | i in t.logouts && t.logouts[i].LogoutSent? ensures
      t.logouts[i] == LogoutSent(s.cookie) || (i in s.logouts && t.logouts[i] == s.logouts[i])
    {
    }
  }

  lemma StepKeepsJar(s: System, a: Action, tab: nat)
    requires Inv(s, tab) && Ordinary(s, a, tab)
    ensures JarInv(Step(s, a))
  {
    var t := Step(s, a);
    forall id | id in t.logins ensures InTransit(t, t.logins[id]) {
      LoginsStayInTransit(s, a, tab, id);
    }
    LoginsStayDistinct(s, a, tab);
    JarStays(s, a, tab);
    LogoutsStay(s, a, tab);
  }

  lemma RefreshKeepsTab(s: System, tab: nat)
    requires Inv(s, tab)
    ensures TabInv(Step(s, Refresh(tab)), tab)
  {
  }

  lemma ServeKeepsTab(s: System, tab: nat, minted: Token)
    requires Inv(s, tab)
    ensures TabInv(Step(s, Serve(tab, minted)), tab)
  {
    if tab in s.flights {
      if s.flights[tab].Sent? {
        ClaimKeepsTab(s, tab, minted);
      } else {
        StatementKeepsTab(s, tab, minted);
      }
    }
  }

  /** The first statement for the tab's request is the claim of the token it presented. */
  lemma ClaimKeepsTab(s: System, tab: nat, minted: Token)
    requires Inv(s, tab) && tab in s.flights && s.flights[tab].Sent?
    ensures TabInv(ServeStep(s, tab, minted), tab)
  {
    if s.cookie.Some? {
      ServeCleanStays(s, tab, minted, s.cookie.value);
    }
  }

  lemma StatementKeepsTab(s: System, tab: nat, minted: Token)
    requires Inv(s, tab) && tab in s.flights && !s.flights[tab].Sent?
    ensures TabInv(ServeStep(s, tab, minted), tab)
  {
    if s.cookie.Some? && Clean(s, s.cookie.value) {
      ServeCleanStays(s, tab, minted, s.cookie.value);
    }
  }

  lemma ArriveKeepsTab(s: System, tab: nat)
    requires Inv(s, tab)
    ensures TabInv(Step(s, Arrive(tab)), tab)
  {
  }

  lemma OutsideLeavesStage(s: System, a: Action, tab: nat)
    requires Inv(s, tab) && Ordinary(s, a, tab)
    requires !a.Refresh? && !a.Serve? && !a.Arrive? && !a.RequestLost?
    ensures var t, h := Step(s, a), HandlerOf(tab);
            && t.flights == s.flights
            && (h in t.server.handlers <==> h in s.server.handlers)
            && (h in s.server.handlers ==> t.server.handlers[h] == s.server.handlers[h])
            && (t.cookie == s.cookie || CookieClean(t))
  {
    match a
    case Other(e) =>
      if IsForeign(s, e) {
        LeavesHandler(s.server, e, HandlerOf(tab));
      }
    case ServeLogin(_, user, family, minted) => LeavesHandler(s.server, Login(user, family, minted), HandlerOf(tab));
    case ServeLogout(id) =>
      if id in s.logouts && s.logouts[id].LogoutSent? && s.logouts[id].presented.Some? {
        LeavesHandler(s.server, Logout(s.logouts[id].presented.value), HandlerOf(tab));
      }
    case LoginArrives(id) =>
      if id in s.logins {
        assert InTransit(s, s.logins[id]);
      }
    case _ =>
  }

  /** A statement of someone else's request leaves a refresh where it is. */
  lemma LeavesHandler(v: State, e: Event, h: nat)
    requires e.Tick? || e.Login? || e.Logout? || e.h != h
    ensures h in Apply(v, e).handlers <==> h in v.handlers
    ensures h in v.handlers ==> Apply(v, e).handlers[h] == v.handlers[h]
  {
  }

  /** Actions outside the tab's refresh leave its stage alone, and every clean token clean. */
  lemma OutsideKeepsTab(s: System, a: Action, tab: nat)
    requires Inv(s, tab) && Ordinary(s, a, tab)
    requires !a.Refresh? && !a.Serve? && !a.Arrive? && !a.RequestLost?
    ensures TabInv(Step(s, a), tab)
  {
    var t := Step(s, a);
    forall k | k in s.mine && Clean(s, k) ensures Clean(t, k) {
      CleanStays(s, a, tab, k);
    }
    OutsideLeavesStage(s, a, tab);
  }

  lemma StepKeepsTab(s: System, a: Action, tab: nat)
    requires Inv(s, tab) && Ordinary(s, a, tab)
    ensures TabInv(Step(s, a), tab)
  {
    match a
    case Refresh(_) => RefreshKeepsTab(s, tab);
    case Serve(_, minted) => ServeKeepsTab(s, tab, minted);
    case Arrive(_) => ArriveKeepsTab(s, tab);
    case RequestLost(_) =>
    case _ => OutsideKeepsTab(s, a, tab);
  }

  /** Losing the response of a refresh keeps everything but, if it had claimed the cookie, a clean jar. */
  lemma LossKeepsInv(s: System, tab: nat)
    requires Inv(s, tab) && CookieClean(s)
    ensures Inv(Step(s, ResponseLost(tab)), tab)
  {
    LossKeepsSeparate(s, tab);
    LossKeepsJar(s, tab);
  }

  lemma LossKeepsSeparate(s: System, tab: nat)
    requires Separate(s)
    ensures Separate(Step(s, ResponseLost(tab)))
  {
    var t := Step(s, ResponseLost(tab));
    forall h | h in t.server.handlers && h % 2 == 1
      ensures ForeignPhase(t.server, t.mine, t.myFamilies, t.server.handlers[h])
    {
      assert ForeignPhase(s.server, s.mine, s.myFamilies, s.server.handlers[h]);
    }
  }

  lemma LossKeepsJar(s: System, tab: nat)
    requires JarInv(s)
    ensures JarInv(Step(s, ResponseLost(tab)))
  {
    var t := Step(s, ResponseLost(tab));
    forall id | id in t.logins ensures InTransit(t, t.logins[id]) {
      assert InTransit(s, s.logins[id]);
    }
  }

  lemma NothingClaimedIsClean(s: System, tab: nat)
    requires Inv(s, tab) && tab in s.flights && ClaimedNothing(s, tab)
    ensures CookieClean(s)
  {
  }

  lemma StepKeepsInv(s: System, a: Action, tab: nat)
    requires Inv(s, tab) && Allowed(s, a, {tab})
    ensures Inv(Step(s, a), tab)
  {
    if a.ResponseLost? {
      if tab in s.flights {
        NothingClaimedIsClean(s, tab);
        LossKeepsInv(s, tab);
      }
    } else {
      StepKeepsSeparate(s, a, tab);
      StepKeepsJar(s, a, tab);
      StepKeepsTab(s, a, tab);
      StepKeepsOnlyTab(s, a, tab);
    }
  }

  lemma {:induction false} RunKeepsInv(s: System, actions: seq<Action>, tab: nat)
    requires Inv(s, tab) && RunIn(s, actions, {tab})
    ensures Inv(PlayFrom(s, actions), tab)
  {
    if actions != [] {
      var n := |actions| - 1;
      RunKeepsInv(s, actions[..n], tab);
      StepKeepsInv(PlayFrom(s, actions[..n]), actions[n], tab);
    }
  }

  /*** Main results ***/

  /** The request about to be served presents a token the server has on file as revoked. */
  predicate PresentsRevoked(s: System, tab: nat) {
    tab in s.flights && s.flights[tab].Sent? && s.flights[tab].presented.Some?
    && StoredRevoked(s.server.rows, s.flights[tab].presented.value)
  }

  /** Some refresh of this browser is about to revoke its family. */
  predicate TriggersRevocation(s: System, tab: nat) {
    HandlerOf(tab) in s.server.handlers && s.server.handlers[HandlerOf(tab)].Replayed?
  }

  /** This browser does not look like a thief. */
  ghost predicate Quiet(s: System) {
    forall k: nat :: !PresentsRevoked(s, k) && !TriggersRevocation(s, k)
  }

  lemma InvIsQuiet(s: System, tab: nat)
    requires Inv(s, tab)
    ensures Quiet(s)
  {
    forall k: nat ensures !PresentsRevoked(s, k) && !TriggersRevocation(s, k) {
      if k == tab {
      } else {
        assert k !in s.flights && HandlerOf(k) % 2 == 0 && HandlerOf(k) != HandlerOf(tab);
      }
    }
  }

  /**
    Client and server composed: one tab with single-flight refresh never presents a revoked token and never triggers
    family revocation, whatever its requests, logins and logouts and whatever other clients do, as long as claimed
    rotations complete and their responses arrive.
   */
  lemma SingleFlightNeverLooksLikeTheft(actions: seq<Action>, tab: nat)
    requires RunIn(FIRST, actions, {tab})
    ensures Quiet(PlayFrom(FIRST, actions))
  {
    RunKeepsInv(FIRST, actions, tab);
    InvIsQuiet(PlayFrom(FIRST, actions), tab);
  }

  lemma {:induction false} RunInMore(s: System, actions: seq<Action>, tabs: set<nat>, more: set<nat>)
    requires RunIn(s, actions, tabs) && tabs <= more
    ensures RunIn(s, actions, more)
  {
    if actions != [] {
      RunInMore(s, actions[..|actions| - 1], tabs, more);
    }
  }

  lemma AtMostOneTab(tabs: set<nat>) returns (tab: nat)
    requires |tabs| <= 1
    ensures tabs <= {tab}
  {
    tab := 0;
    if tabs != {} {
      tab :| tab in tabs;
      assert |tabs - {tab}| == 0;
    }
  }

  lemma TwoOfMany(tabs: set<nat>) returns (a: nat, b: nat)
    requires |tabs| > 1
    ensures a != b && {a, b} <= tabs
  {
    a :| a in tabs;
    assert |tabs - {a}| == |tabs| - 1;
    b :| b in tabs - {a};
  }

  ghost predicate AlwaysQuiet(tabs: set<nat>) {
    forall actions | RunIn(FIRST, actions, tabs) :: Quiet(PlayFrom(FIRST, actions))
  }

  /**
    Exactly when sharing one cookie jar is safe: all runs of these tabs are quiet if and only if there is at most one
    tab.
   */
  lemma QuietExactlyForOneTab(tabs: set<nat>)
    ensures AlwaysQuiet(tabs) <==> |tabs| <= 1
  {
    if |tabs| <= 1 {
      var tab := AtMostOneTab(tabs);
      forall actions | RunIn(FIRST, actions, tabs) ensures Quiet(PlayFrom(FIRST, actions)) {
        RunInMore(FIRST, actions, tabs, {tab});
        SingleFlightNeverLooksLikeTheft(actions, tab);
      }
    } else {
      var a, b := TwoOfMany(tabs);
      var actions := TwoTabsLookLikeTheft(a, b);
      RunInMore(FIRST, actions, {a, b}, tabs);
      assert TriggersRevocation(PlayFrom(FIRST, actions), b);
      assert !Quiet(PlayFrom(FIRST, actions));
      assert !AlwaysQuiet(tabs);
    }
  }

  /**
    Exactly when losing a response is harmless: from any state of a one-tab run, every continuation is quiet if and
    only if the refresh had claimed nothing or the jar does not hold a token on file as revoked.
   */
  lemma QuietAfterLossIff(s: System, tab: nat)
    requires Inv(s, tab) && tab in s.flights && !s.flights[tab].Sent?
    ensures var t := Step(s, ResponseLost(tab));
            (forall actions | RunIn(t, actions, {tab}) :: Quiet(PlayFrom(t, actions)))
              <==> ClaimedNothing(s, tab) || CookieClean(s)
  {
    var t := Step(s, ResponseLost(tab));
    if ClaimedNothing(s, tab) {
      NothingClaimedIsClean(s, tab);
    }
    if CookieClean(s) {
      LossKeepsInv(s, tab);
      forall actions | RunIn(t, actions, {tab}) ensures Quiet(PlayFrom(t, actions)) {
        RunKeepsInv(t, actions, tab);
        InvIsQuiet(PlayFrom(t, actions), tab);
      }
    } else {
      var actions := [] + [Refresh(tab)];
      PlaySnoc(t, [], Refresh(tab), {tab});
      assert PresentsRevoked(PlayFrom(t, actions), tab);
    }
  }

  lemma PlaySnoc(s: System, actions: seq<Action>, a: Action, tabs: set<nat>)
    ensures PlayFrom(s, actions + [a]) == Step(PlayFrom(s, actions), a)
    ensures RunIn(s, actions + [a], tabs) <==> RunIn(s, actions, tabs) && Allowed(PlayFrom(s, actions), a, tabs)
  {
    assert (actions + [a])[..|actions|] == actions;
  }

  /** A signed-in browser: one login, delivered. */
  lemma SignedIn(tabs: set<nat>) returns (actions: seq<Action>)
    ensures PlayFrom(FIRST, actions) == System(Apply(RefreshTokens.START, Login(7, 1, 10)), Some(10), map[], map[],
                                               map[], {10}, {1}, {10})
    ensures RunIn(FIRST, actions, tabs)
  {
    PlaySnoc(FIRST, [], ServeLogin(0, 7, 1, 10), tabs);
    PlaySnoc(FIRST, [] + [ServeLogin(0, 7, 1, 10)], LoginArrives(0), tabs);
    actions := [] + [ServeLogin(0, 7, 1, 10)] + [LoginArrives(0)];
  }

  /** The tab has sent its cookie and the server has claimed it. */
  lemma ClaimServed(tab: nat, tabs: set<nat>) returns (actions: seq<Action>)
    requires tab in tabs
    ensures RunIn(FIRST, actions, tabs)
    ensures var s := PlayFrom(FIRST, actions);
            && s.flights == map[tab := AtServer(10)] && s.cookie == Some(10) && StoredRevoked(s.server.rows, 10)
            && s.server.handlers == map[HandlerOf(tab) := Rotating(7, 1)]
  {
    actions := SignedIn(tabs);
    PlaySnoc(FIRST, actions, Refresh(tab), tabs);
    actions := actions + [Refresh(tab)];
    PlaySnoc(FIRST, actions, Serve(tab, 0), tabs);
    actions := actions + [Serve(tab, 0)];
  }

  /** A replay of the spent cookie, from sending it to the brink of the revocation. */
  lemma ReplayServed(s: System, tab: nat, tabs: set<nat>) returns (actions: seq<Action>)
    requires tab in tabs && tab !in s.flights && HandlerOf(tab) !in s.server.handlers
    requires s.cookie == Some(10) && StoredRevoked(s.server.rows, 10)
    ensures RunIn(s, actions, tabs) && TriggersRevocation(PlayFrom(s, actions), tab)
  {
    PlaySnoc(s, [], Refresh(tab), tabs);
    actions := [] + [Refresh(tab)];
    PlaySnoc(s, actions, Serve(tab, 0), tabs);
    actions := actions + [Serve(tab, 0)];
    assert PlayFrom(s, actions).server.handlers[HandlerOf(tab)] == Suspect(10);
    PlaySnoc(s, actions, Serve(tab, 0), tabs);
    actions := actions + [Serve(tab, 0)];
  }

  lemma {:induction false} PlayConcat(s: System, a: seq<Action>, b: seq<Action>, tabs: set<nat>)
    ensures PlayFrom(s, a + b) == PlayFrom(PlayFrom(s, a), b)
    ensures RunIn(s, a + b, tabs) <==> RunIn(s, a, tabs) && RunIn(PlayFrom(s, a), b, tabs)
  {
    if b == [] {
      assert a + b == a;
    } else {
      var n := |b| - 1;
      PlayConcat(s, a, b[..n], tabs);
      PlaySnoc(s, a + b[..n], b[n], tabs);
      assert a + b == a + b[..n] + [b[n]];
    }
  }

  /**
    Single flight is needed: any two tabs share the jar but not the promise, and the one that sends the cookie while
    the other's rotation is under way looks like a thief.
   */
  lemma TwoTabsLookLikeTheft(a: nat, b: nat) returns (actions: seq<Action>)
    requires a != b
    ensures RunIn(FIRST, actions, {a, b}) && TriggersRevocation(PlayFrom(FIRST, actions), b)
  {
    var first := ClaimServed(a, {a, b});
    var later := ReplayServed(PlayFrom(FIRST, first), b, {a, b});
    PlayConcat(FIRST, first, later, {a, b});
    actions := first + later;
  }

  /** And so is delivery: for any tab, once the response to its rotation is lost, its next refresh looks like theft. */
  lemma LostResponseLooksLikeTheft(tab: nat) returns (before: seq<Action>, after: seq<Action>)
    ensures RunIn(FIRST, before, {tab})
    ensures var s := PlayFrom(FIRST, before);
            var t := Step(s, ResponseLost(tab));
            && tab in s.flights && !s.flights[tab].Sent? && !ClaimedNothing(s, tab) && !CookieClean(s)
            && RunIn(t, after, {tab}) && TriggersRevocation(PlayFrom(t, after), tab)
  {
    before := ClaimServed(tab, {tab});
    after := ReplayServed(Step(PlayFrom(FIRST, before), ResponseLost(tab)), tab, {tab});
  }

  /*** What refreshing is for ***/

  function Refreshing(tab: nat, minted: Token): seq<Action> {
    [Refresh(tab), Serve(tab, minted), Serve(tab, minted), Serve(tab, minted), Arrive(tab)]
  }

  /** The tab's jar holds a token that would be honoured, and nothing of the tab's is under way. */
  predicate MayRefresh(s: System, tab: nat, minted: Token) {
    && s.cookie.Some? && Claimable(s.server.rows, s.cookie.value, s.server.now)
    && tab !in s.flights && HandlerOf(tab) !in s.server.handlers && minted !in s.server.issued
    && s.cookie.value in s.server.issued
  }

  lemma FiveActions(s: System, a: Action, b: Action, c: Action, d: Action, e: Action)
    ensures PlayFrom(s, [a, b, c, d, e]) == Step(Step(Step(Step(Step(s, a), b), c), d), e)
  {
    PlaySnoc(s, [], a, {});
    PlaySnoc(s, [a], b, {});
    PlaySnoc(s, [a, b], c, {});
    PlaySnoc(s, [a, b, c], d, {});
    PlaySnoc(s, [a, b, c, d], e, {});
    assert [] + [a] == [a] && [a] + [b] == [a, b] && [a, b] + [c] == [a, b, c];
    assert [a, b, c] + [d] == [a, b, c, d] && [a, b, c, d] + [e] == [a, b, c, d, e];
  }

  /** Claim, purge and insert, one after the other. */
  lemma RotationServed(s: System, tab: nat, minted: Token)
    requires MayRefresh(s, tab, minted)
    ensures var old_, r := s.cookie.value, s.server.rows[s.cookie.value];
            var sent := Step(s, Refresh(tab));
            var t := Step(Step(Step(sent, Serve(tab, minted)), Serve(tab, minted)), Serve(tab, minted));
            && tab in t.flights && t.flights[tab] == Answered(Some(old_), Some(minted))
            && minted in t.server.rows
            && t.server.rows[minted] == Row(r.user, r.family, s.server.now + REFRESH_TTL, false)
            && StoredRevoked(t.server.rows, old_) && t.server.now == s.server.now
  {
    var h, old_ := HandlerOf(tab), s.cookie.value;
    var r := s.server.rows[old_];
    var s1 := Step(s, Refresh(tab));
    var s2 := Step(s1, Serve(tab, minted));
    assert s2.server.handlers[h] == Rotating(r.user, r.family) && s2.flights[tab] == AtServer(old_);
    var s3 := Step(s2, Serve(tab, minted));
    assert s3.server.handlers[h] == Purged(r.user, r.family) && old_ in s3.server.rows;
  }

  /**
    A refresh renews the session: undisturbed, it leaves the jar with a new token of the same family that can be
    claimed, for thirty days from then, and the old one on file as spent.
   */
  lemma RefreshRenewsSession(s: System, tab: nat, minted: Token)
    requires MayRefresh(s, tab, minted)
    ensures var old_, r := s.cookie.value, s.server.rows[s.cookie.value];
            var t := PlayFrom(s, Refreshing(tab, minted));
            && t.cookie == Some(minted) && Claimable(t.server.rows, minted, t.server.now) && tab !in t.flights
            && t.server.rows[minted].family == r.family && t.server.rows[minted].user == r.user
            && t.server.rows[minted].expires == s.server.now + REFRESH_TTL && StoredRevoked(t.server.rows, old_)
  {
    FiveActions(s, Refresh(tab), Serve(tab, minted), Serve(tab, minted), Serve(tab, minted), Arrive(tab));
    RotationServed(s, tab, minted);
  }

  /** A logout that was served and answered leaves the jar empty and its token off the table. */
  lemma LogoutSignsOut(s: System, id: nat, token: Token)
    requires id in s.logouts && s.logouts[id] == LogoutSent(Some(token))
    ensures var t := Step(Step(s, ServeLogout(id)), LogoutArrives(id));
            t.cookie == None && token !in t.server.rows
            && forall u | u in s.server.rows && u != token :: u in t.server.rows && t.server.rows[u] == s.server.rows[u]
  {
  }
}
