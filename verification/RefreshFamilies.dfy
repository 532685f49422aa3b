/** Refresh tokens and their families (backend/app/auth/service.py, backend/app/operations/maintenance.py).

    Each call is one transaction. Token secrets are fresh and hashed injectively, so a token is its identifier. */
module RefreshFamilies {
  import opened Wrappers

  newtype TokenId = n: int | 0 <= n
  newtype FamilyId = n: int | 0 <= n
  newtype UserId = n: int | 0 <= n

  datatype Token = Token(user: UserId, family: FamilyId, expiresAt: int, revokedAt: Option<int>, replacedBy: Option<TokenId>)

  /** The table, and every token and family there ever was. */
  datatype State = State(tokens: map<TokenId, Token>, issued: set<TokenId>, families: set<FamilyId>)

  /** What a refresh comes to. */
  datatype Outcome = Exchanged(next: TokenId) | ReuseDetected | Denied

  predicate Spent(t: Token) {
    t.revokedAt.Some? || t.replacedBy.Some?
  }

  function RevokeFamily(tokens: map<TokenId, Token>, family: FamilyId, now: int): map<TokenId, Token> {
    map t | t in tokens ::
      if tokens[t].family == family && tokens[t].revokedAt.None? then tokens[t].(revokedAt := Some(now)) else tokens[t]
  }

  function RefreshOutcome(s: State, raw: TokenId, next: TokenId, now: int, accountActive: bool): Outcome {
    if raw !in s.tokens then Denied
    else if Spent(s.tokens[raw]) then ReuseDetected
    else if s.tokens[raw].expiresAt <= now || !accountActive then Denied
    else Exchanged(next)
  }

  function Refresh(s: State, raw: TokenId, next: TokenId, now: int, ttl: nat, accountActive: bool): State {
    if raw !in s.tokens then s
    else
      var t := s.tokens[raw];
      if Spent(t) then s.(tokens := RevokeFamily(s.tokens, t.family, now))
      else if t.expiresAt <= now then s.(tokens := s.tokens[raw := t.(revokedAt := Some(now))])
      else if !accountActive then s.(tokens := RevokeFamily(s.tokens, t.family, now))
      else
        State(s.tokens[raw := t.(revokedAt := Some(now), replacedBy := Some(next))]
                [next := Token(t.user, t.family, now + ttl, None, None)],
              s.issued + {next}, s.families)
  }

  function Login(s: State, user: UserId, token: TokenId, family: FamilyId, now: int, ttl: nat): State {
    State(s.tokens[token := Token(user, family, now + ttl, None, None)], s.issued + {token}, s.families + {family})
  }

  function Logout(s: State, raw: TokenId, now: int): State {
    if raw in s.tokens && s.tokens[raw].revokedAt.None? then s.(tokens := s.tokens[raw := s.tokens[raw].(revokedAt := Some(now))]) else s
  }

  predicate Prunable(t: Token, olderThan: int) {
    t.expiresAt < olderThan || (t.revokedAt.Some? && t.revokedAt.value < olderThan)
  }

  /** Old rows go; references to them are set to null. */
  function Prune(s: State, olderThan: int): State {
    var gone := set t | t in s.tokens && Prunable(s.tokens[t], olderThan);
    s.(tokens := map t | t in s.tokens && t !in gone ::
         if s.tokens[t].replacedBy.Some? && s.tokens[t].replacedBy.value in gone then s.tokens[t].(replacedBy := None) else s.tokens[t])
  }

  datatype Event =
    | LoginEvent(user: UserId, token: TokenId, family: FamilyId, now: int, ttl: nat)
    | RefreshEvent(raw: TokenId, next: TokenId, now: int, ttl: nat, accountActive: bool)
    | LogoutEvent(raw: TokenId, now: int)
    | PruneEvent(olderThan: int)

  /** New tokens and families are drawn at random: they never came up before. */
  predicate Enabled(s: State, e: Event) {
    match e
    case LoginEvent(_, token, family, _, _) => token !in s.issued && family !in s.families
    case RefreshEvent(_, next, _, _, _) => next !in s.issued
    case LogoutEvent(_, _) => true
    case PruneEvent(_) => true
  }

  function Apply(s: State, e: Event): State {
    match e
    case LoginEvent(user, token, family, now, ttl) => Login(s, user, token, family, now, ttl)
    case RefreshEvent(raw, next, now, ttl, accountActive) => Refresh(s, raw, next, now, ttl, accountActive)
    case LogoutEvent(raw, now) => Logout(s, raw, now)
    case PruneEvent(olderThan) => Prune(s, olderThan)
  }

  const FIRST := State(map[], {}, {})

  ghost predicate Run(ss: seq<State>, es: seq<Event>) {
    && |ss| == |es| + 1 && ss[0] == FIRST
    && forall i :: 0 <= i < |es| ==> Enabled(ss[i], es[i]) && ss[i + 1] == Apply(ss[i], es[i])
  }

  predicate Live(s: State, t: TokenId) {
    t in s.tokens && !Spent(s.tokens[t])
  }

  /** Rows are tokens that were issued, in known families, and a replaced token is revoked. */
  predicate TokenOk(s: State, t: TokenId) {
    t in s.tokens ==>
      t in s.issued && s.tokens[t].family in s.families && (s.tokens[t].replacedBy.Some? ==> s.tokens[t].revokedAt.Some?)
  }

  /** A family has at most one live token. */
  predicate OneLive(s: State, t: TokenId, u: TokenId) {
    Live(s, t) && Live(s, u) && t != u ==> s.tokens[t].family != s.tokens[u].family
  }

  ghost predicate StateOk(s: State) {
    && (forall t {:trigger TokenOk(s, t)} :: TokenOk(s, t))
    && (forall t, u {:trigger OneLive(s, t, u)} :: OneLive(s, t, u))
  }

  /** What no step undoes: a token once gone or spent is not live again, and a family without live tokens stays so. */
  predicate Over(s: State, t: TokenId) {
    t in s.issued && !Live(s, t)
  }

  ghost predicate FamilyOver(s: State, f: FamilyId) {
    f in s.families && forall t :: t in s.tokens && s.tokens[t].family == f ==> s.tokens[t].revokedAt.Some?
  }

  lemma EventKeepsToken(s: State, e: Event, t: TokenId)
    requires StateOk(s) && Enabled(s, e)
    ensures TokenOk(Apply(s, e), t)
    ensures Over(s, t) ==> Over(Apply(s, e), t)
  {
    assert TokenOk(s, t);
    if e.RefreshEvent? {
      assert TokenOk(s, e.raw);
    }
  }

  lemma EventKeepsOneLive(s: State, e: Event, t: TokenId, u: TokenId)
    requires StateOk(s) && Enabled(s, e)
    ensures OneLive(Apply(s, e), t, u)
  {
    assert OneLive(s, t, u) && TokenOk(s, t) && TokenOk(s, u);
    if e.RefreshEvent? {
      assert OneLive(s, e.raw, t) && OneLive(s, e.raw, u) && TokenOk(s, e.raw);
    }
  }

  lemma EventKeepsOk(s: State, e: Event)
    requires StateOk(s) && Enabled(s, e)
    ensures StateOk(Apply(s, e))
  {
    forall t ensures TokenOk(Apply(s, e), t) {
      EventKeepsToken(s, e, t);
    }
    forall t, u ensures OneLive(Apply(s, e), t, u) {
      EventKeepsOneLive(s, e, t, u);
    }
  }

  lemma EventKeepsFamilyOver(s: State, e: Event, f: FamilyId)
    requires StateOk(s) && Enabled(s, e) && FamilyOver(s, f)
    ensures FamilyOver(Apply(s, e), f)
  {
  }

  lemma {:induction false} RunIsOk(ss: seq<State>, es: seq<Event>, i: nat)
    requires Run(ss, es) && i < |ss|
    ensures StateOk(ss[i])
  {
    if i > 0 {
      RunIsOk(ss, es, i - 1);
      EventKeepsOk(ss[i - 1], es[i - 1]);
    }
  }

  lemma {:induction false} OverForGood(ss: seq<State>, es: seq<Event>, i: nat, j: nat, t: TokenId)
    requires Run(ss, es) && i <= j < |ss| && Over(ss[i], t)
    ensures Over(ss[j], t)
    decreases j - i
  {
    if i < j {
      RunIsOk(ss, es, i);
      EventKeepsToken(ss[i], es[i], t);
      OverForGood(ss, es, i + 1, j, t);
    }
  }

  lemma {:induction false} FamilyOverForGood(ss: seq<State>, es: seq<Event>, i: nat, j: nat, f: FamilyId)
    requires Run(ss, es) && i <= j < |ss| && FamilyOver(ss[i], f)
    ensures FamilyOver(ss[j], f)
    decreases j - i
  {
    if i < j {
      RunIsOk(ss, es, i);
      EventKeepsFamilyOver(ss[i], es[i], f);
      FamilyOverForGood(ss, es, i + 1, j, f);
    }
  }

  /** What event i came to, when it presents a token. */
  predicate Presents(ss: seq<State>, es: seq<Event>, i: nat, raw: TokenId) {
    i < |es| && i < |ss| && es[i].RefreshEvent? && es[i].raw == raw
  }

  function OutcomeOf(ss: seq<State>, es: seq<Event>, i: nat, raw: TokenId): Outcome
    requires Presents(ss, es, i, raw)
  {
    RefreshOutcome(ss[i], raw, es[i].next, es[i].now, es[i].accountActive)
  }

  /** In every run a family has at most one token that would be accepted. */
  lemma AtMostOneLive(ss: seq<State>, es: seq<Event>, i: nat, t: TokenId, u: TokenId)
    requires Run(ss, es) && i < |ss| && Live(ss[i], t) && Live(ss[i], u) && ss[i].tokens[t].family == ss[i].tokens[u].family
    ensures t == u
  {
    RunIsOk(ss, es, i);
    assert OneLive(ss[i], t, u);
  }

  /** Each refresh token is exchanged successfully at most once. */
  lemma ExchangedAtMostOnce(ss: seq<State>, es: seq<Event>, i: nat, j: nat, raw: TokenId)
    requires Run(ss, es) && Presents(ss, es, i, raw) && Presents(ss, es, j, raw)
    requires OutcomeOf(ss, es, i, raw).Exchanged? && OutcomeOf(ss, es, j, raw).Exchanged?
    ensures i == j
  {
    var first, second := if i < j then i else j, if i < j then j else i;
    RunIsOk(ss, es, first);
    assert TokenOk(ss[first], raw);
    assert Over(ss[first + 1], raw) by {
      assert ss[first + 1] == Apply(ss[first], es[first]);
    }
    if first < second {
      OverForGood(ss, es, first + 1, second, raw);
    }
  }

  /** After reuse of a token is detected, no token of its family is ever exchanged again. */
  lemma ReuseEndsFamily(ss: seq<State>, es: seq<Event>, i: nat, j: nat, raw: TokenId, other: TokenId)
    requires Run(ss, es) && i < j && Presents(ss, es, i, raw) && Presents(ss, es, j, other)
    requires OutcomeOf(ss, es, i, raw).ReuseDetected?
    requires other in ss[j].tokens && ss[j].tokens[other].family == ss[i].tokens[raw].family
    ensures !OutcomeOf(ss, es, j, other).Exchanged?
  {
    var f := ss[i].tokens[raw].family;
    RunIsOk(ss, es, i);
    assert TokenOk(ss[i], raw);
    assert FamilyOver(ss[i + 1], f) by {
      assert ss[i + 1] == Apply(ss[i], es[i]);
    }
    FamilyOverForGood(ss, es, i + 1, j, f);
  }

  /** The token table and the calls on it. */
  class RefreshTokens {
    var tokens: map<TokenId, Token>
    ghost var issued: set<TokenId>
    ghost var families: set<FamilyId>

    constructor ()
      ensures View() == FIRST
    {
      tokens, issued, families := map[], {}, {};
    }

    ghost function View(): State
      reads this
    {
      State(tokens, issued, families)
    }

    method LogIn(user: UserId, token: TokenId, family: FamilyId, now: int, ttl: nat)
      modifies this
      ensures View() == Login(old(View()), user, token, family, now, ttl)
    {
      tokens := tokens[token := Token(user, family, now + ttl, None, None)];
      issued, families := issued + {token}, families + {family};
    }

    method Exchange(raw: TokenId, next: TokenId, now: int, ttl: nat, accountActive: bool) returns (outcome: Outcome)
      modifies this
      ensures outcome == RefreshOutcome(old(View()), raw, next, now, accountActive)
      ensures View() == Refresh(old(View()), raw, next, now, ttl, accountActive)
    {
      if raw !in tokens {
        return Denied;
      }
      var refresh := tokens[raw];
      if refresh.revokedAt.Some? || refresh.replacedBy.Some? {
        Revoke(refresh.family, now);
        return ReuseDetected;
      }
      if refresh.expiresAt <= now {
        tokens := tokens[raw := refresh.(revokedAt := Some(now))];
        return Denied;
      }
      if !accountActive {
        Revoke(refresh.family, now);
        return Denied;
      }
      refresh := refresh.(revokedAt := Some(now));
      refresh := refresh.(replacedBy := Some(next));
      tokens := tokens[raw := refresh];
      tokens := tokens[next := Token(refresh.user, refresh.family, now + ttl, None, None)];
      issued := issued + {next};
      return Exchanged(next);
    }

    /** `_revoke_family`: the tokens that are not revoked yet. */
    method Revoke(family: FamilyId, now: int)
      modifies this`tokens
      ensures tokens == RevokeFamily(old(tokens), family, now)
      ensures forall t :: t in old(tokens) ==>
                && t in tokens && (old(tokens)[t].family == family ==> tokens[t].revokedAt.Some? && !Live(View(), t))
                && (old(tokens)[t].family != family || old(tokens)[t].revokedAt.Some? ==> tokens[t] == old(tokens)[t])
    {
      tokens := map t | t in tokens ::
        if tokens[t].family == family && tokens[t].revokedAt.None? then tokens[t].(revokedAt := Some(now)) else tokens[t];
    }

    method LogOut(raw: TokenId, now: int)
      modifies this
      ensures View() == Logout(old(View()), raw, now)
    {
      if raw in tokens && tokens[raw].revokedAt.None? {
        tokens := tokens[raw := tokens[raw].(revokedAt := Some(now))];
      }
    }

    method PruneTokens(olderThan: int)
      modifies this
      ensures View() == Prune(old(View()), olderThan)
    {
      var gone := set t | t in tokens && (tokens[t].expiresAt < olderThan || (tokens[t].revokedAt.Some? && tokens[t].revokedAt.value < olderThan));
      assert gone == set t | t in tokens && Prunable(tokens[t], olderThan);
      tokens := map t | t in tokens && t !in gone ::
        if tokens[t].replacedBy.Some? && tokens[t].replacedBy.value in gone then tokens[t].(replacedBy := None) else tokens[t];
    }
  }
}
