/** What presenting a refresh token comes to, by the times of the events, on every run. */
module TokenTimes {
  import opened Wrappers
  import opened RefreshFamilies

  /** The event may change token t of a family: a token of the family is presented, t is logged out, or t is pruned. */
  predicate Disturbs(s: State, e: Event, t: TokenId, row: Token) {
    match e
    case LoginEvent(_, _, _, _, _) => false
    case RefreshEvent(raw, _, _, _, _) => raw in s.tokens && s.tokens[raw].family == row.family
    case LogoutEvent(raw, _) => raw == t
    case PruneEvent(olderThan) => row.expiresAt < olderThan || (row.revokedAt.Some? && row.revokedAt.value < olderThan)
  }

  ghost predicate Quiet(ss: seq<State>, es: seq<Event>, i: nat, j: nat, t: TokenId, row: Token)
    requires |ss| == |es| + 1 && j <= |es|
  {
    forall k :: i <= k < j ==> !Disturbs(ss[k], es[k], t, row)
  }

  /** The row of token t, but for a reference to a replacement, which pruning may clear. */
  predicate Holds(s: State, t: TokenId, row: Token) {
    t in s.tokens && t in s.issued && s.tokens[t].(replacedBy := None) == row.(replacedBy := None)
    && (row.replacedBy.None? ==> s.tokens[t].replacedBy.None?)
  }

  lemma EventKeepsRow(s: State, e: Event, t: TokenId, row: Token)
    requires StateOk(s) && Enabled(s, e) && Holds(s, t, row) && !Disturbs(s, e, t, row)
    ensures Holds(Apply(s, e), t, row)
  {
    assert TokenOk(s, t);
  }

  lemma {:induction false} RowAlong(ss: seq<State>, es: seq<Event>, i: nat, j: nat, t: TokenId, row: Token)
    requires Run(ss, es) && i <= j <= |es| && Holds(ss[i], t, row) && Quiet(ss, es, i, j, t, row)
    ensures Holds(ss[j], t, row)
    decreases j
  {
    if i < j {
      RowAlong(ss, es, i, j - 1, t, row);
      RunIsOk(ss, es, j - 1);
      EventKeepsRow(ss[j - 1], es[j - 1], t, row);
    }
  }

  /** Event i issues token t in a family, to expire at a time: by logging in, or in exchange for another token of the family. */
  predicate Issues(ss: seq<State>, es: seq<Event>, i: nat, t: TokenId, row: Token)
    requires |ss| == |es| + 1
  {
    i < |es| && row.revokedAt.None? && row.replacedBy.None?
    && match es[i]
       case LoginEvent(user, token, family, now, ttl) => token == t && row.user == user && row.family == family && row.expiresAt == now + ttl
       case RefreshEvent(raw, next, now, ttl, active) =>
         next == t && t in ss[i + 1].tokens && raw in ss[i].tokens && row.user == ss[i].tokens[raw].user
         && row.family == ss[i].tokens[raw].family && row.expiresAt == now + ttl
       case _ => false
  }

  lemma IssuedRow(ss: seq<State>, es: seq<Event>, i: nat, t: TokenId, row: Token)
    requires Run(ss, es) && Issues(ss, es, i, t, row)
    ensures Holds(ss[i + 1], t, row)
  {
    RunIsOk(ss, es, i);
    assert ss[i + 1] == Apply(ss[i], es[i]);
    if es[i].RefreshEvent? {
      assert TokenOk(ss[i], es[i].raw) && TokenOk(ss[i], t);
    }
  }

  /** A token that was issued to expire at a time, and left alone since, is exchanged before that time for an active account, and
      refused otherwise; the new token continues the family. */
  lemma PresentedExactly(ss: seq<State>, es: seq<Event>, i: nat, j: nat, t: TokenId, row: Token)
    requires Run(ss, es) && Issues(ss, es, i, t, row) && i < j < |es| && Quiet(ss, es, i + 1, j, t, row) && Presents(ss, es, j, t)
    ensures OutcomeOf(ss, es, j, t) == if es[j].now < row.expiresAt && es[j].accountActive then Exchanged(es[j].next) else Denied
    ensures es[j].now < row.expiresAt && es[j].accountActive ==>
              && !Live(ss[j + 1], t)
              && Issues(ss, es, j, es[j].next, Token(row.user, row.family, es[j].now + es[j].ttl, None, None))
    ensures es[j].now >= row.expiresAt ==> !Live(ss[j + 1], t)
    ensures es[j].now < row.expiresAt && !es[j].accountActive ==> FamilyOver(ss[j + 1], row.family)
  {
    IssuedRow(ss, es, i, t, row);
    RowAlong(ss, es, i + 1, j, t, row);
    RunIsOk(ss, es, j);
    assert TokenOk(ss[j], t);
    assert ss[j + 1] == Apply(ss[j], es[j]);
  }

  /** Event i spends token t, which is in the table: it is exchanged, or logged out while live. */
  predicate Spends(ss: seq<State>, es: seq<Event>, i: nat, t: TokenId, now: int)
    requires |ss| == |es| + 1
  {
    && i < |es| && Live(ss[i], t)
    && ((es[i].RefreshEvent? && es[i].raw == t && es[i].now == now && es[i].next in ss[i + 1].tokens)
        || (es[i].LogoutEvent? && es[i].raw == t && es[i].now == now))
  }

  /** The row of a revoked token, but for a reference to its replacement. */
  predicate Revoked(s: State, t: TokenId, family: FamilyId, expiresAt: int, now: int) {
    && t in s.tokens && s.tokens[t].family == family && s.tokens[t].expiresAt == expiresAt && s.tokens[t].revokedAt == Some(now)
    && t in s.issued && family in s.families
  }

  lemma SpentRow(ss: seq<State>, es: seq<Event>, i: nat, t: TokenId, now: int)
    requires Run(ss, es) && Spends(ss, es, i, t, now)
    ensures Revoked(ss[i + 1], t, ss[i].tokens[t].family, ss[i].tokens[t].expiresAt, now)
  {
    RunIsOk(ss, es, i);
    assert TokenOk(ss[i], t);
    assert ss[i + 1] == Apply(ss[i], es[i]);
    if es[i].RefreshEvent? {
      assert TokenOk(ss[i], es[i].next);
    }
  }

  /** The event prunes rows that expired, or were revoked, as early as this one. */
  predicate Prunes(e: Event, expiresAt: int, now: int) {
    e.PruneEvent? && (expiresAt < e.olderThan || now < e.olderThan)
  }

  lemma {:induction false} RevokedAlong(ss: seq<State>, es: seq<Event>, i: nat, j: nat, t: TokenId, family: FamilyId, expiresAt: int, now: int)
    requires Run(ss, es) && i <= j <= |es| && Revoked(ss[i], t, family, expiresAt, now)
    requires forall k :: i <= k < j ==> !Prunes(es[k], expiresAt, now)
    ensures Revoked(ss[j], t, family, expiresAt, now)
    decreases j
  {
    if i < j {
      RevokedAlong(ss, es, i, j - 1, t, family, expiresAt, now);
      assert ss[j] == Apply(ss[j - 1], es[j - 1]);
    }
  }

  /** Presenting a spent token again is detected as reuse until its row is pruned, whatever happened to its family since, and ends
      the family. */
  lemma SpentIsReuse(ss: seq<State>, es: seq<Event>, i: nat, j: nat, t: TokenId, now: int)
    requires Run(ss, es) && Spends(ss, es, i, t, now) && i < j < |es| && Presents(ss, es, j, t)
    requires forall k :: i < k < j ==> !Prunes(es[k], ss[i].tokens[t].expiresAt, now)
    ensures OutcomeOf(ss, es, j, t) == ReuseDetected && FamilyOver(ss[j + 1], ss[i].tokens[t].family)
  {
    SpentRow(ss, es, i, t, now);
    RevokedAlong(ss, es, i + 1, j, t, ss[i].tokens[t].family, ss[i].tokens[t].expiresAt, now);
    assert ss[j + 1] == Apply(ss[j], es[j]);
  }

  /** A token that is not in the table, because it was never issued or was pruned, is refused and changes nothing. */
  lemma UnknownIsDenied(s: State, t: TokenId, next: TokenId, now: int, ttl: nat, active: bool)
    requires t !in s.tokens
    ensures RefreshOutcome(s, t, next, now, active) == Denied && Refresh(s, t, next, now, ttl, active) == s
  {
  }
}
