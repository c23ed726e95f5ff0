/** Login, refresh and logout as they run, each write in a transaction of its own, proved to end in one of
    the ways the calls of a run can end.
 */
module RefreshUseCases {
  import opened Kernel
  import opened RefreshFamilies
  import opened RefreshAnswers

  class RefreshTokenRepository {
    var tokens: Tokens
    /** Statements left before the process or the connection dies; `None` if neither does. */
    var faultIn: Option<nat>

    constructor (tokens: Tokens, faultIn: Option<nat>)
      ensures this.tokens == tokens && this.faultIn == faultIn
    {
      this.tokens, this.faultIn := tokens, faultIn;
    }

    method Statement() returns (o: Done)
      modifies this`faultIn
      ensures faultIn.Some? <==> old(faultIn).Some?
      ensures o.Broke? ==> old(faultIn).Some?
    {
      match faultIn
      case None => o := Done;
      case Some(left) =>
        if left == 0 {
          o := Broke;
        } else {
          faultIn := Some(left - 1);
          o := Done;
        }
    }

    method Save(id: Id, row: TokenRow) returns (o: Done)
      requires id !in tokens && forall k :: k in tokens ==> tokens[k].tokenHash != row.tokenHash
      modifies this
      ensures faultIn.Some? <==> old(faultIn).Some?
      ensures o.Done? ==> tokens == old(tokens)[id := row]
      ensures o.Broke? ==> tokens == old(tokens) && old(faultIn).Some?
    {
      o := Statement();
      if o.Broke? { return; }
      tokens := tokens[id := row];
    }

    method FindByHash(tenantId: Id, tokenHash: Id) returns (r: Attempt<Option<Id>>)
      requires UniqueHashes(tokens)
      modifies this`faultIn
      ensures faultIn.Some? <==> old(faultIn).Some?
      ensures r.Ok? ==> r.value == FindToken(tokens, Signed(tenantId, tokenHash))
      ensures r.Err? ==> r == Err(Threw) && old(faultIn).Some?
    {
      var o := Statement();
      if o.Broke? { return Err(Threw); }
      var left := tokens.Keys;
      while left != {}
        invariant left <= tokens.Keys
        invariant forall k :: k in tokens && k !in left ==> !IsStored(tokens, tenantId, tokenHash, k)
        decreases left
      {
        var k :| k in left;
        if tokens[k].tenantId == tenantId && tokens[k].tokenHash == tokenHash {
          assert IsStored(tokens, tenantId, tokenHash, k);
          return Ok(Some(k));
        }
        left := left - {k};
      }
      r := Ok(None);
    }

    method MarkRotated(tenantId: Id, id: Id, rotatedAt: Time) returns (o: Done)
      modifies this
      ensures faultIn.Some? <==> old(faultIn).Some?
      ensures o.Done? ==> tokens == Rotated(old(tokens), tenantId, id, rotatedAt)
      ensures o.Broke? ==> tokens == old(tokens) && old(faultIn).Some?
    {
      o := Statement();
      if o.Broke? { return; }
      if id in tokens && tokens[id].tenantId == tenantId && tokens[id].rotatedAt.None? {
        tokens := tokens[id := tokens[id].(rotatedAt := Some(rotatedAt))];
      }
    }

    /** One row after the other; the statement is atomic all the same. */
    method RevokeFamily(tenantId: Id, familyId: Id, revokedAt: Time) returns (o: Done)
      modifies this
      ensures faultIn.Some? <==> old(faultIn).Some?
      ensures o.Done? ==> tokens == Revoked(old(tokens), tenantId, familyId, revokedAt)
      ensures o.Broke? ==> tokens == old(tokens) && old(faultIn).Some?
    {
      o := Statement();
      if o.Broke? { return; }
      var left := tokens.Keys;
      while left != {}
        invariant left <= tokens.Keys == old(tokens).Keys
        invariant forall k :: k in tokens ==> tokens[k] == if k in left then old(tokens)[k] else Revoked(old(tokens), tenantId, familyId, revokedAt)[k]
        invariant faultIn.Some? <==> old(faultIn).Some?
        decreases left
      {
        var k :| k in left;
        var row := tokens[k];
        if row.familyId == familyId && row.tenantId == tenantId && row.revokedAt.None? {
          tokens := tokens[k := row.(revokedAt := Some(revokedAt))];
        }
        left := left - {k};
      }
    }
  }

  /** `SessionIssuer.issue`: a family of its own unless one is passed. */
  method Issue(repository: RefreshTokenRepository, tenantId: Id, userId: Id, familyId: Option<Id>, generatedFamilyId: Id, minted: Minted) returns (o: Done)
    requires FreshMint(repository.tokens, minted)
    modifies repository
    ensures repository.faultIn.Some? <==> old(repository.faultIn).Some?
    ensures var family := if familyId.Some? then familyId.value else generatedFamilyId;
            o.Done? ==> repository.tokens == old(repository.tokens)[minted.id := FreshToken(tenantId, userId, family, minted)]
    ensures o.Broke? ==> repository.tokens == old(repository.tokens) && old(repository.faultIn).Some?
  {
    var family := if familyId.Some? then familyId.value else generatedFamilyId;
    o := repository.Save(minted.id, TokenRow(tenantId, userId, family, minted.tokenHash, minted.expiresAt, None, None, minted.createdAt));
  }

  /** The end of a login or a registration, once the credentials are accepted. */
  method OpenSession(repository: RefreshTokenRepository, tenantId: Id, userId: Id, generatedFamilyId: Id, minted: Minted) returns (r: Outcome)
    requires Enabled(repository.tokens, Login(tenantId, userId, generatedFamilyId, minted))
    modifies repository
    ensures Happens(old(repository.tokens), Login(tenantId, userId, generatedFamilyId, minted), r, repository.tokens)
    ensures r == Crashed ==> old(repository.faultIn).Some?
  {
    var o := Issue(repository, tenantId, userId, None, generatedFamilyId, minted);
    r := if o.Done? then Issued else Crashed;
  }

  /** `RefreshTokens.execute`. */
  method RefreshTokens(repository: RefreshTokenRepository, presented: Presented, now: Time, isMember: bool, minted: Minted) returns (r: Outcome)
    requires UniqueHashes(repository.tokens) && Enabled(repository.tokens, Refresh(presented, now, isMember, minted))
    modifies repository
    ensures Happens(old(repository.tokens), Refresh(presented, now, isMember, minted), r, repository.tokens)
    ensures r == Crashed ==> old(repository.faultIn).Some?
    ensures r != Crashed ==> Answers(old(repository.tokens), presented, now, isMember, r)
  {
    FoundIsRowOf(repository.tokens, presented);
    if presented.Forged? { return Refused(RefreshTokenInvalid); }
    var found := repository.FindByHash(presented.tenantId, presented.tokenHash);
    if found.Err? { return Crashed; }
    if found.value.None? { return Refused(RefreshTokenInvalid); }
    var id := found.value.value;
    var stored := repository.tokens[id];

    if stored.IsSpent() {
      var revoked := repository.RevokeFamily(presented.tenantId, stored.familyId, now);
      return if revoked.Done? then Refused(RefreshTokenReuse) else Crashed;
    }
    if stored.IsExpired(now) { return Refused(RefreshTokenInvalid); }
    if !isMember { return Refused(InvalidCredentials); }

    var rotated := repository.MarkRotated(presented.tenantId, id, now);
    if rotated.Broke? { return Crashed; }
    var issued := Issue(repository, presented.tenantId, stored.userId, Some(stored.familyId), 0, minted);
    r := if issued.Done? then Issued else Crashed;
  }

  /** `Logout.execute`: an unknown token is nothing to complain about. */
  method Logout(repository: RefreshTokenRepository, presented: Presented, now: Time) returns (r: Outcome)
    requires UniqueHashes(repository.tokens)
    modifies repository
    ensures Happens(old(repository.tokens), RefreshFamilies.Logout(presented, now), r, repository.tokens)
    ensures r == Crashed ==> old(repository.faultIn).Some?
  {
    if presented.Forged? { return LoggedOut; }
    var found := repository.FindByHash(presented.tenantId, presented.tokenHash);
    if found.Err? { return Crashed; }
    if found.value.Some? {
      var revoked := repository.RevokeFamily(presented.tenantId, repository.tokens[found.value.value].familyId, now);
      if revoked.Broke? { return Crashed; }
    }
    r := LoggedOut;
  }
}
