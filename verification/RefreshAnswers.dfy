/** Which call is granted, which error refuses it otherwise, and what it changes: said of the stored rows, for
    every call of every run.
 */
module RefreshAnswers {
  import opened Kernel
  import opened RefreshFamilies

  /** This tenant has stored a token with this hash under this id. */
  predicate IsRowOf(tokens: Tokens, presented: Presented, id: Id) {
    presented.Signed? && id in tokens && tokens[id].tenantId == presented.tenantId && tokens[id].tokenHash == presented.tokenHash
  }

  ghost predicate IsUnknown(tokens: Tokens, presented: Presented) {
    forall id :: !IsRowOf(tokens, presented, id)
  }

  lemma FoundIsRowOf(tokens: Tokens, presented: Presented)
    requires UniqueHashes(tokens)
    ensures IsUnknown(tokens, presented) <==> FindToken(tokens, presented).None?
    ensures forall id: Id :: IsRowOf(tokens, presented, id) <==> FindToken(tokens, presented) == Some(id)
  {
    var found := FindToken(tokens, presented);
    assert found.Some? ==> IsRowOf(tokens, presented, found.value);
    if id :| IsRowOf(tokens, presented, id) {
      assert IsStored(tokens, presented.tenantId, presented.tokenHash, id);
    }
  }

  /** The answer to a refresh, from the token's row: a token that was rotated or revoked is reuse; of the
      others, one past its date is invalid, and one of somebody who left is refused; the rest are renewed. */
  function AnswerFor(row: TokenRow, now: Time, isMember: bool): Outcome {
    if row.rotatedAt != None || row.revokedAt != None then Refused(RefreshTokenReuse)
    else if row.expiresAt <= now then Refused(RefreshTokenInvalid)
    else if !isMember then Refused(InvalidCredentials)
    else Issued
  }

  ghost predicate Answers(tokens: Tokens, presented: Presented, now: Time, isMember: bool, r: Outcome) {
    && (IsUnknown(tokens, presented) ==> r == Refused(RefreshTokenInvalid))
    && (forall id :: IsRowOf(tokens, presented, id) ==> r == AnswerFor(tokens[id], now, isMember))
  }

  lemma CallAnswers(tokens: Tokens, call: Call, r: Outcome, after: Tokens)
    requires UniqueHashes(tokens) && call.Refresh? && Happens(tokens, call, r, after) && r != Crashed
    ensures Answers(tokens, call.presented, call.now, call.isMember, r)
  {
    FoundIsRowOf(tokens, call.presented);
  }

  /** In any run a refresh that was answered is granted exactly if its token is stored, neither rotated nor
      revoked, not past its date, and its owner still a member. Each other answer has its own cause. */
  lemma RefreshIsGrantedIff(run: seq<Moment>, i: nat)
    requires IsRun(run) && i < |run| && run[i].call.Refresh? && run[i].outcome != Crashed
    ensures var tokens, call, r := TokensAfter(run[..i]), run[i].call, run[i].outcome;
            && (r == Issued <==>
                  exists id :: IsRowOf(tokens, call.presented, id) && tokens[id].rotatedAt == None && tokens[id].revokedAt == None
                               && call.now < tokens[id].expiresAt && call.isMember)
            && (r == Refused(RefreshTokenReuse) <==>
                  exists id :: IsRowOf(tokens, call.presented, id) && (tokens[id].rotatedAt != None || tokens[id].revokedAt != None))
            && (r == Refused(InvalidCredentials) <==>
                  exists id :: IsRowOf(tokens, call.presented, id) && tokens[id].rotatedAt == None && tokens[id].revokedAt == None
                               && call.now < tokens[id].expiresAt && !call.isMember)
            && (r == Refused(RefreshTokenInvalid) <==>
                  || IsUnknown(tokens, call.presented)
                  || exists id :: IsRowOf(tokens, call.presented, id) && tokens[id].rotatedAt == None && tokens[id].revokedAt == None
                                  && tokens[id].expiresAt <= call.now)
  {
    MomentHappens(run, i);
    RunKeeps(run[..i]);
    var tokens, call := TokensAfter(run[..i]), run[i].call;
    CallAnswers(tokens, call, run[i].outcome, run[i].after);
    FoundIsRowOf(tokens, call.presented);
  }

  // ----------------------------------------------------------- what it changes

  /** A token nobody has used yet, as the token service made it, for this user and family. */
  predicate IsFresh(row: TokenRow, tenantId: Id, userId: Id, familyId: Id, m: Minted) {
    && row.tenantId == tenantId && row.userId == userId && row.familyId == familyId
    && row.tokenHash == m.tokenHash && row.expiresAt == m.expiresAt && row.createdAt == m.createdAt
    && row.rotatedAt == None && row.revokedAt == None
  }

  /** What an answered call leaves of a row that was there. */
  function LeavesOf(tokens: Tokens, id: Id, call: Call, r: Outcome, k: Id): TokenRow
    requires id in tokens && k in tokens && !call.Login?
  {
    var row := tokens[k];
    if r == Issued && k == id then row.(rotatedAt := Some(call.now))
    else if r in {Refused(RefreshTokenReuse), LoggedOut} && row.familyId == tokens[id].familyId && row.revokedAt == None then row.(revokedAt := Some(call.now))
    else row
  }

  lemma RenewalChanges(tokens: Tokens, call: Call, after: Tokens, id: Id)
    requires call.Refresh? && Enabled(tokens, call) && FindToken(tokens, call.presented) == Some(id) && Happens(tokens, call, Issued, after)
    ensures after.Keys == tokens.Keys + {call.minted.id}
    ensures IsFresh(after[call.minted.id], tokens[id].tenantId, tokens[id].userId, tokens[id].familyId, call.minted)
    ensures forall k :: k in tokens ==> after[k] == LeavesOf(tokens, id, call, Issued, k)
  {
  }

  lemma RevocationChanges(tokens: Tokens, call: Call, r: Outcome, after: Tokens, id: Id)
    requires (call.Refresh? && r == Refused(RefreshTokenReuse)) || (call.Logout? && r == LoggedOut)
    requires TokensInv(tokens) && FindToken(tokens, call.presented) == Some(id) && Happens(tokens, call, r, after)
    ensures after.Keys == tokens.Keys
    ensures forall k :: k in tokens ==> after[k] == LeavesOf(tokens, id, call, r, k)
  {
  }

  /** A refresh that is granted dates the old token's rotation and adds a fresh one for the same user and
      family; reuse and logout date the revocation of that family's tokens; nothing else changes anything. */
  lemma CallChanges(tokens: Tokens, call: Call, r: Outcome, after: Tokens, id: Id)
    requires TokensInv(tokens) && Enabled(tokens, call) && Happens(tokens, call, r, after) && r != Crashed
    requires !call.Login? && IsRowOf(tokens, call.presented, id)
    ensures after.Keys == tokens.Keys + if r == Issued then {call.minted.id} else {}
    ensures forall k :: k in tokens ==> after[k] == LeavesOf(tokens, id, call, r, k)
    ensures r == Issued ==> IsFresh(after[call.minted.id], tokens[id].tenantId, tokens[id].userId, tokens[id].familyId, call.minted)
  {
    FoundIsRowOf(tokens, call.presented);
    if r == Issued {
      RenewalChanges(tokens, call, after, id);
    } else if r in {Refused(RefreshTokenReuse), LoggedOut} {
      RevocationChanges(tokens, call, r, after, id);
    } else {
      assert after == tokens;
    }
  }

  /** And a call that presents no stored token changes nothing, crashed or not. */
  lemma UnknownChangesNothing(tokens: Tokens, call: Call, r: Outcome, after: Tokens)
    requires UniqueHashes(tokens) && !call.Login? && Happens(tokens, call, r, after)
    requires IsUnknown(tokens, call.presented)
    ensures after == tokens && (call.Logout? && r != Crashed ==> r == LoggedOut)
  {
    FoundIsRowOf(tokens, call.presented);
  }

  /** However a call ends, crashes included, it leaves the tokens of every other family alone. */
  lemma OtherFamiliesStay(tokens: Tokens, call: Call, r: Outcome, after: Tokens, k: Id)
    requires TokensInv(tokens) && Enabled(tokens, call) && Happens(tokens, call, r, after) && k in tokens
    requires !call.Login? ==> forall id :: IsRowOf(tokens, call.presented, id) ==> tokens[id].familyId != tokens[k].familyId
    ensures k in after && after[k] == tokens[k]
  {
    if !call.Login? { FoundIsRowOf(tokens, call.presented); }
  }

  /** A login that is answered adds one fresh token, of a family of its own, and changes nothing else. */
  lemma LoginAdds(tokens: Tokens, call: Call, r: Outcome, after: Tokens)
    requires call.Login? && Enabled(tokens, call) && Happens(tokens, call, r, after) && r != Crashed
    ensures r == Issued && call.minted.id in after && after == tokens[call.minted.id := after[call.minted.id]]
    ensures IsFresh(after[call.minted.id], call.tenantId, call.userId, call.familyId, call.minted)
  {
  }
}
