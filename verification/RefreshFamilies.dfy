/** Refresh tokens: rotation, reuse detection and logout, call by call, with a crash after any write. A
    family is the chain of tokens one login started.
 */
module RefreshFamilies {
  import opened Kernel

  /** Only the hash of a token is stored; hashing is taken to be injective. */
  datatype TokenRow = TokenRow(
    tenantId: Id,
    userId: Id,
    familyId: Id,
    tokenHash: Id,
    expiresAt: Time,
    rotatedAt: Option<Time>,
    revokedAt: Option<Time>,
    createdAt: Time)
  {
    predicate IsExpired(now: Time) {
      now >= expiresAt
    }

    /** Rotated or revoked: presenting it again is reuse. */
    predicate IsSpent() {
      rotatedAt.Some? || revokedAt.Some?
    }
  }

  type Tokens = map<Id, TokenRow>

  /** What a client presents: a text the token service does not recognise, or a token it has signed. */
  datatype Presented = Forged | Signed(tenantId: Id, tokenHash: Id)

  /** What the token service and the clock supply to a new token. */
  datatype Minted = Minted(id: Id, tokenHash: Id, expiresAt: Time, createdAt: Time)

  datatype IamError = RefreshTokenInvalid | RefreshTokenReuse | InvalidCredentials

  datatype Outcome = Issued | Refused(error: IamError) | LoggedOut | Crashed

  predicate IsStored(tokens: Tokens, tenantId: Id, tokenHash: Id, id: Id) {
    id in tokens && tokens[id].tenantId == tenantId && tokens[id].tokenHash == tokenHash
  }

  ghost predicate UniqueHashes(tokens: Tokens) {
    forall x, y :: x in tokens && y in tokens && tokens[x].tokenHash == tokens[y].tokenHash ==> x == y
  }

  // ------------------------------------------------------------- the writes

  function FreshToken(tenantId: Id, userId: Id, familyId: Id, m: Minted): TokenRow {
    TokenRow(tenantId, userId, familyId, m.tokenHash, m.expiresAt, None, None, m.createdAt)
  }

  /** `updateMany` where the token is this one and not rotated yet. */
  function Rotated(tokens: Tokens, tenantId: Id, id: Id, at: Time): Tokens {
    map k | k in tokens :: if k == id && tokens[k].tenantId == tenantId && tokens[k].rotatedAt.None? then tokens[k].(rotatedAt := Some(at)) else tokens[k]
  }

  /** `updateMany` where the family is this one and the token not revoked yet. */
  function Revoked(tokens: Tokens, tenantId: Id, familyId: Id, at: Time): Tokens {
    map k | k in tokens :: if InFamily(tokens[k], tenantId, familyId) && tokens[k].revokedAt.None? then tokens[k].(revokedAt := Some(at)) else tokens[k]
  }

  predicate InFamily(row: TokenRow, tenantId: Id, familyId: Id) {
    row.tenantId == tenantId && row.familyId == familyId
  }

  // ---------------------------------------------------------------- one call

  datatype Call =
    | Login(tenantId: Id, userId: Id, familyId: Id, minted: Minted)
    | Refresh(presented: Presented, now: Time, isMember: bool, minted: Minted)
    | Logout(presented: Presented, now: Time)

  /** Ids, hashes and family ids that are generated are new. */
  predicate FreshMint(tokens: Tokens, m: Minted) {
    m.id !in tokens && forall k :: k in tokens ==> tokens[k].tokenHash != m.tokenHash
  }

  predicate Enabled(tokens: Tokens, call: Call) {
    match call
    case Login(_, _, familyId, minted) => FreshMint(tokens, minted) && forall k :: k in tokens ==> tokens[k].familyId != familyId
    case Refresh(_, _, _, minted) => FreshMint(tokens, minted)
    case Logout(_, _) => true
  }

  /** How a refresh can end, given the token found: the answer, and what was written before it or, if it
      crashed, by then. */
  ghost predicate Refreshes(tokens: Tokens, id: Id, call: Call, r: Outcome, after: Tokens)
    requires call.Refresh? && id in tokens
  {
    var row := tokens[id];
    var revoked := Revoked(tokens, row.tenantId, row.familyId, call.now);
    var rotated := Rotated(tokens, row.tenantId, id, call.now);
    var renewed := rotated[call.minted.id := FreshToken(row.tenantId, row.userId, row.familyId, call.minted)];
    if row.IsSpent() then (r == Refused(RefreshTokenReuse) && after == revoked) || (r == Crashed && after in {tokens, revoked})
    else if row.IsExpired(call.now) then r in {Refused(RefreshTokenInvalid), Crashed} && after == tokens
    else if !call.isMember then r in {Refused(InvalidCredentials), Crashed} && after == tokens
    else (r == Issued && after == renewed) || (r == Crashed && after in {tokens, rotated, renewed})
  }

  ghost predicate Happens(tokens: Tokens, call: Call, r: Outcome, after: Tokens) {
    match call
    case Login(tenantId, userId, familyId, minted) =>
      var opening := tokens[minted.id := FreshToken(tenantId, userId, familyId, minted)];
      (r == Issued && after == opening) || (r == Crashed && after in {tokens, opening})
    case Refresh(presented, _, _, _) =>
      match FindToken(tokens, presented)
      {
      case None => r in {Refused(RefreshTokenInvalid), Crashed} && after == tokens
      case Some(id) => Refreshes(tokens, id, call, r, after)
      }
    case Logout(presented, now) =>
      match FindToken(tokens, presented)
      {
      case None => r in {LoggedOut, Crashed} && after == tokens
      case Some(id) =>
        var revoked := Revoked(tokens, tokens[id].tenantId, tokens[id].familyId, now);
        (r == LoggedOut && after == revoked) || (r == Crashed && after in {tokens, revoked})
      }
  }

  /** `findByHash`: hashes are unique, so there is no choice. */
  ghost function FindToken(tokens: Tokens, presented: Presented): (found: Option<Id>)
    ensures found.Some? ==> presented.Signed? && IsStored(tokens, presented.tenantId, presented.tokenHash, found.value)
    ensures found.None? && presented.Signed? ==> forall id :: !IsStored(tokens, presented.tenantId, presented.tokenHash, id)
  {
    if presented.Signed? && exists id :: IsStored(tokens, presented.tenantId, presented.tokenHash, id)
    then
      var id :| IsStored(tokens, presented.tenantId, presented.tokenHash, id);
      Some(id)
    else None
  }

  // --------------------------------------------------------------- invariant

  /** At most one token of a family can still be used. */
  ghost predicate OneUnspent(tokens: Tokens) {
    forall x, y :: x in tokens && y in tokens && tokens[x].familyId == tokens[y].familyId && !tokens[x].IsSpent() && !tokens[y].IsSpent() ==> x == y
  }

  /** A family never leaves the tenant it was opened in. */
  ghost predicate FamiliesStay(tokens: Tokens) {
    forall x, y :: x in tokens && y in tokens && tokens[x].familyId == tokens[y].familyId ==> tokens[x].tenantId == tokens[y].tenantId
  }

  ghost predicate TokensInv(tokens: Tokens) {
    UniqueHashes(tokens) && OneUnspent(tokens) && FamiliesStay(tokens)
  }

  /** The family exists and nothing in it can be used. */
  ghost predicate IsDead(tokens: Tokens, familyId: Id) {
    && (exists k :: k in tokens && tokens[k].familyId == familyId)
    && forall k :: k in tokens && tokens[k].familyId == familyId ==> tokens[k].IsSpent()
  }

  lemma RevokedKeeps(tokens: Tokens, tenantId: Id, familyId: Id, at: Time)
    requires TokensInv(tokens)
    ensures TokensInv(Revoked(tokens, tenantId, familyId, at))
  {
  }

  lemma RotatedKeeps(tokens: Tokens, tenantId: Id, id: Id, at: Time)
    requires TokensInv(tokens) && id in tokens && tokens[id].tenantId == tenantId && !tokens[id].IsSpent()
    ensures var after := Rotated(tokens, tenantId, id, at);
            && TokensInv(after)
            && after.Keys == tokens.Keys
            && after == tokens[id := tokens[id].(rotatedAt := Some(at))]
            && IsDead(after, tokens[id].familyId)
  {
  }

  lemma NewTokenKeeps(tokens: Tokens, tenantId: Id, userId: Id, familyId: Id, m: Minted)
    requires TokensInv(tokens) && FreshMint(tokens, m)
    requires forall k :: k in tokens && tokens[k].familyId == familyId ==> tokens[k].IsSpent() && tokens[k].tenantId == tenantId
    ensures TokensInv(tokens[m.id := FreshToken(tenantId, userId, familyId, m)])
  {
  }

  lemma RotationKeeps(tokens: Tokens, id: Id, call: Call)
    requires TokensInv(tokens) && call.Refresh? && Enabled(tokens, call) && id in tokens && !tokens[id].IsSpent()
    ensures var row := tokens[id];
            var rotated := Rotated(tokens, row.tenantId, id, call.now);
            TokensInv(rotated) && TokensInv(rotated[call.minted.id := FreshToken(row.tenantId, row.userId, row.familyId, call.minted)])
  {
    var row := tokens[id];
    RotatedKeeps(tokens, row.tenantId, id, call.now);
    NewTokenKeeps(Rotated(tokens, row.tenantId, id, call.now), row.tenantId, row.userId, row.familyId, call.minted);
  }

  /** However a call ends, in full or cut short by a crash, no family has two usable tokens. */
  lemma CallKeeps(tokens: Tokens, call: Call, r: Outcome, after: Tokens)
    requires TokensInv(tokens) && Enabled(tokens, call) && Happens(tokens, call, r, after)
    ensures TokensInv(after)
  {
    match call
    case Login(tenantId, userId, familyId, minted) =>
      NewTokenKeeps(tokens, tenantId, userId, familyId, minted);
    case Refresh(presented, now, isMember, minted) =>
      var found := FindToken(tokens, presented);
      if found.Some? {
        var row := tokens[found.value];
        RevokedKeeps(tokens, row.tenantId, row.familyId, now);
        if !row.IsSpent() { RotationKeeps(tokens, found.value, call); }
      }
    case Logout(presented, now) =>
      var found := FindToken(tokens, presented);
      if found.Some? { RevokedKeeps(tokens, tokens[found.value].tenantId, tokens[found.value].familyId, now); }
  }

  // -------------------------------------------------------------------- runs

  /** One call of a run: what was asked, how it ended and what it left. */
  datatype Moment = Moment(call: Call, outcome: Outcome, after: Tokens)

  ghost function TokensAfter(run: seq<Moment>): Tokens {
    if |run| == 0 then map[] else run[|run| - 1].after
  }

  ghost predicate IsRun(run: seq<Moment>) {
    |run| > 0 ==>
      var init, last := run[..|run| - 1], run[|run| - 1];
      IsRun(init) && Enabled(TokensAfter(init), last.call) && Happens(TokensAfter(init), last.call, last.outcome, last.after)
  }

  lemma {:induction false} RunKeeps(run: seq<Moment>)
    requires IsRun(run)
    ensures TokensInv(TokensAfter(run))
  {
    if |run| > 0 {
      var init, last := run[..|run| - 1], run[|run| - 1];
      RunKeeps(init);
      CallKeeps(TokensAfter(init), last.call, last.outcome, last.after);
    }
  }

  /** The family a call is about, if it presents a stored token. */
  ghost function FamilyOf(tokens: Tokens, presented: Presented): Option<Id> {
    match FindToken(tokens, presented)
    case None => None
    case Some(id) => Some(tokens[id].familyId)
  }

  /** A reuse that was answered as such, and a logout that was answered, leave the family dead. */
  lemma ReuseAndLogoutKill(tokens: Tokens, call: Call, r: Outcome, after: Tokens, familyId: Id)
    requires TokensInv(tokens) && Happens(tokens, call, r, after)
    requires (call.Refresh? && r == Refused(RefreshTokenReuse)) || (call.Logout? && r == LoggedOut)
    requires FamilyOf(tokens, call.presented) == Some(familyId)
    ensures IsDead(after, familyId)
  {
    var id := FindToken(tokens, call.presented).value;
    assert id in after && after[id].familyId == familyId;
  }

  /** Tokens stay what they are, in their tenant and family, and once spent for good. */
  predicate Grown(tokens: Tokens, after: Tokens) {
    forall k :: k in tokens ==> k in after && SameToken(tokens[k], after[k])
  }

  predicate SameToken(before: TokenRow, after: TokenRow) {
    && after.tenantId == before.tenantId
    && after.familyId == before.familyId
    && after.tokenHash == before.tokenHash
    && (before.IsSpent() ==> after.IsSpent())
  }

  /** The one token a call may add belongs to a family that is new, or to that of the usable token it
      was given. */
  ghost predicate AddsTo(tokens: Tokens, call: Call, familyId: Id) {
    match call
    case Login(_, _, opening, _) => opening == familyId
    case Refresh(presented, _, _, _) => FamilyOf(tokens, presented) == Some(familyId) && !tokens[FindToken(tokens, presented).value].IsSpent()
    case Logout(_, _) => false
  }

  lemma CallGrows(tokens: Tokens, call: Call, r: Outcome, after: Tokens)
    requires Enabled(tokens, call) && Happens(tokens, call, r, after)
    ensures Grown(tokens, after)
    ensures after.Keys == tokens.Keys || (!call.Logout? && after.Keys == tokens.Keys + {call.minted.id} && AddsTo(tokens, call, after[call.minted.id].familyId))
    ensures r == Issued ==> after.Keys != tokens.Keys
    ensures r != Issued && r != Crashed ==> after.Keys == tokens.Keys
  {
    if !call.Login? && FindToken(tokens, call.presented).Some? {
      var row := tokens[FindToken(tokens, call.presented).value];
      assert Revoked(tokens, row.tenantId, row.familyId, call.now).Keys == tokens.Keys;
      assert Rotated(tokens, row.tenantId, FindToken(tokens, call.presented).value, call.now).Keys == tokens.Keys;
    }
  }

  lemma DeadStaysDead(tokens: Tokens, call: Call, r: Outcome, after: Tokens, familyId: Id)
    requires Enabled(tokens, call) && Happens(tokens, call, r, after) && IsDead(tokens, familyId)
    ensures IsDead(after, familyId)
    ensures call.Refresh? && FamilyOf(tokens, call.presented) == Some(familyId) ==> r != Issued
  {
    CallGrows(tokens, call, r, after);
    var k :| k in tokens && tokens[k].familyId == familyId;
    assert k in after && after[k].familyId == familyId;
    forall x | x in after && after[x].familyId == familyId ensures x in tokens && after[x].IsSpent() {
      assert !AddsTo(tokens, call, familyId);
    }
  }

  lemma {:induction false} DeadFrom(run: seq<Moment>, i: nat, familyId: Id)
    requires IsRun(run) && i <= |run| && IsDead(TokensAfter(run[..i]), familyId)
    ensures IsDead(TokensAfter(run), familyId)
  {
    if i < |run| {
      var init, last := run[..|run| - 1], run[|run| - 1];
      assert init[..i] == run[..i];
      DeadFrom(init, i, familyId);
      RunKeeps(init);
      DeadStaysDead(TokensAfter(init), last.call, last.outcome, last.after, familyId);
    } else {
      assert run[..i] == run;
    }
  }

  /** Once a reuse or a logout has revoked a family, no refresh with a token of that family ever succeeds
      again, over any run, crashes included. */
  lemma RevokedFamilyNeverRefreshes(run: seq<Moment>, i: nat, familyId: Id)
    requires IsRun(run) && i < |run| - 1
    requires var moment := run[i];
             ((moment.call.Refresh? && moment.outcome == Refused(RefreshTokenReuse)) || (moment.call.Logout? && moment.outcome == LoggedOut))
             && FamilyOf(TokensAfter(run[..i]), moment.call.presented) == Some(familyId)
    ensures var last := run[|run| - 1];
            last.call.Refresh? && FamilyOf(TokensAfter(run[..|run| - 1]), last.call.presented) == Some(familyId) ==> last.outcome != Issued
  {
    var init, last := run[..|run| - 1], run[|run| - 1];
    MomentHappens(run, i);
    RunKeeps(run[..i]);
    ReuseAndLogoutKill(TokensAfter(run[..i]), run[i].call, run[i].outcome, run[i].after, familyId);
    assert init[..i + 1] == run[..i + 1] && run[..i + 1][i] == run[i];
    DeadFrom(init, i + 1, familyId);
    DeadStaysDead(TokensAfter(init), last.call, last.outcome, last.after, familyId);
  }

  /** Every moment of a run happens in the state the moments before it left. */
  lemma MomentHappens(run: seq<Moment>, i: nat)
    requires IsRun(run) && i < |run|
    ensures IsRun(run[..i]) && Enabled(TokensAfter(run[..i]), run[i].call) && Happens(TokensAfter(run[..i]), run[i].call, run[i].outcome, run[i].after)
  {
    PrefixIsRun(run, i + 1);
    assert run[..i + 1][..i] == run[..i] && run[..i + 1][i] == run[i];
  }

  lemma {:induction false} PrefixIsRun(run: seq<Moment>, i: nat)
    requires IsRun(run) && i <= |run|
    ensures IsRun(run[..i])
  {
    if i < |run| {
      PrefixIsRun(run[..|run| - 1], i);
      assert run[..|run| - 1][..i] == run[..i];
    } else {
      assert run[..i] == run;
    }
  }

  lemma {:induction false} GrownFrom(run: seq<Moment>, i: nat)
    requires IsRun(run) && i <= |run|
    ensures Grown(TokensAfter(run[..i]), TokensAfter(run))
  {
    if i < |run| {
      var init, last := run[..|run| - 1], run[|run| - 1];
      assert init[..i] == run[..i];
      GrownFrom(init, i);
      CallGrows(TokensAfter(init), last.call, last.outcome, last.after);
    } else {
      assert run[..i] == run;
    }
  }

  /** A refresh that succeeded spends the token it was given and issues one of the same family. */
  lemma IssuedSpends(tokens: Tokens, call: Call, after: Tokens) returns (id: Id)
    requires TokensInv(tokens) && Enabled(tokens, call) && call.Refresh? && Happens(tokens, call, Issued, after)
    ensures FindToken(tokens, call.presented) == Some(id) && id in after && after[id].IsSpent()
    ensures IsStored(after, call.presented.tenantId, call.presented.tokenHash, id) && after[id].familyId == tokens[id].familyId
    ensures call.minted.id in after && after[call.minted.id].familyId == tokens[id].familyId
  {
    id := FindToken(tokens, call.presented).value;
    RotatedKeeps(tokens, tokens[id].tenantId, id, call.now);
  }

  /** Hashes are unique, so a stored token is the one that is found. */
  lemma FoundAgain(tokens: Tokens, presented: Presented, id: Id)
    requires UniqueHashes(tokens) && presented.Signed? && IsStored(tokens, presented.tenantId, presented.tokenHash, id)
    ensures FindToken(tokens, presented) == Some(id)
  {
  }

  /** Presenting a token again after it was refreshed, however much later and whatever happened in between, is
      taken for theft: it is refused and the whole family dies with it, the token it was exchanged for included. */
  lemma ReplayIsReuse(run: seq<Moment>, i: nat) returns (familyId: Id)
    requires IsRun(run) && i < |run| - 1 && run[i].call.Refresh? && run[i].outcome == Issued
    requires var last := run[|run| - 1];
             last.call.Refresh? && last.call.presented == run[i].call.presented && last.outcome != Crashed
    ensures FamilyOf(TokensAfter(run[..i]), run[i].call.presented) == Some(familyId)
    ensures run[i].call.minted.id in run[i].after && run[i].after[run[i].call.minted.id].familyId == familyId
    ensures run[|run| - 1].outcome == Refused(RefreshTokenReuse)
    ensures IsDead(TokensAfter(run), familyId)
  {
    var init, last := run[..|run| - 1], run[|run| - 1];
    MomentHappens(run, i);
    RunKeeps(run[..i]);
    var id := IssuedSpends(TokensAfter(run[..i]), run[i].call, run[i].after);
    familyId := TokensAfter(run[..i])[id].familyId;
    assert init[..i + 1] == run[..i + 1] && run[..i + 1][i] == run[i];
    GrownFrom(init, i + 1);
    RunKeeps(init);
    var tokens := TokensAfter(init);
    assert SameToken(run[i].after[id], tokens[id]);
    FoundAgain(tokens, last.call.presented, id);
    ReuseAndLogoutKill(tokens, last.call, last.outcome, last.after, familyId);
  }

  // ------------------------------------------------------------------ counts

  ghost function TokensOf(tokens: Tokens, familyId: Id): set<Id> {
    set k | k in tokens && tokens[k].familyId == familyId
  }

  ghost predicate IsIn(tokens: Tokens, call: Call, familyId: Id) {
    match call
    case Login(_, _, opening, _) => opening == familyId
    case Refresh(presented, _, _, _) => FamilyOf(tokens, presented) == Some(familyId)
    case Logout(_, _) => false
  }

  /** Refreshes that succeeded in the family. */
  ghost function RefreshesIn(run: seq<Moment>, familyId: Id): nat {
    if |run| == 0 then 0
    else
      var init, last := run[..|run| - 1], run[|run| - 1];
      RefreshesIn(init, familyId) + if last.call.Refresh? && last.outcome == Issued && IsIn(TokensAfter(init), last.call, familyId) then 1 else 0
  }

  predicate Uninterrupted(run: seq<Moment>) {
    forall i :: 0 <= i < |run| ==> run[i].outcome != Crashed
  }

  lemma SameTokens(tokens: Tokens, after: Tokens, familyId: Id)
    requires Grown(tokens, after) && after.Keys == tokens.Keys
    ensures TokensOf(after, familyId) == TokensOf(tokens, familyId)
  {
    forall k ensures k in TokensOf(after, familyId) <==> k in TokensOf(tokens, familyId) {}
  }

  lemma OneMoreToken(tokens: Tokens, after: Tokens, id: Id, familyId: Id)
    requires Grown(tokens, after) && id !in tokens && after.Keys == tokens.Keys + {id}
    ensures |TokensOf(after, familyId)| == |TokensOf(tokens, familyId)| + if after[id].familyId == familyId then 1 else 0
  {
    var mine := if after[id].familyId == familyId then {id} else {};
    forall k ensures k in TokensOf(after, familyId) <==> k in TokensOf(tokens, familyId) + mine {
      if k in after { assert k == id || k in tokens; }
    }
    assert TokensOf(after, familyId) == TokensOf(tokens, familyId) + mine;
  }

  lemma CallCounts(tokens: Tokens, call: Call, r: Outcome, after: Tokens, familyId: Id)
    requires Enabled(tokens, call) && Happens(tokens, call, r, after) && r != Crashed
    ensures |TokensOf(after, familyId)| == |TokensOf(tokens, familyId)| + if r == Issued && IsIn(tokens, call, familyId) then 1 else 0
  {
    CallGrows(tokens, call, r, after);
    if r == Issued {
      OneMoreToken(tokens, after, call.minted.id, familyId);
      assert AddsTo(tokens, call, after[call.minted.id].familyId);
    } else {
      SameTokens(tokens, after, familyId);
    }
  }

  /** Without crashes, a family has one token for the login that opened it and one for each refresh that
      succeeded in it; a family nobody opened has neither. */
  lemma {:induction false} OneTokenPerIssue(run: seq<Moment>, familyId: Id)
    requires IsRun(run) && Uninterrupted(run)
    ensures |TokensOf(TokensAfter(run), familyId)| == RefreshesIn(run, familyId) + if TokensOf(TokensAfter(run), familyId) == {} then 0 else 1
  {
    if |run| > 0 {
      var init, last := run[..|run| - 1], run[|run| - 1];
      forall i | 0 <= i < |init| ensures init[i].outcome != Crashed { assert init[i] == run[i]; }
      OneTokenPerIssue(init, familyId);
      var before := TokensAfter(init);
      CallCounts(before, last.call, last.outcome, last.after, familyId);
      if last.outcome == Issued && IsIn(before, last.call, familyId) {
        if last.call.Login? {
          assert TokensOf(before, familyId) == {};
        } else {
          assert FindToken(before, last.call.presented).value in TokensOf(before, familyId);
        }
      }
    }
  }

  /** Over any run, crashes included, no family has two tokens that can still be used. */
  lemma AtMostOneUsable(run: seq<Moment>, familyId: Id)
    requires IsRun(run)
    ensures |set k | k in TokensOf(TokensAfter(run), familyId) && !TokensAfter(run)[k].IsSpent()| <= 1
  {
    RunKeeps(run);
    var usable := set k | k in TokensOf(TokensAfter(run), familyId) && !TokensAfter(run)[k].IsSpent();
    if usable != {} {
      var k :| k in usable;
      assert usable == {k};
    }
  }
}
