/** Refresh-token families: issue, rotation, reuse detection, revocation. */
module RefreshTokens {
  import opened Common

  datatype Token = Token(
    userId: int,
    hash: int,
    family: int,
    expiresAt: int,
    rotatedAt: Option<int>,
    revokedAt: Option<int>)
  {
    predicate Live() { rotatedAt.None? && revokedAt.None? }

    /** `COALESCE(revoked_at, CURRENT_TIMESTAMP(3))` */
    function Revoked(now: int): Token { this.(revokedAt := if revokedAt.Some? then revokedAt else Some(now)) }
  }

  /** The token table in insertion order, and the users whose `deleted_at` is set. */
  datatype Store = Store(tokens: seq<Token>, deleted: set<int>)

  const EMPTY_STORE := Store([], {})

  datatype Rotation = Invalid | Reuse | Expired | Rotated(userId: int) | DuplicateHash

  // ------------------------------------------------------------ statements

  /** The token with this hash, if its user is not deleted. */
  function Find(s: Store, hash: int): (i: Option<nat>)
    ensures i.Some? ==> i.value < |s.tokens| && s.tokens[i.value].hash == hash && s.tokens[i.value].userId !in s.deleted
  {
    FindFrom(s, hash, 0)
  }

  function FindFrom(s: Store, hash: int, k: nat): (i: Option<nat>)
    requires k <= |s.tokens|
    ensures i.Some? ==> i.value < |s.tokens| && s.tokens[i.value].hash == hash && s.tokens[i.value].userId !in s.deleted
    ensures i.None? ==>
              forall j | k <= j < |s.tokens| :: s.tokens[j].hash == hash ==> s.tokens[j].userId in s.deleted
    decreases |s.tokens| - k
  {
    if k == |s.tokens| then None
    else if s.tokens[k].hash == hash && s.tokens[k].userId !in s.deleted then Some(k)
    else FindFrom(s, hash, k + 1)
  }

  predicate HashTaken(s: Store, hash: int) { exists i :: 0 <= i < |s.tokens| && s.tokens[i].hash == hash }

  predicate FamilyUsed(s: Store, family: int) { exists i :: 0 <= i < |s.tokens| && s.tokens[i].family == family }

  /** Row `i` is the one a presented hash selects: it has the hash and its user is not deleted. */
  predicate Selects(s: Store, i: nat, hash: int) {
    i < |s.tokens| && s.tokens[i].hash == hash && s.tokens[i].userId !in s.deleted
  }

  /** The unique key on the hash. */
  predicate UniqueHashes(ts: seq<Token>) { forall i, j | 0 <= i < j < |ts| :: ts[i].hash != ts[j].hash }

  /** INSERT under the unique key on the hash; `None` is the duplicate-entry error. */
  function Insert(s: Store, userId: int, hash: int, family: int, expiresAt: int): Option<Store> {
    if HashTaken(s, hash) then None
    else Some(s.(tokens := s.tokens + [Token(userId, hash, family, expiresAt, None, None)]))
  }

  function RevokeFamily(tokens: seq<Token>, family: int, now: int): (out: seq<Token>)
    ensures |out| == |tokens|
  {
    seq(|tokens|, i requires 0 <= i < |tokens| =>
      if tokens[i].family == family then tokens[i].Revoked(now) else tokens[i])
  }

  function RevokeUser(tokens: seq<Token>, userId: int, now: int): (out: seq<Token>)
    ensures |out| == |tokens|
  {
    seq(|tokens|, i requires 0 <= i < |tokens| =>
      if tokens[i].userId == userId && tokens[i].revokedAt.None? then tokens[i].Revoked(now) else tokens[i])
  }

  // ------------------------------------------------------------ transactions

  /** `rotateRefreshToken`: `appNow` is the process's clock, `now` the database's. */
  function Rotate(s: Store, hash: int, nextHash: int, nextExpiresAt: int, appNow: int, now: int): (Store, Rotation) {
    var found := Find(s, hash);
    if found.None? then (s, Invalid)
    else
      var i, t := found.value, s.tokens[found.value];
      if !t.Live() then (s.(tokens := RevokeFamily(s.tokens, t.family, now)), Reuse)
      else if t.expiresAt <= appNow then (s.(tokens := s.tokens[i := t.(revokedAt := Some(now))]), Expired)
      else
        var rotated := s.(tokens := s.tokens[i := t.(rotatedAt := Some(now))]);
        var inserted := Insert(rotated, t.userId, nextHash, t.family, nextExpiresAt);
        if inserted.None? then (s, DuplicateHash) else (inserted.value, Rotated(t.userId))
  }

  /** What presenting the selected token `t` must answer. */
  function Verdict(t: Token, nextTaken: bool, appNow: int): Rotation {
    match (t.rotatedAt, t.revokedAt)
    case (None, None) =>
      if appNow >= t.expiresAt then Expired else if nextTaken then DuplicateHash else Rotated(t.userId)
    case _ => Reuse
  }

  /** The rows after presenting the hash of row `i`, spelled out for each answer. */
  ghost predicate Effect(ts: seq<Token>, i: nat, nextHash: int, nextExpiresAt: int, now: int, answer: Rotation,
                         ts': seq<Token>)
    requires i < |ts|
  {
    var t := ts[i];
    match answer
    case Reuse =>
      && |ts'| == |ts|
      && forall k | 0 <= k < |ts| ::
           ts'[k] == if ts[k].family != t.family || ts[k].revokedAt.Some? then ts[k]
                     else Token(ts[k].userId, ts[k].hash, ts[k].family, ts[k].expiresAt, ts[k].rotatedAt, Some(now))
    case Expired => ts' == ts[i := Token(t.userId, t.hash, t.family, t.expiresAt, None, Some(now))]
    case Rotated(_) =>
      ts' == ts[i := Token(t.userId, t.hash, t.family, t.expiresAt, Some(now), None)]
             + [Token(t.userId, nextHash, t.family, nextExpiresAt, None, None)]
    case _ => ts' == ts
  }

  datatype Action =
    | Issue(userId: int, hash: int, family: int, expiresAt: int)
    | Present(hash: int, nextHash: int, nextExpiresAt: int, appNow: int, now: int)
    | Logout(userId: int, now: int)
    | SetDeleted(userId: int, deleted: bool)

  /** A new family's id is a fresh UUID, so `Issue` with a used one does not occur. */
  function Apply(s: Store, a: Action): Store {
    match a
    case Issue(userId, hash, family, expiresAt) =>
      var inserted := if FamilyUsed(s, family) then None else Insert(s, userId, hash, family, expiresAt);
      if inserted.None? then s else inserted.value
    case Present(hash, nextHash, nextExpiresAt, appNow, now) => Rotate(s, hash, nextHash, nextExpiresAt, appNow, now).0
    case Logout(userId, now) => s.(tokens := RevokeUser(s.tokens, userId, now))
    case SetDeleted(userId, deleted) =>
      s.(deleted := if deleted then s.deleted + {userId} else s.deleted - {userId})
  }

  function Exec(s: Store, actions: seq<Action>): Store
    decreases |actions|
  {
    if actions == [] then s else Exec(Apply(s, actions[0]), actions[1..])
  }

  // ------------------------------------------------------------ invariant

  ghost predicate Inv(s: Store) {
    && (forall i, j | 0 <= i < j < |s.tokens| :: s.tokens[i].hash != s.tokens[j].hash)
    && (forall i, j | 0 <= i < j < |s.tokens| && s.tokens[i].family == s.tokens[j].family ::
          s.tokens[i].userId == s.tokens[j].userId && !s.tokens[i].Live())
  }

  /** Tokens may lose their life, nothing else. */
  predicate Wanes(ts: seq<Token>, ts': seq<Token>) {
    && |ts'| == |ts|
    && forall i | 0 <= i < |ts| ::
         && ts'[i].hash == ts[i].hash && ts'[i].userId == ts[i].userId && ts'[i].family == ts[i].family
         && (ts'[i].Live() ==> ts[i].Live())
  }

  lemma WaningKeeps(s: Store, ts': seq<Token>, deleted: set<int>)
    requires Inv(s) && Wanes(s.tokens, ts')
    ensures Inv(Store(ts', deleted))
  {
  }

  /** A new token may join a family of the same user without a live token. */
  lemma InsertKeeps(s: Store, userId: int, hash: int, family: int, expiresAt: int)
    requires Inv(s)
    requires forall i | 0 <= i < |s.tokens| && s.tokens[i].family == family ::
               s.tokens[i].userId == userId && !s.tokens[i].Live()
    ensures var s' := Insert(s, userId, hash, family, expiresAt); s'.Some? ==> Inv(s'.value)
  {
  }

  lemma KeepPresent(s: Store, a: Action)
    requires a.Present? && Inv(s) && Find(s, a.hash).Some?
    ensures Inv(Apply(s, a))
  {
    hide Inv;
    var i := Find(s, a.hash).value;
    var t := s.tokens[i];
    if !t.Live() {
      WaningKeeps(s, RevokeFamily(s.tokens, t.family, a.now), s.deleted);
    } else if t.expiresAt <= a.appNow {
      WaningKeeps(s, s.tokens[i := t.(revokedAt := Some(a.now))], s.deleted);
    } else {
      var rotated := s.(tokens := s.tokens[i := t.(rotatedAt := Some(a.now))]);
      WaningKeeps(s, rotated.tokens, s.deleted);
      RotatedIsSpent(s, i, a.now);
      InsertKeeps(rotated, t.userId, a.nextHash, t.family, a.nextExpiresAt);
    }
  }

  lemma RotatedIsSpent(s: Store, i: nat, now: int)
    requires Inv(s) && i < |s.tokens| && s.tokens[i].Live()
    ensures var ts := s.tokens[i := s.tokens[i].(rotatedAt := Some(now))];
            forall k | 0 <= k < |ts| && ts[k].family == s.tokens[i].family ::
              ts[k].userId == s.tokens[i].userId && !ts[k].Live()
  {
  }

  lemma KeepStep(s: Store, a: Action)
    requires Inv(s)
    ensures Inv(Apply(s, a))
  {
    hide Inv;
    match a
    case Issue(userId, hash, family, expiresAt) =>
      if !FamilyUsed(s, family) {
        InsertKeeps(s, userId, hash, family, expiresAt);
      }
    case Present(hash, _, _, _, _) =>
      if Find(s, hash).Some? {
        KeepPresent(s, a);
      }
    case Logout(userId, now) => WaningKeeps(s, RevokeUser(s.tokens, userId, now), s.deleted);
    case SetDeleted(_, _) => WaningKeeps(s, s.tokens, Apply(s, a).deleted);
  }

  lemma {:induction false} KeepRun(s: Store, actions: seq<Action>)
    requires Inv(s)
    ensures Inv(Exec(s, actions))
    decreases |actions|
  {
    if actions != [] {
      KeepStep(s, actions[0]);
      KeepRun(Apply(s, actions[0]), actions[1..]);
    }
  }

  /** Only the newest token of a family can be neither rotated nor revoked, so there is never more
      than one. */
  lemma OnlyNewestIsLive(actions: seq<Action>, i: nat, j: nat)
    requires var ts := Exec(EMPTY_STORE, actions).tokens;
             i < |ts| && j < |ts| && ts[i].family == ts[j].family && ts[i].Live()
    ensures j <= i
    ensures Exec(EMPTY_STORE, actions).tokens[j].Live() ==> i == j
  {
    KeepRun(EMPTY_STORE, actions);
  }

  // ------------------------------------------------------------ dead families stay dead

  predicate Dead(s: Store, family: int) {
    FamilyUsed(s, family) && forall i | 0 <= i < |s.tokens| :: s.tokens[i].family == family ==> !s.tokens[i].Live()
  }

  lemma DeadStep(s: Store, a: Action, family: int)
    requires Dead(s, family)
    ensures Dead(Apply(s, a), family)
  {
    var i :| 0 <= i < |s.tokens| && s.tokens[i].family == family;
    assert i < |Apply(s, a).tokens| && Apply(s, a).tokens[i].family == family;
  }

  /** A family without a live token never gets one again. */
  lemma {:induction false} DeadFamilyStaysDead(s: Store, actions: seq<Action>, family: int)
    requires Dead(s, family)
    ensures Dead(Exec(s, actions), family)
    decreases |actions|
  {
    if actions != [] {
      DeadStep(s, actions[0], family);
      DeadFamilyStaysDead(Apply(s, actions[0]), actions[1..], family);
    }
  }

  lemma RefusalKillsFamily(s: Store, p: Action, i: nat)
    requires p.Present? && Inv(s) && Find(s, p.hash) == Some(i)
    requires !s.tokens[i].Live() || s.tokens[i].expiresAt <= p.appNow
    ensures Dead(Apply(s, p), s.tokens[i].family)
  {
    assert Apply(s, p).tokens[i].family == s.tokens[i].family;
  }

  lemma FindsOwn(s: Store, i: nat)
    requires Inv(s) && i < |s.tokens| && s.tokens[i].userId !in s.deleted
    ensures Find(s, s.tokens[i].hash) == Some(i)
  {
    var found := Find(s, s.tokens[i].hash);
    assert found.Some?;
  }

  /** Presenting a token that was rotated or revoked before, or has expired, leaves its family without
      a live token in every continuation of the run. */
  lemma ReplayKillsFamily(before: seq<Action>, p: Action, after: seq<Action>, i: nat)
    requires p.Present?
    requires var s := Exec(EMPTY_STORE, before);
             i < |s.tokens| && s.tokens[i].hash == p.hash && s.tokens[i].userId !in s.deleted
             && (!s.tokens[i].Live() || s.tokens[i].expiresAt <= p.appNow)
    ensures var s := Exec(EMPTY_STORE, before);
            Dead(Exec(Apply(s, p), after), s.tokens[i].family)
  {
    var s := Exec(EMPTY_STORE, before);
    KeepRun(EMPTY_STORE, before);
    FindsOwn(s, i);
    RefusalKillsFamily(s, p, i);
    DeadFamilyStaysDead(Apply(s, p), after, s.tokens[i].family);
  }

  /** After a logout none of the user's families is live, in every continuation. */
  lemma LogoutKillsFamilies(before: seq<Action>, userId: int, now: int, after: seq<Action>, i: nat)
    requires var s := Exec(EMPTY_STORE, before); i < |s.tokens| && s.tokens[i].userId == userId
    ensures var s := Exec(EMPTY_STORE, before);
            Dead(Exec(Apply(s, Logout(userId, now)), after), s.tokens[i].family)
  {
    var s := Exec(EMPTY_STORE, before);
    KeepRun(EMPTY_STORE, before);
    var s' := Apply(s, Logout(userId, now));
    assert s'.tokens[i].family == s.tokens[i].family;
    forall j | 0 <= j < |s'.tokens| && s'.tokens[j].family == s.tokens[i].family ensures !s'.tokens[j].Live() {
      assert s.tokens[j].userId == userId;
    }
    DeadFamilyStaysDead(s', after, s.tokens[i].family);
  }

  // ------------------------------------------------------------ one rotation per token

  /** The action hands out a successor for `hash`. */
  predicate Succeeds(s: Store, a: Action, hash: int) {
    a.Present? && a.hash == hash && Rotate(s, a.hash, a.nextHash, a.nextExpiresAt, a.appNow, a.now).1.Rotated?
  }

  function Successes(s: Store, actions: seq<Action>, hash: int): nat
    decreases |actions|
  {
    if actions == [] then 0
    else (if Succeeds(s, actions[0], hash) then 1 else 0) + Successes(Apply(s, actions[0]), actions[1..], hash)
  }

  predicate Spent(s: Store, hash: int) {
    exists i :: 0 <= i < |s.tokens| && s.tokens[i].hash == hash && !s.tokens[i].Live()
  }

  lemma SpentStep(s: Store, a: Action, hash: int)
    requires Inv(s) && Spent(s, hash)
    ensures Spent(Apply(s, a), hash) && !Succeeds(s, a, hash)
  {
    var i :| 0 <= i < |s.tokens| && s.tokens[i].hash == hash && !s.tokens[i].Live();
    var s' := Apply(s, a);
    assert i < |s'.tokens| && s'.tokens[i].hash == hash && !s'.tokens[i].Live();
  }

  lemma SuccessSpends(s: Store, a: Action, hash: int)
    requires Succeeds(s, a, hash)
    ensures Spent(Apply(s, a), hash)
  {
    var i := Find(s, hash).value;
    assert Apply(s, a).tokens[i].hash == hash;
  }

  lemma {:induction false} SuccessesBound(s: Store, actions: seq<Action>, hash: int)
    requires Inv(s)
    ensures Successes(s, actions, hash) <= if Spent(s, hash) then 0 else 1
    decreases |actions|
  {
    if actions != [] {
      var a := actions[0];
      KeepStep(s, a);
      SuccessesBound(Apply(s, a), actions[1..], hash);
      if Spent(s, hash) {
        SpentStep(s, a, hash);
      } else if Succeeds(s, a, hash) {
        SuccessSpends(s, a, hash);
      }
    }
  }

  /** A successful exchange moves the family's life to the successor, which keeps user and family and has
      the new hash and expiry; no other family is touched. */
  lemma ExchangeMovesLife(before: seq<Action>, a: Action, i: nat)
    requires a.Present? && Succeeds(Exec(EMPTY_STORE, before), a, a.hash)
    requires Find(Exec(EMPTY_STORE, before), a.hash) == Some(i)
    ensures var ts := Exec(EMPTY_STORE, before).tokens; var ts' := Apply(Exec(EMPTY_STORE, before), a).tokens;
            && ts[i].Live() && ts[i].expiresAt > a.appNow
            && |ts'| == |ts| + 1
            && ts'[|ts|] == Token(ts[i].userId, a.nextHash, ts[i].family, a.nextExpiresAt, None, None)
            && (forall k | 0 <= k < |ts'| && ts'[k].family == ts[i].family :: ts'[k].Live() <==> k == |ts|)
            && (forall k | 0 <= k < |ts| && ts[k].family != ts[i].family :: ts'[k] == ts[k])
  {
    hide Exec;
    KeepRun(EMPTY_STORE, before);
    KeepStep(Exec(EMPTY_STORE, before), a);
  }

  /** What presenting a hash does in every reachable store. It is refused as invalid if and only if no token
      of an undeleted user has it; otherwise the selected token decides the answer and the rows. */
  lemma PresentOutcome(run: seq<Action>, hash: int, nextHash: int, nextExpiresAt: int, appNow: int, now: int)
    ensures var s := Exec(EMPTY_STORE, run); var r := Rotate(s, hash, nextHash, nextExpiresAt, appNow, now);
            && (r.1 == Invalid <==> forall i: nat :: !Selects(s, i, hash))
            && (r.1 == Invalid ==> r.0 == s)
            && forall i: nat | Selects(s, i, hash) ::
                 && r.1 == Verdict(s.tokens[i], exists t | t in s.tokens :: t.hash == nextHash, appNow)
                 && r.0.deleted == s.deleted
                 && Effect(s.tokens, i, nextHash, nextExpiresAt, now, r.1, r.0.tokens)
  {
    hide Exec, Effect;
    var s := Exec(EMPTY_STORE, run);
    KeepRun(EMPTY_STORE, run);
    RotateOutcome(s, hash, nextHash, nextExpiresAt, appNow, now);
  }

  /** A presented hash gets its successor if and only if a live, unexpired token of an undeleted user has it
      and the successor's hash is unused. */
  lemma SucceedsExactlyWhen(run: seq<Action>, a: Action)
    requires a.Present?
    ensures var s := Exec(EMPTY_STORE, run);
            Succeeds(s, a, a.hash) <==>
              && (exists i: nat :: Selects(s, i, a.hash) && s.tokens[i].rotatedAt.None?
                                   && s.tokens[i].revokedAt.None? && s.tokens[i].expiresAt > a.appNow)
              && forall t | t in s.tokens :: t.hash != a.nextHash
  {
    hide Exec, Effect;
    PresentOutcome(run, a.hash, a.nextHash, a.nextExpiresAt, a.appNow, a.now);
  }

  lemma TakenIsExists(s: Store, hash: int)
    ensures HashTaken(s, hash) <==> exists t | t in s.tokens :: t.hash == hash
  {
    if t :| t in s.tokens && t.hash == hash {
      var i :| 0 <= i < |s.tokens| && s.tokens[i] == t;
    }
  }

  lemma RotateOutcome(s: Store, hash: int, nextHash: int, nextExpiresAt: int, appNow: int, now: int)
    requires UniqueHashes(s.tokens)
    ensures var r := Rotate(s, hash, nextHash, nextExpiresAt, appNow, now);
            && (r.1 == Invalid <==> forall i: nat :: !Selects(s, i, hash))
            && (r.1 == Invalid ==> r.0 == s)
            && forall i: nat | Selects(s, i, hash) ::
                 && r.1 == Verdict(s.tokens[i], exists t | t in s.tokens :: t.hash == nextHash, appNow)
                 && r.0.deleted == s.deleted
                 && Effect(s.tokens, i, nextHash, nextExpiresAt, now, r.1, r.0.tokens)
  {
    var found := Find(s, hash);
    forall i: nat | Selects(s, i, hash) ensures found == Some(i) {
      assert found.Some?;
    }
    if found.Some? {
      var i := found.value;
      assert Selects(s, i, hash);
      var rotated := s.(tokens := s.tokens[i := s.tokens[i].(rotatedAt := Some(now))]);
      TakenIsExists(s, nextHash);
      SameHashes(s, rotated, nextHash);
    }
  }

  lemma SameHashes(s: Store, s': Store, hash: int)
    requires |s'.tokens| == |s.tokens|
    requires forall i | 0 <= i < |s.tokens| :: s'.tokens[i].hash == s.tokens[i].hash
    ensures HashTaken(s', hash) <==> HashTaken(s, hash)
  {
    if HashTaken(s, hash) {
      var i :| 0 <= i < |s.tokens| && s.tokens[i].hash == hash;
      assert s'.tokens[i].hash == hash;
    }
  }

  /** Issuing appends one live token if and only if neither its family nor its hash is used. */
  lemma IssueOutcome(s: Store, userId: int, hash: int, family: int, expiresAt: int)
    ensures Apply(s, Issue(userId, hash, family, expiresAt))
            == if exists t | t in s.tokens :: t.family == family || t.hash == hash then s
               else Store(s.tokens + [Token(userId, hash, family, expiresAt, None, None)], s.deleted)
  {
    TakenIsExists(s, hash);
    if t :| t in s.tokens && t.family == family {
      var i :| 0 <= i < |s.tokens| && s.tokens[i] == t;
      assert FamilyUsed(s, family);
    }
  }

  /** Deleting or restoring a user touches no token. */
  lemma SetDeletedOutcome(s: Store, userId: int, deleted: bool, other: int)
    ensures var s' := Apply(s, SetDeleted(userId, deleted));
            s'.tokens == s.tokens && (other in s'.deleted <==> if other == userId then deleted else other in s.deleted)
  {
  }

  /** A logout revokes the user's unrevoked tokens, and them only. */
  lemma LogoutOutcome(s: Store, userId: int, now: int)
    ensures var s' := Apply(s, Logout(userId, now));
            && s'.deleted == s.deleted && |s'.tokens| == |s.tokens|
            && forall k | 0 <= k < |s.tokens| :: var t := s.tokens[k];
                 s'.tokens[k] == if t.userId != userId || t.revokedAt.Some? then t
                                 else Token(t.userId, t.hash, t.family, t.expiresAt, t.rotatedAt, Some(now))
  {
  }

  /** In every run a token is exchanged for a successor at most once. */
  lemma RotatedAtMostOnce(actions: seq<Action>, hash: int)
    ensures Successes(EMPTY_STORE, actions, hash) <= 1
  {
    SuccessesBound(EMPTY_STORE, actions, hash);
  }

  /** The columns `refresh` checks before it rotates never change, so its earlier read stays valid
      whatever happens in between. */
  lemma {:induction false} CheckedColumnsNeverChange(s: Store, actions: seq<Action>, i: nat)
    requires i < |s.tokens|
    ensures var ts := Exec(s, actions).tokens;
            && i < |ts| && ts[i].hash == s.tokens[i].hash
            && ts[i].userId == s.tokens[i].userId && ts[i].family == s.tokens[i].family
    decreases |actions|
  {
    if actions != [] {
      CheckedColumnsNeverChange(Apply(s, actions[0]), actions[1..], i);
    }
  }

  // ------------------------------------------------------------ repository and service

  class AuthRepository {
    var store: Store

    constructor ()
      ensures store == EMPTY_STORE
    {
      store := EMPTY_STORE;
    }

    /** The result is false when the insert fails on a used hash. */
    method SaveRefreshToken(userId: int, tokenHash: int, expiresAt: int, familyId: int) returns (saved: bool)
      modifies this
      ensures saved <==> !HashTaken(old(store), tokenHash)
      ensures store == if saved then Insert(old(store), userId, tokenHash, familyId, expiresAt).value else old(store)
      ensures saved <==> forall t | t in old(store.tokens) :: t.hash != tokenHash
      ensures saved ==>
                store == Store(old(store.tokens) + [Token(userId, tokenHash, familyId, expiresAt, None, None)],
                               old(store.deleted))
    {
      TakenIsExists(store, tokenHash);
      var inserted := Insert(store, userId, tokenHash, familyId, expiresAt);
      saved := inserted.Some?;
      if saved {
        store := inserted.value;
      }
    }

    method FindRefreshToken(tokenHash: int) returns (token: Option<Token>)
      ensures token.Some? ==>
                token.value in store.tokens && token.value.hash == tokenHash && token.value.userId !in store.deleted
      ensures token.None? ==> forall t | t in store.tokens && t.hash == tokenHash :: t.userId in store.deleted
      ensures token == var i := Find(store, tokenHash); if i.None? then None else Some(store.tokens[i.value])
    {
      var i := Find(store, tokenHash);
      token := if i.None? then None else Some(store.tokens[i.value]);
    }

    method RotateRefreshToken(tokenHash: int, nextTokenHash: int, nextExpiresAt: int, appNow: int, now: int)
      returns (result: Rotation)
      modifies this
      ensures (store, result) == Rotate(old(store), tokenHash, nextTokenHash, nextExpiresAt, appNow, now)
      ensures UniqueHashes(old(store.tokens)) ==>
                && (result == Invalid <==> forall i: nat :: !Selects(old(store), i, tokenHash))
                && (result == Invalid ==> store == old(store))
                && forall i: nat | Selects(old(store), i, tokenHash) ::
                     && result == Verdict(old(store.tokens)[i],
                                          exists t | t in old(store.tokens) :: t.hash == nextTokenHash, appNow)
                     && store.deleted == old(store.deleted)
                     && Effect(old(store.tokens), i, nextTokenHash, nextExpiresAt, now, result, store.tokens)
    {
      hide Verdict, Effect, Selects;
      if UniqueHashes(store.tokens) {
        RotateOutcome(store, tokenHash, nextTokenHash, nextExpiresAt, appNow, now);
      }
      var found := Find(store, tokenHash);
      if found.None? {
        return Invalid;
      }
      var before, row := store, store.tokens[found.value];
      if row.revokedAt.Some? || row.rotatedAt.Some? {
        store := store.(tokens := RevokeFamily(store.tokens, row.family, now));
        return Reuse;
      }
      if row.expiresAt <= appNow {
        store := store.(tokens := store.tokens[found.value := row.(revokedAt := Some(now))]);
        return Expired;
      }
      store := store.(tokens := store.tokens[found.value := row.(rotatedAt := Some(now))]);
      var inserted := Insert(store, row.userId, nextTokenHash, row.family, nextExpiresAt);
      if inserted.None? {
        store := before;
        return DuplicateHash;
      }
      store := inserted.value;
      return Rotated(row.userId);
    }

    method RevokeAllRefreshTokens(userId: int, now: int)
      modifies this
      ensures store == Apply(old(store), Logout(userId, now))
      ensures store.deleted == old(store.deleted) && |store.tokens| == |old(store.tokens)|
      ensures forall k | 0 <= k < |store.tokens| :: var t := old(store.tokens)[k];
                store.tokens[k] == if t.userId != userId || t.revokedAt.Some? then t
                                   else Token(t.userId, t.hash, t.family, t.expiresAt, t.rotatedAt, Some(now))
    {
      store := store.(tokens := RevokeUser(store.tokens, userId, now));
    }
  }

  /** A refresh token whose signature, type and lifetime have been verified. */
  datatype Presented = Presented(hash: int, sub: int, familyId: Option<int>)

  datatype Refreshed = Tokens(hash: int) | Unauthorized | Failed

  /** The checks `refresh` makes on the row it finds. */
  predicate Accepts(s: Store, p: Presented) {
    var i := Find(s, p.hash);
    && i.Some?
    && s.tokens[i.value].userId == p.sub
    && (p.familyId.Some? ==> p.familyId.value == s.tokens[i.value].family)
  }

  /** Row `i` is selected by the hash and belongs to the user and family the signed token names. */
  predicate Matches(s: Store, i: nat, p: Presented) {
    && Selects(s, i, p.hash)
    && s.tokens[i].userId == p.sub
    && (p.familyId == None || p.familyId == Some(s.tokens[i].family))
  }

  lemma AcceptsExactlyWhen(s: Store, p: Presented)
    requires UniqueHashes(s.tokens)
    ensures Accepts(s, p) <==> exists i: nat :: Matches(s, i, p)
  {
    var found := Find(s, p.hash);
    forall i: nat | Selects(s, i, p.hash) ensures found == Some(i) {
      assert found.Some?;
    }
    if Accepts(s, p) {
      assert Matches(s, found.value, p);
    }
  }

  class AuthService {
    const repository: AuthRepository

    constructor (repository: AuthRepository)
      ensures this.repository == repository
    {
      this.repository := repository;
    }

    /** `verified` is absent when the token fails verification. */
    method Refresh(verified: Option<Presented>, nextHash: int, nextExpiresAt: int, appNow: int, now: int)
      returns (r: Refreshed)
      modifies repository
      ensures verified.None? || !Accepts(old(repository.store), verified.value) ==>
                r == Unauthorized && repository.store == old(repository.store)
      ensures verified.Some? && Accepts(old(repository.store), verified.value) ==>
                var a := Present(verified.value.hash, nextHash, nextExpiresAt, appNow, now);
                && repository.store == Apply(old(repository.store), a)
                && (r == Tokens(nextHash) <==> Succeeds(old(repository.store), a, a.hash))
                && (r.Tokens? ==> r == Tokens(nextHash))
      ensures var s := old(repository.store); UniqueHashes(s.tokens) ==>
                r == if verified.Some?
                        && (exists i: nat :: Matches(s, i, verified.value) && s.tokens[i].rotatedAt.None?
                                             && s.tokens[i].revokedAt.None? && s.tokens[i].expiresAt > appNow)
                     then if exists t | t in s.tokens :: t.hash == nextHash then Failed else Tokens(nextHash)
                     else Unauthorized
    {
      hide Effect;
      ghost var s := repository.store;
      if verified.Some? && UniqueHashes(s.tokens) {
        AcceptsExactlyWhen(s, verified.value);
        RotateOutcome(s, verified.value.hash, nextHash, nextExpiresAt, appNow, now);
      }
      if verified.None? {
        return Unauthorized;
      }
      var payload := verified.value;
      var current := repository.FindRefreshToken(payload.hash);
      if current.None? || current.value.userId != payload.sub {
        return Unauthorized;
      }
      if payload.familyId.Some? && payload.familyId.value != current.value.family {
        return Unauthorized;
      }
      var result := repository.RotateRefreshToken(payload.hash, nextHash, nextExpiresAt, appNow, now);
      if result == DuplicateHash {
        return Failed;
      }
      if !result.Rotated? {
        return Unauthorized;
      }
      return Tokens(nextHash);
    }

    /** Login and registration: `familyId` is a fresh UUID. */
    method IssueTokens(userId: int, hash: int, familyId: int, expiresAt: int) returns (r: Refreshed)
      requires !FamilyUsed(repository.store, familyId)
      modifies repository
      ensures repository.store == Apply(old(repository.store), Issue(userId, hash, familyId, expiresAt))
      ensures r == if HashTaken(old(repository.store), hash) then Failed else Tokens(hash)
    {
      var saved := repository.SaveRefreshToken(userId, hash, expiresAt, familyId);
      return if saved then Tokens(hash) else Failed;
    }

    method Logout(userId: int, now: int)
      modifies repository
      ensures repository.store == Apply(old(repository.store), Action.Logout(userId, now))
    {
      repository.RevokeAllRefreshTokens(userId, now);
    }
  }
}
