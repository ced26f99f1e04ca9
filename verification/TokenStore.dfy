/** Refresh tokens (cache/redis.py, auth_service.py): a token entry per id with an expiry, and an
    index of token ids per user that revoke-all follows. Service operations are atomic here. */
module TokenStore {
  import opened Wrappers

  type Jti = nat
  type User = nat

  datatype Token = Token(user: User, expires: int)

  /** Expired entries count as absent; the index is not cleaned when they expire. */
  datatype Store = Store(tokens: map<Jti, Token>, index: map<User, set<Jti>>)

  // ---- the store's operations as functions -----------------------------------------------------

  function Indexed(store: Store, user: User): set<Jti> {
    if user in store.index then store.index[user] else {}
  }

  predicate Live(store: Store, now: int, jti: Jti) {
    jti in store.tokens && now < store.tokens[jti].expires
  }

  predicate Validates(store: Store, now: int, jti: Jti, user: User) {
    Live(store, now, jti) && store.tokens[jti].user == user
  }

  function Put(store: Store, now: int, jti: Jti, user: User, seconds: nat): Store {
    Store(store.tokens[jti := Token(user, now + seconds)], store.index[user := Indexed(store, user) + {jti}])
  }

  /** A token that is gone leaves the index as it is. */
  function Revoke(store: Store, now: int, jti: Jti): Store {
    if Live(store, now, jti) then
      var user := store.tokens[jti].user;
      Store(store.tokens - {jti}, store.index[user := Indexed(store, user) - {jti}])
    else Store(store.tokens - {jti}, store.index)
  }

  function RevokeAll(store: Store, user: User): Store {
    Store(store.tokens - Indexed(store, user), store.index - {user})
  }

  class RedisTokenStore {
    var tokens: map<Jti, Token>
    var index: map<User, set<Jti>>

    constructor ()
      ensures Value() == Store(map[], map[])
    {
      tokens, index := map[], map[];
    }

    function Value(): Store
      reads this
    {
      Store(tokens, index)
    }

    method SetRefreshToken(now: int, jti: Jti, user: User, seconds: nat)
      modifies this
      ensures Value() == Put(old(Value()), now, jti, user, seconds)
      ensures tokens == old(tokens)[jti := Token(user, now + seconds)]
      ensures user in index && jti in index[user] && index == old(index)[user := index[user]]
      ensures index[user] - {jti} == if user in old(index) then old(index)[user] - {jti} else {}
    {
      tokens := tokens[jti := Token(user, now + seconds)];
      index := index[user := (if user in index then index[user] else {}) + {jti}];
    }

    method ValidateRefreshToken(now: int, jti: Jti, user: User) returns (valid: bool)
      ensures valid == Validates(Value(), now, jti, user)
      ensures valid <==> jti in tokens && tokens[jti].user == user && now < tokens[jti].expires
    {
      if jti !in tokens || now >= tokens[jti].expires {
        return false;
      }
      return tokens[jti].user == user;
    }

    method RevokeRefreshToken(now: int, jti: Jti)
      modifies this
      ensures Value() == Revoke(old(Value()), now, jti)
      ensures tokens == old(tokens) - {jti}
      ensures jti !in old(tokens) || old(tokens)[jti].expires <= now ==> index == old(index)
      ensures jti in old(tokens) && now < old(tokens)[jti].expires ==>
                var user := old(tokens)[jti].user;
                user in index && jti !in index[user] && index == old(index)[user := index[user]]
    {
      if jti !in tokens || now >= tokens[jti].expires {
        tokens := tokens - {jti};
        return;
      }
      var user := tokens[jti].user;
      tokens := tokens - {jti};
      index := index[user := (if user in index then index[user] else {}) - {jti}];
    }

    method RevokeAllRefreshTokensForUser(user: User)
      modifies this
      ensures Value() == RevokeAll(old(Value()), user)
      ensures tokens == old(tokens) - (if user in old(index) then old(index)[user] else {}) && index == old(index) - {user}
    {
      var jtis: set<Jti> := if user in index then index[user] else {};
      tokens := tokens - jtis;
      index := index - {user};
    }

    /** Rotation: check, revoke the old token, issue the new one; nothing changes on a bad token. */
    method RefreshTokenPair(now: int, jti: Jti, user: User, newJti: Jti, seconds: nat) returns (accepted: bool)
      modifies this
      ensures accepted == Validates(old(Value()), now, jti, user)
      ensures accepted <==> jti in old(tokens) && old(tokens)[jti].user == user && now < old(tokens)[jti].expires
      ensures accepted ==> tokens == (old(tokens) - {jti})[newJti := Token(user, now + seconds)]
      ensures Value() == if accepted then Put(Revoke(old(Value()), now, jti), now, newJti, user, seconds) else old(Value())
    {
      accepted := ValidateRefreshToken(now, jti, user);
      if !accepted {
        return;
      }
      RevokeRefreshToken(now, jti);
      SetRefreshToken(now, newJti, user, seconds);
    }
  }

  // ---- runs -------------------------------------------------------------------------------------

  datatype Action =
    | Tick(to: int)
    | Issue(user: User, jti: Jti, seconds: nat)
    | Refresh(jti: Jti, user: User, newJti: Jti, seconds: nat)
    | Logout(jti: Jti)
    | ChangePassword(user: User)

  /** `used` are the token ids ever issued. */
  datatype State = State(now: int, store: Store, used: set<Jti>)

  predicate Accepted(s: State, a: Action) {
    a.Refresh? && Validates(s.store, s.now, a.jti, a.user)
  }

  predicate Next(s: State, a: Action, s': State) {
    match a
    case Tick(to) => s.now <= to && s' == s.(now := to)
    case Issue(user, jti, seconds) =>
      jti !in s.used && s' == State(s.now, Put(s.store, s.now, jti, user, seconds), s.used + {jti})
    case Refresh(jti, user, newJti, seconds) =>
      if Accepted(s, a) then
        && newJti !in s.used
        && s' == State(s.now, Put(Revoke(s.store, s.now, jti), s.now, newJti, user, seconds), s.used + {newJti})
      else s' == s
    case Logout(jti) => s' == s.(store := Revoke(s.store, s.now, jti))
    case ChangePassword(user) => s' == s.(store := RevokeAll(s.store, user))
  }

  ghost predicate Run(states: seq<State>, actions: seq<Action>) {
    && |states| == |actions| + 1
    && states[0].store == Store(map[], map[]) && states[0].used == {}
    && forall i :: 0 <= i < |actions| ==> Next(states[i], actions[i], states[i + 1])
  }

  // ---- the index covers the tokens ----------------------------------------------------------------

  /** Every token is in the index of its user, the index of a user holds nobody else's token, and
      all ids were issued. */
  ghost predicate Covered(s: State) {
    && (forall jti :: jti in s.store.tokens ==> jti in Indexed(s.store, s.store.tokens[jti].user) && jti in s.used)
    && (forall user, jti :: jti in Indexed(s.store, user) ==>
          jti in s.used && (jti in s.store.tokens ==> s.store.tokens[jti].user == user))
  }

  lemma {:induction false} PutCovers(s: State, jti: Jti, user: User, seconds: nat)
    requires Covered(s) && jti !in s.used
    ensures Covered(State(s.now, Put(s.store, s.now, jti, user, seconds), s.used + {jti}))
  {
    var store := Put(s.store, s.now, jti, user, seconds);
    forall u
      ensures Indexed(store, u) == if u == user then Indexed(s.store, u) + {jti} else Indexed(s.store, u)
    {
    }
  }

  lemma {:induction false} RevokeCovers(s: State, jti: Jti)
    requires Covered(s)
    ensures Covered(s.(store := Revoke(s.store, s.now, jti)))
  {
    var store := Revoke(s.store, s.now, jti);
    forall u
      ensures Indexed(store, u) <= Indexed(s.store, u)
      ensures forall k :: k in Indexed(s.store, u) && k !in Indexed(store, u) ==> k == jti
    {
    }
  }

  lemma {:induction false} RevokeAllCovers(s: State, user: User)
    requires Covered(s)
    ensures Covered(s.(store := RevokeAll(s.store, user)))
  {
    var store := RevokeAll(s.store, user);
    forall u
      ensures Indexed(store, u) == if u == user then {} else Indexed(s.store, u)
    {
    }
  }

  lemma {:induction false} CoveredStep(s: State, a: Action, s': State)
    requires Next(s, a, s') && Covered(s)
    ensures Covered(s')
  {
    match a
    case Issue(user, jti, seconds) => PutCovers(s, jti, user, seconds);
    case Refresh(jti, user, newJti, seconds) =>
      if Accepted(s, a) {
        RevokeCovers(s, jti);
        PutCovers(s.(store := Revoke(s.store, s.now, jti)), newJti, user, seconds);
      }
    case Logout(jti) => RevokeCovers(s, jti);
    case ChangePassword(user) => RevokeAllCovers(s, user);
    case Tick(_) =>
  }

  /** In every reachable state each live token of a user is in that user's index. */
  lemma {:induction false} IndexCoversTokens(states: seq<State>, actions: seq<Action>, i: nat)
    requires Run(states, actions) && i < |states|
    ensures Covered(states[i])
  {
    if i > 0 {
      hide Next, Covered;
      IndexCoversTokens(states, actions, i - 1);
      assert Next(states[i - 1], actions[i - 1], states[i - 1 + 1]);
      CoveredStep(states[i - 1], actions[i - 1], states[i]);
    }
  }

  // ---- the store without an index ---------------------------------------------------------------

  /** Revoking by user, done directly: every token of the user goes. */
  function WithoutUser(tokens: map<Jti, Token>, user: User): map<Jti, Token> {
    map jti | jti in tokens && tokens[jti].user != user :: tokens[jti]
  }

  /** Following the index removes exactly the user's tokens. */
  lemma {:induction false} RevokeAllIsByUser(s: State, user: User)
    requires Covered(s)
    ensures RevokeAll(s.store, user).tokens == WithoutUser(s.store.tokens, user)
  {
  }

  /** What happens to a token that is stored: it stays as it is, unless it is redeemed, logged out
      or its user's tokens are all revoked. */
  lemma {:induction false} TokenStep(s: State, a: Action, s': State, jti: Jti)
    requires Next(s, a, s') && Covered(s) && jti in s.used
    ensures jti in s'.used
    ensures jti in s'.store.tokens <==> jti in s.store.tokens && !Ends(s, a, jti)
    ensures jti in s'.store.tokens ==> s'.store.tokens[jti] == s.store.tokens[jti]
  {
  }

  /** The step takes the token away. */
  predicate Ends(s: State, a: Action, jti: Jti) {
    match a
    case Refresh(redeemed, _, _, _) => redeemed == jti && Accepted(s, a)
    case Logout(revoked) => revoked == jti
    case ChangePassword(user) => jti in s.store.tokens && s.store.tokens[jti].user == user
    case _ => false
  }

  /** The step issues the token to the user. */
  predicate Issues(s: State, a: Action, jti: Jti, user: User, expires: int) {
    match a
    case Issue(u, j, seconds) => j == jti && u == user && expires == s.now + seconds
    case Refresh(_, u, j, seconds) => Accepted(s, a) && j == jti && u == user && expires == s.now + seconds
    case _ => false
  }

  lemma {:induction false} GoneForGood(states: seq<State>, actions: seq<Action>, i: nat, j: nat, jti: Jti)
    requires Run(states, actions) && i <= j < |states|
    requires jti in states[i].used && jti !in states[i].store.tokens
    ensures jti in states[j].used && jti !in states[j].store.tokens
    decreases j
  {
    if i < j {
      hide Next, Covered;
      GoneForGood(states, actions, i, j - 1, jti);
      IndexCoversTokens(states, actions, j - 1);
      assert Next(states[j - 1], actions[j - 1], states[j - 1 + 1]);
      TokenStep(states[j - 1], actions[j - 1], states[j], jti);
    }
  }

  lemma {:induction false} UserStays(states: seq<State>, actions: seq<Action>, i: nat, j: nat, jti: Jti, user: User, expires: int)
    requires Run(states, actions) && i < j < |states| && Issues(states[i], actions[i], jti, user, expires)
    ensures jti in states[j].used && (jti in states[j].store.tokens ==> states[j].store.tokens[jti].user == user)
    decreases j
  {
    if j == i + 1 {
      assert Next(states[i], actions[i], states[i + 1]);
    } else {
      hide Next, Covered, Issues, Ends;
      UserStays(states, actions, i, j - 1, jti, user, expires);
      IndexCoversTokens(states, actions, j - 1);
      assert Next(states[j - 1], actions[j - 1], states[j - 1 + 1]);
      TokenStep(states[j - 1], actions[j - 1], states[j], jti);
    }
  }

  /** After a revoke-all for the user, no token issued to that user before validates again. */
  lemma {:induction false} RevokeAllIsFinal(states: seq<State>, actions: seq<Action>, k: nat, i: nat, j: nat, jti: Jti, user: User, expires: int)
    requires Run(states, actions) && k < i < j < |states|
    requires Issues(states[k], actions[k], jti, user, expires) && actions[i] == ChangePassword(user)
    ensures !Live(states[j].store, states[j].now, jti)
  {
    UserStays(states, actions, k, i, jti, user, expires);
    IndexCoversTokens(states, actions, i);
    assert Next(states[i], actions[i], states[i + 1]);
    TokenStep(states[i], actions[i], states[i + 1], jti);
    GoneForGood(states, actions, i + 1, j, jti);
  }

  /** A refresh token is redeemed at most once, and not at all after a logout with it. */
  lemma {:induction false} RedeemedAtMostOnce(states: seq<State>, actions: seq<Action>, i: nat, j: nat)
    requires Run(states, actions) && i < j < |actions| && actions[j].Refresh?
    requires Accepted(states[i], actions[i]) || actions[i].Logout?
    requires actions[i].jti == actions[j].jti && actions[j].jti in states[i].used
    ensures !Accepted(states[j], actions[j])
  {
    IndexCoversTokens(states, actions, i);
    assert Next(states[i], actions[i], states[i + 1]);
    TokenStep(states[i], actions[i], states[i + 1], actions[j].jti);
    GoneForGood(states, actions, i + 1, j, actions[j].jti);
  }

  // ---- exactly which tokens validate --------------------------------------------------------------

  /** Issued to the user at step i, not expired, and nothing ended it since. */
  ghost predicate InForce(states: seq<State>, actions: seq<Action>, i: nat, j: nat, jti: Jti, user: User)
    requires |states| == |actions| + 1 && j < |states|
  {
    && i < j
    && (exists expires :: Issues(states[i], actions[i], jti, user, expires) && states[j].now < expires)
    && forall k :: i < k < j ==> !Ends(states[k], actions[k], jti)
  }

  lemma {:induction false} IssuedIsStored(states: seq<State>, actions: seq<Action>, i: nat, j: nat, jti: Jti, user: User, expires: int)
    requires Run(states, actions) && i < j < |states| && Issues(states[i], actions[i], jti, user, expires)
    requires forall k :: i < k < j ==> !Ends(states[k], actions[k], jti)
    ensures jti in states[j].used && jti in states[j].store.tokens && states[j].store.tokens[jti] == Token(user, expires)
    decreases j
  {
    if j == i + 1 {
      assert Next(states[i], actions[i], states[i + 1]);
    } else {
      hide Next, Covered, Issues, Ends;
      IssuedIsStored(states, actions, i, j - 1, jti, user, expires);
      IndexCoversTokens(states, actions, j - 1);
      assert Next(states[j - 1], actions[j - 1], states[j - 1 + 1]);
      TokenStep(states[j - 1], actions[j - 1], states[j], jti);
    }
  }

  lemma {:induction false} StoredWasIssued(states: seq<State>, actions: seq<Action>, j: nat, jti: Jti) returns (i: nat)
    requires Run(states, actions) && j < |states| && jti in states[j].store.tokens
    ensures i < j && Issues(states[i], actions[i], jti, states[j].store.tokens[jti].user, states[j].store.tokens[jti].expires)
    ensures forall k :: i < k < j ==> !Ends(states[k], actions[k], jti)
  {
    var s, a, s' := states[j - 1], actions[j - 1], states[j];
    assert Next(s, a, states[j - 1 + 1]);
    IndexCoversTokens(states, actions, j - 1);
    if jti in s.used {
      TokenStep(s, a, s', jti);
      i := StoredWasIssued(states, actions, j - 1, jti);
    } else {
      IssuedNow(s, a, s', jti);
      i := j - 1;
    }
  }

  lemma {:induction false} IssuedNow(s: State, a: Action, s': State, jti: Jti)
    requires Next(s, a, s') && Covered(s) && jti !in s.used && jti in s'.store.tokens
    ensures Issues(s, a, jti, s'.store.tokens[jti].user, s'.store.tokens[jti].expires)
  {
  }

  /** A token validates for a user exactly when it was issued to that user, has not expired, and
      since then was neither redeemed nor logged out nor swept by a revoke-all. */
  lemma {:induction false} ValidIff(states: seq<State>, actions: seq<Action>, j: nat, jti: Jti, user: User)
    requires Run(states, actions) && j < |states|
    ensures Validates(states[j].store, states[j].now, jti, user)
            <==> exists i: nat :: InForce(states, actions, i, j, jti, user)
  {
    assert |states| == |actions| + 1;
    hide Run, Issues, Ends;
    if Validates(states[j].store, states[j].now, jti, user) {
      var i := StoredWasIssued(states, actions, j, jti);
      assert InForce(states, actions, i, j, jti, user);
    }
    if exists i: nat :: InForce(states, actions, i, j, jti, user) {
      var i: nat :| InForce(states, actions, i, j, jti, user);
      var expires :| Issues(states[i], actions[i], jti, user, expires) && states[j].now < expires;
      IssuedIsStored(states, actions, i, j, jti, user, expires);
    }
  }

  // ---- exactly which ids are indexed ---------------------------------------------------------------

  /** The step takes the id out of the user's index: a redemption, a logout while the token lives,
      or a revoke-all. A logout with a token that has expired leaves the id behind. */
  predicate Unindexes(s: State, a: Action, jti: Jti, user: User) {
    match a
    case Refresh(redeemed, _, _, _) => redeemed == jti && Accepted(s, a)
    case Logout(revoked) => revoked == jti && jti in s.store.tokens && s.now < s.store.tokens[jti].expires
    case ChangePassword(u) => u == user
    case _ => false
  }

  /** Issued to the user at step i, and no step since took it out of the index. */
  ghost predicate Kept(states: seq<State>, actions: seq<Action>, i: nat, j: nat, jti: Jti, user: User)
    requires |states| == |actions| + 1 && j < |states|
  {
    && i < j
    && (exists expires :: Issues(states[i], actions[i], jti, user, expires))
    && forall k :: i < k < j ==> !Unindexes(states[k], actions[k], jti, user)
  }

  lemma {:induction false} IndexStep(s: State, a: Action, s': State, jti: Jti, user: User)
    requires Next(s, a, s') && Covered(s)
    ensures jti in Indexed(s'.store, user)
            <==> (jti in Indexed(s.store, user) && !Unindexes(s, a, jti, user)) || exists expires :: Issues(s, a, jti, user, expires)
  {
    match a
    case Issue(u, j, seconds) =>
      assert j == jti && u == user ==> Issues(s, a, jti, user, s.now + seconds);
    case Refresh(redeemed, u, j, seconds) =>
      assert Accepted(s, a) && j == jti && u == user ==> Issues(s, a, jti, user, s.now + seconds);
      if Accepted(s, a) {
        assert redeemed in Indexed(s.store, u) && redeemed in s.used;
        assert jti in Indexed(Revoke(s.store, s.now, redeemed), user) <==> jti in Indexed(s.store, user) && redeemed != jti;
      }
    case _ =>
  }

  /** The index of a user holds exactly the ids issued to that user that were since neither
      redeemed, nor logged out while they lived, nor swept by a revoke-all. */
  lemma {:induction false} IndexedIff(states: seq<State>, actions: seq<Action>, j: nat, jti: Jti, user: User)
    requires Run(states, actions) && j < |states|
    ensures jti in Indexed(states[j].store, user) <==> exists i: nat :: Kept(states, actions, i, j, jti, user)
  {
    if j > 0 {
      var m: nat := j - 1;
      var s, a := states[m], actions[m];
      IndexedIff(states, actions, m, jti, user);
      IndexCoversTokens(states, actions, m);
      assert Next(s, a, states[m + 1]);
      hide Next, Covered, Issues, Unindexes, Indexed;
      IndexStep(s, a, states[j], jti, user);
      if exists expires :: Issues(s, a, jti, user, expires) {
        assert Kept(states, actions, m, j, jti, user);
      } else if exists i: nat :: Kept(states, actions, i, m, jti, user) {
        var i: nat :| Kept(states, actions, i, m, jti, user);
        assert Kept(states, actions, i, j, jti, user) <==> !Unindexes(s, a, jti, user);
      }
      if exists i: nat :: Kept(states, actions, i, j, jti, user) {
        var i: nat :| Kept(states, actions, i, j, jti, user);
        assert i < m ==> Kept(states, actions, i, m, jti, user);
      }
    }
  }
}
