/** Refresh-token families: rotation, replay detection, revocation and cleanup. */
module RefreshFamilies {

  type Hash = string

  datatype Token = Token(user: string, family: string, login: int, expires: int, csrf: string,
                         consumed: bool, revoked: bool)

  /** The two tables, with `families` the set of all family ids ever issued. */
  datatype State = State(users: set<string>, tokens: map<Hash, Token>, families: set<string>)

  datatype Outcome = Success(user: string) | Denied | Failed

  const KEY_LENGTH: nat := 32

  const EMPTY: State := State({}, map[], {})

  // ---------------------------------------------------------------- transactions

  /** Deletes rows whose expiry text compares not above the text of the present. Expiry texts do not
      sort like times within one second, so which expiries have lapsed is left open: any set. */
  function Cleanup(tokens: map<Hash, Token>, lapsed: set<int>): map<Hash, Token> {
    map h | h in tokens && tokens[h].expires !in lapsed :: tokens[h]
  }

  function Fresh(user: string, family: string, login: int, expires: int, csrf: string): Token {
    Token(user, family, login, expires, csrf, false, false)
  }

  function Register(s: State, user: string, hash: Hash, t: Token): (State, Outcome) {
    if s.users != {} || t.user != user || hash in s.tokens then (s, Failed)
    else (State({user}, s.tokens[hash := t.(consumed := false, revoked := false)], s.families + {t.family}), Success(user))
  }

  function Login(s: State, hash: Hash, t: Token, lapsed: set<int>): (State, Outcome) {
    var kept := Cleanup(s.tokens, lapsed);
    if hash in kept || t.user !in s.users then (s, Failed)
    else (s.(tokens := kept[hash := t.(consumed := false, revoked := false)], families := s.families + {t.family}),
          Success(t.user))
  }

  function RevokeFamily(tokens: map<Hash, Token>, family: string): map<Hash, Token> {
    map h | h in tokens ::
      if tokens[h].family == family then tokens[h].(revoked := true) else tokens[h]
  }

  function RevokeUser(tokens: map<Hash, Token>, user: string): map<Hash, Token> {
    map h | h in tokens ::
      if tokens[h].user == user then tokens[h].(revoked := true) else tokens[h]
  }

  /** Exchange of a refresh token for its successor. */
  function Exchange(s: State, hash: Hash, csrf: string, next: Hash, nextCsrf: string, now: int, lapsed: set<int>): (State, Outcome) {
    if hash !in s.tokens then (s, Denied)
    else
      var t := s.tokens[hash];
      if now >= t.expires || t.revoked then (s, Denied)
      else if t.consumed then (s.(tokens := RevokeFamily(s.tokens, t.family)), Denied)
      else if t.csrf != csrf then (s, Denied)
      else if next in s.tokens || t.user !in s.users then (s, Failed)
      else
        var used := s.tokens[hash := t.(consumed := true)];
        var added := used[next := Fresh(t.user, t.family, t.login, t.expires, nextCsrf)];
        (s.(tokens := Cleanup(added, lapsed)), Success(t.user))
  }

  function Logout(s: State, hash: Hash, user: string, lapsed: set<int>): (State, Outcome) {
    if hash !in s.tokens || s.tokens[hash].user != user then (s, Denied)
    else (s.(tokens := Cleanup(RevokeFamily(s.tokens, s.tokens[hash].family), lapsed)), Success(user))
  }

  function ChangePassword(s: State, user: string, key: string, lapsed: set<int>): (State, Outcome) {
    if |key| < KEY_LENGTH || user !in s.users then (s, Failed)
    else (s.(tokens := Cleanup(RevokeUser(s.tokens, user), lapsed)), Success(user))
  }

  datatype Step =
    | DoRegister(now: int, user: string, hash: Hash, t: Token)
    | DoLogin(now: int, hash: Hash, t: Token, lapsed: set<int>)
    | DoExchange(now: int, hash: Hash, csrf: string, next: Hash, nextCsrf: string, lapsed: set<int>)
    | DoLogout(now: int, hash: Hash, user: string, lapsed: set<int>)
    | DoChangePassword(now: int, user: string, key: string, lapsed: set<int>)

  function Apply(s: State, step: Step): (State, Outcome) {
    match step
    case DoRegister(now, user, hash, t) => Register(s, user, hash, t)
    case DoLogin(now, hash, t, lapsed) => Login(s, hash, t, lapsed)
    case DoExchange(now, hash, csrf, next, nextCsrf, lapsed) => Exchange(s, hash, csrf, next, nextCsrf, now, lapsed)
    case DoLogout(now, hash, user, lapsed) => Logout(s, hash, user, lapsed)
    case DoChangePassword(now, user, key, lapsed) => ChangePassword(s, user, key, lapsed)
  }

  /** Family ids are random, so a new one was never issued before. */
  predicate FreshFamily(s: State, step: Step) {
    (step.DoRegister? || step.DoLogin?) ==> step.t.family !in s.families
  }

  function Run(s: State, steps: seq<Step>): State {
    if steps == [] then s
    else
      var before := Run(s, steps[..|steps| - 1]);
      if FreshFamily(before, steps[|steps| - 1]) then Apply(before, steps[|steps| - 1]).0 else before
  }

  // ---------------------------------------------------------------- coherence of families

  predicate Live(t: Token) {
    !t.consumed && !t.revoked
  }

  /** Tokens of one family agree on owner, login, expiry and revocation, and at most one is live. */
  ghost predicate Coherent(s: State) {
    && (forall h :: h in s.tokens ==> s.tokens[h].family in s.families)
    && (forall h, k :: h in s.tokens && k in s.tokens && s.tokens[h].family == s.tokens[k].family ==>
          SameFamily(s.tokens[h], s.tokens[k]))
    && (forall h, k :: h in s.tokens && k in s.tokens && s.tokens[h].family == s.tokens[k].family ==>
          (Live(s.tokens[h]) && Live(s.tokens[k]) ==> h == k))
  }

  predicate SameFamily(a: Token, b: Token) {
    a.user == b.user && a.login == b.login && a.expires == b.expires && a.revoked == b.revoked
  }

  lemma CleanupCoherent(s: State, lapsed: set<int>)
    requires Coherent(s)
    ensures Coherent(s.(tokens := Cleanup(s.tokens, lapsed)))
  {
  }

  /** Cleanup removes a family as a whole or not at all. */
  lemma CleanupIsWhole(s: State, lapsed: set<int>, h: Hash, k: Hash)
    requires Coherent(s) && h in s.tokens && k in s.tokens && s.tokens[h].family == s.tokens[k].family
    ensures h in Cleanup(s.tokens, lapsed) <==> k in Cleanup(s.tokens, lapsed)
  {
    assert SameFamily(s.tokens[h], s.tokens[k]);
  }

  lemma RevokeFamilyCoherent(s: State, family: string)
    requires Coherent(s)
    ensures Coherent(s.(tokens := RevokeFamily(s.tokens, family)))
  {
  }

  lemma RevokeUserCoherent(s: State, user: string)
    requires Coherent(s)
    ensures Coherent(s.(tokens := RevokeUser(s.tokens, user)))
  {
  }

  lemma InsertCoherent(s: State, hash: Hash, t: Token)
    requires Coherent(s) && t.family !in s.families
    ensures Coherent(s.(tokens := s.tokens[hash := t], families := s.families + {t.family}))
  {
  }

  /** A used token is live no more. */
  lemma UseCoherent(s: State, hash: Hash)
    requires Coherent(s) && hash in s.tokens
    ensures var used := s.(tokens := s.tokens[hash := s.tokens[hash].(consumed := true)]);
            Coherent(used) && (Live(s.tokens[hash]) ==> Lifeless(used, s.tokens[hash].family))
  {
    forall h | h in s.tokens && s.tokens[h].family == s.tokens[hash].family
      ensures SameFamily(s.tokens[h], s.tokens[hash]) && (Live(s.tokens[h]) && Live(s.tokens[hash]) ==> h == hash)
    {
    }
  }

  ghost predicate Lifeless(s: State, family: string) {
    forall h :: h in s.tokens && s.tokens[h].family == family ==> !Live(s.tokens[h])
  }

  lemma SucceedCoherent(s: State, hash: Hash, next: Hash, t: Token)
    requires Coherent(s) && hash in s.tokens && next !in s.tokens && s.tokens[hash].family == t.family
    requires SameFamily(s.tokens[hash], t) && Lifeless(s, t.family)
    ensures Coherent(s.(tokens := s.tokens[next := t]))
  {
    forall h | h in s.tokens && s.tokens[h].family == t.family ensures SameFamily(s.tokens[h], t) {
      assert SameFamily(s.tokens[h], s.tokens[hash]);
    }
  }

  lemma RotateCoherent(s: State, hash: Hash, next: Hash, csrf: string)
    requires Coherent(s) && hash in s.tokens && Live(s.tokens[hash]) && next !in s.tokens
    ensures var t := s.tokens[hash];
            Coherent(s.(tokens := s.tokens[hash := t.(consumed := true)]
                                          [next := Fresh(t.user, t.family, t.login, t.expires, csrf)]))
  {
    var t := s.tokens[hash];
    UseCoherent(s, hash);
    SucceedCoherent(s.(tokens := s.tokens[hash := t.(consumed := true)]), hash, next, Fresh(t.user, t.family, t.login, t.expires, csrf));
  }

  lemma StepCoherent(s: State, step: Step)
    requires Coherent(s) && FreshFamily(s, step)
    ensures Coherent(Apply(s, step).0)
  {
    match step
    case DoRegister(now, user, hash, t) =>
      InsertCoherent(s, hash, t.(consumed := false, revoked := false));
    case DoLogin(now, hash, t, lapsed) =>
      CleanupCoherent(s, lapsed);
      InsertCoherent(s.(tokens := Cleanup(s.tokens, lapsed)), hash, t.(consumed := false, revoked := false));
    case DoExchange(now, hash, csrf, next, nextCsrf, lapsed) =>
      ExchangeCoherent(s, hash, csrf, next, nextCsrf, now, lapsed);
    case DoLogout(now, hash, user, lapsed) =>
      if hash in s.tokens {
        var revoked := s.(tokens := RevokeFamily(s.tokens, s.tokens[hash].family));
        RevokeFamilyCoherent(s, s.tokens[hash].family);
        CleanupCoherent(revoked, lapsed);
      }
    case DoChangePassword(now, user, key, lapsed) =>
      RevokeUserCoherent(s, user);
      CleanupCoherent(s.(tokens := RevokeUser(s.tokens, user)), lapsed);
  }

  lemma ExchangeCoherent(s: State, hash: Hash, csrf: string, next: Hash, nextCsrf: string, now: int, lapsed: set<int>)
    requires Coherent(s)
    ensures Coherent(Exchange(s, hash, csrf, next, nextCsrf, now, lapsed).0)
  {
    if hash in s.tokens {
      var t := s.tokens[hash];
      RevokeFamilyCoherent(s, t.family);
      if Live(t) && next !in s.tokens {
        RotateCoherent(s, hash, next, nextCsrf);
        CleanupCoherent(s.(tokens := s.tokens[hash := t.(consumed := true)]
                                             [next := Fresh(t.user, t.family, t.login, t.expires, nextCsrf)]), lapsed);
      }
    }
  }

  lemma {:induction false} EveryRunIsCoherent(steps: seq<Step>)
    ensures Coherent(Run(EMPTY, steps))
  {
    if steps != [] {
      EveryRunIsCoherent(steps[..|steps| - 1]);
      var before := Run(EMPTY, steps[..|steps| - 1]);
      if FreshFamily(before, steps[|steps| - 1]) {
        StepCoherent(before, steps[|steps| - 1]);
      }
    }
  }

  // ---------------------------------------------------------------- conservation

  function Tokens(s: State, family: string): set<Hash> {
    set h | h in s.tokens && s.tokens[h].family == family
  }

  function LiveTokens(s: State, family: string): set<Hash> {
    set h | h in s.tokens && s.tokens[h].family == family && Live(s.tokens[h])
  }

  /** A successful exchange turns the one live token of the family into another: one more token,
      still one live. Only a lapsed expiry text takes the whole family away with it. */
  lemma ExchangeConserves(s: State, hash: Hash, csrf: string, next: Hash, nextCsrf: string, now: int, lapsed: set<int>)
    requires Coherent(s) && Exchange(s, hash, csrf, next, nextCsrf, now, lapsed).1.Success?
    ensures var t, after := s.tokens[hash], Exchange(s, hash, csrf, next, nextCsrf, now, lapsed).0;
            && LiveTokens(s, t.family) == {hash}
            && (if t.expires in lapsed then Tokens(after, t.family) == {}
                else && Tokens(after, t.family) == Tokens(s, t.family) + {next} && next !in Tokens(s, t.family)
                     && LiveTokens(after, t.family) == {next}
                     && after.tokens[next] == Fresh(t.user, t.family, t.login, t.expires, nextCsrf))
  {
    var t, after := s.tokens[hash], Exchange(s, hash, csrf, next, nextCsrf, now, lapsed).0;
    forall h | h in Tokens(s, t.family)
      ensures s.tokens[h].expires == t.expires && (Live(s.tokens[h]) ==> h == hash)
    {
      assert SameFamily(s.tokens[h], t);
    }
    assert hash in LiveTokens(s, t.family);
  }

  /** An exchange touches no row of another family, except rows it deletes as lapsed. */
  lemma ExchangeLeavesOthers(s: State, hash: Hash, csrf: string, next: Hash, nextCsrf: string, now: int, lapsed: set<int>, h: Hash)
    requires hash in s.tokens && h in s.tokens && s.tokens[h].family != s.tokens[hash].family
    ensures var after := Exchange(s, hash, csrf, next, nextCsrf, now, lapsed).0;
            h in after.tokens ==> after.tokens[h] == s.tokens[h]
  {
  }

  // ---------------------------------------------------------------- replay ends a family

  /** No token of the family can be exchanged at `now` or later. */
  ghost predicate Spent(s: State, family: string, now: int) {
    && family in s.families
    && forall h :: h in s.tokens && s.tokens[h].family == family ==> s.tokens[h].revoked || s.tokens[h].expires <= now
  }

  /** Presenting a consumed token, whatever the answer, ends its family. */
  lemma ReplaySpendsFamily(s: State, hash: Hash, csrf: string, next: Hash, nextCsrf: string, now: int, lapsed: set<int>)
    requires Coherent(s) && hash in s.tokens && s.tokens[hash].consumed
    ensures Exchange(s, hash, csrf, next, nextCsrf, now, lapsed).1 == Denied
    ensures Spent(Exchange(s, hash, csrf, next, nextCsrf, now, lapsed).0, s.tokens[hash].family, now)
  {
    var t := s.tokens[hash];
    forall h | h in s.tokens && s.tokens[h].family == t.family ensures SameFamily(s.tokens[h], t) {}
  }

  lemma LogoutSpendsFamily(s: State, hash: Hash, user: string, lapsed: set<int>, now: int)
    requires Coherent(s) && Logout(s, hash, user, lapsed).1.Success?
    ensures Spent(Logout(s, hash, user, lapsed).0, s.tokens[hash].family, now)
  {
  }

  lemma ChangePasswordSpendsFamilies(s: State, user: string, key: string, lapsed: set<int>, h: Hash, now: int)
    requires Coherent(s) && ChangePassword(s, user, key, lapsed).1.Success? && h in s.tokens && s.tokens[h].user == user
    ensures Spent(ChangePassword(s, user, key, lapsed).0, s.tokens[h].family, now)
  {
    forall k | k in s.tokens && s.tokens[k].family == s.tokens[h].family ensures s.tokens[k].user == user {
      assert SameFamily(s.tokens[h], s.tokens[k]);
    }
  }

  lemma SpentStep(s: State, step: Step, family: string, now: int)
    requires Spent(s, family, now) && FreshFamily(s, step) && step.now >= now
    ensures Spent(Apply(s, step).0, family, now)
    ensures step.DoExchange? && step.hash in s.tokens && s.tokens[step.hash].family == family ==>
              !Apply(s, step).1.Success?
  {
  }

  /** From then on no exchange in the family ever succeeds, over every run whose clock does not go back. */
  lemma {:induction false} SpentForever(s: State, steps: seq<Step>, family: string, now: int)
    requires Spent(s, family, now) && forall i :: 0 <= i < |steps| ==> steps[i].now >= now
    ensures Spent(Run(s, steps), family, now)
    ensures forall i :: 0 <= i < |steps| && steps[i].DoExchange? && FreshFamily(Run(s, steps[..i]), steps[i]) ==>
              var before := Run(s, steps[..i]);
              steps[i].hash in before.tokens && before.tokens[steps[i].hash].family == family ==>
                !Apply(before, steps[i]).1.Success?
  {
    if steps != [] {
      var n := |steps| - 1;
      var init := steps[..n];
      SpentForever(s, init, family, now);
      if FreshFamily(Run(s, init), steps[n]) {
        SpentStep(Run(s, init), steps[n], family, now);
      }
      forall i | 0 <= i < n ensures init[..i] == steps[..i] {}
    }
  }

  // ---------------------------------------------------------------- who is let in

  /** The rows that a cleanup keeps are those that have not lapsed, as they were. */
  ghost predicate Cleaned(was: map<Hash, Token>, tokens: map<Hash, Token>, lapsed: set<int>) {
    && (forall h :: h in tokens <==> h in was && was[h].expires !in lapsed)
    && forall h :: h in tokens ==> tokens[h] == was[h]
  }

  /** An exchange succeeds exactly for a known token in time that was neither used nor revoked, presented with
      its own CSRF secret. A used one revokes its family; any other refusal changes nothing, and only a row that
      cannot be written is a failure. */
  lemma ExchangeIsExact(s: State, now: int, hash: Hash, csrf: string, next: Hash, nextCsrf: string, lapsed: set<int>)
    ensures var (t, r) := Apply(s, DoExchange(now, hash, csrf, next, nextCsrf, lapsed));
            && (r.Success? <==> hash in s.tokens && now < s.tokens[hash].expires && !s.tokens[hash].revoked
                                && !s.tokens[hash].consumed && s.tokens[hash].csrf == csrf
                                && next !in s.tokens && s.tokens[hash].user in s.users)
            && (r.Success? ==> r.user == s.tokens[hash].user && t.users == s.users && t.families == s.families)
            && (r == Failed <==> hash in s.tokens && now < s.tokens[hash].expires && !s.tokens[hash].revoked && !s.tokens[hash].consumed
                                 && s.tokens[hash].csrf == csrf && (next in s.tokens || s.tokens[hash].user !in s.users))
            && (!r.Success? && !(hash in s.tokens && now < s.tokens[hash].expires && !s.tokens[hash].revoked && s.tokens[hash].consumed) ==> t == s)
            && (!r.Success? ==> t.tokens.Keys == s.tokens.Keys)
  {
  }

  /** The first user registers, and nobody after; the token is new, and neither used nor revoked. */
  lemma RegisterIsExact(s: State, now: int, user: string, hash: Hash, record: Token)
    ensures var (t, r) := Apply(s, DoRegister(now, user, hash, record));
            && (r.Success? <==> s.users == {} && record.user == user && hash !in s.tokens)
            && (!r.Success? ==> t == s)
            && (r.Success? ==> r.user == user && t.users == {user} && t.families == s.families + {record.family}
                               && t.tokens == s.tokens[hash := record.(consumed := false, revoked := false)])
  {
  }

  lemma LoginIsExact(s: State, now: int, hash: Hash, record: Token, lapsed: set<int>)
    ensures var (t, r) := Apply(s, DoLogin(now, hash, record, lapsed));
            && (r.Success? <==> record.user in s.users && !(hash in s.tokens && s.tokens[hash].expires !in lapsed))
            && (!r.Success? ==> t == s)
            && (r.Success? ==> r.user == record.user && t.users == s.users && t.families == s.families + {record.family}
                               && hash in t.tokens && t.tokens[hash] == record.(consumed := false, revoked := false)
                               && Cleaned(s.tokens, t.tokens - {hash}, lapsed))
  {
  }

  /** A logout by the owner revokes the family, a password change with a long enough key all families of the
      user; tokens of others are only cleaned up. */
  lemma RevocationsAreExact(s: State, now: int, hash: Hash, user: string, key: string, lapsed: set<int>, h: Hash)
    ensures var (t, r) := Apply(s, DoLogout(now, hash, user, lapsed));
            && (r.Success? <==> hash in s.tokens && s.tokens[hash].user == user) && (!r.Success? ==> t == s && r == Denied)
            && (r.Success? ==> && t == s.(tokens := t.tokens) && (h in t.tokens <==> h in s.tokens && s.tokens[h].expires !in lapsed)
                               && (h in t.tokens ==> t.tokens[h] == s.tokens[h].(revoked := s.tokens[h].revoked || s.tokens[h].family == s.tokens[hash].family)))
    ensures var (t, r) := Apply(s, DoChangePassword(now, user, key, lapsed));
            && (r.Success? <==> |key| >= 32 && user in s.users) && (!r.Success? ==> t == s && r == Failed)
            && (r.Success? ==> && t == s.(tokens := t.tokens) && (h in t.tokens <==> h in s.tokens && s.tokens[h].expires !in lapsed)
                               && (h in t.tokens ==> t.tokens[h] == s.tokens[h].(revoked := s.tokens[h].revoked || s.tokens[h].user == user)))
  {
  }

  /** Over every run there is one user at most. */
  lemma {:induction false} OneUser(steps: seq<Step>, a: string, b: string)
    requires a in Run(EMPTY, steps).users && b in Run(EMPTY, steps).users
    ensures a == b
  {
    if steps != [] {
      var before := Run(EMPTY, steps[..|steps| - 1]);
      if a in before.users && b in before.users {
        OneUser(steps[..|steps| - 1], a, b);
      }
    }
  }

  // ---------------------------------------------------------------- the store

  class AuthStore {
    var users: set<string>
    var tokens: map<Hash, Token>
    ghost var families: set<string>

    ghost function View(): State
      reads this
    {
      State(users, tokens, families)
    }

    constructor ()
      ensures View() == EMPTY
    {
      users, tokens, families := {}, map[], {};
    }

    /** A new login starts a family with one live token. */
    method CreateRefresh(hash: Hash, record: Token, lapsed: set<int>) returns (r: Outcome)
      requires Coherent(View()) && record.family !in families
      modifies this
      ensures (View(), r) == Login(old(View()), hash, record, lapsed) && Coherent(View())
      ensures r.Success? ==> LiveTokens(View(), record.family) == Tokens(View(), record.family) == {hash}
    {
      StepCoherent(View(), DoLogin(0, hash, record, lapsed));
      var tx := Cleanup(tokens, lapsed);
      if hash in tx || record.user !in users {
        return Failed;
      }
      tokens := tx[hash := record.(consumed := false, revoked := false)];
      families := families + {record.family};
      r := Success(record.user);
    }

    /** A success passes the one live place of the family on to `next`; a token seen before ends the family. */
    method ExchangeRefresh(hash: Hash, csrf: string, next: Hash, nextCsrf: string, now: int, lapsed: set<int>)
      returns (r: Outcome)
      requires Coherent(View())
      modifies `tokens
      ensures (View(), r) == Exchange(old(View()), hash, csrf, next, nextCsrf, now, lapsed) && Coherent(View())
      ensures r.Success? ==> hash in old(tokens) && LiveTokens(View(), old(tokens)[hash].family) <= {next}
      ensures hash in old(tokens) && old(tokens)[hash].consumed ==> r == Denied && Spent(View(), old(tokens)[hash].family, now)
    {
      ghost var before := View();
      ExchangeCoherent(before, hash, csrf, next, nextCsrf, now, lapsed);
      if Exchange(before, hash, csrf, next, nextCsrf, now, lapsed).1.Success? {
        ExchangeConserves(before, hash, csrf, next, nextCsrf, now, lapsed);
      }
      if hash in tokens && tokens[hash].consumed {
        ReplaySpendsFamily(before, hash, csrf, next, nextCsrf, now, lapsed);
      }
      if hash !in tokens {
        return Denied;
      }
      var row := tokens[hash];
      if !(now < row.expires) || row.revoked {
        return Denied;
      }
      if row.consumed {
        tokens := RevokeFamily(tokens, row.family);
        return Denied;
      }
      if row.csrf != csrf {
        return Denied;
      }
      var tx := tokens[hash := row.(consumed := true)];
      if next in tx || row.user !in users {
        return Failed;
      }
      tx := tx[next := Fresh(row.user, row.family, row.login, row.expires, nextCsrf)];
      tokens := Cleanup(tx, lapsed);
      r := Success(row.user);
    }

    /** A logout ends the family, from any point in time on. */
    method RevokeRefreshFamily(hash: Hash, user: string, lapsed: set<int>, ghost now: int) returns (r: Outcome)
      requires Coherent(View())
      modifies `tokens
      ensures (View(), r) == Logout(old(View()), hash, user, lapsed) && Coherent(View())
      ensures r.Success? ==> Spent(View(), old(tokens)[hash].family, now)
    {
      StepCoherent(View(), DoLogout(now, hash, user, lapsed));
      if hash !in tokens || tokens[hash].user != user {
        return Denied;
      }
      LogoutSpendsFamily(View(), hash, user, lapsed, now);
      tokens := Cleanup(RevokeFamily(tokens, tokens[hash].family), lapsed);
      r := Success(user);
    }

    /** A password change ends every family of the user. */
    method UpdatePasswordAndRevoke(user: string, key: string, lapsed: set<int>, ghost now: int) returns (r: Outcome)
      requires Coherent(View())
      modifies `tokens
      ensures (View(), r) == ChangePassword(old(View()), user, key, lapsed) && Coherent(View())
      ensures r.Success? ==> forall h :: h in old(tokens) && old(tokens)[h].user == user ==> Spent(View(), old(tokens)[h].family, now)
    {
      ghost var before := View();
      StepCoherent(before, DoChangePassword(now, user, key, lapsed));
      if |key| < KEY_LENGTH || user !in users {
        return Failed;
      }
      forall h | h in tokens && tokens[h].user == user ensures Spent(ChangePassword(before, user, key, lapsed).0, tokens[h].family, now) {
        ChangePasswordSpendsFamilies(before, user, key, lapsed, h, now);
      }
      tokens := Cleanup(RevokeUser(tokens, user), lapsed);
      r := Success(user);
    }
  }
}
