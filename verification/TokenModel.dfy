/**
 Access and refresh tokens (hub/internal/server/middleware.go and handlers_auth.go): a token carries the
 generation its user had when it was issued; a refresh, a logout, and whatever else increments the
 generation revoke tokens. A signature is valid when the hub issued the token.
 */
module TokenModel {
  import opened Units
  import opened BlacklistModel

  datatype Kind = Access | Refresh | Setup | Totp

  /** The claims of a signed token. */
  datatype Token = Token(jti: string, user: string, kind: Kind, gen: nat, expiry: int)

  /** Tokens expire this many ticks after they were issued, cut to a whole second. */
  const ACCESS_TTL := 15 * 60 * SECOND
  const REFRESH_TTL := 7 * 24 * 3600 * SECOND
  const SETUP_TTL := 600 * SECOND
  const TOTP_TTL := 60 * SECOND

  function Expiry(now: int, kind: Kind): int {
    var ttl := match kind case Access => ACCESS_TTL case Refresh => REFRESH_TTL case Setup => SETUP_TTL case Totp => TOTP_TTL;
    Seconds(now + ttl) * SECOND
  }

  /** The users with their generations, the tokens signed so far, and the revocations. */
  datatype World = World(users: map<string, nat>, issued: map<string, Token>, revocations: BlacklistModel.Run)

  datatype Action =
    | CreateUser(user: string)
    | DeleteUser(user: string)
    | Login(user: string, accessID: string, refreshID: string)   // after the second factor
    | Issue(user: string, jti: string, kind: Kind)               // a setup or TOTP token: generation 0
    | DoRefresh(t: Token, accessID: string, refreshID: string)
    | Logout(t: Token)
    | Increment(user: string)                                    // password change, TOTP disable, admin action
    | OnList(a: BlacklistModel.Action)                           // cleanup, restart or lookup of the list

  predicate Signed(w: World, t: Token, now: int) {
    t.jti in w.issued && w.issued[t.jti] == t && now < t.expiry
  }

  predicate Current(w: World, t: Token) {
    t.user in w.users && w.users[t.user] == t.gen
  }

  /** authenticateRequestToken. */
  predicate Accepts(w: World, t: Token, now: int) {
    && Signed(w, t, now)
    && !IsBlacklisted(BlacklistModel.After(w.revocations), t.jti, now)
    && (t.kind.Access? ==> Current(w, t))
  }

  /** handleRefresh's decision. */
  predicate AcceptsRefresh(w: World, t: Token, now: int) {
    Signed(w, t, now) && t.kind.Refresh? && Current(w, t)
  }

  function Pair(issued: map<string, Token>, user: string, gen: nat, accessID: string, refreshID: string, now: int): map<string, Token> {
    issued[accessID := Token(accessID, user, Access, gen, Expiry(now, Access))]
          [refreshID := Token(refreshID, user, Refresh, gen, Expiry(now, Refresh))]
  }

  function Bump(w: World, user: string): World {
    if user in w.users then w.(users := w.users[user := w.users[user] + 1]) else w
  }

  function Step(w: World, a: Action, now: int): World {
    match a
    case CreateUser(user) => w.(users := w.users[user := 0])
    case DeleteUser(user) => w.(users := w.users - {user})
    case Login(user, accessID, refreshID) =>
      if user in w.users then w.(issued := Pair(w.issued, user, w.users[user], accessID, refreshID, now)) else w
    case Issue(user, jti, kind) => w.(issued := w.issued[jti := Token(jti, user, kind, 0, Expiry(now, kind))])
    case DoRefresh(t, accessID, refreshID) =>
      if AcceptsRefresh(w, t, now) then
        var w1 := Bump(w, t.user);
        w1.(issued := Pair(w1.issued, t.user, w1.users[t.user], accessID, refreshID, now))
      else w
    case Logout(t) =>
      if Signed(w, t, now) then w.(revocations := BlacklistModel.Then(w.revocations, DoAdd(t.jti, t.expiry), now)) else w
    case Increment(user) => Bump(w, user)
    case OnList(b) => w.(revocations := BlacklistModel.Then(w.revocations, b, now))
  }

  datatype Run = Begin(epoch: int) | Then(before: Run, a: Action, now: int)

  function Clock(run: Run): int {
    match run
    case Begin(epoch) => epoch
    case Then(_, _, now) => now
  }

  function Length(run: Run): nat {
    if run.Begin? then 0 else Length(run.before) + 1
  }

  function After(run: Run): World {
    match run
    case Begin(epoch) => World(map[], map[], BlacklistModel.Start(epoch))
    case Then(before, a, now) => Step(After(before), a, now)
  }

  function NewIDs(a: Action): seq<string> {
    match a
    case Login(_, x, y) => [x, y]
    case Issue(_, x, _) => [x]
    case DoRefresh(_, x, y) => [x, y]
    case _ => []
  }

  /** Identifiers are fresh UUIDs, the clock is monotone, and only the hub's own list operations occur. */
  predicate Legal(run: Run) {
    run.Then? ==>
      && Legal(run.before) && Clock(run.before) <= run.now
      && (run.a.CreateUser? ==> !Existed(run.before, run.a.user))
      && (forall x :: x in NewIDs(run.a) ==> x !in After(run.before).issued)
      && (|NewIDs(run.a)| == 2 ==> NewIDs(run.a)[0] != NewIDs(run.a)[1])
      && (run.a.Issue? ==> run.a.kind.Setup? || run.a.kind.Totp?)
      && (run.a.OnList? ==> !run.a.a.DoAdd? && !run.a.a.AddElsewhere?)
  }

  predicate Existed(run: Run, user: string) {
    run.Then? && ((run.a.CreateUser? && run.a.user == user) || Existed(run.before, user))
  }

  // ---- the history that acceptance is about ----

  /** The user was created and has not been deleted since. */
  predicate Exists(run: Run, user: string) {
    run.Then? && run.a != DeleteUser(user) && (run.a == CreateUser(user) || Exists(run.before, user))
  }

  /** The action revokes the user's earlier tokens. */
  predicate Increments(w: World, a: Action, now: int, user: string) {
    match a
    case Increment(u) => u == user
    case DoRefresh(t, _, _) => AcceptsRefresh(w, t, now) && t.user == user
    case _ => false
  }

  /** An increment for this user happened in the run after its first k actions. */
  predicate IncrementedSince(run: Run, user: string, k: nat) {
    Length(run) > k && (Increments(After(run.before), run.a, run.now, user) || IncrementedSince(run.before, user, k))
  }

  /** How many of the run's actions had happened when the token was issued. */
  function IssuedAt(run: Run, jti: string): nat {
    if run.Begin? then 0
    else if jti in After(run.before).issued then IssuedAt(run.before, jti)
    else Length(run)
  }

  predicate LoggedOut(run: Run, t: Token) {
    run.Then? && ((run.a == Logout(t) && Signed(After(run.before), t, run.now)) || LoggedOut(run.before, t))
  }

  // ---- revocations ----

  /** A revoked jti belongs to a token that was signed, and carries its expiry. */
  predicate RevokedIsIssued(issued: map<string, Token>, revoked: map<string, int>, jti: string) {
    jti in revoked ==> jti in issued && revoked[jti] == issued[jti].expiry
  }

  predicate NamedByID(issued: map<string, Token>, jti: string) {
    jti in issued ==> issued[jti].jti == jti && issued[jti].expiry % SECOND == 0
  }

  lemma WholeExpiry(now: int, kind: Kind)
    ensures Expiry(now, kind) % SECOND == 0
  {
  }

  lemma IssuedStays(w: World, a: Action, now: int, jti: string)
    requires jti in w.issued && jti !in NewIDs(a)
    ensures jti in Step(w, a, now).issued && Step(w, a, now).issued[jti] == w.issued[jti]
  {
  }

  lemma IssuedNames(w: World, a: Action, now: int, jti: string)
    requires NamedByID(w.issued, jti)
    ensures NamedByID(Step(w, a, now).issued, jti)
  {
    WholeExpiry(now, Access);
    WholeExpiry(now, Refresh);
    if a.Issue? {
      WholeExpiry(now, a.kind);
    }
  }

  lemma {:induction false} IssuedInRun(run: Run, jti: string)
    requires Legal(run)
    ensures NamedByID(After(run).issued, jti)
  {
    if run.Then? {
      IssuedInRun(run.before, jti);
      IssuedNames(After(run.before), run.a, run.now, jti);
    }
  }

  lemma {:induction false} RevocationsAreLegal(run: Run)
    requires Legal(run)
    ensures BlacklistModel.Legal(After(run).revocations) && BlacklistModel.Clock(After(run).revocations) <= Clock(run)
    ensures forall j :: RevokedIsIssued(After(run).issued, Revoked(After(run).revocations), j)
  {
    if run.Then? {
      RevocationsAreLegal(run.before);
      var w := After(run.before);
      if run.a.Logout? && Signed(w, run.a.t, run.now) {
        IssuedInRun(run.before, run.a.t.jti);
        assert RevokedIsIssued(w.issued, Revoked(w.revocations), run.a.t.jti);
      }
      forall j ensures RevokedIsIssued(After(run).issued, Revoked(After(run).revocations), j) {
        assert RevokedIsIssued(w.issued, Revoked(w.revocations), j);
        if j in w.issued { IssuedStays(w, run.a, run.now, j); }
      }
    }
  }

  lemma {:induction false} RevokedIffLoggedOut(run: Run, t: Token)
    requires Legal(run) && t.jti in After(run).issued && After(run).issued[t.jti] == t
    ensures t.jti in Revoked(After(run).revocations) <==> LoggedOut(run, t)
  {
    var w := After(run.before);
    if t.jti in w.issued {
      IssuedStays(w, run.a, run.now, t.jti);
      RevokedIffLoggedOut(run.before, t);
    } else {
      RevocationsAreLegal(run.before);
      assert RevokedIsIssued(w.issued, Revoked(w.revocations), t.jti);
      NotLoggedOutYet(run.before, t);
    }
    if run.a.Logout? && Signed(w, run.a.t, run.now) && run.a.t.jti == t.jti {
      assert run.a.t == t;
    }
  }

  lemma {:induction false} NotLoggedOutYet(run: Run, t: Token)
    requires Legal(run) && t.jti !in After(run).issued
    ensures !LoggedOut(run, t)
  {
    if run.Then? {
      if t.jti in After(run.before).issued {
        IssuedStays(After(run.before), run.a, run.now, t.jti);
      }
      NotLoggedOutYet(run.before, t);
    }
  }

  // ---- users ----

  lemma UserSteps(w: World, a: Action, now: int, user: string)
    ensures user in Step(w, a, now).users <==> a != DeleteUser(user) && (a == CreateUser(user) || user in w.users)
  {
  }

  /** In every run the hub knows exactly the users that were created and not deleted since. */
  lemma {:induction false} UsersAreHistory(run: Run, user: string)
    ensures user in After(run).users <==> Exists(run, user)
  {
    if run.Then? {
      UsersAreHistory(run.before, user);
      UserSteps(After(run.before), run.a, run.now, user);
    }
  }

  // ---- what the list and the generations hold ----

  /** What the run has done to the revocation list: the log-outs of valid tokens, and the list's own operations. */
  function ListActions(run: Run): BlacklistModel.Run {
    match run
    case Begin(epoch) => BlacklistModel.Start(epoch)
    case Then(before, Logout(t), now) =>
      if Signed(After(before), t, now) then BlacklistModel.Then(ListActions(before), DoAdd(t.jti, t.expiry), now)
      else ListActions(before)
    case Then(before, OnList(b), now) => BlacklistModel.Then(ListActions(before), b, now)
    case Then(before, _, _) => ListActions(before)
  }

  lemma {:induction false} ListIsHistory(run: Run)
    ensures After(run).revocations == ListActions(run)
  {
    if run.Then? {
      ListIsHistory(run.before);
    }
  }

  /** How often the user's generation was incremented since the user was created. */
  function Increased(run: Run, user: string): nat {
    if run.Begin? || run.a == CreateUser(user) then 0
    else Increased(run.before, user) + if Increments(After(run.before), run.a, run.now, user) then 1 else 0
  }

  /** A generation counts increments, one by one. */
  lemma {:induction false} GenerationCounts(run: Run, user: string)
    requires Exists(run, user)
    ensures user in After(run).users && After(run).users[user] == Increased(run, user)
  {
    UsersAreHistory(run, user);
    if run.a != CreateUser(user) {
      GenerationCounts(run.before, user);
    }
  }

  // ---- generations ----

  lemma {:induction false} UsersExisted(run: Run, user: string)
    requires user in After(run).users
    ensures Existed(run, user)
  {
    if user in After(run.before).users {
      UsersExisted(run.before, user);
    }
  }

  /**
   For as long as the user exists, its generation is the one in the token exactly when nothing has been
   incremented since the token was issued, and never smaller.
   */
  predicate GenerationTells(w: World, t: Token, incremented: bool) {
    t.user in w.users ==> t.gen <= w.users[t.user] && (w.users[t.user] == t.gen <==> !incremented)
  }

  lemma StepKeepsGeneration(w: World, a: Action, now: int, t: Token, incremented: bool)
    requires GenerationTells(w, t, incremented) && !(a.CreateUser? && a.user == t.user)
    ensures GenerationTells(Step(w, a, now), t, Increments(w, a, now, t.user) || incremented)
  {
  }

  predicate Paired(t: Token) { t.kind.Access? || t.kind.Refresh? }

  /** A token of a pair carries the generation its user has right after it was issued, and its user existed. */
  lemma NewTokenIsCurrent(w: World, a: Action, now: int, t: Token)
    requires t.jti !in w.issued && t.jti in Step(w, a, now).issued && Step(w, a, now).issued[t.jti] == t && Paired(t)
    requires a.Issue? ==> a.kind.Setup? || a.kind.Totp?
    ensures t.user in w.users && Step(w, a, now).users[t.user] == t.gen
  {
  }

  lemma {:induction false} OwnerExisted(run: Run, t: Token)
    requires Legal(run) && t.jti in After(run).issued && After(run).issued[t.jti] == t && Paired(t)
    ensures Existed(run, t.user)
  {
    var w := After(run.before);
    if t.jti in w.issued {
      IssuedStays(w, run.a, run.now, t.jti);
      OwnerExisted(run.before, t);
    } else {
      NewTokenIsCurrent(w, run.a, run.now, t);
      UsersExisted(run.before, t.user);
    }
  }

  lemma {:induction false} GenerationInRun(run: Run, t: Token)
    requires Legal(run) && t.jti in After(run).issued && After(run).issued[t.jti] == t && Paired(t)
    ensures GenerationTells(After(run), t, IncrementedSince(run, t.user, IssuedAt(run, t.jti)))
    ensures IssuedAt(run, t.jti) <= Length(run)
  {
    var w := After(run.before);
    if t.jti in w.issued {
      IssuedStays(w, run.a, run.now, t.jti);
      GenerationInRun(run.before, t);
      OwnerExisted(run.before, t);
      StepKeepsGeneration(w, run.a, run.now, t, IncrementedSince(run.before, t.user, IssuedAt(run.before, t.jti)));
    } else {
      NewTokenIsCurrent(w, run.a, run.now, t);
    }
  }

  /**
   An access token is accepted exactly when the hub signed it, it has not expired, it was not logged out,
   its user exists, and no generation increment for that user has happened since it was issued. This
   holds across cleanups and restarts of the revocation list.
   */
  lemma AccessTokenAcceptedIff(run: Run, t: Token, now: int)
    requires Legal(run) && Clock(run) <= now && t.kind.Access?
    ensures var w := After(run);
            Accepts(w, t, now) <==>
              && Signed(w, t, now)
              && !LoggedOut(run, t)
              && Exists(run, t.user)
              && !IncrementedSince(run, t.user, IssuedAt(run, t.jti))
  {
    var w := After(run);
    UsersAreHistory(run, t.user);
    if Signed(w, t, now) {
      NotRevokedIff(run, t, now);
      GenerationInRun(run, t);
    }
  }

  lemma NotRevokedIff(run: Run, t: Token, now: int)
    requires Legal(run) && Clock(run) <= now && Signed(After(run), t, now)
    ensures IsBlacklisted(BlacklistModel.After(After(run).revocations), t.jti, now) <==> LoggedOut(run, t)
  {
    var w := After(run);
    RevocationsAreLegal(run);
    assert RevokedIsIssued(w.issued, Revoked(w.revocations), t.jti);
    AnswersExactlyTheRevoked(w.revocations, t.jti, t.expiry, now);
    RevokedIffLoggedOut(run, t);
  }

  /** Setup and TOTP tokens carry no generation: only a logout or their expiry ends them. */
  lemma OtherTokenAcceptedIff(run: Run, t: Token, now: int)
    requires Legal(run) && Clock(run) <= now && !t.kind.Access?
    ensures Accepts(After(run), t, now) <==> Signed(After(run), t, now) && !LoggedOut(run, t)
  {
    if Signed(After(run), t, now) {
      NotRevokedIff(run, t, now);
    }
  }

  /** A refresh token is accepted under the same conditions, save for the logout, which handleRefresh does not consult. */
  lemma RefreshAcceptedIff(run: Run, t: Token, now: int)
    requires Legal(run) && t.kind.Refresh?
    ensures var w := After(run);
            AcceptsRefresh(w, t, now) <==>
              Signed(w, t, now) && Exists(run, t.user) && !IncrementedSince(run, t.user, IssuedAt(run, t.jti))
  {
    UsersAreHistory(run, t.user);
    if Signed(After(run), t, now) {
      GenerationInRun(run, t);
    }
  }

  predicate Extends(later: Run, run: Run) {
    later == run || (later.Then? && Extends(later.before, run))
  }

  lemma {:induction false} LaterIsLegal(run: Run, later: Run)
    requires Extends(later, run) && Legal(later)
    ensures Legal(run)
  {
    if later != run { LaterIsLegal(run, later.before); }
  }

  lemma {:induction false} StaysIncremented(run: Run, later: Run, t: Token)
    requires Extends(later, run) && Legal(later) && t.jti in After(run).issued && After(run).issued[t.jti] == t
    requires IncrementedSince(run, t.user, IssuedAt(run, t.jti))
    ensures t.jti in After(later).issued && After(later).issued[t.jti] == t
    ensures IncrementedSince(later, t.user, IssuedAt(later, t.jti))
  {
    if later != run {
      StaysIncremented(run, later.before, t);
      IssuedStays(After(later.before), later.a, later.now, t.jti);
    }
  }

  /** A refresh token succeeds at most once, and with it every earlier token of that user stops working. */
  lemma RefreshSucceedsOnce(run: Run, t: Token, now: int, x: string, y: string, later: Run, when: int)
    requires AcceptsRefresh(After(run), t, now)
    requires var used := Run.Then(run, DoRefresh(t, x, y), now); Legal(used) && Legal(later) && Extends(later, used)
    ensures !AcceptsRefresh(After(later), t, when)
  {
    var used := Run.Then(run, DoRefresh(t, x, y), now);
    IssuedStays(After(run), used.a, now, t.jti);
    GenerationInRun(run, t);
    StaysIncremented(used, later, t);
    RefreshAcceptedIff(later, t, when);
  }

  /** An increment ends every access token the user has at that moment, for good. */
  lemma IncrementEndsAccess(run: Run, user: string, now: int, t: Token, later: Run, when: int)
    requires t.kind.Access? && t.user == user && t.jti in After(run).issued && After(run).issued[t.jti] == t
    requires var done := Run.Then(run, Increment(user), now); Legal(done) && Legal(later) && Extends(later, done)
    requires Clock(later) <= when
    ensures !Accepts(After(later), t, when)
  {
    var done := Run.Then(run, Increment(user), now);
    GenerationInRun(run, t);
    StaysIncremented(done, later, t);
    AccessTokenAcceptedIff(later, t, when);
  }

  lemma {:induction false} StaysDeleted(run: Run, later: Run, user: string)
    requires Extends(later, run) && Legal(later) && Existed(run, user) && !Exists(run, user)
    ensures Existed(later, user) && !Exists(later, user)
  {
    if later != run {
      StaysDeleted(run, later.before, user);
    }
  }

  /** Deleting a user ends everything the user has, for good: no access token and no refresh token is accepted again. */
  lemma DeletionEndsEverything(run: Run, user: string, now: int, t: Token, later: Run, when: int)
    requires Exists(run, user) && t.user == user && Paired(t)
    requires var gone := Run.Then(run, DeleteUser(user), now); Legal(later) && Extends(later, gone) && Clock(later) <= when
    ensures t.kind.Access? ==> !Accepts(After(later), t, when)
    ensures t.kind.Refresh? ==> !AcceptsRefresh(After(later), t, when)
  {
    ExistingExisted(run, user);
    StaysDeleted(Run.Then(run, DeleteUser(user), now), later, user);
    if t.kind.Access? {
      AccessTokenAcceptedIff(later, t, when);
    } else {
      RefreshAcceptedIff(later, t, when);
    }
  }

  lemma {:induction false} ExistingExisted(run: Run, user: string)
    requires Exists(run, user)
    ensures Existed(run, user)
  {
    if run.a != CreateUser(user) {
      ExistingExisted(run.before, user);
    }
  }

  // ---- what a user gets ----

  lemma LifetimeIsKept(now: int, kind: Kind)
    ensures var ttl := if kind.Access? then 15 * 60 * SECOND else if kind.Refresh? then 7 * 24 * 3600 * SECOND
                       else if kind.Setup? then 10 * 60 * SECOND else 60 * SECOND;
            now + ttl - SECOND < Expiry(now, kind) <= now + ttl
  {
  }

  /** The pair that was just issued is accepted from then on, until it expires. */
  lemma NewPairWorks(run: Run, a: Action, now: int, user: string, x: string, y: string, when: int)
    requires Legal(Run.Then(run, a, now)) && now <= when && NewIDs(a) == [x, y]
    requires var w := After(Run.Then(run, a, now));
             && user in w.users
             && w.issued == Pair(After(run).issued, user, w.users[user], x, y, now)
    ensures var w := After(Run.Then(run, a, now));
            && (Accepts(w, w.issued[x], when) <==> when < Expiry(now, Access))
            && (AcceptsRefresh(w, w.issued[y], when) <==> when < Expiry(now, Refresh))
  {
    var done := Run.Then(run, a, now);
    var access := After(done).issued[x];
    assert x in NewIDs(a) && x != y by { assert NewIDs(a)[0] == x && NewIDs(a)[1] == y; }
    if Signed(After(done), access, when) {
      NotRevokedIff(done, access, when);
      NotLoggedOutYet(run, access);
    }
  }

  /** A login hands out a pair that works; its access token lives 15 minutes, its refresh token 7 days, less at most a second. */
  lemma LoginWorks(run: Run, user: string, x: string, y: string, now: int, when: int)
    requires Legal(Run.Then(run, Login(user, x, y), now)) && Exists(run, user) && now <= when
    ensures var w := After(Run.Then(run, Login(user, x, y), now));
            && x in w.issued && w.issued[x].user == user && w.issued[x].kind.Access?
            && y in w.issued && w.issued[y].user == user
            && (Accepts(w, w.issued[x], when) <==> when < Expiry(now, Access))
            && (AcceptsRefresh(w, w.issued[y], when) <==> when < Expiry(now, Refresh))
  {
    UsersAreHistory(run, user);
    NewPairWorks(run, Login(user, x, y), now, user, x, y, when);
  }

  /** So does a refresh that is accepted: the old token is used up, the new pair works. */
  lemma RefreshWorks(run: Run, t: Token, x: string, y: string, now: int, when: int)
    requires Legal(Run.Then(run, DoRefresh(t, x, y), now)) && AcceptsRefresh(After(run), t, now) && now <= when
    ensures var w := After(Run.Then(run, DoRefresh(t, x, y), now));
            && x in w.issued && w.issued[x].user == t.user && w.issued[x].kind.Access?
            && y in w.issued && w.issued[y].user == t.user
            && (Accepts(w, w.issued[x], when) <==> when < Expiry(now, Access))
            && (AcceptsRefresh(w, w.issued[y], when) <==> when < Expiry(now, Refresh))
            && !AcceptsRefresh(w, t, when)
  {
    NewPairWorks(run, DoRefresh(t, x, y), now, t.user, x, y, when);
  }

  /** A setup or TOTP token works from its issue until it expires; it needs no generation. */
  lemma IssueWorks(run: Run, user: string, x: string, kind: Kind, now: int, when: int)
    requires Legal(Run.Then(run, Issue(user, x, kind), now)) && now <= when
    ensures var w := After(Run.Then(run, Issue(user, x, kind), now));
            && x in w.issued && w.issued[x].user == user && w.issued[x].kind == kind
            && (Accepts(w, w.issued[x], when) <==> when < Expiry(now, kind))
  {
    var done := Run.Then(run, Issue(user, x, kind), now);
    var t := After(done).issued[x];
    assert x in NewIDs(done.a);
    NotLoggedOutYet(run, t);
    OtherTokenAcceptedIff(done, t, when);
  }
}
