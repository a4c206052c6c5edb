/**
 One-time codes (hub/internal/auth/totp.go) and the cache of used ones (hub/internal/auth/totp_cache.go).
 A code is valid in the time step it belongs to and in the steps next to it; section 5.2 of RFC 6238
 asks that it is accepted once.
 */
module TotpModel {
  import opened Keys
  import opened Units

  /** A time step. */
  const STEP := 30 * SECOND
  const RETENTION := 90 * SECOND

  /** The time step k is valid at this time, given the skew of one step on either side. */
  predicate InSkew(k: int, now: int) {
    k - 1 <= now / STEP <= k + 1
  }

  type Cache = map<string, int>

  /** The entries that are not older than the retention. */
  function Kept(retention: nat, codes: Cache, now: int): Cache {
    map k | k in codes && !(now - codes[k] > retention) :: codes[k]
  }

  /** CheckAndMark for any retention; the source keeps codes for RETENTION. */
  function CheckAndMark(retention: nat, codes: Cache, user: string, code: string, now: int): (Cache, bool) {
    var key := MakeKey(user, code);
    if key in codes then (codes, false) else (Kept(retention, codes[key := now], now), true)
  }

  datatype Call = Call(user: string, code: string, now: int)

  datatype Run = Start(epoch: int) | Then(before: Run, c: Call)

  function Clock(run: Run): int {
    match run
    case Start(epoch) => epoch
    case Then(_, c) => c.now
  }

  function After(retention: nat, run: Run): Cache {
    match run
    case Start(_) => map[]
    case Then(before, c) => CheckAndMark(retention, After(retention, before), c.user, c.code, c.now).0
  }

  predicate Accepts(retention: nat, run: Run, c: Call) {
    CheckAndMark(retention, After(retention, run), c.user, c.code, c.now).1
  }

  /** User ids contain no colon and the clock is monotone. */
  predicate Legal(run: Run) {
    run.Then? ==> Legal(run.before) && Clock(run.before) <= run.c.now && ColonFree(run.c.user)
  }

  predicate Extends(later: Run, run: Run) {
    later == run || (later.Then? && Extends(later.before, run))
  }

  // ---- no replay ----

  lemma {:induction false} TimesAreBounded(run: Run, later: Run)
    requires Extends(later, run) && Legal(later)
    ensures Clock(run) <= Clock(later) && Legal(run)
  {
    if later != run { TimesAreBounded(run, later.before); }
  }

  /** An accepted code stays in the cache until it is older than the retention, whatever other checks happen. */
  lemma {:induction false} StaysMarked(retention: nat, run: Run, c: Call, later: Run)
    requires Accepts(retention, run, c) && Extends(later, Then(run, c)) && Legal(later)
    requires Clock(later) - c.now <= retention
    ensures var codes := After(retention, later); var key := MakeKey(c.user, c.code);
            key in codes && codes[key] == c.now
  {
    if later != Then(run, c) {
      TimesAreBounded(Then(run, c), later.before);
      StaysMarked(retention, run, c, later.before);
    }
  }

  lemma WindowIsNinetySeconds(k: int, t1: int, t2: int)
    requires InSkew(k, t1) && InSkew(k, t2)
    ensures t2 - t1 <= 3 * STEP - 1
  {
  }

  /** The same user and code, accepted once while step k is valid, is accepted again while k is still valid. */
  predicate Replay(retention: nat, run: Run, c: Call, later: Run, k: int, again: Call) {
    && Extends(later, Then(run, c)) && Legal(Then(later, again))
    && again.user == c.user && again.code == c.code
    && InSkew(k, c.now) && InSkew(k, again.now)
    && Accepts(retention, run, c) && Accepts(retention, later, again)
  }

  ghost predicate ReplayFree(retention: nat) {
    forall run, c, later, k, again :: !Replay(retention, run, c, later, k, again)
  }

  lemma LongRetentionPreventsReplay(retention: nat, run: Run, c: Call, later: Run, k: int, again: Call)
    requires retention >= 3 * STEP - 1
    ensures !Replay(retention, run, c, later, k, again)
  {
    if Replay(retention, run, c, later, k, again) {
      WindowIsNinetySeconds(k, c.now, again.now);
      StaysMarked(retention, run, c, later);
    }
  }

  /** Accept at the first tick of the window, let another user's check clean up at the last, and the code is fresh again. */
  lemma ShortRetentionAllowsReplay(retention: nat)
    requires retention < 3 * STEP - 1
    ensures Replay(retention, Start(0), Call("a", "1", 0), Then(Then(Start(0), Call("a", "1", 0)), Call("b", "2", 3 * STEP - 1)), 1,
                   Call("a", "1", 3 * STEP - 1))
  {
    var c, other := Call("a", "1", 0), Call("b", "2", 3 * STEP - 1);
    var first := Then(Start(0), c);
    var later := Then(first, other);
    MakeKeyInjective("a", "1", "b", "2");
    assert After(retention, first) == map[MakeKey("a", "1") := 0];
    assert After(retention, later) == map[MakeKey("b", "2") := 3 * STEP - 1];
    assert Extends(first, first) && Extends(later, first);
    assert InSkew(1, 0) && InSkew(1, 3 * STEP - 1);
  }

  /** A retention prevents every replay exactly when it covers the three steps in which a code is valid. */
  lemma ReplayFreeIff(retention: nat)
    ensures ReplayFree(retention) <==> retention >= 90 * SECOND - 1
  {
    if retention >= 3 * STEP - 1 {
      forall run, c, later, k, again ensures !Replay(retention, run, c, later, k, again) {
        LongRetentionPreventsReplay(retention, run, c, later, k, again);
      }
    } else {
      ShortRetentionAllowsReplay(retention);
    }
  }

  /** The source's 90 seconds do. */
  lemma SourceIsReplayFree()
    ensures ReplayFree(90 * SECOND)
  {
    ReplayFreeIff(RETENTION);
  }

  // ---- validation ----

  /** The code of a time step under a secret. */
  type Generator = (string, int) -> string

  predicate ValidNow(gen: Generator, secret: string, code: string, now: int) {
    var k := now / STEP;
    gen(secret, k - 1) == code || gen(secret, k) == code || gen(secret, k + 1) == code
  }

  /** A code is valid exactly when it belongs to a step within the skew. */
  lemma ValidIffInSkew(gen: Generator, secret: string, code: string, now: int)
    ensures ValidNow(gen, secret, code, now) <==> exists k :: InSkew(k, now) && gen(secret, k) == code
  {
    var k := now / STEP;
    assert InSkew(k - 1, now) && InSkew(k, now) && InSkew(k + 1, now);
    forall j | InSkew(j, now) ensures j == k - 1 || j == k || j == k + 1 {}
  }

  /** ValidateTOTPWithReplay, validating and marking in one step. */
  function Validate(gen: Generator, codes: Cache, user: string, secret: string, code: string, now: int): (Cache, bool) {
    if !ValidNow(gen, secret, code, now) then (codes, false) else CheckAndMark(RETENTION, codes, user, code, now)
  }

  lemma ValidatedIsUnused(gen: Generator, codes: Cache, user: string, secret: string, code: string, now: int)
    requires Validate(gen, codes, user, secret, code, now).1
    ensures CheckAndMark(RETENTION, codes, user, code, now).1
  {
  }

  lemma AcceptedIsNotAcceptedAgain(run: Run, c: Call, later: Run, k: int, again: Call)
    requires Accepts(RETENTION, run, c) && Extends(later, Then(run, c)) && Legal(later) && Clock(later) <= again.now
    requires again.user == c.user && again.code == c.code && InSkew(k, c.now) && InSkew(k, again.now)
    ensures !Accepts(RETENTION, later, again)
  {
    TimesAreBounded(Then(run, c), later);
    LongRetentionPreventsReplay(RETENTION, run, c, later, k, again);
  }

  /** Once a string has been accepted while time step k is valid, it is refused for as long as k is valid. */
  lemma CodeIsAcceptedOnce(gen: Generator, run: Run, c: Call, secret: string, later: Run, k: int, secret': string, again: Call)
    requires Validate(gen, After(RETENTION, run), c.user, secret, c.code, c.now).1
    requires Extends(later, Then(run, c)) && Legal(later) && Clock(later) <= again.now
    requires again.user == c.user && again.code == c.code && InSkew(k, c.now) && InSkew(k, again.now)
    ensures !Validate(gen, After(RETENTION, later), again.user, secret', again.code, again.now).1
  {
    ValidatedIsUnused(gen, After(RETENTION, run), c.user, secret, c.code, c.now);
    AcceptedIsNotAcceptedAgain(run, c, later, k, again);
  }

  // ---- acceptance in terms of what was accepted before ----

  /** The checks that answered "fresh", oldest first. */
  function Accepted(retention: nat, run: Run): seq<Call> {
    if run.Start? then []
    else if Accepts(retention, run.before, run.c) then Accepted(retention, run.before) + [run.c]
    else Accepted(retention, run.before)
  }

  predicate IsUse(c: Call, user: string, code: string) {
    c.user == user && c.code == code
  }

  /** Some accepted use of the string by the user is within the retention of the last accepted check of anybody. */
  predicate UsedRecently(retention: nat, log: seq<Call>, user: string, code: string) {
    exists i :: 0 <= i < |log| && IsUse(log[i], user, code) && log[|log| - 1].now - log[i].now <= retention
  }

  /** The cache entry of one user and code is the time of an accepted use within the retention, if there is one. */
  predicate Reflects(retention: nat, codes: Cache, log: seq<Call>, user: string, code: string) {
    var key := MakeKey(user, code);
    && (key in codes ==> exists i :: 0 <= i < |log| && IsUse(log[i], user, code) && log[i].now == codes[key]
                                     && log[|log| - 1].now - codes[key] <= retention)
    && (forall i :: 0 <= i < |log| && IsUse(log[i], user, code) && log[|log| - 1].now - log[i].now <= retention ==>
          key in codes && codes[key] == log[i].now)
  }

  lemma AcceptedReflects(retention: nat, codes: Cache, log: seq<Call>, c: Call, user: string, code: string)
    requires Reflects(retention, codes, log, user, code) && ColonFree(user) && ColonFree(c.user)
    requires CheckAndMark(retention, codes, c.user, c.code, c.now).1
    requires log != [] ==> log[|log| - 1].now <= c.now
    ensures Reflects(retention, CheckAndMark(retention, codes, c.user, c.code, c.now).0, log + [c], user, code)
  {
    MakeKeyInjective(c.user, c.code, user, code);
    var codes' := CheckAndMark(retention, codes, c.user, c.code, c.now).0;
    var log' := log + [c];
    var key := MakeKey(user, code);
    assert log'[|log'| - 1] == c;
    forall i | 0 <= i < |log'| && IsUse(log'[i], user, code) && c.now - log'[i].now <= retention
      ensures key in codes' && codes'[key] == log'[i].now
    {
      if i < |log| {
        assert log[i] == log'[i];
      }
    }
    if key in codes' && key in codes {
      var i :| 0 <= i < |log| && IsUse(log[i], user, code) && log[i].now == codes[key];
      assert log'[i] == log[i];
    }
  }

  lemma {:induction false} CacheReflectsHistory(retention: nat, run: Run, user: string, code: string)
    requires Legal(run) && ColonFree(user)
    ensures Reflects(retention, After(retention, run), Accepted(retention, run), user, code)
    ensures var log := Accepted(retention, run); log != [] ==> log[|log| - 1].now <= Clock(run)
  {
    if run.Then? {
      CacheReflectsHistory(retention, run.before, user, code);
      if Accepts(retention, run.before, run.c) {
        AcceptedReflects(retention, After(retention, run.before), Accepted(retention, run.before), run.c, user, code);
      }
    }
  }

  /**
   A code is accepted exactly when it is valid and no accepted use of the same string by the same user lies
   within the retention of the last accepted check. No other user's code ever gets in its way, and a code
   that is not valid uses nothing up.
   */
  lemma AcceptedIffUnused(gen: Generator, run: Run, user: string, secret: string, code: string, now: int)
    requires Legal(run) && ColonFree(user)
    ensures var (codes', ok) := Validate(gen, After(RETENTION, run), user, secret, code, now);
            && (ok <==> ValidNow(gen, secret, code, now) && !UsedRecently(RETENTION, Accepted(RETENTION, run), user, code))
            && codes' == After(RETENTION, if ValidNow(gen, secret, code, now) then Then(run, Call(user, code, now)) else run)
  {
    CacheReflectsHistory(RETENTION, run, user, code);
  }
}
