/**
 The revoked-token list (hub/internal/auth/blacklist.go): a map in memory over a database table that
 keeps expiries in whole seconds, across cleanups, restarts and additions by other processes.
 */
module BlacklistModel {
  import opened Units

  function Seconds(t: int): int { t / SECOND }

  /** Memory: jti to expiry. Table: jti to expiry in whole seconds. */
  datatype List = List(entries: map<string, int>, db: map<string, int>)

  predicate Live(row: int, now: int) { row > Seconds(now) }

  function Unexpired(entries: map<string, int>, now: int): map<string, int> {
    map j | j in entries && !(now > entries[j]) :: entries[j]
  }

  function LiveRows(db: map<string, int>, now: int): map<string, int> {
    map j | j in db && Live(db[j], now) :: db[j]
  }

  function Add(b: List, jti: string, expiry: int, now: int): List {
    List(Unexpired(b.entries[jti := expiry], now), b.db[jti := Seconds(expiry)])
  }

  function Cleanup(b: List, now: int): List {
    List(Unexpired(b.entries, now), LiveRows(b.db, now))
  }

  /** A new process loads the live rows; their expiries are the seconds the table kept. */
  function Restart(b: List, now: int): List {
    List(map j | j in b.db && Live(b.db[j], now) :: b.db[j] * SECOND, b.db)
  }

  predicate IsBlacklisted(b: List, jti: string, now: int) {
    jti in b.entries || (jti in b.db && Live(b.db[jti], now))
  }

  /** A lookup that only the table could answer is remembered. */
  function Looked(b: List, jti: string, now: int): List {
    if jti !in b.entries && jti in b.db && Live(b.db[jti], now) then b.(entries := b.entries[jti := b.db[jti] * SECOND]) else b
  }

  datatype Action =
    | DoAdd(jti: string, expiry: int)
    | AddElsewhere(jti: string, expiry: int)  // by another process on the same database
    | DoCleanup
    | DoRestart
    | Lookup(jti: string)

  function Step(b: List, a: Action, now: int): List {
    match a
    case DoAdd(jti, expiry) => Add(b, jti, expiry, now)
    case AddElsewhere(jti, expiry) => b.(db := b.db[jti := Seconds(expiry)])
    case DoCleanup => Cleanup(b, now)
    case DoRestart => Restart(b, now)
    case Lookup(jti) => Looked(b, jti, now)
  }

  datatype Run = Start(epoch: int) | Then(before: Run, a: Action, now: int)

  function Clock(run: Run): int {
    match run
    case Start(epoch) => epoch
    case Then(_, _, now) => now
  }

  function After(run: Run): List {
    match run
    case Start(_) => List(map[], map[])
    case Then(before, a, now) => Step(After(before), a, now)
  }

  /** Every token ever revoked, with its expiry: what the list stands for. */
  function Revoked(run: Run): map<string, int> {
    match run
    case Start(_) => map[]
    case Then(before, a, _) =>
      if a.DoAdd? || a.AddElsewhere? then Revoked(before)[a.jti := a.expiry] else Revoked(before)
  }

  /** The clock does not run backwards, a jti names one token, and tokens expire on a whole second. */
  predicate Legal(run: Run) {
    run.Then? ==>
      && Legal(run.before) && Clock(run.before) <= run.now
      && (run.a.DoAdd? || run.a.AddElsewhere? ==>
            run.a.expiry % SECOND == 0 && (run.a.jti in Revoked(run.before) ==> Revoked(run.before)[run.a.jti] == run.a.expiry))
  }

  // ---- the list stands for the revoked tokens ----

  /** Memory and table hold only revoked tokens, with the right expiry, and the table every one that has not expired. */
  predicate StandsForOne(b: List, revoked: map<string, int>, now: int, j: string) {
    && (j in b.entries ==> j in revoked && b.entries[j] == revoked[j])
    && (j in b.db ==> j in revoked && b.db[j] * SECOND == revoked[j])
    && (j in revoked ==> revoked[j] % SECOND == 0)
    && (j in revoked && now < revoked[j] ==> j in b.db)
  }

  lemma WholeSeconds(e: int)
    requires e % SECOND == 0
    ensures Seconds(e) * SECOND == e
  {
  }

  lemma LiveIffUnexpired(e: int, now: int)
    requires e % SECOND == 0
    ensures Live(Seconds(e), now) <==> now < e
  {
  }

  lemma StepStandsFor(b: List, revoked: map<string, int>, clock: int, a: Action, now: int, j: string)
    requires StandsForOne(b, revoked, clock, j) && clock <= now
    requires a.DoAdd? || a.AddElsewhere? ==> a.expiry % SECOND == 0 && (a.jti in revoked ==> revoked[a.jti] == a.expiry)
    ensures var revoked' := if a.DoAdd? || a.AddElsewhere? then revoked[a.jti := a.expiry] else revoked;
            StandsForOne(Step(b, a, now), revoked', now, j)
  {
    if j in revoked {
      WholeSeconds(revoked[j]);
      LiveIffUnexpired(revoked[j], now);
    }
    if a.DoAdd? || a.AddElsewhere? {
      WholeSeconds(a.expiry);
    }
  }

  lemma {:induction false} RunStandsFor(run: Run, j: string)
    requires Legal(run)
    ensures StandsForOne(After(run), Revoked(run), Clock(run), j)
  {
    if run.Then? {
      RunStandsFor(run.before, j);
      StepStandsFor(After(run.before), Revoked(run.before), Clock(run.before), run.a, run.now, j);
    }
  }

  /**
   Across additions, cleanups, restarts, lookups and other processes: as long as a token would still be
   valid, the list answers "revoked" exactly when the token was revoked.
   */
  lemma AnswersExactlyTheRevoked(run: Run, jti: string, expiry: int, now: int)
    requires Legal(run) && Clock(run) <= now < expiry
    requires jti in Revoked(run) ==> Revoked(run)[jti] == expiry
    ensures IsBlacklisted(After(run), jti, now) <==> jti in Revoked(run)
  {
    RunStandsFor(run, jti);
    if jti in Revoked(run) {
      LiveIffUnexpired(expiry, now);
      WholeSeconds(expiry);
    }
  }

  /** After a cleanup memory has lost exactly the tokens that expired before now, the table all that have expired by now. */
  lemma CleanupForgetsTheExpired(run: Run, now: int, jti: string)
    requires Legal(run) && Clock(run) <= now && jti in Revoked(run)
    ensures var b := After(Then(run, DoCleanup, now));
            && (jti in b.entries <==> jti in After(run).entries && now <= Revoked(run)[jti])
            && (jti in b.db <==> now < Revoked(run)[jti])
  {
    RunStandsFor(run, jti);
    WholeSeconds(Revoked(run)[jti]);
    LiveIffUnexpired(Revoked(run)[jti], now);
  }

  /** A new process starts with exactly the revocations that have not expired. */
  lemma RestartLoadsTheLive(run: Run, now: int, jti: string)
    requires Legal(run) && Clock(run) <= now
    ensures var b := After(Then(run, DoRestart, now));
            && (jti in b.entries <==> jti in Revoked(run) && now < Revoked(run)[jti])
            && (jti in b.entries ==> b.entries[jti] == Revoked(run)[jti])
            && b.db == After(run).db
  {
    RunStandsFor(run, jti);
    if jti in Revoked(run) {
      WholeSeconds(Revoked(run)[jti]);
      LiveIffUnexpired(Revoked(run)[jti], now);
    }
  }

  /** An addition takes the expired out of memory too, and nothing else. */
  lemma AddForgetsTheExpired(run: Run, x: string, expiry: int, now: int, jti: string)
    requires Legal(Then(run, DoAdd(x, expiry), now)) && jti in Revoked(Then(run, DoAdd(x, expiry), now))
    ensures var after := Then(run, DoAdd(x, expiry), now);
            && (jti in After(after).entries <==> (jti == x || jti in After(run).entries) && now <= Revoked(after)[jti])
            && x in After(after).db
  {
    RunStandsFor(run, jti);
  }

  /** A lookup that finds nothing, or only an expired row, changes nothing. */
  lemma LookupOfUnknown(run: Run, jti: string, now: int)
    requires !IsBlacklisted(After(run), jti, now)
    ensures After(Then(run, Lookup(jti), now)) == After(run)
  {
  }

  /** A token the list knows is answered from memory from then on, whatever becomes of the table. */
  lemma LookupIsRemembered(run: Run, jti: string, now: int, db: map<string, int>, when: int)
    requires Legal(run) && Clock(run) <= now && IsBlacklisted(After(run), jti, now)
    ensures var b := After(Then(run, Lookup(jti), now));
            && jti in b.entries && jti in Revoked(run) && b.entries[jti] == Revoked(run)[jti]
            && IsBlacklisted(List(b.entries, db), jti, when)
  {
    RunStandsFor(run, jti);
  }

  predicate SurvivesRestart(b: List, jti: string, expiry: int, added: int) {
    forall now :: added <= now < expiry ==> IsBlacklisted(Restart(Add(b, jti, expiry, added), now), jti, now)
  }

  /**
   A revocation survives a restart at any moment before its expiry exactly when the expiry is a whole
   second, or has passed already; otherwise it is lost in the last, partial second. (Token expiries are
   whole seconds.)
   */
  lemma SurvivesRestartIff(b: List, jti: string, expiry: int, added: int)
    ensures SurvivesRestart(b, jti, expiry, added) <==> expiry % SECOND == 0 || expiry <= added
  {
    if expiry % SECOND == 0 {
      forall now | added <= now < expiry ensures IsBlacklisted(Restart(Add(b, jti, expiry, added), now), jti, now) {
        LiveIffUnexpired(expiry, now);
      }
    } else if added < expiry {
      var last := Seconds(expiry) * SECOND;
      var now := if added < last then last else added;
      assert Seconds(now) == Seconds(expiry) && added <= now < expiry;
      assert !IsBlacklisted(Restart(Add(b, jti, expiry, added), now), jti, now);
    }
  }
}
