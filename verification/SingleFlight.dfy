/** The leader/follower protocol around the token cache, over every interleaving of threads, spurious
    wake-ups, invalidations and clock readings that never go back. */
module SingleFlight {
  import opened Tally
  import opened JwtCache

  datatype Thread =
    | Outside
    | Looking       // about to take the lock and look at the cache
    | Sleeping      // inside pthread_cond_wait
    | LoggingIn     // leader, between its two critical sections

  datatype Event =
    | Started(at: int)
    | Ended(login: Login, at: int)
    | Served(token: string, expiresAt: int, at: int)                    // cache hit
    | Answered(login: Login, answer: Answer, expiresAt: int, at: int)    // leader's return

  datatype State = State(cache: Cache, threads: seq<Thread>, clock: int, log: seq<Event>)

  datatype Step =
    | Call(i: nat)
    | LookAt(i: nat, now: int)
    | WakeSpuriously(i: nat)
    | EndLogin(i: nat, login: Login, now: int)
    | Reject401

  function Init(threads: nat, clock: int): State {
    State(Cache("", 0, 0, false), seq(threads, i => Outside), clock, [])
  }

  predicate Enabled(s: State, step: Step) {
    match step
    case Call(i) => i < |s.threads| && s.threads[i].Outside?
    case LookAt(i, now) => i < |s.threads| && s.threads[i].Looking? && now >= s.clock
    case WakeSpuriously(i) => i < |s.threads| && s.threads[i].Sleeping?
    case EndLogin(i, _, now) => i < |s.threads| && s.threads[i].LoggingIn? && now >= s.clock
    case Reject401 => true
  }

  function WakeAll(threads: seq<Thread>): seq<Thread> {
    seq(|threads|, i requires 0 <= i < |threads| => if threads[i].Sleeping? then Looking else threads[i])
  }

  function DoLook(s: State, i: nat, now: int): State
    requires i < |s.threads|
  {
    var look := Decide(s.cache, now);
    State(Enter(s.cache, now),
          s.threads[i := match look case Wait => Sleeping case Lead => LoggingIn case _ => Outside],
          now,
          match look
          case Hit(token) => s.log + [Served(token, s.cache.expiresAt, now)]
          case Lead => s.log + [Started(now)]
          case _ => s.log)
  }

  function DoEnd(s: State, i: nat, login: Login, now: int): State
    requires i < |s.threads|
  {
    var cache := Complete(s.cache, login, now);
    State(cache, WakeAll(s.threads[i := Outside]), now,
          s.log + [Ended(login, now), Answered(login, AnswerOf(cache), cache.expiresAt, now)])
  }

  function Apply(s: State, step: Step): State
    requires Enabled(s, step)
  {
    match step
    case Call(i) => s.(threads := s.threads[i := Looking])
    case LookAt(i, now) => DoLook(s, i, now)
    case WakeSpuriously(i) => s.(threads := s.threads[i := Looking])
    case EndLogin(i, login, now) => DoEnd(s, i, login, now)
    case Reject401 => s.(cache := Invalidate(s.cache))
  }

  predicate Legal(threads: nat, clock: int, run: seq<Step>)
    decreases |run|, 0
  {
    run == [] ||
    var last := |run| - 1;
    Legal(threads, clock, run[..last]) && Enabled(Exec(threads, clock, run[..last]), run[last])
  }

  function Exec(threads: nat, clock: int, run: seq<Step>): State
    requires Legal(threads, clock, run)
    decreases |run|, 1
  {
    if run == [] then Init(threads, clock)
    else
      var last := |run| - 1;
      Apply(Exec(threads, clock, run[..last]), run[last])
  }

  // ---------- what every run keeps ----------

  function IsLoggingIn(t: Thread): bool {
    t.LoggingIn?
  }

  /** Starts and ends alternate, beginning with a start; `Open` tells whether the last start has not
      ended yet. */
  predicate Alternates(log: seq<Event>) {
    log == [] ||
    var last := |log| - 1;
    && Alternates(log[..last])
    && (log[last].Started? ==> !Open(log[..last]))
    && (log[last].Ended? ==> Open(log[..last]))
  }

  predicate Open(log: seq<Event>) {
    if log == [] then false
    else
      var last := |log| - 1;
      if log[last].Started? then true else if log[last].Ended? then false else Open(log[..last])
  }

  predicate IsFailure(e: Event) {
    e.Ended? && e.login.Failed?
  }

  /** After a failed login at time t, no login starts before t + 5. */
  predicate BacksOff(log: seq<Event>) {
    forall i, j :: 0 <= i < j < |log| && IsFailure(log[i]) && log[j].Started? ==> log[j].at >= log[i].at + BACKOFF_SECONDS
  }

  /** A cache hit gives a token that is unexpired at the clock reading it was decided on; a leader
      whose login failed gives no token or an expired one. */
  predicate HonestReturn(e: Event) {
    match e
    case Served(token, expiresAt, at) => token != "" && at < expiresAt
    case Answered(Failed, Token(_), expiresAt, at) => expiresAt <= at
    case _ => true
  }

  /** Failures are in the past; the backoff they demand has passed or is still recorded in the cache,
      and it has passed whenever a login is under way. */
  predicate FailuresRemembered(s: State) {
    forall i :: 0 <= i < |s.log| && IsFailure(s.log[i]) ==>
      && s.log[i].at <= s.clock
      && (s.log[i].at + BACKOFF_SECONDS <= s.clock || (!s.cache.refreshing && s.log[i].at <= s.cache.lastFailed))
  }

  predicate Sane(s: State) {
    && Count(IsLoggingIn, s.threads) == (if s.cache.refreshing then 1 else 0)
    && (forall i :: 0 <= i < |s.threads| && s.threads[i].Sleeping? ==> s.cache.refreshing)
    && |s.cache.token| < TOKEN_SIZE
    && (s.cache.refreshing ==> s.cache.token == "" || s.cache.expiresAt <= s.clock)
    && Alternates(s.log) && Open(s.log) == s.cache.refreshing
    && BacksOff(s.log)
    && FailuresRemembered(s)
    && (forall i :: 0 <= i < |s.log| ==> HonestReturn(s.log[i]))
  }

  lemma {:induction false} WakeAllCounts(threads: seq<Thread>)
    ensures Count(IsLoggingIn, WakeAll(threads)) == Count(IsLoggingIn, threads)
  {
    if threads != [] {
      assert WakeAll(threads)[1..] == WakeAll(threads[1..]);
      WakeAllCounts(threads[1..]);
    }
  }

  lemma ThreadStaysSane(s: State, i: nat)
    requires Sane(s) && i < |s.threads| && (s.threads[i].Outside? || s.threads[i].Sleeping?)
    ensures Sane(s.(threads := s.threads[i := Looking]))
  {
    CountUpdate(IsLoggingIn, s.threads, i, Looking);
  }

  lemma Appended(log: seq<Event>, e: Event)
    ensures (log + [e])[..|log + [e]| - 1] == log
  {
  }

  lemma LookStaysSane(s: State, i: nat, now: int)
    requires Sane(s) && Enabled(s, LookAt(i, now))
    ensures Sane(DoLook(s, i, now))
  {
    hide Count;
    var s' := DoLook(s, i, now);
    CountUpdate(IsLoggingIn, s.threads, i, s'.threads[i]);
    match Decide(s.cache, now) {
      case Hit(token) => Appended(s.log, Served(token, s.cache.expiresAt, now));
      case Lead => Appended(s.log, Started(now));
      case _ =>
    }
  }

  lemma EndStaysSane(s: State, i: nat, login: Login, now: int)
    requires Sane(s) && Enabled(s, EndLogin(i, login, now))
    ensures Sane(DoEnd(s, i, login, now))
  {
    var s' := DoEnd(s, i, login, now);
    CountUpdate(IsLoggingIn, s.threads, i, Outside);
    WakeAllCounts(s.threads[i := Outside]);
    CountPositive(IsLoggingIn, s.threads, i);
    var middle := s.log + [Ended(login, now)];
    Appended(s.log, Ended(login, now));
    assert s'.log == middle + [s'.log[|middle|]];
    Appended(middle, s'.log[|middle|]);
  }

  lemma SaneKept(s: State, step: Step)
    requires Sane(s) && Enabled(s, step)
    ensures Sane(Apply(s, step))
  {
    match step {
      case Call(i) => ThreadStaysSane(s, i);
      case LookAt(i, now) => LookStaysSane(s, i, now);
      case WakeSpuriously(i) => ThreadStaysSane(s, i);
      case EndLogin(i, login, now) => EndStaysSane(s, i, login, now);
      case Reject401 =>
    }
  }

  lemma {:induction false} NoneLoggingIn(threads: seq<Thread>)
    requires forall i :: 0 <= i < |threads| ==> threads[i].Outside?
    ensures Count(IsLoggingIn, threads) == 0
  {
    if threads != [] {
      NoneLoggingIn(threads[1..]);
    }
  }

  /** Main result: in every run at most one login is under way, starts and ends alternate, a sleeping
      follower always has a login to wait for, no login starts within 5 seconds after a failed one,
      cache hits are unexpired and a failed leader never hands out a live token. */
  lemma {:induction false} SingleFlightHolds(threads: nat, clock: int, run: seq<Step>)
    requires Legal(threads, clock, run)
    ensures Sane(Exec(threads, clock, run))
    decreases |run|
  {
    hide Apply, Enabled;
    if run == [] {
      NoneLoggingIn(Init(threads, clock).threads);
    } else {
      var last := |run| - 1;
      SingleFlightHolds(threads, clock, run[..last]);
      SaneKept(Exec(threads, clock, run[..last]), run[last]);
    }
  }

  /** The recorded failure time is zero or the time of a failure in the history. */
  ghost predicate FailureIsLogged(s: State) {
    s.cache.lastFailed == 0 || exists j :: 0 <= j < |s.log| && IsFailure(s.log[j]) && s.log[j].at == s.cache.lastFailed
  }

  lemma FailureStaysLogged(s: State, step: Step)
    requires FailureIsLogged(s) && Enabled(s, step)
    ensures FailureIsLogged(Apply(s, step))
  {
    var s' := Apply(s, step);
    if step.EndLogin? && step.login.Failed? {
      assert IsFailure(s'.log[|s.log|]) && s'.log[|s.log|].at == s'.cache.lastFailed;
    } else if s'.cache.lastFailed != 0 {
      var j :| 0 <= j < |s.log| && IsFailure(s.log[j]) && s.log[j].at == s.cache.lastFailed;
      assert s'.log[j] == s.log[j];
    }
  }

  lemma {:induction false} FailureIsAlwaysLogged(threads: nat, clock: int, run: seq<Step>)
    requires Legal(threads, clock, run)
    ensures FailureIsLogged(Exec(threads, clock, run))
    decreases |run|
  {
    hide FailureIsLogged, Apply, Enabled;
    if run == [] {
      assert FailureIsLogged(Init(threads, clock)) by { NothingLogged(threads, clock); }
    } else {
      var last := |run| - 1;
      FailureIsAlwaysLogged(threads, clock, run[..last]);
      FailureStaysLogged(Exec(threads, clock, run[..last]), run[last]);
    }
  }

  lemma NothingLogged(threads: nat, clock: int)
    ensures FailureIsLogged(Init(threads, clock))
  {
  }

  /** Main result: in every run a thread that looks at the cache starts a login exactly when none is open, no
      live token is cached and every failed login ended at least five seconds ago: the backoff is kept, and
      it ends. */
  lemma LoginStartsIff(threads: nat, clock: int, run: seq<Step>, i: nat, now: int)
    requires Legal(threads, clock, run) && Enabled(Exec(threads, clock, run), LookAt(i, now)) && now >= 5
    ensures var s := Exec(threads, clock, run);
      Apply(s, LookAt(i, now)).log == s.log + [Started(now)] <==>
        && !Open(s.log)
        && (s.cache.token == "" || s.cache.expiresAt <= now)
        && forall j :: 0 <= j < |s.log| && IsFailure(s.log[j]) ==> s.log[j].at + 5 <= now
  {
    hide Legal, Exec, Open, Alternates;
    SingleFlightHolds(threads, clock, run);
    FailureIsAlwaysLogged(threads, clock, run);
    var s := Exec(threads, clock, run);
    var s' := Apply(s, LookAt(i, now));
    if s'.log == s.log + [Started(now)] {
      SaneKept(s, LookAt(i, now));
      forall j | 0 <= j < |s.log| && IsFailure(s.log[j]) ensures s.log[j].at + 5 <= now {
        assert s'.log[j] == s.log[j] && s'.log[|s.log|] == Started(now);
      }
    }
  }

  /** Two threads are never between their two critical sections at once. */
  lemma OneLeader(threads: nat, clock: int, run: seq<Step>, i: nat, j: nat)
    requires Legal(threads, clock, run) && i < j < |Exec(threads, clock, run).threads|
    ensures var s := Exec(threads, clock, run); !(s.threads[i].LoggingIn? && s.threads[j].LoggingIn?)
  {
    hide Legal, Exec;
    SingleFlightHolds(threads, clock, run);
    var s := Exec(threads, clock, run);
    if s.threads[i].LoggingIn? && s.threads[j].LoggingIn? {
      var rest := s.threads[i := Outside];
      CountUpdate(IsLoggingIn, s.threads, i, Outside);
      CountPositive(IsLoggingIn, rest, j);
    }
  }

  /** After a 401 no thread is served from the cache before a new login: the next look starts one, waits for
      one or backs off. */
  lemma RejectedTokenIsGone(threads: nat, clock: int, run: seq<Step>, i: nat, now: int)
    requires Legal(threads, clock, run)
    ensures Legal(threads, clock, run + [Reject401])
    ensures var s := Exec(threads, clock, run + [Reject401]);
      Enabled(s, LookAt(i, now)) ==> Apply(s, LookAt(i, now)).log == s.log || Apply(s, LookAt(i, now)).log == s.log + [Started(now)]
  {
    Extend(threads, clock, run, Reject401);
  }

  /** A token is never cut when it is copied into the caller's 1024-byte buffer. */
  lemma TokensAreCopiedWhole(threads: nat, clock: int, run: seq<Step>)
    requires Legal(threads, clock, run)
    ensures var c := Exec(threads, clock, run).cache; Copied(TOKEN_SIZE, c.token) == c.token
  {
    hide Legal, Exec;
    SingleFlightHolds(threads, clock, run);
  }

  /** "Every returned token is unexpired" fails: a failed refresh hands out the expired token that is
      still in the cache. */
  lemma StaleTokenIsReturned()
    ensures var run := StaleRun();
      && Legal(1, 1000, run)
      && Exec(1, 1000, run).log == [
           Started(1000), Ended(Response(Present("old"), 1010), 1000), Answered(Response(Present("old"), 1010), Token("old"), 1010, 1000),
           Started(2000), Ended(Failed, 2001), Answered(Failed, Token("old"), 1010, 2001)]
  {
    Extend(1, 1000, [], Call(0));
    Extend(1, 1000, [Call(0)], LookAt(0, 1000));
    var first := [Call(0), LookAt(0, 1000)];
    Extend(1, 1000, first, EndLogin(0, Response(Present("old"), 1010), 1000));
    var second := first + [EndLogin(0, Response(Present("old"), 1010), 1000)];
    Extend(1, 1000, second, Call(0));
    Extend(1, 1000, second + [Call(0)], LookAt(0, 2000));
    Extend(1, 1000, second + [Call(0)] + [LookAt(0, 2000)], EndLogin(0, Failed, 2001));
    assert StaleRun() == second + [Call(0)] + [LookAt(0, 2000)] + [EndLogin(0, Failed, 2001)];
  }

  lemma Extend(threads: nat, clock: int, run: seq<Step>, step: Step)
    requires Legal(threads, clock, run) && Enabled(Exec(threads, clock, run), step)
    ensures Legal(threads, clock, run + [step])
    ensures Exec(threads, clock, run + [step]) == Apply(Exec(threads, clock, run), step)
  {
    assert (run + [step])[..|run + [step]| - 1] == run;
  }

  function StaleRun(): seq<Step> {
    [Call(0), LookAt(0, 1000), EndLogin(0, Response(Present("old"), 1010), 1000),
     Call(0), LookAt(0, 2000), EndLogin(0, Failed, 2001)]
  }

  /** Exactly when a leader returns an expired token: when its login failed and any token was left in the
      cache, or when its login brought a storable token that has already expired. */
  lemma StaleAnswerIff(threads: nat, clock: int, run: seq<Step>, i: nat, login: Login, now: int)
    requires Legal(threads, clock, run) && Enabled(Exec(threads, clock, run), EndLogin(i, login, now))
    ensures var before := Exec(threads, clock, run).cache;
      var cache := Complete(before, login, now);
      (AnswerOf(cache).Token? && cache.expiresAt <= now) <==>
      (login.Failed? && before.token != "") || (Usable(login) && Expiry(login, now) <= now)
  {
    hide Legal, Exec;
    SingleFlightHolds(threads, clock, run);
    CountPositive(IsLoggingIn, Exec(threads, clock, run).threads, i);
  }

  /** Exactly when a leader's answer is a live token: when its own login brought a storable token that
      expires later. Nothing that was in the cache before counts. */
  lemma LeaderAnswerIsLiveIff(threads: nat, clock: int, run: seq<Step>, i: nat, login: Login, now: int)
    requires Legal(threads, clock, run) && Enabled(Exec(threads, clock, run), EndLogin(i, login, now))
    ensures var cache := Complete(Exec(threads, clock, run).cache, login, now);
      (AnswerOf(cache).Token? && now < cache.expiresAt) <==> (Usable(login) && now < Expiry(login, now))
  {
    hide Legal, Exec;
    SingleFlightHolds(threads, clock, run);
    CountPositive(IsLoggingIn, Exec(threads, clock, run).threads, i);
  }
}
