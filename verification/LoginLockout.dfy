/** Logging in: the lockout that failed logins lead to, behind the limit per address. */
module LoginLockout {
  import opened Text
  import IpLimiter

  datatype User = User(failedCount: int, lockedUntil: Option<int>)

  datatype Lookup = Present | Absent | LookupFailed

  /** What the outside world decides in one login. Credentials are a password and a one-time code. */
  datatype Luck = Luck(
    lookup: Lookup,
    secretReadable: bool,
    credentialsValid: bool,
    failureStored: bool,
    failuresCleared: bool,
    sessionStored: bool,
    audited: bool)

  datatype Reply = TooManyRequests | InvalidCredentials | AccountLocked | InternalError | LoggedIn

  /** How one login changes the user, what it answers, and whether it creates a session. */
  datatype Judged = Judged(user: User, reply: Reply, session: bool)

  predicate LockedAt(user: User, now: int) {
    user.lockedUntil.Some? && user.lockedUntil.value > now
  }

  /** The user after one more failure. */
  function Failing(user: User, now: int, after: int, duration: int): User {
    User(user.failedCount + 1, if user.failedCount + 1 >= after then Some(now + duration) else None)
  }

  function Judge(user: User, now: int, luck: Luck, after: int, duration: int): Judged {
    if LockedAt(user, now) then Judged(user, AccountLocked, false)
    else if !luck.secretReadable then Judged(user, InternalError, false)
    else if !luck.credentialsValid then
      var failed := Failing(user, now, after, duration);
      if !luck.failureStored then Judged(user, InternalError, false)
      else Judged(failed, if failed.lockedUntil.Some? then AccountLocked else InvalidCredentials, false)
    else if !luck.failuresCleared then Judged(user, InternalError, false)
    else if !luck.sessionStored then Judged(User(0, None), InternalError, false)
    else Judged(User(0, None), if luck.audited then LoggedIn else InternalError, true)
  }

  /** A login that reached the user's record. */
  datatype Trial = Trial(now: int, luck: Luck)

  function UserAfter(trials: seq<Trial>, after: int, duration: int): User {
    if trials == [] then User(0, None)
    else
      var last := trials[|trials| - 1];
      Judge(UserAfter(trials[..|trials| - 1], after, duration), last.now, last.luck, after, duration).user
  }

  /** After these failures, a lockout is running. */
  predicate LockoutRuns(failures: seq<int>, now: int, after: int, duration: int) {
    failures != [] && |failures| >= after && now < failures[|failures| - 1] + duration
  }

  /** When the failures happened that came after the last right credentials: logins during a lockout and
      with an unreadable secret do not count, and neither does what the store did not keep. */
  function Failures(trials: seq<Trial>, after: int, duration: int): seq<int> {
    if trials == [] then []
    else
      var before, last := Failures(trials[..|trials| - 1], after, duration), trials[|trials| - 1];
      if LockoutRuns(before, last.now, after, duration) || !last.luck.secretReadable then before
      else if last.luck.credentialsValid then if last.luck.failuresCleared then [] else before
      else if last.luck.failureStored then before + [last.now]
      else before
  }

  datatype Session = Session(email: string, at: int)

  class AuthService {
    const limiter: IpLimiter.Limiter
    const lockoutAfter: int
    const lockoutDuration: int
    var users: map<string, User>
    var sessions: seq<Session>
    ghost var trials: map<string, seq<Trial>>

    ghost predicate Valid()
      reads this, limiter
    {
      && limiter.Valid()
      && trials.Keys == users.Keys
      && forall email :: email in users ==> users[email] == UserAfter(trials[email], lockoutAfter, lockoutDuration)
    }

    constructor (emails: set<string>)
      ensures Valid() && fresh(limiter) && users.Keys == emails && sessions == []
      ensures limiter.limit == 20 && limiter.window == 5 * 60_000_000_000 && limiter.calls == []
      ensures lockoutAfter == 5 && lockoutDuration == 15 * 60_000_000_000
      ensures forall email :: email in emails ==> trials[email] == []
    {
      limiter := new IpLimiter.Limiter(20, 5 * 60_000_000_000);
      lockoutAfter, lockoutDuration := 5, 15 * 60_000_000_000;
      users, sessions := map email | email in emails :: User(0, None), [];
      trials := map email | email in emails :: [];
    }

    /** The clock is read twice: for the limit per address, and for the user's lockout. */
    method Login(email: string, ip: string, tried: int, now: int, luck: Luck) returns (reply: Reply)
      requires Valid()
      modifies this, limiter
      ensures Valid() && users.Keys == old(users.Keys)
      ensures
        var name := TrimSpace(ToLower(email));
        var admitted := ip == "" || IpLimiter.Admits(old(limiter.attempts), ip, tried, limiter.limit, limiter.window);
        var attempted := if ip == "" then old(limiter.calls) else old(limiter.calls) + [IpLimiter.Allow(ip, tried)];
        if !admitted || luck.lookup.LookupFailed? || luck.lookup.Absent? || name !in old(users)
        then reply == (if !admitted then TooManyRequests else if luck.lookup.LookupFailed? then InternalError else InvalidCredentials)
             && users == old(users) && trials == old(trials) && sessions == old(sessions) && limiter.calls == attempted
        else
          var judged := Judge(old(users[name]), now, luck, lockoutAfter, lockoutDuration);
          && reply == judged.reply
          && trials == old(trials)[name := old(trials[name]) + [Trial(now, luck)]]
          && users == old(users)[name := judged.user]
          && sessions == old(sessions) + (if judged.session then [Session(name, now)] else [])
          && limiter.calls == attempted + (if judged.session && ip != "" then [IpLimiter.Clear(ip)] else [])
    {
      hide IpLimiter.AttemptsAfter, UserAfter, TrimSpace, ToLower, Judge, IpLimiter.Admits;
      var allowed := limiter.AllowIP(ip, tried);
      if !allowed {
        return TooManyRequests;
      }
      var name := TrimSpace(ToLower(email));
      if luck.lookup.LookupFailed? {
        return InternalError;
      }
      if luck.lookup.Absent? || name !in users {
        return InvalidCredentials;
      }
      reply := JudgeLogin(name, ip, now, luck);
    }

    /** From the stored user on. */
    method JudgeLogin(name: string, ip: string, now: int, luck: Luck) returns (reply: Reply)
      requires Valid() && name in users
      modifies this, limiter
      ensures Valid() && users.Keys == old(users.Keys)
      ensures
        var judged := Judge(old(users[name]), now, luck, lockoutAfter, lockoutDuration);
        && reply == judged.reply
        && trials == old(trials)[name := old(trials[name]) + [Trial(now, luck)]]
        && users == old(users)[name := judged.user]
        && sessions == old(sessions) + (if judged.session then [Session(name, now)] else [])
        && limiter.calls == old(limiter.calls) + (if judged.session && ip != "" then [IpLimiter.Clear(ip)] else [])
    {
      hide IpLimiter.AttemptsAfter, UserAfter, Failing;
      var user := users[name];
      AddTrial(name, Trial(now, luck));
      if user.lockedUntil.Some? && user.lockedUntil.value > now {
        return AccountLocked;
      }
      if !luck.secretReadable {
        return InternalError;
      }
      if !luck.credentialsValid {
        reply := RecordFailure(name, user, now, luck.failureStored);
        return;
      }
      if !luck.failuresCleared {
        return InternalError;
      }
      users := users[name := User(0, None)];
      if !luck.sessionStored {
        return InternalError;
      }
      sessions := sessions + [Session(name, now)];
      limiter.ClearIPAttempts(ip);
      return if luck.audited then LoggedIn else InternalError;
    }

    method RecordFailure(name: string, user: User, now: int, stored: bool) returns (reply: Reply)
      modifies this`users
      ensures users == if stored then old(users)[name := Failing(user, now, lockoutAfter, lockoutDuration)] else old(users)
      ensures reply == if !stored then InternalError
                       else if Failing(user, now, lockoutAfter, lockoutDuration).lockedUntil.Some? then AccountLocked
                       else InvalidCredentials
    {
      var failedCount := user.failedCount + 1;
      var lockedUntil: Option<int> := None;
      if failedCount >= lockoutAfter {
        lockedUntil := Some(now + lockoutDuration);
      }
      if !stored {
        return InternalError;
      }
      users := users[name := User(failedCount, lockedUntil)];
      return if lockedUntil.Some? then AccountLocked else InvalidCredentials;
    }

    ghost method AddTrial(name: string, trial: Trial)
      requires name in trials
      modifies this`trials
      ensures trials == old(trials)[name := old(trials[name]) + [trial]]
      ensures UserAfter(trials[name], lockoutAfter, lockoutDuration)
           == Judge(UserAfter(old(trials[name]), lockoutAfter, lockoutDuration), trial.now, trial.luck, lockoutAfter, lockoutDuration).user
    {
      trials := trials[name := trials[name] + [trial]];
      assert trials[name][..|trials[name]| - 1] == old(trials[name]);
    }
  }

  // ---- What the lockout guarantees ----

  /** The stored count is the number of failures since the last right credentials, and once it reaches
      the limit the user stays locked for the whole duration after the last of them. */
  lemma {:induction false} StoredStateIsHistory(trials: seq<Trial>, after: int, duration: int)
    ensures var user, failures := UserAfter(trials, after, duration), Failures(trials, after, duration);
            && user.failedCount == |failures|
            && user.lockedUntil == if |failures| >= after && failures != [] then Some(failures[|failures| - 1] + duration) else None
  {
    if trials != [] {
      StoredStateIsHistory(trials[..|trials| - 1], after, duration);
    }
  }

  lemma {:induction false} NextFailureWaits(trials: seq<Trial>, i: nat, after: int, duration: int)
    requires after - 1 <= i < |Failures(trials, after, duration)| - 1
    ensures var failures := Failures(trials, after, duration); failures[i + 1] >= failures[i] + duration
  {
    var front := trials[..|trials| - 1];
    StoredStateIsHistory(front, after, duration);
    if i + 1 < |Failures(front, after, duration)| {
      NextFailureWaits(front, i, after, duration);
    }
  }

  /** However the clock moves: from the failure that first locks the user on, each further failure
      takes at least one lockout more. */
  lemma {:induction false} FailuresAreSpaced(trials: seq<Trial>, i: nat, j: nat, after: int, duration: int)
    requires after - 1 <= i <= j < |Failures(trials, after, duration)|
    ensures var failures := Failures(trials, after, duration); failures[j] >= failures[i] + (j - i) * duration
    decreases j
  {
    if i < j {
      FailuresAreSpaced(trials, i, j - 1, after, duration);
      NextFailureWaits(trials, j - 1, after, duration);
      assert (j - 1 - i) * duration + duration == (j - i) * duration;
    }
  }

  /** Counting from one: the k-th failure comes no sooner than k - after lockouts after the after-th. */
  lemma KthFailure(trials: seq<Trial>, k: nat, after: nat, duration: int)
    requires 1 <= after <= k <= |Failures(trials, after, duration)|
    ensures var failures := Failures(trials, after, duration); failures[k - 1] >= failures[after - 1] + (k - after) * duration
  {
    FailuresAreSpaced(trials, after - 1, k - 1, after, duration);
  }

  /** What a login answers, told from the history and from what the world decides. */
  predicate AnswersLike(judged: Judged, failures: seq<int>, now: int, luck: Luck, after: int, duration: int) {
    var running := LockoutRuns(failures, now, after, duration);
    var right := !running && luck.secretReadable && luck.credentialsValid;
    var wrong := !running && luck.secretReadable && !luck.credentialsValid && luck.failureStored;
    && (judged.session <==> right && luck.failuresCleared && luck.sessionStored)
    && (judged.reply == LoggedIn <==> judged.session && luck.audited)
    && (judged.reply == AccountLocked <==> running || (wrong && |failures| + 1 >= after))
    && (judged.reply == InvalidCredentials <==> wrong && |failures| + 1 < after)
    && judged.reply != TooManyRequests
  }

  /** For every history and every answer of the world: a session is created exactly when no lockout is
      running, the secret is readable, the credentials are right, and the store clears the failures and
      keeps the session; and each reply is given exactly when it should be. */
  lemma LoginAnswers(trials: seq<Trial>, now: int, luck: Luck, after: int, duration: int)
    ensures AnswersLike(Judge(UserAfter(trials, after, duration), now, luck, after, duration),
                        Failures(trials, after, duration), now, luck, after, duration)
  {
    StoredStateIsHistory(trials, after, duration);
  }

  /** Until a lockout is over, whatever is presented is refused and changes nothing; and no session is
      created without right credentials. */
  lemma NoSessionWhileLocked(trials: seq<Trial>, now: int, luck: Luck, after: int, duration: int)
    ensures var user, failures := UserAfter(trials, after, duration), Failures(trials, after, duration);
            var judged := Judge(user, now, luck, after, duration);
            && (|failures| >= after && failures != [] && now < failures[|failures| - 1] + duration ==>
                  judged == Judged(user, AccountLocked, false))
            && (judged.session ==>
                  && luck.credentialsValid && judged.user == User(0, None)
                  && (|failures| < after || failures == [] || now >= failures[|failures| - 1] + duration))
  {
    StoredStateIsHistory(trials, after, duration);
  }
}
