/**
 * The connection retry loop of `Application.connect`: up to MaxCountOfFails
 * attempts to open a session against the database, a fixed sleep after every
 * transient failure, and an immediate process exit when the credentials are
 * rejected.
 *
 * The database is not modelled; what each attempt would observe is the input
 * `outcome`, whose i-th value is the outcome of the i-th attempt.
 */
module Connection {

  import opened Wrappers

  /** Seconds are not modelled: a sleep is a counted event of this many milliseconds. */
  const TimeBetweenConnectionTries: nat := 2000
  const MaxCountOfFails: nat := 10
  /** The message of the ConnectException thrown when every attempt failed. */
  const UnableToConnect: string := "Unable to connect to localhost:7687"
  /** The status `exitProcess` is called with when authentication fails. */
  const AuthFailureStatus: int := 1

  /**
   * What one attempt observes: a session factory that opened a session,
   * a ConnectionException (database not reachable, not ready), or an
   * AuthenticationException (credentials rejected).
   */
  datatype Attempt<S, F> =
    | Opened(factory: F, session: S)
    | ConnectionFailure
    | AuthenticationFailure

  /** How `connect` ends: the returned Pair, the thrown ConnectException, or exitProcess. */
  datatype Connection<S, F> =
    | Connected(session: S, factory: F)
    | ConnectError(message: string)
    | Exit(status: int)

  /** The end of one run of the loop: its result, the final `fails`, the sleeps and the attempts made. */
  datatype ConnectRun<S, F> = ConnectRun(result: Connection<S, F>, fails: nat, sleeps: nat, tries: nat)

  /**
   * The loop of `connect` entered with `fails` transient failures behind it:
   * its final result and counters.
   */
  function RetryFrom<S, F>(outcome: nat -> Attempt<S, F>, fails: nat): (run: ConnectRun<S, F>)
    requires fails <= MaxCountOfFails
    ensures fails <= run.fails <= MaxCountOfFails
    ensures run.sleeps == run.fails
    ensures run.tries == if run.result.ConnectError? then run.fails else run.fails + 1
    ensures run.result.ConnectError? ==> run.fails == MaxCountOfFails
    decreases MaxCountOfFails - fails
  {
    if fails == MaxCountOfFails then
      ConnectRun(ConnectError(UnableToConnect), fails, fails, fails)
    else
      match outcome(fails)
      case Opened(factory, session) => ConnectRun(Connected(session, factory), fails, fails, fails + 1)
      case AuthenticationFailure => ConnectRun(Exit(AuthFailureStatus), fails, fails, fails + 1)
      case ConnectionFailure => RetryFrom(outcome, fails + 1)
  }

  /**
   * `connect`: the while loop over `fails`, `session` and `sessionFactory`.
   * A ConnectionException resets the factory, counts one failure and sleeps once;
   * an AuthenticationException exits at once; the first opened session ends the loop.
   */
  method Connect<S, F>(outcome: nat -> Attempt<S, F>) returns (run: ConnectRun<S, F>)
    ensures run == RetryFrom(outcome, 0)
    ensures run.fails <= MaxCountOfFails
  {
    var fails: nat := 0;
    var sleeps: nat := 0;
    var tries: nat := 0;
    var sessionFactory: Option<F> := None;
    var session: Option<S> := None;
    while session.None? && fails < MaxCountOfFails
      invariant fails <= MaxCountOfFails && sleeps == fails
      invariant session.None? ==> sessionFactory.None? && tries == fails
      invariant session.None? ==> RetryFrom(outcome, 0) == RetryFrom(outcome, fails)
      invariant session.Some? ==> sessionFactory.Some? && tries == fails + 1
      invariant session.Some? ==>
                  RetryFrom(outcome, 0) == ConnectRun(Connected(session.value, sessionFactory.value), fails, fails, tries)
      decreases MaxCountOfFails - fails, session.None?
    {
      match outcome(tries)
      case Opened(factory, newSession) =>
        sessionFactory := Some(factory);
        session := Some(newSession);
        tries := tries + 1;
      case ConnectionFailure =>
        sessionFactory := None;
        fails := fails + 1;
        sleeps := sleeps + 1;
        tries := tries + 1;
      case AuthenticationFailure =>
        tries := tries + 1;
        return ConnectRun(Exit(AuthFailureStatus), fails, sleeps, tries);
    }
    if session.None? || sessionFactory.None? {
      return ConnectRun(ConnectError(UnableToConnect), fails, sleeps, tries);
    }
    return ConnectRun(Connected(session.value, sessionFactory.value), fails, sleeps, tries);
  }

  /** Transient failures from `from` up to `k` only move the loop on to `k`. */
  lemma {:induction false} SkipTransients<S, F>(outcome: nat -> Attempt<S, F>, from: nat, k: nat)
    requires from <= k <= MaxCountOfFails
    requires forall i :: from <= i < k ==> outcome(i).ConnectionFailure?
    ensures RetryFrom(outcome, from) == RetryFrom(outcome, k)
    decreases k - from
  {
    if from < k {
      SkipTransients(outcome, from + 1, k);
    }
  }

  /**
   * What any run of the loop consumed: every attempt before the final `fails`
   * was transient, and unless the budget ran out, the attempt at index `fails`
   * is the one that decided the result (its session and factory, or the exit).
   */
  lemma {:induction false} RetryDecidedByFirstNonTransient<S, F>(outcome: nat -> Attempt<S, F>, from: nat)
    requires from <= MaxCountOfFails
    ensures var run := RetryFrom(outcome, from);
      && (forall i :: from <= i < run.fails ==> outcome(i).ConnectionFailure?)
      && (run.result.ConnectError? <==> run.fails == MaxCountOfFails)
      && (run.result.Connected? <==> run.fails < MaxCountOfFails && outcome(run.fails).Opened?)
      && (run.result.Connected? ==> outcome(run.fails) == Opened(run.result.factory, run.result.session))
      && (run.result.Exit? <==>
            run.fails < MaxCountOfFails && outcome(run.fails).AuthenticationFailure?)
    decreases MaxCountOfFails - from
  {
    if from < MaxCountOfFails && outcome(from).ConnectionFailure? {
      RetryDecidedByFirstNonTransient(outcome, from + 1);
    }
  }

  /**
   * When the database is never reachable, `connect` makes exactly
   * MaxCountOfFails attempts, sleeps after each (20 seconds in all), and throws
   * ConnectException with the message "Unable to connect to localhost:7687".
   */
  lemma AllTransientExhausts<S, F>(outcome: nat -> Attempt<S, F>)
    requires forall i :: 0 <= i < MaxCountOfFails ==> outcome(i).ConnectionFailure?
    ensures RetryFrom(outcome, 0) ==
      ConnectRun(ConnectError(UnableToConnect), MaxCountOfFails, MaxCountOfFails, MaxCountOfFails)
    ensures RetryFrom(outcome, 0).sleeps * TimeBetweenConnectionTries == 20000
  {
    SkipTransients(outcome, 0, MaxCountOfFails);
  }

  /**
   * k transient failures (k < MaxCountOfFails) followed by an opened session:
   * `connect` returns exactly that session and the factory that opened it,
   * after k failures and k sleeps.
   */
  lemma TransientsThenOpened<S, F>(outcome: nat -> Attempt<S, F>, k: nat, factory: F, session: S)
    requires k < MaxCountOfFails
    requires forall i :: 0 <= i < k ==> outcome(i).ConnectionFailure?
    requires outcome(k) == Opened(factory, session)
    ensures RetryFrom(outcome, 0) == ConnectRun(Connected(session, factory), k, k, k + 1)
  {
    SkipTransients(outcome, 0, k);
  }

  /**
   * An AuthenticationException ends the run with exit status 1 at once: no
   * further attempt is made and `fails` keeps the count of the transient
   * failures before it.
   */
  lemma TransientsThenAuthExits<S, F>(outcome: nat -> Attempt<S, F>, k: nat)
    requires k < MaxCountOfFails
    requires forall i :: 0 <= i < k ==> outcome(i).ConnectionFailure?
    requires outcome(k).AuthenticationFailure?
    ensures RetryFrom(outcome, 0) == ConnectRun(Exit(AuthFailureStatus), k, k, k + 1)
  {
    SkipTransients(outcome, 0, k);
  }
}
