/** The execution of a single record command over its attempts, and what the `in_doubt` flag of its error says.

What happens in an attempt (the node, the connection, the socket, the server's answer and the clock) comes from
outside: attempt k is `env(k)`. */
module InDoubt {
  import opened Prelude

  // Status codes that decide a branch.
  const OK: int := 0
  const TIMEOUT: int := 9
  const CLUSTER: int := 11
  const DEVICE_OVERLOAD: int := 18
  const CONNECTION: int := -10
  const INVALID_NODE: int := -8
  const MAX_ERROR_RATE: int := -14

  datatype Outcome =
    | NoNode                    // no node for the partition
    | ErrorRate                 // the node's error rate is too high
    | NoConnection(code: int)   // no connection; a positive code is an answer of the server to the authentication
    | WriteFailed(code: int)    // the command could not be written
    | Answered(code: int)       // the command was sent; the status of reading the answer

  /** What became of a batch command that was split among other nodes instead of being tried again. */
  datatype Splitting = Splitting(status: int, inDoubt: bool)

  /** `expired`: no time is left after this attempt; `split`: the command is a batch and its retry was handed to other
      commands. */
  datatype Attempt = Attempt(outcome: Outcome, expired: bool, split: Option<Splitting>)

  type Env = nat -> Attempt

  /** What the connection and socket layers return: a failed write is a timeout or a connection error, and without
      authentication so is a missing connection. */
  predicate PossibleOutcome(o: Outcome, auth: bool)
  {
    match o
    case NoConnection(c) => c != OK && (auth || c == TIMEOUT || c < 0)
    case WriteFailed(c) => c == TIMEOUT || c < 0
    case _ => true
  }

  /** The attempts of a single record command; `auth`: the cluster authenticates connections. */
  ghost predicate PossibleIn(env: Env, auth: bool)
  {
    forall k: nat :: PossibleOutcome(env(k).outcome, auth) && env(k).split.None?
  }

  ghost predicate Possible(env: Env) { PossibleIn(env, true) }

  // ---------- the error ----------

  class Error {
    var code: int
    var inDoubt: bool

    constructor ()
      ensures code == OK && !inDoubt
    {
      code, inDoubt := OK, false;
    }

    /** `as_error_update`, `as_error_set_message`, `as_error_reset`: every setter clears the flag. */
    method Set(code: int)
      modifies this
      ensures this.code == code && !inDoubt
    {
      this.code, inDoubt := code, false;
    }

    /** `as_error_set_in_doubt`: the flag is absent exactly if the command was a read, was never sent, or was sent once
        and answered with an error of the server. */
    method SetInDoubt(isRead: bool, sent: nat)
      modifies this
      ensures code == old(code) && inDoubt == Flag(isRead, sent, code)
      ensures !inDoubt <==> isRead || sent == 0 || (sent == 1 && code > 0 && code != TIMEOUT)
    {
      inDoubt := !isRead && (sent > 1 || (sent == 1 && (code == TIMEOUT || code <= 0)));
    }
  }

  function Flag(isRead: bool, sent: nat, code: int): bool
  {
    !isRead && (sent > 1 || (sent == 1 && (code == TIMEOUT || code <= 0)))
  }

  // ---------- execution ----------

  /** `attempts` is the number of attempts made, `sent` how many of them sent the command. */
  datatype Result = Result(status: int, inDoubt: bool, sent: nat, attempts: nat)

  function Retryable(code: int): bool { code in {CLUSTER, DEVICE_OVERLOAD, CONNECTION, TIMEOUT} }

  /** How an attempt goes on: the status so far, and whether the command may be tried again. */
  datatype Verdict = Final(code: int) | Again(code: int)

  function Judge(o: Outcome): Verdict
  {
    match o
    case NoNode => Final(INVALID_NODE)
    case ErrorRate => Again(MAX_ERROR_RATE)
    case NoConnection(c) => if c > 0 && c != TIMEOUT then Final(c) else Again(c)
    case WriteFailed(c) => Again(c)
    case Answered(c) => if c != OK && Retryable(c) then Again(c) else Final(c)
  }

  function Sends(o: Outcome): nat { if o.Answered? then 1 else 0 }

  /** The run from attempt k on. */
  function Exec(isRead: bool, maxRetries: nat, env: Env, k: nat, sent: nat): Result
    requires k <= maxRetries
    decreases maxRetries - k
  {
    var a := env(k);
    var n := sent + Sends(a.outcome);
    match Judge(a.outcome)
    case Final(c) => Result(c, c != OK && Flag(isRead, n, c), n, k + 1)
    case Again(c) =>
      if k == maxRetries || a.expired then Result(c, Flag(isRead, n, c), n, k + 1)
      else if a.split.Some? then Result(a.split.value.status, a.split.value.inDoubt, n, k + 1)
      else Exec(isRead, maxRetries, env, k + 1, n)
  }

  /** `as_command_prepare_error`: the flag, and whether the transaction of the command is told of a write in doubt. */
  method PrepareError(isRead: bool, sent: nat, inTxn: bool, err: Error) returns (told: bool)
    modifies err
    ensures err.code == old(err.code) && err.inDoubt == Flag(isRead, sent, err.code) && told == (err.inDoubt && inTxn)
  {
    err.SetInDoubt(isRead, sent);
    told := err.inDoubt && inTxn;
  }

  /** `as_command_execute`, without the node and connection handling.  The transaction is told exactly of a write the
      flag is set for, unless a split batch settled the command. */
  method Execute(isRead: bool, inTxn: bool, maxRetries: nat, env: Env, err: Error)
    returns (status: int, sent: nat, told: bool, split: bool)
    requires err.code == OK && !err.inDoubt
    requires forall k: nat :: env(k).outcome.NoConnection? || env(k).outcome.WriteFailed? ==> env(k).outcome.code != OK
    modifies err
    ensures var r := Exec(isRead, maxRetries, env, 0, 0);
            status == r.status && sent == r.sent && err.code == status && err.inDoubt == r.inDoubt
    ensures told == (!split && err.inDoubt && inTxn) && (split ==> exists k: nat :: env(k).split.Some?)
  {
    sent, told, split := 0, false, false;
    var iteration := 0;
    ghost var goal := Exec(isRead, maxRetries, env, 0, 0);
    while true
      invariant 0 <= iteration <= maxRetries && !told && !split
      invariant Exec(isRead, maxRetries, env, iteration, sent) == goal
      invariant iteration == 0 ==> err.code == OK && !err.inDoubt
      decreases maxRetries - iteration
    {
      var a := env(iteration);
      match a.outcome {
        case NoNode =>
          err.Set(INVALID_NODE);
          told := PrepareError(isRead, sent, inTxn, err);
          status := err.code;
          return;
        case ErrorRate =>
          err.Set(MAX_ERROR_RATE);
        case NoConnection(c) =>
          err.Set(c);
          if c > 0 && c != TIMEOUT {
            told := PrepareError(isRead, sent, inTxn, err);
            status := c;
            return;
          }
        case WriteFailed(c) =>
          err.Set(c);
        case Answered(c) =>
          sent := sent + 1;
          if c == OK {
            if iteration > 0 { err.Set(OK); }
            status := c;
            return;
          }
          err.code := c;
          if !Retryable(c) {
            told := PrepareError(isRead, sent, inTxn, err);
            status := c;
            return;
          }
      }
      iteration := iteration + 1;
      if iteration > maxRetries || a.expired {
        break;
      }
      if a.split.Some? {
        err.code, err.inDoubt := a.split.value.status, a.split.value.inDoubt;
        status, split := err.code, true;
        return;
      }
    }
    told := PrepareError(isRead, sent, inTxn, err);
    status := err.code;
  }

  // ---------- what the flag says ----------

  /** Attempt k sent the command and its effect is unknown: it timed out or the client failed to read an answer. */
  predicate Unknown(o: Outcome) { o.Answered? && (o.code == TIMEOUT || o.code < 0) }

  ghost predicate MayHaveCompleted(env: Env, r: Result)
  {
    exists k: nat :: k < r.attempts && Unknown(env(k).outcome)
  }

  /** The run ended because the server refused a connection. */
  predicate Refused(env: Env, r: Result)
  {
    r.attempts > 0 && var o := env(r.attempts - 1).outcome; o.NoConnection? && o.code > 0 && o.code != TIMEOUT
  }

  function SentBefore(env: Env, k: nat): nat
  {
    if k == 0 then 0 else SentBefore(env, k - 1) + if env(k - 1).outcome.Answered? then 1 else 0
  }

  /** The facts of a run, by following it. */
  lemma {:induction false} Followed(isRead: bool, maxRetries: nat, env: Env, k: nat)
    requires k <= maxRetries && Possible(env)
    ensures var r := Exec(isRead, maxRetries, env, k, SentBefore(env, k));
            && k < r.attempts <= maxRetries + 1
            && r.sent == SentBefore(env, r.attempts)
            && r.status == Judge(env(r.attempts - 1).outcome).code
            && r.inDoubt == (r.status != OK && Flag(isRead, r.sent, r.status))
            && (forall j: nat :: k <= j < r.attempts - 1 ==> Judge(env(j).outcome).Again?)
    decreases maxRetries - k
  {
    assert PossibleOutcome(env(k).outcome, true);
    if Judge(env(k).outcome).Again? && k < maxRetries && !env(k).expired {
      Followed(isRead, maxRetries, env, k + 1);
    }
  }

  // ---------- when a run stops ----------

  /** After what an attempt may be followed by another one. */
  predicate TriedAgain(o: Outcome)
  {
    match o
    case NoNode => false
    case ErrorRate => true
    case NoConnection(c) => c < 0 || c == 9
    case WriteFailed(_) => true
    case Answered(c) => c == 11 || c == 18 || c == -10 || c == 9
  }

  function StatusOf(o: Outcome): int
  {
    match o
    case NoNode => -8
    case ErrorRate => -14
    case NoConnection(c) => c
    case WriteFailed(c) => c
    case Answered(c) => c
  }

  /** What the caller of a failed write must be told of: it was sent twice, or once with a timeout or a failure on the
      client's side. */
  predicate MustTell(isRead: bool, sent: nat, status: int)
  {
    !isRead && status != 0 && (sent >= 2 || (sent == 1 && (status == 9 || status < 0)))
  }

  /** No code of a failed connection or write is the code of success. */
  ghost predicate Failing(env: Env)
  {
    forall k: nat :: env(k).outcome.NoConnection? || env(k).outcome.WriteFailed? ==> env(k).outcome.code != OK
  }

  /** What ends a run, when its last attempt was number k. */
  ghost predicate StopsAt(maxRetries: nat, env: Env, k: nat)
  {
    !TriedAgain(env(k).outcome) || k == maxRetries || env(k).expired || env(k).split.Some?
  }

  ghost predicate GoesOn(env: Env, k: nat)
  {
    TriedAgain(env(k).outcome) && !env(k).expired && env(k).split.None?
  }

  lemma {:induction false} StopsFrom(isRead: bool, maxRetries: nat, env: Env, k: nat)
    requires k <= maxRetries && Failing(env)
    ensures var r := Exec(isRead, maxRetries, env, k, SentBefore(env, k));
            && k < r.attempts <= maxRetries + 1 && r.sent == SentBefore(env, r.attempts)
            && (forall j: nat :: k <= j < r.attempts - 1 ==> GoesOn(env, j))
            && StopsAt(maxRetries, env, r.attempts - 1)
            && var a := env(r.attempts - 1);
               if TriedAgain(a.outcome) && r.attempts <= maxRetries && !a.expired
               then r.status == a.split.value.status && r.inDoubt == a.split.value.inDoubt
               else r.status == StatusOf(a.outcome) && r.inDoubt == MustTell(isRead, r.sent, r.status)
    decreases maxRetries - k
  {
    assert env(k).outcome.NoConnection? || env(k).outcome.WriteFailed? ==> env(k).outcome.code != OK;
    if GoesOn(env, k) && k < maxRetries { StopsFrom(isRead, maxRetries, env, k + 1); }
  }

  /** Every run: each attempt before the last could be tried again, left time for it and was not split; the last one
      could not, or was the last allowed, or used up the time, or was split.  Its status is the run's, unless the split
      settled the command, and the command was sent as often as an attempt got as far as an answer. */
  lemma RunStops(isRead: bool, maxRetries: nat, env: Env)
    requires Failing(env)
    ensures var r := Exec(isRead, maxRetries, env, 0, 0);
            && 0 < r.attempts <= maxRetries + 1 && r.sent == SentBefore(env, r.attempts)
            && (forall j: nat :: j < r.attempts - 1 ==> GoesOn(env, j))
            && StopsAt(maxRetries, env, r.attempts - 1)
            && var a := env(r.attempts - 1);
               if TriedAgain(a.outcome) && r.attempts <= maxRetries && !a.expired
               then r.status == a.split.value.status && r.inDoubt == a.split.value.inDoubt
               else r.status == StatusOf(a.outcome) && r.inDoubt == MustTell(isRead, r.sent, r.status)
  {
    StopsFrom(isRead, maxRetries, env, 0);
  }

  lemma {:induction false} SentAtLeast(env: Env, k: nat, j: nat)
    requires j < k && env(j).outcome.Answered?
    ensures SentBefore(env, k) >= 1
  {
    if j < k - 1 { SentAtLeast(env, k - 1, j); }
  }

  /** One sent attempt: no other attempt sent anything. */
  lemma {:induction false} OnlySent(env: Env, k: nat, i: nat, j: nat)
    requires i < j < k && env(i).outcome.Answered? && env(j).outcome.Answered?
    ensures SentBefore(env, k) >= 2
  {
    if j < k - 1 { OnlySent(env, k - 1, i, j); } else { SentAtLeast(env, k - 1, i); }
  }

  /** A failed write without the flag was never sent, or sent once and ended with a positive status that is not a
      timeout; a write sent twice or more always has the flag; a read never has it, and success never has it. */
  lemma FlagMeans(isRead: bool, maxRetries: nat, env: Env)
    requires Possible(env)
    ensures var r := Exec(isRead, maxRetries, env, 0, 0);
            && (isRead || r.status == OK ==> !r.inDoubt)
            && (!isRead && r.status != OK && !r.inDoubt ==>
                  r.sent == 0 || (r.sent == 1 && r.status > 0 && r.status != TIMEOUT))
            && (!isRead && r.status != OK && r.sent >= 2 ==> r.inDoubt)
            && (r.inDoubt ==> r.sent >= 1)
            && r.attempts <= maxRetries + 1 && r.sent <= r.attempts
  {
    Followed(isRead, maxRetries, env, 0);
    SentAtMost(env, Exec(isRead, maxRetries, env, 0, 0).attempts);
  }

  lemma {:induction false} SentAtMost(env: Env, k: nat)
    ensures SentBefore(env, k) <= k
  {
    if k > 0 { SentAtMost(env, k - 1); }
  }

  /** Soundness, exactly: a failed write that may have completed has the flag unless the command was sent only once and
      a later attempt ended the run because the server refused the connection. */
  lemma InDoubtExact(maxRetries: nat, env: Env)
    requires Possible(env)
    ensures var r := Exec(false, maxRetries, env, 0, 0);
            r.status != OK && MayHaveCompleted(env, r) ==> (r.inDoubt <==> !(r.sent == 1 && Refused(env, r)))
  {
    var r := Exec(false, maxRetries, env, 0, 0);
    Followed(false, maxRetries, env, 0);
    var last := env(r.attempts - 1).outcome;
    if r.status != OK && MayHaveCompleted(env, r) && !r.inDoubt {
      var k: nat :| k < r.attempts && Unknown(env(k).outcome);
      SentAtLeast(env, r.attempts, k);
      assert r.sent == 1 && r.status > 0 && r.status != TIMEOUT;
      MissedLast(maxRetries, env, r, k);
    }
  }

  /** With one send of unknown effect and a definite final status, the last attempt was refused a connection. */
  lemma MissedLast(maxRetries: nat, env: Env, r: Result, k: nat)
    requires Possible(env) && k < r.attempts && Unknown(env(k).outcome)
    requires r.sent == SentBefore(env, r.attempts) == 1 && r.status == Judge(env(r.attempts - 1).outcome).code
    requires r.status > 0 && r.status != TIMEOUT
    ensures Refused(env, r)
  {
    var last := env(r.attempts - 1).outcome;
    assert PossibleOutcome(last, true);
    if last.Answered? && k < r.attempts - 1 {
      OnlySent(env, r.attempts, k, r.attempts - 1);
    }
  }

  /** A write that may have completed is reported as in doubt. */
  ghost predicate Sound(maxRetries: nat, env: Env)
  {
    var r := Exec(false, maxRetries, env, 0, 0);
    r.status != OK && MayHaveCompleted(env, r) ==> r.inDoubt
  }

  /** Sent, timed out, then refused by the server on every new connection. */
  function SentThenRefused(): Env
  {
    (k: nat) => if k == 0 then Attempt(Answered(TIMEOUT), false, None) else Attempt(NoConnection(65), false, None)
  }

  /** That write is reported as not in doubt, for every positive number of retries. */
  lemma MissedExample(maxRetries: nat)
    requires maxRetries > 0
    ensures var env := SentThenRefused();
            var r := Exec(false, maxRetries, env, 0, 0);
            Possible(env) && r == Result(65, false, 1, 2) && MayHaveCompleted(env, r) && !Sound(maxRetries, env)
  {
    var env := SentThenRefused();
    assert Exec(false, maxRetries, env, 1, 1) == Result(65, false, 1, 2);
    assert Unknown(env(0).outcome);
  }

  /** What is known before the call: the flag can be trusted in every environment exactly if there are no retries or the
      cluster does not authenticate. */
  lemma SoundIff(maxRetries: nat, auth: bool)
    ensures (forall env: Env :: PossibleIn(env, auth) ==> Sound(maxRetries, env)) <==> maxRetries == 0 || !auth
  {
    if maxRetries > 0 && auth {
      MissedExample(maxRetries);
    } else {
      forall env: Env | PossibleIn(env, auth) ensures Sound(maxRetries, env) { TrustedFlag(maxRetries, auth, env); }
    }
  }

  lemma TrustedFlag(maxRetries: nat, auth: bool, env: Env)
    requires PossibleIn(env, auth) && (maxRetries == 0 || !auth)
    ensures Sound(maxRetries, env)
  {
    AlsoPossible(env, auth);
    InDoubtExact(maxRetries, env);
    Followed(false, maxRetries, env, 0);
    var r := Exec(false, maxRetries, env, 0, 0);
    assert PossibleOutcome(env(r.attempts - 1).outcome, auth);
  }

  lemma AlsoPossible(env: Env, auth: bool)
    requires PossibleIn(env, auth)
    ensures Possible(env)
  {
    forall k: nat ensures PossibleOutcome(env(k).outcome, true) { assert PossibleOutcome(env(k).outcome, auth); }
  }
}
