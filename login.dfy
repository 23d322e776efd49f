/** The login retry loop of the scraper (`EnhancedInstagramScraper._safe_login`).
    The body of its `try` block (the library's `login`, then saving the session
    when a session file was given) is abstracted as the sequence of outcomes its
    successive passes produce; `time.sleep` is recorded in a log of seconds,
    and saving the session file is reported as a flag. */
module Login {
  import opened Text

  /** At most this many calls to the library's login. */
  const MaxAttempts: nat := 3
  /** Seconds slept between two failed attempts. */
  const RetryDelay: int := 60

  /** What one pass of the `try` block did: the library's `login` and, when a
      session file was given, `save_session_to_file` both returned (`LoginOk`),
      or one of them raised with this text (`LoginError`). A save that raises
      after a successful login is therefore a `LoginError`: it is logged, tested
      for "checkpoint" and retried like a refused login. */
  datatype Attempt = LoginOk | LoginError(message: string)

  /** The error text names a checkpoint challenge (case-insensitive); the code only
      logs a hint for it. */
  predicate IsCheckpoint(message: string)
  {
    Contains(Lower(message), "checkpoint")
  }

  /** The 1-based attempt numbers, in order, whose failure logged the checkpoint hint. */
  function CheckpointHints(outcomes: seq<Attempt>): (hints: seq<nat>)
    ensures forall n :: n in hints <==>
      1 <= n <= |outcomes| && outcomes[n - 1].LoginError? && IsCheckpoint(outcomes[n - 1].message)
    ensures forall i :: 0 <= i < |hints| ==> 1 <= hints[i] <= |outcomes|
    ensures forall i, j :: 0 <= i < j < |hints| ==> hints[i] < hints[j]
  {
    if outcomes == [] then []
    else
      var n := |outcomes|;
      var last := outcomes[n - 1];
      var earlier := CheckpointHints(outcomes[..n - 1]);
      earlier + (if last.LoginError? && IsCheckpoint(last.message) then [n] else [])
  }

  /** `_safe_login`: try the login up to three times, sleeping 60 s after every
      failed attempt but the last; on the first success save the session (when a
      session file was given) and report success. */
  method SafeLogin(outcomes: seq<Attempt>, hasSessionFile: bool)
    returns (loggedIn: bool, attempts: nat, sleeps: seq<int>, hints: seq<nat>, sessionSaved: bool)
    requires |outcomes| >= MaxAttempts
    ensures 1 <= attempts <= MaxAttempts
    ensures forall i :: 0 <= i < attempts - 1 ==> outcomes[i].LoginError?
    ensures loggedIn <==> outcomes[attempts - 1].LoginOk?
    ensures loggedIn <==> exists i :: 0 <= i < MaxAttempts && outcomes[i].LoginOk?
    ensures !loggedIn ==> attempts == MaxAttempts
    ensures |sleeps| == attempts - 1
    ensures forall i :: 0 <= i < |sleeps| ==> sleeps[i] == RetryDelay
    ensures hints == CheckpointHints(outcomes[..attempts])
    ensures sessionSaved <==> loggedIn && hasSessionFile
  {
    loggedIn, sessionSaved := false, false;
    sleeps, hints := [], [];
    attempts := 0;
    var attempt := 0;
    while attempt < MaxAttempts
      invariant 0 <= attempt <= MaxAttempts
      invariant attempts == attempt
      invariant forall i :: 0 <= i < attempt ==> outcomes[i].LoginError?
      invariant |sleeps| == if attempt < MaxAttempts then attempt else MaxAttempts - 1
      invariant forall i :: 0 <= i < |sleeps| ==> sleeps[i] == RetryDelay
      invariant hints == CheckpointHints(outcomes[..attempt])
      invariant !loggedIn && !sessionSaved
    {
      attempts := attempt + 1;
      assert outcomes[..attempt + 1][..attempt] == outcomes[..attempt];
      assert CheckpointHints(outcomes[..attempt + 1]) == CheckpointHints(outcomes[..attempt])
        + (if outcomes[attempt].LoginError? && IsCheckpoint(outcomes[attempt].message) then [attempt + 1] else []);
      if outcomes[attempt].LoginOk? {
        assert 0 <= attempt < MaxAttempts && outcomes[attempt].LoginOk?;
        sessionSaved := hasSessionFile;
        loggedIn := true;
        return;
      }
      if IsCheckpoint(outcomes[attempt].message) {
        hints := hints + [attempt + 1];
      }
      if attempt < MaxAttempts - 1 {
        sleeps := sleeps + [RetryDelay];
      }
      attempt := attempt + 1;
    }
    assert forall i :: 0 <= i < MaxAttempts ==> outcomes[i].LoginError?;
  }
}
