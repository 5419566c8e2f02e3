/** Waiting for the exit status of a running enclave. */
module ExitWait {
  import opened Bytes

  datatype ExitStatus = Exited(code: int) | Signaled(signal: int) | Fatal(error: string) | Cancelled

  datatype WaitError = GaveUp

  const STATUS_RETRY_LIMIT: nat := 100

  datatype StatusLine = Running | Unreadable | Terminal(status: ExitStatus)

  /** One connection attempt: refused, or accepted and then some lines until it drops. */
  datatype Attempt = Refused | Connected(lines: seq<StatusLine>)

  function FirstTerminal(lines: seq<StatusLine>): Option<ExitStatus> {
    if lines == [] then None
    else if lines[0].Terminal? then Some(lines[0].status)
    else FirstTerminal(lines[1..])
  }

  function RefusedCount(script: seq<Attempt>): nat {
    if script == [] then 0
    else RefusedCount(script[..|script| - 1]) + if script[|script| - 1].Refused? then 1 else 0
  }

  ghost predicate NoStatus(script: seq<Attempt>) {
    forall i :: 0 <= i < |script| && script[i].Connected? ==> FirstTerminal(script[i].lines).None?
  }

  /** The wait ends after `used` attempts: with a status, with the hundredth refusal, or not yet. */
  ghost predicate Awaited(script: seq<Attempt>, r: Option<Result<ExitStatus, WaitError>>, used: nat) {
    && used <= |script|
    && (r.None? ==> used == |script| && NoStatus(script) && RefusedCount(script) < 100)
    && (r.Some? && r.value.Ok? ==>
          && used > 0 && NoStatus(script[..used - 1]) && RefusedCount(script[..used]) < 100
          && script[used - 1].Connected? && FirstTerminal(script[used - 1].lines) == Some(r.value.value))
    && (r.Some? && r.value.Err? ==>
          && used > 0 && script[used - 1].Refused? && NoStatus(script[..used])
          && RefusedCount(script[..used]) == 100 && r.value.error == GaveUp)
  }

  method ScanLines(lines: seq<StatusLine>) returns (r: Option<ExitStatus>)
    ensures r == FirstTerminal(lines)
  {
    var i := 0;
    assert lines[0..] == lines;
    while i < |lines|
      invariant 0 <= i <= |lines|
      invariant FirstTerminal(lines) == FirstTerminal(lines[i..])
    {
      assert lines[i..][1..] == lines[i + 1..];
      if lines[i].Terminal? { return Some(lines[i].status); }
      i := i + 1;
    }
    r := None;
  }

  /**
   * Follow the status channel through a given course of connection attempts; `None` means still
   * waiting when it ends. The refusals of the whole wait count, not only consecutive ones.
   */
  method AwaitExit(script: seq<Attempt>) returns (r: Option<Result<ExitStatus, WaitError>>, used: nat)
    ensures Awaited(script, r, used)
  {
    var failed := 0;
    used := 0;
    while used < |script|
      invariant 0 <= used <= |script|
      invariant NoStatus(script[..used]) && failed == RefusedCount(script[..used]) < STATUS_RETRY_LIMIT
    {
      assert script[..used + 1][..used] == script[..used];
      match script[used] {
        case Refused =>
          failed := failed + 1;
          used := used + 1;
          if failed >= STATUS_RETRY_LIMIT { return Some(Err(GaveUp)), used; }
        case Connected(lines) =>
          var status := ScanLines(lines);
          used := used + 1;
          if status.Some? { return Some(Ok(status.value)), used; }
      }
    }
    assert script[..used] == script;
    r := None;
  }
}
