/** The lease guard of one claimed job.

    A worker that has claimed a job keeps one dictionary and one stop event behind one
    condition variable. A renewal thread and the executing thread both use them. This module
    gives every critical section of that code as a function on the shared record.
    Times are readings of the worker's monotonic clock, in seconds. */
module LeaseGuard {
  import opened Common

  datatype Status = Unconfirmed | Healthy | Lost | GracefulStop

  /** What the two threads share. */
  datatype Shared = Shared(deadline: real, status: Status, attempt: nat, renewing: bool, stopped: bool)

  const Fresh := Shared(0.0, Unconfirmed, 0, false, false)

  /** What a health check or a handoff check tells its caller. */
  datatype Verdict = Cleared | Raised | Waits

  function Margin(lease: real): real
  {
    if lease / 10.0 < 1.0 then lease / 10.0 else 1.0
  }

  /** How long after the start of an acknowledged request the worker may still act. */
  function Window(lease: real): real
  {
    lease - Margin(lease)
  }

  predicate Dead(sh: Shared)
  {
    sh.status == Lost || sh.status == GracefulStop
  }

  function Lose(sh: Shared): Shared
  {
    sh.(status := Lost)
  }

  /** Opening section of an attempt; the flag says whether a request may be sent. */
  function Begin(sh: Shared, started: real, initial: bool): (Shared, bool)
  {
    if sh.stopped || sh.status == Lost then (sh, false)
    else if !initial && started >= sh.deadline then (Lose(sh), false)
    else (sh.(attempt := sh.attempt + 1, renewing := true), true)
  }

  /** The request's fate is unknown. A first request never confirmed anything, so nothing is
      recorded and the guard is refused. */
  function TransportFailed(sh: Shared, initial: bool, now: real): (Shared, bool)
  {
    if initial then (sh, false)
    else if now >= sh.deadline then (Lose(sh), false)
    else (sh.(status := Unconfirmed), true)
  }

  /** The request was acknowledged. The window grows exactly when the owner is not lost and the
      answer came inside both the window it extends and the window it grants. */
  function Acked(lease: real, sh: Shared, started: real, previous: Option<real>, now: real): (r: (Shared, bool))
    ensures r.1 <==> sh.status != Lost && (previous.Some? ==> now < previous.value) && now < started + Window(lease)
    ensures r.1 ==> r.0.status == Healthy && now < r.0.deadline
    ensures !r.1 ==> r.0 == Lose(sh)
  {
    if sh.status == Lost then (sh, false)
    else if previous.Some? && now >= previous.value then (Lose(sh), false)
    else if now >= started + Window(lease) then (Lose(sh), false)
    else (sh.(deadline := started + Window(lease), status := Healthy), true)
  }

  /** Closing section of an attempt. */
  function Settled(sh: Shared): Shared
  {
    sh.(renewing := false)
  }

  /** One turn of the health check. It raises exactly when waiting cannot help. */
  function Check(sh: Shared, now: real): (r: (Shared, Verdict))
    ensures r.1 == Cleared <==> sh.status == Healthy && now < sh.deadline
    ensures r.1 == Waits <==> sh.status == Unconfirmed && now < sh.deadline
    ensures r.0 == if r.1 == Raised then Lose(sh) else sh
  {
    if Dead(sh) || sh.deadline - now <= 0.0 then (Lose(sh), Raised)
    else if sh.status == Healthy then (sh, Cleared)
    else (sh, Waits)
  }

  /** One turn of the handoff's first section: only a confirmed, quiet owner may stop its verifier. */
  function Gate(sh: Shared, now: real): (Shared, Verdict)
  {
    if Dead(sh) || sh.deadline - now <= 0.0 then (Lose(sh), Raised)
    else if sh.status == Healthy && !sh.renewing then (sh.(stopped := true), Cleared)
    else (sh, Waits)
  }

  /** The handoff's last section, after the renewal thread is gone. */
  function Commit(sh: Shared, now: real): (Shared, Verdict)
  {
    if sh.status != Healthy || now >= sh.deadline then (Lose(sh), Raised)
    else (sh.(status := GracefulStop), Cleared)
  }

  function Stop(sh: Shared): Shared
  {
    sh.(stopped := true)
  }

  function Close(sh: Shared): Shared
  {
    if Dead(sh) then sh else sh.(status := GracefulStop)
  }
}
