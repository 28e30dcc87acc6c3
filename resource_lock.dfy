/**
 * `MiscMixin`'s resources lock: a process-wide reentrant lock, held through an exclusive
 * non-blocking `flock` on the resources pid file, with a count of the nested holders
 * (`RESOURCES_LOCK_F_REF`, `RESOURCES_LOCK_F_COUNT`), and the polling `lock_check`.
 *
 * The outcome of `flock` is an input: the `errno` of the `IOError` it raises, 0 when it
 * succeeds. The process id, and whether a process id is alive, are inputs as well.
 */
module ResourceLock {
  import opened Wrappers
  import opened Text

  const EAGAIN: int := 11
  const EACCES: int := 13

  /** `max_lock_count` of `lock_check`. */
  const MaxLockCount: nat := 600

  /**
   * The lock as the class fields and the file system hold it: whether the locked file object is
   * kept (`RESOURCES_LOCK_F_REF is not None`), the nesting count, and the pid file's contents
   * (`None` while the file does not exist).
   */
  datatype LockState = LockState(held: bool, count: nat, pidFile: Option<string>)

  /** No lock is held and nobody counts on one. */
  const Released: LockState := LockState(false, 0, None)

  /**
   * `create_pid_file_lock`: reentrant while the file object is kept; otherwise the pid file is
   * opened for writing (which empties it) and locked; on success it receives `str(pid)` and the
   * file object is kept; `EACCES`/`EAGAIN` means another process holds it (`False`); any other
   * error is raised, modelled as `Err(errno)`.
   */
  function PidFileLock(s: LockState, pid: int, flockErrno: int): (r: (LockState, Result<bool, int>))
    ensures s.held ==> r == (s, Ok(true))
    ensures !s.held ==> r.0.count == s.count && r.0.held == (flockErrno == 0)
    ensures !s.held && flockErrno == 0 ==> r == (s.(held := true, pidFile := Some(IntToString(pid))), Ok(true))
    ensures !s.held && flockErrno != 0 ==> r.0.pidFile == Some("")
    ensures !s.held && flockErrno != 0 ==>
      r.1 == (if flockErrno == EACCES || flockErrno == EAGAIN then Ok(false) else Err(flockErrno))
  {
    if s.held then (s, Ok(true))
    else if flockErrno == 0 then (s.(held := true, pidFile := Some(IntToString(pid))), Ok(true))
    else if flockErrno == EACCES || flockErrno == EAGAIN then (s.(pidFile := Some("")), Ok(false))
    else (s.(pidFile := Some("")), Err(flockErrno))
  }

  /** `resources_create_lock`: the count goes up exactly when the lock was obtained. */
  function Acquire(s: LockState, pid: int, flockErrno: int): (r: (LockState, Result<bool, int>))
    ensures r.1 == PidFileLock(s, pid, flockErrno).1
    ensures r.0.count == if r.1 == Ok(true) then s.count + 1 else s.count
    ensures r.1 == Ok(true) ==> r.0.held
  {
    var (t, outcome) := PidFileLock(s, pid, flockErrno);
    (if outcome == Ok(true) then t.(count := t.count + 1) else t, outcome)
  }

  /**
   * `resources_remove_lock`: the count goes down, never below 0; once it is 0 the file object
   * is unlocked and dropped and the pid file is deleted, even when the count already was 0.
   */
  function Release(s: LockState): (r: LockState)
    ensures r.count == if s.count > 0 then s.count - 1 else 0
    ensures r.count > 0 ==> r.held == s.held && r.pidFile == s.pidFile
    ensures r.count == 0 ==> r == Released
  {
    var c := if s.count > 0 then s.count - 1 else 0;
    if c > 0 then s.(count := c) else Released
  }

  /** The pid a pid file names: its first line, stripped, read as an integer. */
  function StoredPid(content: string): Option<int> {
    ParseInt(FirstLine(content))
  }

  /**
   * `check_pid_file_lock`: locked when the pid file exists, its first line is an integer, and
   * that integer is a live process other than `mypid`.
   */
  function CheckPidFileLock(pidFile: Option<string>, mypid: int, alive: int -> bool): (locked: bool)
    ensures pidFile.None? ==> !locked
    ensures locked ==> pidFile.Some? && StoredPid(pidFile.value).Some?
    ensures locked ==> StoredPid(pidFile.value).value != mypid && alive(StoredPid(pidFile.value).value)
    ensures (pidFile.Some? && StoredPid(pidFile.value).Some? && StoredPid(pidFile.value).value != mypid &&
             alive(StoredPid(pidFile.value).value)) ==> locked
  {
    if pidFile.None? then false
    else match StoredPid(pidFile.value)
      case None => false
      case Some(p) => p != mypid && alive(p)
  }

  /** The lock is held exactly while somebody counts on it. */
  predicate Consistent(s: LockState) {
    s.held <==> s.count > 0
  }

  /** The class-level fields of `MiscMixin` that implement the lock, and the pid file. */
  class ResourcesLock {
    var held: bool
    var count: nat
    var pidFile: Option<string>

    constructor (file: Option<string>)
      ensures State() == LockState(false, 0, file)
    {
      held := false;
      count := 0;
      pidFile := file;
    }

    function State(): LockState
      reads this
    {
      LockState(held, count, pidFile)
    }

    method CreatePidFileLock(pid: int, flockErrno: int) returns (r: Result<bool, int>)
      modifies this
      ensures (State(), r) == PidFileLock(old(State()), pid, flockErrno)
    {
      if held {
        return Ok(true);
      }
      pidFile := Some("");
      if flockErrno != 0 {
        if flockErrno == EACCES || flockErrno == EAGAIN {
          return Ok(false);
        }
        return Err(flockErrno);
      }
      pidFile := Some(IntToString(pid));
      held := true;
      r := Ok(true);
    }

    method ResourcesCreateLock(pid: int, flockErrno: int) returns (r: Result<bool, int>)
      modifies this
      ensures (State(), r) == Acquire(old(State()), pid, flockErrno)
    {
      r := CreatePidFileLock(pid, flockErrno);
      if r == Ok(true) {
        count := count + 1;
      }
    }

    method ResourcesRemoveLock()
      modifies this
      ensures State() == Release(old(State()))
    {
      if count > 0 {
        count := count - 1;
      }
      if count > 0 {
        return;
      }
      if held {
        held := false;
      }
      if pidFile.Some? {
        pidFile := None;
      }
    }

    /** `resources_check_lock`, as another process with id `mypid` sees the pid file. */
    function ResourcesCheckLock(mypid: int, alive: int -> bool): (locked: bool)
      reads this
      ensures locked == CheckPidFileLock(pidFile, mypid, alive)
      ensures pidFile == Some("") ==> !locked
    {
      CheckPidFileLock(pidFile, mypid, alive)
    }
  }

  // ---- nesting ----

  /** `n` calls of `resources_create_lock` in a row, each with `flock` succeeding. */
  function AcquireTimes(s: LockState, pid: int, n: nat): LockState {
    if n == 0 then s else Acquire(AcquireTimes(s, pid, n - 1), pid, 0).0
  }

  /** `n` calls of `resources_remove_lock` in a row. */
  function ReleaseTimes(s: LockState, n: nat): LockState {
    if n == 0 then s else Release(ReleaseTimes(s, n - 1))
  }

  /** Acquiring and releasing keep the lock held exactly while the count is positive. */
  lemma ConsistentPreserved(s: LockState, pid: int, flockErrno: int)
    requires Consistent(s)
    ensures Consistent(Acquire(s, pid, flockErrno).0)
    ensures Consistent(Release(s))
  {
  }

  /** From a released lock, `n >= 1` acquisitions hold it with count `n` and our pid in the file. */
  lemma {:induction false} AcquireTimesHolds(s: LockState, pid: int, n: nat)
    requires !s.held && s.count == 0 && n >= 1
    ensures AcquireTimes(s, pid, n) == LockState(true, n, Some(IntToString(pid)))
  {
    if n > 1 {
      AcquireTimesHolds(s, pid, n - 1);
    }
  }

  /** Releasing a held lock `j < k` times leaves it held with count `k - j`, file untouched. */
  lemma {:induction false} ReleaseTimesKeeps(f: Option<string>, k: nat, j: nat)
    requires j < k
    ensures ReleaseTimes(LockState(true, k, f), j) == LockState(true, k - j, f)
  {
    if j > 0 {
      ReleaseTimesKeeps(f, k, j - 1);
    }
  }

  /**
   * Nesting: after `n` acquisitions, `n - 1` releases still hold the lock (with our pid in the
   * file), and the `n`-th release lets it go and deletes the pid file.
   */
  lemma AcquireReleaseBalanced(s: LockState, pid: int, n: nat)
    requires !s.held && s.count == 0 && n >= 1
    ensures ReleaseTimes(AcquireTimes(s, pid, n), n - 1) == LockState(true, 1, Some(IntToString(pid)))
    ensures ReleaseTimes(AcquireTimes(s, pid, n), n) == Released
  {
    AcquireTimesHolds(s, pid, n);
    ReleaseTimesKeeps(Some(IntToString(pid)), n, n - 1);
  }

  /**
   * Two processes share the pid file. A contended acquisition by `contender` fails without
   * counting, but it has opened the pid file for writing: the holder's pid is gone from it,
   * and from then on `check_pid_file_lock` reports the resources as unlocked to every process
   * although `holder` still holds the lock.
   */
  lemma ContentionEmptiesPidFile(holder: int, contender: int, checker: int, alive: int -> bool)
    ensures var a := Acquire(Released, holder, 0).0;
      var b := Acquire(LockState(false, 0, a.pidFile), contender, EAGAIN);
      a.held && a.count == 1 &&
      CheckPidFileLock(a.pidFile, checker, alive) == (checker != holder && alive(holder)) &&
      b.1 == Ok(false) && b.0.count == 0 && !CheckPidFileLock(b.0.pidFile, checker, alive)
  {
    var a := Acquire(Released, holder, 0).0;
    assert a == LockState(true, 1, Some(IntToString(holder)));
    StoredPidOfPid(holder);
    ContentionTruncates(LockState(false, 0, a.pidFile), contender, EAGAIN, checker, alive);
  }

  /** A pid file holding `str(pid)` names `pid`. */
  lemma StoredPidOfPid(pid: int)
    ensures StoredPid(IntToString(pid)) == Some(pid)
  {
    FirstLineOfInt(pid);
    ParseIntToString(pid);
  }

  /**
   * Two processes: once `holder` has the lock, the pid file names it, so it does not see
   * itself as locked out while any other process sees the lock when `holder` is alive.
   */
  lemma PidFileNamesHolder(s: LockState, holder: int, other: int, alive: int -> bool)
    requires !s.held
    ensures var t := PidFileLock(s, holder, 0).0;
      !CheckPidFileLock(t.pidFile, holder, alive) &&
      (other != holder && alive(holder) ==> CheckPidFileLock(t.pidFile, other, alive))
  {
    StoredPidOfPid(holder);
  }

  /** A contended acquisition in a process that does not hold the lock leaves an empty pid file. */
  lemma ContentionTruncates(s: LockState, pid: int, errno: int, checker: int, alive: int -> bool)
    requires !s.held && (errno == EACCES || errno == EAGAIN)
    ensures var r := Acquire(s, pid, errno);
      r.1 == Ok(false) && r.0.count == s.count && r.0.pidFile == Some("") &&
      !CheckPidFileLock(r.0.pidFile, checker, alive)
  {
    assert Split("", '\n') == [""];
    assert Strip("") == "";
  }

  // ---- lock_check ----

  /**
   * `lock_check`: asks `locked(i)` for the `i`-th check; stops at the first unlocked answer
   * (`False`), or gives up (`True`) when the resources are still locked after
   * `MaxLockCount` waits, i.e. at the `MaxLockCount + 1`-th locked answer. `checks` is the
   * number of times the check function was called. The sleeps are left out.
   */
  method LockCheck(locked: nat -> bool) returns (gaveUp: bool, checks: nat)
    ensures 1 <= checks <= MaxLockCount + 1
    ensures forall i :: 0 <= i < checks - 1 ==> locked(i)
    ensures gaveUp <==> locked(checks - 1)
    ensures gaveUp ==> checks == MaxLockCount + 1
  {
    var lockCount: nat := 0;
    while true
      invariant lockCount <= MaxLockCount
      invariant forall i :: 0 <= i < lockCount ==> locked(i)
      decreases MaxLockCount - lockCount
    {
      var isLocked := locked(lockCount);
      if !isLocked {
        return false, lockCount + 1;
      }
      if lockCount >= MaxLockCount {
        return true, lockCount + 1;
      }
      lockCount := lockCount + 1;
    }
  }

  /** `lock_check` gives up exactly when the first `MaxLockCount + 1` checks all find the lock held. */
  lemma LockCheckGivesUp(locked: nat -> bool, gaveUp: bool, checks: nat)
    requires 1 <= checks <= MaxLockCount + 1
    requires forall i :: 0 <= i < checks - 1 ==> locked(i)
    requires gaveUp <==> locked(checks - 1)
    requires gaveUp ==> checks == MaxLockCount + 1
    ensures gaveUp <==> forall i :: 0 <= i <= MaxLockCount ==> locked(i)
  {
  }
}
