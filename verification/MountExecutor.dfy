/** Identity checks around a bind mount: native/mount_executor.cpp.
    Answers of system calls that the table does not determine arrive as parameters. */
module MountExecutor {
  import opened MountBackend
  import opened MountTable
  import opened Wrappers

  const ENOENT := 2
  const EIO := 5
  const EBUSY := 16
  const EXDEV := 18
  const EPROTO := 71
  const EBADMSG := 74
  const EOVERFLOW := 75
  const ENOTSUP := 95
  const ESTALE := 116
  const ECANCELED := 125
  const EOWNERDEAD := 130

  /** A directory held open by descriptor, with the mount it was found on. */
  datatype Pinned = Pinned(
    device: nat, mountId: nat, parentMountId: nat,
    mountpoint: string, filesystem: string, bindRoot: string)

  /** A journal entry. The mount id is 0 until the mount's identity is confirmed. */
  datatype Applied = Applied(backend: Backend, target: string, mountId: nat, operation: nat)

  /** What the kernel answers while one mount is checked: whether the snapshot still
      belongs to the current namespace, and what stat(target) says (0 is a match). */
  datatype Check = Check(sameNamespace: bool, statError: nat)

  datatype Verdict = Verdict(applied: Applied, error: nat) {
    predicate Confirmed() { error == 0 }
  }

  /** VerifyDirectoryMount: does the row on top of the target describe the bind we made? */
  function VerifyMount(before: Table, after: Table, source: Pinned, target: Pinned,
                       a: Applied, expectedCount: nat, check: Check): (r: Verdict)
    ensures r.applied == a.(mountId := r.applied.mountId)
    ensures r.Confirmed() ==> && Top(after, a.target).Some?
                              && r.applied.mountId == Top(after, a.target).value.id != 0
  {
    if a.target == "" || !check.sameNamespace then Verdict(a, ESTALE)
    else match Top(after, a.target)
      case None => Verdict(a.(mountId := 0), ENOENT)
      case Some(mounted) =>
        var v := a.(mountId := mounted.id);
        var legacy := a.backend == LegacyString;
        var expectedParent := if a.target == target.mountpoint
                              then target.parentMountId else target.mountId;
        if legacy && check.statError != 0 then Verdict(v, check.statError)
        else if legacy && (expectedCount == 0 || |after| != |before| + expectedCount)
        then Verdict(v, EBADMSG)
        else if mounted.id == 0 || mounted.root == "" || mounted.root != source.bindRoot
                || mounted.device != source.device || mounted.filesystem != source.filesystem
        then Verdict(v, EXDEV)
        else if expectedParent == 0 || mounted.parent != expectedParent then Verdict(v, EXDEV)
        else Verdict(v, 0)
  }

  /** ValidateRollbackDirectoryMount: an entry that was never confirmed is refused. */
  function ValidateRollback(a: Applied, snapshot: Table, check: Check): (error: nat)
    ensures error == 0 ==> a.mountId != 0 && Top(snapshot, a.target).Some?
                           && Top(snapshot, a.target).value.id == a.mountId
  {
    if a.mountId == 0 || !check.sameNamespace then ESTALE
    else match Top(snapshot, a.target)
      case None => ENOENT
      case Some(current) => if current.id == a.mountId then 0 else ESTALE
  }

  /** VerifyRollbackDirectoryMount: the confirmed mount is no longer on top. */
  function VerifyRollback(a: Applied, snapshot: Table, check: Check): (error: nat)
    ensures error == 0 ==> Top(snapshot, a.target).None?
                           || Top(snapshot, a.target).value.id != a.mountId
  {
    if !check.sameNamespace then ESTALE
    else match Top(snapshot, a.target)
      case None => 0
      case Some(remaining) => if remaining.id == a.mountId then EBUSY else 0
  }

  function CheckAt(checks: seq<Check>, k: nat): Check {
    if k < |checks| then checks[k] else Check(false, EIO)
  }

  /** First failure of the identity pass, newest entry first; 0 when every entry passed. */
  function ValidateAll(journal: seq<Applied>, snapshot: Table, checks: seq<Check>): nat {
    if journal == [] then 0
    else
      var n := |journal| - 1;
      var e := ValidateRollback(journal[n], snapshot, CheckAt(checks, n));
      if e != 0 then e else ValidateAll(journal[..n], snapshot, checks)
  }

  lemma {:induction false} ValidateAllPasses(journal: seq<Applied>, snapshot: Table, checks: seq<Check>)
    ensures ValidateAll(journal, snapshot, checks) == 0 <==>
            forall k :: 0 <= k < |journal| ==>
              ValidateRollback(journal[k], snapshot, CheckAt(checks, k)) == 0
  {
    if journal != [] {
      var n := |journal| - 1;
      ValidateAllPasses(journal[..n], snapshot, checks);
      assert forall k :: 0 <= k < n ==> journal[..n][k] == journal[k];
    }
  }

  /** The pass as the program runs it: downwards, stopping at the first failure. */
  method ValidateJournal(journal: seq<Applied>, snapshot: Table, checks: seq<Check>)
    returns (error: nat)
    ensures error == ValidateAll(journal, snapshot, checks)
    ensures error == 0 <==> forall k :: 0 <= k < |journal| ==>
                              ValidateRollback(journal[k], snapshot, CheckAt(checks, k)) == 0
  {
    error := 0;
    var index := |journal|;
    assert journal[..index] == journal;
    while error == 0 && index > 0
      invariant 0 <= index <= |journal|
      invariant ValidateAll(journal, snapshot, checks)
             == if error != 0 then error else ValidateAll(journal[..index], snapshot, checks)
    {
      assert journal[..index][..index - 1] == journal[..index - 1];
      error := ValidateRollback(journal[index - 1], snapshot, CheckAt(checks, index - 1));
      index := index - 1;
    }
    ValidateAllPasses(journal, snapshot, checks);
  }

  function VerifyRollbackAll(journal: seq<Applied>, snapshot: Table, checks: seq<Check>): nat {
    if journal == [] then 0
    else
      var n := |journal| - 1;
      var e := VerifyRollback(journal[n], snapshot, CheckAt(checks, n));
      if e != 0 then e else VerifyRollbackAll(journal[..n], snapshot, checks)
  }

  lemma {:induction false} VerifyRollbackAllPasses(journal: seq<Applied>, snapshot: Table, checks: seq<Check>)
    ensures VerifyRollbackAll(journal, snapshot, checks) == 0 <==>
            forall k :: 0 <= k < |journal| ==>
              VerifyRollback(journal[k], snapshot, CheckAt(checks, k)) == 0
  {
    if journal != [] {
      var n := |journal| - 1;
      VerifyRollbackAllPasses(journal[..n], snapshot, checks);
      assert forall k :: 0 <= k < n ==> journal[..n][k] == journal[k];
    }
  }
}
