/** What every step of the mount transaction keeps. */
module ProtocolInvariant {
  import opened MountTransaction
  import opened MountBackend
  import opened MountTable
  import opened Wrappers
  import opened MountExecutor
  import opened Protocol

  // ------------------------------------------------------------------- mounts

  /** Our live mounts are those of the first rules, in order, each on top of its target, and
      only later ones of ours hang below any of them. */
  ghost predicate TableInv(c: Config, t: Table) {
    && WellFormed(t)
    && |Ours(t)| <= |c.rules|
    && (forall k :: 0 <= k < |Ours(t)| ==> OursAt(c, t, k))
    && (forall e, k :: e in t && 0 <= k < |Ours(t)| && HangsBelow(e, Ours(t)[k]) ==>
         e.origin.Some? && k < e.origin.value)
  }

  ghost predicate OursAt(c: Config, t: Table, k: nat)
    requires k < |Ours(t)| <= |c.rules|
  {
    var m := Ours(t)[k];
    m.origin == Some(k) && m.mountpoint == c.rules[k].target && Top(t, m.mountpoint) == Some(m)
  }

  /** The journal describes the first rules, in order, on one backend; a recorded id is
      the id of the mount it stands for. */
  ghost predicate JournalInv(c: Config, t: Table, w: Worker) {
    && |w.journal| <= |c.rules|
    && (forall k :: 0 <= k < |w.journal| ==> EntryAt(c, w.journal, w.backend, k))
    && (forall k :: 0 <= k < |w.journal| && k < |Ours(t)| ==>
         w.journal[k].mountId != 0 ==> w.journal[k].mountId == Ours(t)[k].id)
  }

  ghost predicate EntryAt(c: Config, journal: seq<Applied>, backend: Backend, k: nat)
    requires k < |journal| <= |c.rules|
  {
    var a := journal[k];
    a.operation == k && a.target == c.rules[k].target && a.backend == backend
  }

  ghost predicate AllConfirmed(w: Worker) {
    forall k :: 0 <= k < |w.journal| ==> w.journal[k].mountId != 0
  }

  /** The string bind needs the policy flag and a plan of redirects only. */
  ghost predicate BackendInv(c: Config, w: Worker) {
    && w.backend != Unsupported
    && (w.backend == LegacyString ==> c.allowLegacy && c.Required() == {Redirect})
  }

  ghost predicate Clean(s: State) {
    Ours(s.table) == [] && !s.madePrivate
  }

  ghost predicate Full(c: Config, t: Table, w: Worker) {
    |Ours(t)| == |c.rules| == |w.journal| && BackendInv(c, w)
  }

  /** How many of the plan's mounts exist at each point of the worker. */
  ghost predicate MountsInv(c: Config, t: Table, w: Worker) {
    var n := |Ours(t)|;
    && !w.untracked
    && (BeforeLease(w.pc) || w.pc.Propagate? ==>
         n == 0 == |w.journal| && w.error == 0 && Fresh0(w)
         && (w.pc.LeaseCas? || w.pc.Propagate? ==> BackendInv(c, w)))
    && (w.pc.RuleCheck? || w.pc.RuleApply? ==>
         n == w.pc.rule == |w.journal| && w.error == 0 && Open(c, w)
         && (w.pc.RuleApply? ==> n < |c.rules|))
    && (w.pc.RulePush? ==>
         n == w.pc.rule + 1 && |w.journal| == w.pc.rule < |c.rules| && w.error == 0 && Open(c, w))
    && (w.pc.AfterRules? || w.pc.PostSnapshot? ==>
         n == |w.journal| && (w.error == 0 ==> n == |c.rules|) && Open(c, w))
    && (w.pc.FirstWrite? || w.pc.FirstCas? ==> Full(c, t, w) && w.error == 0 && Open(c, w))
    && (w.pc.SecondWrite? || w.pc.SecondCas? ==>
         Full(c, t, w) && w.error == 0 && !w.rollbackFailed && Recorded(w))
    && (w.pc.RollbackIdentity? ==>
         n == |w.journal| && w.error != 0 && !w.rollbackFailed && BackendInv(c, w) && Recorded(w))
    && (w.pc.Unmounting? ==>
         n == w.pc.left <= |w.journal| && w.error != 0 && !w.rollbackFailed && AllConfirmed(w)
         && BackendInv(c, w))
    && (w.pc.RollbackVerify? ==> n == 0 && w.error != 0 && !w.rollbackFailed && BackendInv(c, w))
    && (w.pc.FinalLoad? || w.pc.FinalWrite? || w.pc.FinalCas? || w.pc.Terminating? ==>
         w.error != 0 && (!w.rollbackFailed ==> n == 0) && (!Tainted(w) ==> !w.pc.Terminating?) && BackendInv(c, w))
  }

  ghost predicate Fresh0(w: Worker) {
    !w.rollbackFailed && w.snapshot.None? && !w.propagationChanged
  }

  /** Ids are recorded from a snapshot only. */
  ghost predicate Recorded(w: Worker) {
    w.snapshot.None? ==> forall k :: 0 <= k < |w.journal| ==> w.journal[k].mountId == 0
  }

  /** Nothing has been looked up or undone yet. */
  ghost predicate Open(c: Config, w: Worker) {
    !w.rollbackFailed && w.snapshot.None? && BackendInv(c, w) && Recorded(w)
  }

  // -------------------------------------------------------------------- roles

  ghost predicate BeforeLease(pc: WorkerPc) {
    (pc.NotForked? || pc.Preflight? || pc.LeaseCas? || pc.LeaseReload? || pc.LeaseMark?)
  }

  ghost predicate HoldsLease(pc: WorkerPc) {
    || pc.Propagate? || pc.RuleCheck? || pc.RuleApply? || pc.RulePush? || pc.AfterRules?
    || pc.FirstWrite? || pc.FirstCas? || pc.PostSnapshot? || pc.SecondWrite? || pc.SecondCas?
    || pc.RollbackIdentity? || pc.Unmounting? || pc.RollbackVerify?
    || pc.FinalLoad? || pc.FinalWrite? || pc.FinalCas?
  }

  ghost predicate NotRunning(pc: WorkerPc) {
    (pc.NotForked? || pc.Exited? || pc.WorkerDead?)
  }

  /** Who may be where while the status word has which value. `clean` says that nothing of
      the transaction is left in the namespace, `full` that all of it is there. */
  ghost predicate WorkerRole(w: Worker, status: Status, lease: bool, gone: bool) {
    var pc := w.pc;
    var open := status.Applying? || status.CancelRequested?;
    && (BeforeLease(pc) ==> !lease)
    && (HoldsLease(pc) ==> lease && open)
    && (pc.Terminating? ==> lease && (status.CancelRequested? || status.NamespaceTainted?))
    && (pc.LeaseReload? || pc.LeaseMark? ==> !status.Pending?)
    && (pc.FinalWrite? || pc.FinalCas? ==>
         w.loaded == status || (w.loaded.Applying? && status.CancelRequested?))
    && (pc.Returning? || pc.Exited? ==>
         && !(lease && (status.Applying? || status.Pending? || status.Cancelled? || status.Failed?))
         && (lease && status.CancelRequested? ==> gone)
         && (w.error == 0 <==> status.Complete?))
  }

  ghost predicate StatusRole(status: Status, lease: bool, pc: WorkerPc,
                             clean: bool, full: bool, gone: bool) {
    && (status.Pending? || status.Cancelled? || status.Failed? ==> !lease)
    && (status.Applying? || status.Complete? ==> lease)
    && (!lease ==> clean)
    && (status.Complete? ==> (pc.Returning? || pc.Exited? || pc.WorkerDead?) && full)
    && (status.RollbackComplete? ==> gone)
  }

  ghost predicate AppRole(pc: AppPc, status: Status, lease: bool) {
    pc.AppFalse? ==> !lease && !status.Pending?
  }

  ghost predicate Failing(pc: CompanionPc) {
    pc.FailWrite? || pc.FailCas? || pc.FailReload? || pc.FailMark?
  }

  ghost predicate Reaped(pc: CompanionPc) {
    || pc.AfterWait? || pc.TaintWrite? || pc.TaintCas? || pc.TaintTerminate?
    || pc.CompFinalLoad? || pc.CompFinalWrite? || pc.CompFinalCas?
  }

  ghost predicate CompanionRole(p: Companion, w: WorkerPc, status: Status, lease: bool) {
    var asked := status.Pending? || status.CancelRequested?;
    && (p.pc.CompStart? || p.pc.CompReady? ==> w.NotForked? && asked)
    && (Failing(p.pc) ==> !lease && NotRunning(w))
    && (p.pc.FailWrite? || p.pc.FailCas? ==> asked && p.pc.failure != 0)
    && (Reaped(p.pc) ==> NotRunning(w))
    && (p.pc.TaintWrite? || p.pc.TaintCas? ==>
         p.ownerDeath && (p.loaded == status || (p.loaded.Applying? && status.CancelRequested?))
         && (status.Applying? || status.CancelRequested?))
    && (p.pc.CompFinalWrite? || p.pc.CompFinalCas? ==>
         p.received && p.message != 0 && p.pc.to.RollbackComplete?
         && p.loaded.CancelRequested? && status.CancelRequested?)
  }

  ghost predicate MessageRole(p: Companion, w: Worker) {
    && (p.received ==> w.pc.Exited? && p.message == w.error)
    && (p.ownerDeath ==> p.message == EOWNERDEAD && !p.received)
    && (p.pc.CompStart? || p.pc.CompReady? || p.pc.Receiving? || p.pc.Reload? || p.pc.SecondReceive?
        ==> !p.received && !p.ownerDeath)
  }

  /** A published result says success exactly when the transaction completed; a process
      about to publish finds its own record still in place. */
  ghost predicate ResultInv(error: nat, status: Status, w: Worker, p: Companion) {
    && (HasResult(status) ==> (error == 0 <==> status.Complete?))
    && (w.pc.FirstCas? || w.pc.SecondCas? ==> error == 0)
    && (w.pc.FinalCas? ==> error == w.error)
    && (p.pc.FailCas? ==> error == p.pc.failure)
    && (p.pc.TaintCas? || p.pc.CompFinalCas? ==> error == p.message)
  }

  ghost predicate Control(s: State, clean: bool, full: bool) {
    && WorkerRole(s.worker, s.status, s.lease, clean || s.terminated)
    && StatusRole(s.status, s.lease, s.worker.pc, clean, full, clean || s.terminated)
    && AppRole(s.app.pc, s.status, s.lease)
    && CompanionRole(s.companion, s.worker.pc, s.status, s.lease)
    && MessageRole(s.companion, s.worker)
    && ResultInv(s.result.error, s.status, s.worker, s.companion)
  }

  ghost predicate Data(c: Config, t: Table, w: Worker) {
    TableInv(c, t) && JournalInv(c, t, w) && MountsInv(c, t, w)
  }

  ghost predicate Inv(c: Config, s: State) {
    && Data(c, s.table, s.worker)
    && (s.worker.propagationChanged <==> s.madePrivate)
    && Control(s, Clean(s), Full(c, s.table, s.worker))
  }

  lemma InitEstablishes(c: Config, s: State)
    requires c.Valid() && Init(s)
    ensures Inv(c, s)
  {
  }

  // --------------------------------------------------- the app and the companion

  lemma AppKeeps(s: State, expired: bool, s': State, clean: bool, full: bool)
    requires Control(s, clean, full) && StepApp(s, expired) == Some(s')
    ensures Control(s', clean, full)
  {
    hide DoAppCas, Control;
    FalseIsCancelled(s, expired);
    hide AfterLoad, AfterOwnerLoad;
    match s.app.pc
    case AppLoad => AppLooks(s, AfterLoad(s, expired), clean, full);
    case AppOwnerLoad => AppLooks(s, AfterOwnerLoad(s, expired), clean, full);
    case _ => AppAsks(s, clean, full);
  }

  lemma FalseIsCancelled(s: State, expired: bool)
    ensures AfterLoad(s, expired).pc.AppFalse? ==> s.app.pc.AppFalse? || s.status == Cancelled
    ensures AfterOwnerLoad(s, expired).pc.AppFalse? ==> s.app.pc.AppFalse? || s.status == Cancelled
  {
  }

  /** A load changes nothing but the app's own place. */
  lemma AppLooks(s: State, app: App, clean: bool, full: bool)
    requires Control(s, clean, full)
    requires app.pc.AppFalse? ==> s.app.pc.AppFalse? || s.status == Cancelled
    ensures Control(s.(app := app), clean, full)
  {
    hide WorkerRole, CompanionRole, MessageRole, ResultInv;
  }

  lemma AppAsks(s: State, clean: bool, full: bool)
    requires Control(s, clean, full)
    ensures s.app.pc.AppCasPending? ==> Control(DoAppCas(s, Pending, AppFalse), clean, full)
    ensures s.app.pc.AppCasApplying? ==> Control(DoAppCas(s, Applying, AppOwnerLoad), clean, full)
  {
    hide MessageRole;
  }

  lemma LaunchKeeps(s: State, a: Answer, s': State, clean: bool, full: bool)
    requires Control(s, clean, full) && (s.companion.pc.CompStart? || s.companion.pc.CompReady?)
    requires StepLaunch(s, a) == Some(s')
    ensures Control(s', clean, full)
  {
    match s.companion.pc
    case CompStart => if a.ok {} else if a.flag {} else if a.error != 0 {} else {}
    case _ => if a.ok {} else if a.flag {} else {}
  }

  lemma PendingFailureKeeps(s: State, a: Answer, s': State, clean: bool, full: bool)
    requires Control(s, clean, full) && StepPendingFailure(s, a) == Some(s')
    ensures Control(s', clean, full)
  {
    match s.companion.pc
    case FailWrite(_) =>
    case FailCas(_) =>
    case FailReload =>
    case _ =>
  }

  /** A step that moves only the companion. */
  lemma CompanionAlone(s: State, p: Companion, clean: bool, full: bool)
    requires Control(s, clean, full)
    requires CompanionRole(p, s.worker.pc, s.status, s.lease) && MessageRole(p, s.worker)
    requires ResultInv(s.result.error, s.status, s.worker, p)
    ensures Control(s.(companion := p), clean, full)
  {
    hide WorkerRole, StatusRole, AppRole, CompanionRole, MessageRole, ResultInv;
  }

  lemma ReceiveKeeps(s: State, a: Answer, clean: bool, full: bool)
    requires Control(s, clean, full) && AfterReceive(s, a).Some?
    ensures Control(s.(companion := AfterReceive(s, a).value), clean, full)
  {
    hide WorkerRole, StatusRole, AppRole;
    var p := AfterReceive(s, a).value;
    ReceiveRoles(s, a);
    hide *;
    CompanionAlone(s, p, clean, full);
  }

  lemma ReceiveRoles(s: State, a: Answer)
    requires AfterReceive(s, a).Some? && CompanionRole(s.companion, s.worker.pc, s.status, s.lease)
    requires MessageRole(s.companion, s.worker)
    requires ResultInv(s.result.error, s.status, s.worker, s.companion)
    ensures var p := AfterReceive(s, a).value;
      && CompanionRole(p, s.worker.pc, s.status, s.lease) && MessageRole(p, s.worker)
      && ResultInv(s.result.error, s.status, s.worker, p)
  {
  }

  lemma OwnerDeathKeeps(s: State, a: Answer, s': State, clean: bool, full: bool)
    requires Control(s, clean, full) && StepOwnerDeath(s, a) == Some(s')
    ensures Control(s', clean, full)
  {
    hide DoAfterWait, DoTaintCas;
    match s.companion.pc
    case AfterWait => AfterWaitKeeps(s, clean, full);
    case TaintWrite =>
    case TaintCas => TaintKeeps(s, clean, full);
    case _ =>
  }

  lemma AfterWaitKeeps(s: State, clean: bool, full: bool)
    requires Control(s, clean, full) && s.companion.pc.AfterWait?
    ensures Control(s.(companion := DoAfterWait(s)), clean, full)
  {
    hide WorkerRole, StatusRole, AppRole;
  }

  lemma TaintKeeps(s: State, clean: bool, full: bool)
    requires Control(s, clean, full) && s.companion.pc.TaintCas?
    ensures Control(DoTaintCas(s), clean, full)
  {
  }

  lemma PublishKeeps(s: State, s': State, clean: bool, full: bool)
    requires Control(s, clean, full) && StepPublish(s) == Some(s')
    ensures Control(s', clean, full)
  {
    match s.companion.pc
    case CompFinalLoad =>
    case CompFinalWrite(_) =>
    case _ =>
  }

  // ---------------------------------------------------------------- the worker

  /** Holding the lease, with nothing loaded or written for a publication. */
  ghost predicate Silent(pc: WorkerPc) {
    || pc.Propagate? || pc.RuleCheck? || pc.RuleApply? || pc.RulePush? || pc.AfterRules?
    || pc.FirstWrite? || pc.PostSnapshot? || pc.SecondWrite?
    || pc.RollbackIdentity? || pc.Unmounting? || pc.RollbackVerify? || pc.FinalLoad?
  }

  /** While the worker holds the lease, the roles do not depend on its data or the mounts. */
  lemma SilentControl(s: State, w: Worker, t: Table, private: bool,
                      clean: bool, full: bool, clean': bool, full': bool)
    requires Control(s, clean, full) && HoldsLease(s.worker.pc) && Silent(w.pc)
    ensures Control(s.(worker := w, table := t, madePrivate := private), clean', full')
  {
  }

  /** Before the lease, giving up and moving on. */
  lemma EarlyControl(s: State, w: Worker, clean: bool, full: bool)
    requires Control(s, clean, full) && BeforeLease(s.worker.pc) && !s.worker.pc.NotForked?
    requires || (w.pc.Returning? && w.error != 0)
             || w.pc.LeaseCas?
             || ((w.pc.LeaseReload? || w.pc.LeaseMark?) && s.status != Pending)
    ensures Control(s.(worker := w), clean, full)
  {
  }

  lemma LeaseWonControl(s: State, clean: bool, full: bool)
    requires Control(s, clean, full) && s.worker.pc.LeaseCas? && s.status == Pending
    ensures Control(DoLeaseCas(s), clean, full)
  {
  }

  lemma LeaseMarkControl(s: State, clean: bool, full: bool)
    requires Control(s, clean, full) && s.worker.pc.LeaseMark?
    ensures Control(DoLeaseMark(s), clean, full)
  {
  }

  lemma WriteSuccessControl(s: State, next: WorkerPc, clean: bool, full: bool)
    requires Control(s, clean, full) && HoldsLease(s.worker.pc) && (next.FirstCas? || next.SecondCas?)
    ensures Control(DoWriteSuccess(s, next), clean, full)
  {
  }

  lemma CompletedControl(s: State, clean: bool)
    requires Control(s, clean, true) && (s.worker.pc.FirstCas? || s.worker.pc.SecondCas?)
    requires s.status == Applying && s.worker.error == 0
    ensures Control(Completed(s), clean, true)
  {
  }

  lemma FinalLoadControl(s: State, clean: bool, full: bool)
    requires Control(s, clean, full) && s.worker.pc.FinalLoad?
    ensures Control(DoFinalLoad(s), clean, full)
  {
  }

  lemma FinalWriteControl(s: State, clean: bool, full: bool)
    requires Control(s, clean, full) && s.worker.pc.FinalWrite?
    ensures Control(DoFinalWrite(s), clean, full)
  {
  }

  /** The closing compare-and-swap, won or lost. */
  lemma FinalCasControl(s: State, clean: bool, full: bool)
    requires Control(s, clean, full) && s.worker.pc.FinalCas? && s.worker.error != 0
    requires !Tainted(s.worker) ==> clean
    ensures Control(DoFinalCas(s), clean, full)
  {
    if s.status == s.worker.loaded {} else {}
  }

  lemma TerminatingControl(s: State, clean: bool, full: bool)
    requires Control(s, clean, full) && s.worker.pc.Terminating? && s.worker.error != 0
    ensures Control(s.(terminated := true, worker := s.worker.(pc := Returning)), clean, full)
  {
  }

  lemma ReturningControl(s: State, clean: bool, full: bool)
    requires Control(s, clean, full) && s.worker.pc.Returning?
    ensures Control(s.(worker := s.worker.(pc := Exited)), clean, full)
  {
  }

  // ------------------------------------------------- the mounts and the journal

  /** A successful bind adds the next rule's mount on top of its target. */
  lemma BindKeepsTable(c: Config, t: Table, i: nat, e: Entry)
    requires c.Valid() && TableInv(c, t) && |Ours(t)| == i < |c.rules|
    requires Bindable(t, c.rules[i].target, e) && e.origin == Some(i)
    ensures TableInv(c, t + [e]) && Ours(t + [e]) == Ours(t) + [e]
  {
    var target := c.rules[i].target;
    AppendEntry(t, e);
    BindKeepsWellFormed(t, target, e);
    OursMembers(t);
    forall k | 0 <= k < |Ours(t + [e])| ensures OursAt(c, t + [e], k) {
      if k < i {
        assert OursAt(c, t, k);
      }
    }
    forall f, k | f in t + [e] && 0 <= k < |Ours(t + [e])| && HangsBelow(f, Ours(t + [e])[k])
      ensures f.origin.Some? && k < f.origin.value
    {
      if k < i {
        assert f != e ==> HangsBelow(f, Ours(t)[k]);
      }
    }
  }

  lemma OthersKeepTable(c: Config, t: Table, e: Entry)
    requires c.Valid() && TableInv(c, t) && c.Elsewhere(e.mountpoint) && e.origin.None?
    requires Bindable(t, e.mountpoint, e)
    ensures TableInv(c, t + [e]) && Ours(t + [e]) == Ours(t)
  {
    AppendEntry(t, e);
    BindKeepsWellFormed(t, e.mountpoint, e);
    OursMembers(t);
    forall k | 0 <= k < |Ours(t)| ensures OursAt(c, t + [e], k) && !HangsBelow(e, Ours(t)[k]) {
      assert OursAt(c, t, k) && Ours(t)[k] in t;
    }
  }

  lemma OriginIsPlace(c: Config, t: Table, j: nat)
    requires TableInv(c, t) && j < |Ours(t)|
    ensures Ours(t)[j].origin == Some(j)
  {
    assert OursAt(c, t, j);
  }

  /** Nothing hangs below the newest of our mounts, and no other of ours has its target. */
  lemma NewestIsLeaf(c: Config, t: Table, n: nat)
    requires c.Valid() && TableInv(c, t) && |Ours(t)| == n > 0
    ensures forall e :: e in t ==> e.parent != Ours(t)[n - 1].id
    ensures forall e :: e in Ours(t)[..n - 1] ==> e.mountpoint != c.rules[n - 1].target
  {
    hide Top;
    OursMembers(t);
    forall e | e in t ensures e.parent != Ours(t)[n - 1].id {
      if HangsBelow(e, Ours(t)[n - 1]) {
        var j: nat :| j < n && Ours(t)[j] == e;
        OriginIsPlace(c, t, j);
      }
    }
    forall k | 0 <= k < n - 1 ensures Ours(t)[k].mountpoint != c.rules[n - 1].target {
      assert OursAt(c, t, k);
    }
  }

  lemma {:induction false} FewerOfOurs(c: Config, t: Table, u: Table, n: nat)
    requires c.Valid() && TableInv(c, t) && |Ours(t)| == n > 0
    requires (forall e :: e in u ==> e in t) && Ours(u) == Ours(t)[..n - 1]
    requires forall q :: q != c.rules[n - 1].target ==> Top(u, q) == Top(t, q)
    ensures TableInv(c, u)
  {
    hide Top, WellFormed;
    SubsetKeepsWellFormed(t, u);
    forall k | 0 <= k < |Ours(u)| ensures OursAt(c, u, k) {
      assert OursAt(c, t, k);
    }
  }

  /** The rollback's detach of the newest of our mounts. */
  lemma UnmountKeepsTable(c: Config, t: Table, n: nat)
    requires c.Valid() && TableInv(c, t) && |Ours(t)| == n > 0
    ensures TableInv(c, Unmount(t, c.rules[n - 1].target))
    ensures Ours(Unmount(t, c.rules[n - 1].target)) == Ours(t)[..n - 1]
    ensures Foreign(Unmount(t, c.rules[n - 1].target)) == Foreign(t)
  {
    var path := c.rules[n - 1].target;
    assert OursAt(c, t, n - 1);
    NewestIsLeaf(c, t, n);
    hide *;
    NewestDetaches(c, t, n);
    UnmountSubset(t, path);
    FewerOfOurs(c, t, Unmount(t, path), n);
  }

  lemma NewestDetaches(c: Config, t: Table, n: nat)
    requires |Ours(t)| == n > 0 && n <= |c.rules| && OursAt(c, t, n - 1)
    requires forall e :: e in t ==> e.parent != Ours(t)[n - 1].id
    requires forall e :: e in Ours(t)[..n - 1] ==> e.mountpoint != c.rules[n - 1].target
    ensures var u := Unmount(t, c.rules[n - 1].target);
      && Ours(u) == Ours(t)[..n - 1] && Foreign(u) == Foreign(t)
      && forall q :: q != c.rules[n - 1].target ==> Top(u, q) == Top(t, q)
  {
    UnmountOurs(t, c.rules[n - 1].target);
  }

  lemma OtherUnmountKeepsTable(c: Config, t: Table, path: string)
    requires c.Valid() && TableInv(c, t) && c.Elsewhere(path)
    ensures TableInv(c, Unmount(t, path)) && Ours(Unmount(t, path)) == Ours(t)
  {
    var u := Unmount(t, path);
    OursMembers(t);
    forall e | e in t && e.origin.Some? ensures !IsPathOnMount(e.mountpoint, path) {
      var k :| 0 <= k < |Ours(t)| && Ours(t)[k] == e;
      assert OursAt(c, t, k);
    }
    UnmountElsewhere(t, path);
    UnmountSubset(t, path);
    SubsetKeepsWellFormed(t, u);
    forall k | 0 <= k < |Ours(u)| ensures OursAt(c, u, k) {
      assert OursAt(c, t, k);
    }
  }

  /** The journal and the worker's place only look at which of our mounts exist. */
  lemma SameOursKeepsData(c: Config, t: Table, u: Table, w: Worker)
    requires Data(c, t, w) && TableInv(c, u) && Ours(u) == Ours(t)
    ensures Data(c, u, w)
  {
  }

  /** A worker that is done makes no more promises about its place. */
  lemma StoppedData(c: Config, t: Table, w: Worker, w': Worker)
    requires Data(c, t, w) && (w'.pc.Returning? || w'.pc.Exited? || w'.pc.WorkerDead?)
    requires w'.journal == w.journal && w'.backend == w.backend && w'.untracked == w.untracked
    ensures Data(c, t, w')
  {
  }

  lemma EarlyData(c: Config, t: Table, w: Worker, w': Worker)
    requires Data(c, t, w) && BeforeLease(w.pc)
    requires w'.pc.LeaseCas? || w'.pc.LeaseReload? || w'.pc.LeaseMark? || w'.pc.Propagate?
    requires w'.pc.LeaseCas? || w'.pc.Propagate? ==> BackendInv(c, w')
    requires w' == w.(pc := w'.pc, before := w'.before, requiresPrivate := w'.requiresPrivate,
                      backend := w'.backend, locked := w'.locked)
    ensures Data(c, t, w')
  {
  }

  lemma PropagateData(c: Config, t: Table, w: Worker, w': Worker)
    requires Data(c, t, w) && w.pc.Propagate?
    requires || (w'.pc == RuleCheck(0)
                 && w' == w.(pc := w'.pc, propagationChanged := w'.propagationChanged))
             || (w'.error != 0 && w' == w.(error := w'.error, pc := AfterRules))
    ensures Data(c, t, w')
  {
  }

  lemma RuleCheckData(c: Config, s: State)
    requires Data(c, s.table, s.worker) && s.worker.pc.RuleCheck?
    ensures Data(c, s.table, DoRuleCheck(c, s, s.worker.pc.rule))
  {
    if s.worker.pc.rule >= |c.rules| {} else if s.status == CancelRequested {} else {}
  }

  lemma AppliedData(c: Config, t: Table, w: Worker, i: nat, e: Entry)
    requires Data(c, t, w) && w.pc == RuleApply(i)
    requires TableInv(c, t + [e]) && Ours(t + [e]) == Ours(t) + [e]
    ensures Data(c, t + [e], w.(locked := true, pc := RulePush(i)))
  {
  }

  lemma RefusedData(c: Config, t: Table, w: Worker, i: nat, a: Answer)
    requires c.Valid() && Data(c, t, w) && w.pc == RuleApply(i)
    ensures Data(c, t, AfterRefusal(c, w, i, a))
  {
    var w' := AfterRefusal(c, w, i, a);
    if w'.pc.AfterRules? {
    } else {
      assert i == 0 && w.journal == [];
      assert w' == w.(backend := w'.backend);
    }
  }

  lemma PushData(c: Config, t: Table, w: Worker, i: nat)
    requires c.Valid() && Data(c, t, w) && w.pc == RulePush(i)
    ensures Data(c, t, DoPush(c, w, i))
  {
    var w' := DoPush(c, w, i);
    forall k | 0 <= k < |w'.journal|
      ensures EntryAt(c, w'.journal, w'.backend, k) && w'.journal[k].mountId == 0
    {
      if k < i {
        assert EntryAt(c, w.journal, w.backend, k);
      }
    }
  }

  lemma AfterApplyData(c: Config, t: Table, w: Worker, error: nat)
    requires c.Valid() && Data(c, t, w)
    requires w.pc.AfterRules? || (w.pc.FirstCas? && error != 0)
    requires w.error != 0 ==> error != 0
    ensures var w1 := w.(error := error); Data(c, t, w1.(pc := AfterApply(w1)))
  {
  }

  lemma RaceLostData(c: Config, t: Table, w: Worker)
    requires Data(c, t, w) && w.pc.SecondCas?
    ensures Data(c, t, w.(error := ECANCELED, pc := RollbackIdentity))
  {
  }

  /** Only a confirmed mount id is recorded, and it is the id of our mount. */
  lemma HydratedJournal(c: Config, t: Table, w: Worker, checks: seq<Check>)
    requires c.Valid() && TableInv(c, t) && JournalInv(c, t, w) && |w.journal| == |Ours(t)|
    ensures var journal := Hydrated(c, w, t, checks);
            JournalInv(c, t, w.(journal := journal))
    ensures !w.untracked ==> !Untracks(c, w)
  {
    var journal := Hydrated(c, w, t, checks);
    forall k | 0 <= k < |journal|
      ensures EntryAt(c, journal, w.backend, k)
      ensures journal[k].mountId != 0 ==> journal[k].mountId == Ours(t)[k].id
    {
      assert EntryAt(c, w.journal, w.backend, k);
      assert OursAt(c, t, k);
    }
    forall a | a in w.journal ensures a.operation < |c.rules| {
      var k :| 0 <= k < |w.journal| && w.journal[k] == a;
      assert EntryAt(c, w.journal, w.backend, k);
    }
  }

  lemma SnapshotData(c: Config, s: State, a: Answer)
    requires c.Valid() && Data(c, s.table, s.worker) && s.worker.pc.PostSnapshot?
    ensures Data(c, s.table, DoPostSnapshot(c, s, a))
  {
    if a.ok {
      HydratedJournal(c, s.table, s.worker, a.checks);
    }
  }

  lemma RollbackFailureData(c: Config, t: Table, w: Worker, error: nat)
    requires Data(c, t, w) && error != 0
    requires w.pc.RollbackIdentity? || w.pc.Unmounting? || w.pc.RollbackVerify?
    ensures Data(c, t, RollbackFailure(w, error))
  {
  }

  lemma ConfirmedData(c: Config, t: Table, w: Worker)
    requires Data(c, t, w) && w.pc.RollbackIdentity? && AllConfirmed(w)
    ensures Data(c, t, w.(pc := Unmounting(|w.journal|)))
    ensures w.journal == [] ==> Data(c, t, w.(pc := FinalLoad))
  {
  }

  /** Nothing is unmounted unless every entry's identity was confirmed. */
  lemma IdentityConfirms(s: State, a: Answer)
    ensures DoIdentity(s, a).pc.Unmounting? ==> AllConfirmed(s.worker)
  {
    var w := s.worker;
    var snapshot := if w.snapshot.Some? then w.snapshot.value else s.table;
    ValidateAllPasses(w.journal, snapshot, a.checks);
  }

  lemma IdentityData(c: Config, s: State, a: Answer)
    requires Data(c, s.table, s.worker) && s.worker.pc.RollbackIdentity?
    ensures Data(c, s.table, DoIdentity(s, a))
  {
    hide ValidateAll;
    var w' := DoIdentity(s, a);
    IdentityConfirms(s, a);
    if w'.rollbackFailed {
      RollbackFailureData(c, s.table, s.worker, w'.error);
    } else {
      ConfirmedData(c, s.table, s.worker);
    }
  }

  lemma UnmountedData(c: Config, t: Table, w: Worker, n: nat)
    requires c.Valid() && Data(c, t, w) && w.pc == Unmounting(n) && 0 < n <= |w.journal|
    ensures var u := Unmount(t, w.journal[n - 1].target);
            Data(c, u, w.(pc := Unmounting(n - 1))) && Foreign(u) == Foreign(t)
  {
    assert EntryAt(c, w.journal, w.backend, n - 1);
    UnmountKeepsTable(c, t, n);
  }

  lemma EmptiedData(c: Config, t: Table, w: Worker)
    requires Data(c, t, w) && ((w.pc == Unmounting(0)) || w.pc.RollbackVerify?)
    ensures w.pc.Unmounting? ==> Data(c, t, w.(pc := RollbackVerify))
    ensures w.pc.RollbackVerify? ==> Data(c, t, w.(journal := [], pc := FinalLoad))
  {
  }

  lemma FinalData(c: Config, t: Table, w: Worker, w': Worker)
    requires Data(c, t, w)
    requires w.pc.FinalLoad? || w.pc.FinalWrite? || w.pc.FinalCas?
    requires w'.pc.FinalWrite? || w'.pc.FinalCas? || (w'.pc.Terminating? && Tainted(w))
    requires w' == w.(pc := w'.pc, loaded := w'.loaded)
    ensures Data(c, t, w')
  {
  }

  // --------------------------------------------------------------- every step

  lemma AppStepKeeps(c: Config, s: State, expired: bool, s': State)
    requires Inv(c, s) && StepApp(s, expired) == Some(s')
    ensures Inv(c, s') && s'.table == s.table
  {
    AppKeeps(s, expired, s', Clean(s), Full(c, s.table, s.worker));
    AppFrame(s, expired, s');
  }

  lemma AppFrame(s: State, expired: bool, s': State)
    requires StepApp(s, expired) == Some(s')
    ensures s'.table == s.table && s'.worker == s.worker && s'.madePrivate == s.madePrivate
  {
  }

  lemma CompanionFrame(s: State, a: Answer, s': State)
    requires StepCompanion(s, a) == Some(s')
    ensures s'.table == s.table && s'.madePrivate == s.madePrivate
    ensures s'.worker == s.worker
            || (s.companion.pc.CompReady? && s'.worker == s.worker.(pc := Preflight))
  {
  }

  lemma CompanionKeeps(s: State, a: Answer, s': State, clean: bool, full: bool)
    requires Control(s, clean, full) && StepCompanion(s, a) == Some(s')
    ensures Control(s', clean, full)
  {
    match s.companion.pc
    case CompStart | CompReady => LaunchKeeps(s, a, s', clean, full);
    case FailWrite(_) | FailCas(_) | FailReload | FailMark => PendingFailureKeeps(s, a, s', clean, full);
    case Receiving | Reload | SecondReceive | Reaping => ReceiveKeeps(s, a, clean, full);
    case AfterWait | TaintWrite | TaintCas | TaintTerminate => OwnerDeathKeeps(s, a, s', clean, full);
    case _ => PublishKeeps(s, s', clean, full);
  }

  lemma CompanionStepKeeps(c: Config, s: State, a: Answer, s': State)
    requires Inv(c, s) && StepCompanion(s, a) == Some(s')
    ensures Inv(c, s') && s'.table == s.table
  {
    CompanionKeeps(s, a, s', Clean(s), Full(c, s.table, s.worker));
    CompanionFrame(s, a, s');
    assert s'.worker.journal == s.worker.journal && s'.worker.backend == s.worker.backend;
    if s'.worker != s.worker {
      ForkData(c, s.table, s.worker);
    }
  }

  lemma ForkData(c: Config, t: Table, w: Worker)
    requires Data(c, t, w) && w.pc.NotForked?
    ensures Data(c, t, w.(pc := Preflight))
  {
  }

  lemma DeathControl(s: State, clean: bool, full: bool)
    requires Control(s, clean, full) && !s.worker.pc.NotForked? && !s.worker.pc.Exited?
    ensures Control(s.(worker := s.worker.(pc := WorkerDead)), clean, full)
  {
  }

  lemma DeathKeeps(c: Config, s: State)
    requires Inv(c, s) && !s.worker.pc.NotForked? && !s.worker.pc.Exited?
    ensures Inv(c, s.(worker := s.worker.(pc := WorkerDead)))
  {
    DeathControl(s, Clean(s), Full(c, s.table, s.worker));
    StoppedData(c, s.table, s.worker, s.worker.(pc := WorkerDead));
  }

  /** A step on the worker's own data and the mounts, with the lease held throughout. */
  lemma SilentKeeps(c: Config, s: State, w: Worker, t: Table, private: bool)
    requires Inv(c, s) && HoldsLease(s.worker.pc) && Silent(w.pc) && Data(c, t, w)
    requires w.propagationChanged <==> private
    ensures Inv(c, s.(worker := w, table := t, madePrivate := private))
  {
    var s' := s.(worker := w, table := t, madePrivate := private);
    SilentControl(s, w, t, private, Clean(s), Full(c, s.table, s.worker), Clean(s'), Full(c, t, w));
  }

  lemma SilentWorkerKeeps(c: Config, s: State, w: Worker)
    requires Inv(c, s) && HoldsLease(s.worker.pc) && Silent(w.pc) && Data(c, s.table, w)
    requires w.propagationChanged == s.worker.propagationChanged
    ensures Inv(c, s.(worker := w))
  {
    SilentKeeps(c, s, w, s.table, s.madePrivate);
    assert s.(worker := w, table := s.table, madePrivate := s.madePrivate) == s.(worker := w);
  }

  /** A step that leaves the mounts, the journal and the backend alone. */
  lemma PublicKeeps(c: Config, s: State, s': State)
    requires Inv(c, s) && s'.table == s.table && s'.madePrivate == s.madePrivate
    requires s'.worker.journal == s.worker.journal && s'.worker.backend == s.worker.backend
    requires s'.worker.propagationChanged == s.worker.propagationChanged
    requires Control(s', Clean(s), Full(c, s.table, s.worker)) && Data(c, s.table, s'.worker)
    ensures Inv(c, s')
  {
  }

  lemma NothingMountedYet(c: Config, s: State)
    requires c.Valid() && Inv(c, s) && BeforeLease(s.worker.pc)
    ensures forall w :: !Full(c, s.table, w)
  {
  }

  lemma PreflightKeeps(c: Config, s: State, a: Answer)
    requires c.Valid() && Inv(c, s) && s.worker.pc.Preflight?
    ensures Inv(c, s.(worker := DoPreflight(c, s, a)))
  {
    var w := DoPreflight(c, s, a);
    NothingMountedYet(c, s);
    PreflightShape(c, s, a);
    EarlyControl(s, w, Clean(s), false);
    if w.pc.Returning? {
      StoppedData(c, s.table, s.worker, w);
    } else {
      EarlyData(c, s.table, s.worker, w);
    }
  }

  lemma PreflightShape(c: Config, s: State, a: Answer)
    requires c.Valid()
    ensures var w, w' := s.worker, DoPreflight(c, s, a);
            || (w' == w.(error := w'.error, pc := Returning) && w'.error != 0)
            || (w'.pc.LeaseCas? && BackendInv(c, w')
                && w' == w.(pc := w'.pc, before := w'.before, requiresPrivate := w'.requiresPrivate,
                            backend := w'.backend, locked := w'.locked))
  {
    assert c.rules[0].action in c.Required();
  }

  lemma LeaseCasKeeps(c: Config, s: State)
    requires Inv(c, s) && s.worker.pc.LeaseCas?
    ensures Inv(c, DoLeaseCas(s))
  {
    var full := Full(c, s.table, s.worker);
    if s.status == Pending {
      LeaseWonControl(s, Clean(s), full);
      EarlyData(c, s.table, s.worker, s.worker.(pc := Propagate));
    } else {
      EarlyControl(s, s.worker.(pc := LeaseReload), Clean(s), full);
      EarlyData(c, s.table, s.worker, s.worker.(pc := LeaseReload));
    }
    PublicKeeps(c, s, DoLeaseCas(s));
  }

  lemma LeaseLostKeeps(c: Config, s: State)
    requires Inv(c, s) && (s.worker.pc.LeaseReload? || s.worker.pc.LeaseMark?)
    ensures s.worker.pc.LeaseReload? ==> Inv(c, DoLeaseReload(s))
    ensures s.worker.pc.LeaseMark? ==> Inv(c, DoLeaseMark(s))
  {
    var full := Full(c, s.table, s.worker);
    StoppedData(c, s.table, s.worker, Fail(s.worker, ECANCELED));
    if s.worker.pc.LeaseMark? {
      LeaseMarkControl(s, Clean(s), full);
      PublicKeeps(c, s, DoLeaseMark(s));
    } else {
      EarlyControl(s, DoLeaseReload(s).worker, Clean(s), full);
      EarlyData(c, s.table, s.worker, s.worker.(pc := LeaseMark));
      PublicKeeps(c, s, DoLeaseReload(s));
    }
  }

  lemma LeaseStepKeeps(c: Config, s: State, a: Answer, s': State)
    requires c.Valid() && Inv(c, s) && StepLease(c, s, a) == Some(s')
    ensures Inv(c, s') && s'.table == s.table
  {
    if s.worker.pc.Preflight? {
      PreflightKeeps(c, s, a);
    } else if s.worker.pc.LeaseCas? {
      LeaseCasKeeps(c, s);
    } else {
      LeaseLostKeeps(c, s);
    }
  }

  lemma PropagateKeeps(c: Config, s: State, a: Answer)
    requires Inv(c, s) && s.worker.pc.Propagate?
    ensures Inv(c, DoPropagate(s, a)) && DoPropagate(s, a).table == s.table
  {
    var s' := DoPropagate(s, a);
    PropagateData(c, s.table, s.worker, s'.worker);
    SilentKeeps(c, s, s'.worker, s.table, s'.madePrivate);
  }

  lemma ApplyKeeps(c: Config, s: State, i: nat, a: Answer)
    requires c.Valid() && Inv(c, s) && s.worker.pc == RuleApply(i) && i < |c.rules|
    requires Answers(c, s, a)
    ensures Inv(c, DoApply(c, s, i, a)) && Foreign(DoApply(c, s, i, a).table) == Foreign(s.table)
  {
    if a.ok {
      var e := Bound(c, i, a);
      BindKeepsTable(c, s.table, i, e);
      AppendEntry(s.table, e);
      AppliedData(c, s.table, s.worker, i, e);
      SilentKeeps(c, s, s.worker.(locked := true, pc := RulePush(i)), s.table + [e], s.madePrivate);
    } else {
      RefusedData(c, s.table, s.worker, i, a);
      SilentWorkerKeeps(c, s, AfterRefusal(c, s.worker, i, a));
    }
  }

  lemma RuleCheckKeeps(c: Config, s: State)
    requires Inv(c, s) && s.worker.pc.RuleCheck?
    ensures Inv(c, s.(worker := DoRuleCheck(c, s, s.worker.pc.rule)))
  {
    RuleCheckData(c, s);
    SilentWorkerKeeps(c, s, DoRuleCheck(c, s, s.worker.pc.rule));
  }

  lemma PushKeeps(c: Config, s: State)
    requires c.Valid() && Inv(c, s) && s.worker.pc.RulePush?
    ensures Inv(c, s.(worker := DoPush(c, s.worker, s.worker.pc.rule)))
  {
    PushData(c, s.table, s.worker, s.worker.pc.rule);
    SilentWorkerKeeps(c, s, DoPush(c, s.worker, s.worker.pc.rule));
  }

  lemma AfterRulesKeeps(c: Config, s: State)
    requires c.Valid() && Inv(c, s) && s.worker.pc.AfterRules?
    ensures Inv(c, s.(worker := DoAfterRules(s)))
  {
    AfterApplyData(c, s.table, s.worker, DoAfterRules(s).error);
    SilentWorkerKeeps(c, s, DoAfterRules(s));
  }

  lemma RulesStepKeeps(c: Config, s: State, a: Answer, s': State)
    requires c.Valid() && Inv(c, s) && StepRules(c, s, a) == Some(s')
    requires Answers(c, s, a)
    ensures Inv(c, s') && Foreign(s'.table) == Foreign(s.table)
  {
    var pc := s.worker.pc;
    if pc.Propagate? {
      PropagateKeeps(c, s, a);
    } else if pc.RuleCheck? {
      RuleCheckKeeps(c, s);
    } else if pc.RuleApply? {
      ApplyKeeps(c, s, pc.rule, a);
    } else if pc.RulePush? {
      PushKeeps(c, s);
    } else {
      AfterRulesKeeps(c, s);
    }
  }

  lemma WriteSuccessKeeps(c: Config, s: State, next: WorkerPc)
    requires Inv(c, s)
    requires (s.worker.pc.FirstWrite? && next == FirstCas) || (s.worker.pc.SecondWrite? && next == SecondCas)
    ensures Inv(c, DoWriteSuccess(s, next))
  {
    WriteSuccessControl(s, next, Clean(s), Full(c, s.table, s.worker));
    PublicKeeps(c, s, DoWriteSuccess(s, next));
  }

  lemma CompletedKeeps(c: Config, s: State)
    requires Inv(c, s) && (s.worker.pc.FirstCas? || s.worker.pc.SecondCas?) && s.status == Applying
    ensures Inv(c, Completed(s))
  {
    assert Full(c, s.table, s.worker);
    CompletedControl(s, Clean(s));
    StoppedData(c, s.table, s.worker, Completed(s).worker);
    PublicKeeps(c, s, Completed(s));
  }

  lemma FirstCasKeeps(c: Config, s: State)
    requires c.Valid() && Inv(c, s) && s.worker.pc.FirstCas?
    ensures Inv(c, DoFirstCas(s))
  {
    if s.status == Applying {
      CompletedKeeps(c, s);
    } else {
      AfterApplyData(c, s.table, s.worker, ECANCELED);
      SilentWorkerKeeps(c, s, DoFirstCas(s).worker);
    }
  }

  lemma SecondCasKeeps(c: Config, s: State)
    requires Inv(c, s) && s.worker.pc.SecondCas?
    ensures Inv(c, DoSecondCas(s))
  {
    if s.status == Applying {
      CompletedKeeps(c, s);
    } else {
      RaceLostData(c, s.table, s.worker);
      SilentWorkerKeeps(c, s, DoSecondCas(s).worker);
    }
  }

  lemma SnapshotKeeps(c: Config, s: State, a: Answer)
    requires c.Valid() && Inv(c, s) && s.worker.pc.PostSnapshot?
    ensures Inv(c, s.(worker := DoPostSnapshot(c, s, a)))
  {
    SnapshotData(c, s, a);
    SilentWorkerKeeps(c, s, DoPostSnapshot(c, s, a));
  }

  lemma CommitStepKeeps(c: Config, s: State, a: Answer, s': State)
    requires c.Valid() && Inv(c, s) && StepCommit(c, s, a) == Some(s')
    ensures Inv(c, s') && s'.table == s.table
  {
    hide Inv, DoPostSnapshot, AfterApply;
    var pc := s.worker.pc;
    if pc.FirstWrite? {
      WriteSuccessKeeps(c, s, FirstCas);
    } else if pc.FirstCas? {
      FirstCasKeeps(c, s);
    } else if pc.PostSnapshot? {
      SnapshotKeeps(c, s, a);
    } else if pc.SecondWrite? {
      WriteSuccessKeeps(c, s, SecondCas);
    } else {
      SecondCasKeeps(c, s);
    }
  }

  lemma IdentityKeeps(c: Config, s: State, a: Answer)
    requires Inv(c, s) && s.worker.pc.RollbackIdentity?
    ensures Inv(c, s.(worker := DoIdentity(s, a)))
  {
    IdentityData(c, s, a);
    SilentWorkerKeeps(c, s, DoIdentity(s, a));
  }

  lemma UnmountKeeps(c: Config, s: State, n: nat, a: Answer)
    requires c.Valid() && Inv(c, s) && s.worker.pc == Unmounting(n) && n <= |s.worker.journal|
    ensures Inv(c, DoUnmount(s, n, a)) && Foreign(DoUnmount(s, n, a).table) == Foreign(s.table)
  {
    if n == 0 {
      EmptiedData(c, s.table, s.worker);
      SilentWorkerKeeps(c, s, s.worker.(pc := RollbackVerify));
    } else if !a.ok || Top(s.table, s.worker.journal[n - 1].target).None? {
      RollbackFailureData(c, s.table, s.worker, Errno(a));
      SilentWorkerKeeps(c, s, RollbackFailure(s.worker, Errno(a)));
    } else {
      UnmountedKeeps(c, s, n);
    }
  }

  lemma UnmountedKeeps(c: Config, s: State, n: nat)
    requires c.Valid() && Inv(c, s) && s.worker.pc == Unmounting(n) && 0 < n <= |s.worker.journal|
    ensures var u := Unmount(s.table, s.worker.journal[n - 1].target);
            Inv(c, s.(table := u, worker := s.worker.(pc := Unmounting(n - 1))))
            && Foreign(u) == Foreign(s.table)
  {
    var u := Unmount(s.table, s.worker.journal[n - 1].target);
    UnmountedData(c, s.table, s.worker, n);
    SilentKeeps(c, s, s.worker.(pc := Unmounting(n - 1)), u, s.madePrivate);
  }

  lemma VerifyKeeps(c: Config, s: State, a: Answer)
    requires Inv(c, s) && s.worker.pc.RollbackVerify?
    ensures Inv(c, s.(worker := DoVerify(s, a)))
  {
    var w := DoVerify(s, a);
    if w.rollbackFailed {
      RollbackFailureData(c, s.table, s.worker, w.error);
    } else {
      EmptiedData(c, s.table, s.worker);
    }
    SilentWorkerKeeps(c, s, w);
  }

  lemma RollbackStepKeeps(c: Config, s: State, a: Answer, s': State)
    requires c.Valid() && Inv(c, s) && StepRollback(s, a) == Some(s')
    ensures Inv(c, s') && Foreign(s'.table) == Foreign(s.table)
  {
    if s.worker.pc.RollbackIdentity? {
      IdentityKeeps(c, s, a);
    } else if s.worker.pc.Unmounting? {
      UnmountKeeps(c, s, s.worker.pc.left, a);
    } else {
      VerifyKeeps(c, s, a);
    }
  }

  lemma FinalLoadKeeps(c: Config, s: State)
    requires Inv(c, s) && s.worker.pc.FinalLoad?
    ensures Inv(c, DoFinalLoad(s))
  {
    var s' := DoFinalLoad(s);
    FinalLoadControl(s, Clean(s), Full(c, s.table, s.worker));
    if s'.worker.pc.Returning? {
      StoppedData(c, s.table, s.worker, s'.worker);
    } else {
      FinalData(c, s.table, s.worker, s'.worker);
    }
    PublicKeeps(c, s, s');
  }

  lemma FinalWriteKeeps(c: Config, s: State)
    requires Inv(c, s) && s.worker.pc.FinalWrite?
    ensures Inv(c, DoFinalWrite(s))
  {
    FinalWriteControl(s, Clean(s), Full(c, s.table, s.worker));
    FinalData(c, s.table, s.worker, DoFinalWrite(s).worker);
    PublicKeeps(c, s, DoFinalWrite(s));
  }

  lemma FinalCasKeeps(c: Config, s: State)
    requires Inv(c, s) && s.worker.pc.FinalCas?
    ensures Inv(c, DoFinalCas(s))
  {
    var s' := DoFinalCas(s);
    FinalCasControl(s, Clean(s), Full(c, s.table, s.worker));
    if Tainted(s.worker) {
      FinalData(c, s.table, s.worker, s'.worker);
    } else {
      StoppedData(c, s.table, s.worker, s'.worker);
    }
    PublicKeeps(c, s, s');
  }

  lemma StoppingKeeps(c: Config, s: State)
    requires Inv(c, s) && (s.worker.pc.Terminating? || s.worker.pc.Returning?)
    ensures s.worker.pc.Terminating? ==>
              Inv(c, s.(terminated := true, worker := s.worker.(pc := Returning)))
    ensures s.worker.pc.Returning? ==> Inv(c, s.(worker := s.worker.(pc := Exited)))
  {
    var full := Full(c, s.table, s.worker);
    StoppedData(c, s.table, s.worker, s.worker.(pc := Returning));
    StoppedData(c, s.table, s.worker, s.worker.(pc := Exited));
    if s.worker.pc.Terminating? {
      TerminatingControl(s, Clean(s), full);
      PublicKeeps(c, s, s.(terminated := true, worker := s.worker.(pc := Returning)));
    } else {
      ReturningControl(s, Clean(s), full);
      PublicKeeps(c, s, s.(worker := s.worker.(pc := Exited)));
    }
  }

  lemma FinishStepKeeps(c: Config, s: State, s': State)
    requires Inv(c, s) && StepFinish(s) == Some(s')
    ensures Inv(c, s') && s'.table == s.table
  {
    if s.worker.pc.FinalLoad? {
      FinalLoadKeeps(c, s);
    } else if s.worker.pc.FinalWrite? {
      FinalWriteKeeps(c, s);
    } else if s.worker.pc.FinalCas? {
      FinalCasKeeps(c, s);
    } else {
      StoppingKeeps(c, s);
    }
  }

  lemma WorkerStepKeeps(c: Config, s: State, a: Answer, s': State)
    requires c.Valid() && Inv(c, s) && StepWorker(c, s, a) == Some(s')
    requires Answers(c, s, a)
    ensures Inv(c, s') && Foreign(s'.table) == Foreign(s.table)
  {
    var pc := s.worker.pc;
    if BeforeLease(pc) {
      LeaseStepKeeps(c, s, a, s');
    } else if pc.Propagate? || pc.RuleCheck? || pc.RuleApply? || pc.RulePush? || pc.AfterRules? {
      RulesStepKeeps(c, s, a, s');
    } else if pc.FirstWrite? || pc.FirstCas? || pc.PostSnapshot? || pc.SecondWrite? || pc.SecondCas? {
      CommitStepKeeps(c, s, a, s');
    } else if pc.RollbackIdentity? || pc.Unmounting? || pc.RollbackVerify? {
      RollbackStepKeeps(c, s, a, s');
    } else {
      FinishStepKeeps(c, s, s');
    }
  }

  lemma OthersStepKeeps(c: Config, s: State, t: Table)
    requires Inv(c, s) && TableInv(c, t) && Ours(t) == Ours(s.table)
    ensures Inv(c, s.(table := t))
  {
    SameOursKeepsData(c, s.table, t, s.worker);
  }

  lemma StopKeeps(c: Config, s: State)
    requires Inv(c, s)
    ensures Inv(c, s.(app := s.app.(pc := AppDead)))
    ensures Inv(c, s.(companion := s.companion.(pc := CompDone)))
  {
  }

  lemma HoldsTable(c: Config, s: State)
    requires Inv(c, s)
    ensures TableInv(c, s.table)
  {
    hide TableInv, Control;
  }

  /** What one step of the whole system keeps. Only other mounters change foreign mounts. */
  lemma StepKeeps(c: Config, s: State, ev: Event, s': State)
    requires c.Valid() && Inv(c, s) && Step(c, s, ev) == Some(s')
    ensures Inv(c, s')
    ensures !ev.OtherMount? && !ev.OtherUnmount? ==> Foreign(s'.table) == Foreign(s.table)
  {
    hide StepApp, StepWorker, StepCompanion, Answers, Inv, TableInv, Bindable, Unmount, Foreign;
    HoldsTable(c, s);
    match ev
    case AppStep(expired) => AppStepKeeps(c, s, expired, s');
    case AppDies => StopKeeps(c, s);
    case WorkerStep(a) => WorkerStepKeeps(c, s, a, s');
    case WorkerDies => DeathKeeps(c, s);
    case CompanionStep(a) => CompanionStepKeeps(c, s, a, s');
    case CompanionDies => StopKeeps(c, s);
    case OtherMount(e) =>
      OthersKeepTable(c, s.table, e);
      OthersStepKeeps(c, s, s'.table);
    case OtherUnmount(path) =>
      OtherUnmountKeepsTable(c, s.table, path);
      OthersStepKeeps(c, s, s'.table);
  }

  lemma {:induction false} RunKeeps(c: Config, r: Run, n: nat)
    requires c.Valid() && IsRun(c, r) && n < |r.states|
    ensures Inv(c, r.states[n])
  {
    if n == 0 {
      InitEstablishes(c, r.states[0]);
    } else {
      RunKeeps(c, r, n - 1);
      StepKeeps(c, r.states[n - 1], r.events[n - 1], r.states[n]);
    }
  }
}
