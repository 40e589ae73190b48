/** What the mount transaction guarantees over every run: every interleaving of the app,
    the worker and the companion, with any of them dying at any step, and with other
    processes mounting and unmounting away from the plan's targets. */
module ProtocolSafety {
  import opened MountTransaction
  import opened MountBackend
  import opened MountTable
  import opened Wrappers
  import opened MountExecutor
  import opened Protocol
  import opened ProtocolInvariant

  /** Nobody but the transaction changed the table during the run. */
  ghost predicate Alone(r: Run) {
    forall k :: 0 <= k < |r.events| ==> !r.events[k].OtherMount? && !r.events[k].OtherUnmount?
  }

  lemma {:induction false} AloneKeepsForeign(c: Config, r: Run, n: nat)
    requires c.Valid() && IsRun(c, r) && Alone(r) && n < |r.states|
    ensures Foreign(r.states[n].table) == r.states[0].table
  {
    if n == 0 {
      NoOursMeansForeign(r.states[0].table);
    } else {
      AloneKeepsForeign(c, r, n - 1);
      RunKeeps(c, r, n - 1);
      StepKeeps(c, r.states[n - 1], r.events[n - 1], r.states[n]);
    }
  }

  /** Nothing of the transaction is in the namespace; when nobody else touched the mounts,
      the table is the one the run began with. */
  ghost predicate Untouched(r: Run, n: nat)
    requires n < |r.states| && r.states != []
  {
    && Clean(r.states[n])
    && (Alone(r) ==> r.states[n].table == r.states[0].table)
  }

  lemma CleanIsUntouched(c: Config, r: Run, n: nat)
    requires c.Valid() && IsRun(c, r) && n < |r.states| && Clean(r.states[n])
    ensures Untouched(r, n)
  {
    NoOursMeansForeign(r.states[n].table);
    if Alone(r) {
      AloneKeepsForeign(c, r, n);
    }
  }

  // ---------------------------------------------------------- WaitForSharedResult

  lemma FalseHoldsNow(c: Config, s: State)
    requires Inv(c, s) && s.app.pc == AppFalse
    ensures !s.lease && s.status != Pending
  {
    hide Data, WorkerRole, StatusRole, CompanionRole, MessageRole, ResultInv;
  }

  lemma {:induction false} FalseIsFinal(c: Config, r: Run, i: nat, j: nat)
    requires c.Valid() && IsRun(c, r) && i <= j < |r.states|
    requires r.states[i].app.pc == AppFalse
    ensures !r.states[j].lease && r.states[j].status != Pending
  {
    hide Inv, Step;
    if i == j {
      RunKeeps(c, r, i);
      FalseHoldsNow(c, r.states[i]);
    } else {
      FalseIsFinal(c, r, i, j - 1);
      RunKeeps(c, r, j - 1);
      NeverPendingAgain(c, r.states[j - 1], r.events[j - 1], r.states[j]);
    }
  }

  /** Every change a worker step can make to the status word, to the lease and to the record. */
  ghost predicate WorkerMoves(s: State, s': State) {
    var pc := s.worker.pc;
    && (s'.status == s.status
        || (s.status.Pending? && s'.status.Applying?)
        || (s.status.CancelRequested? && s'.status.Cancelled?)
        || (s.status.Applying? && s'.status.Complete?)
        || (pc.FinalCas? && (s'.status.RollbackComplete? || s'.status.NamespaceTainted?)))
    && (s'.lease == s.lease || s.status.Pending?)
    && (s'.result == s.result || pc.FirstWrite? || pc.SecondWrite? || pc.FinalWrite?)
  }

  lemma WorkerMovesSo(c: Config, s: State, a: Answer, s': State)
    requires StepWorker(c, s, a) == Some(s')
    ensures WorkerMoves(s, s')
  {
    hide StepLease, StepRules, StepCommit, StepRollback, StepFinish, WorkerMoves;
    match s.worker.pc
    case Preflight | LeaseCas | LeaseReload | LeaseMark => LeaseMoves(c, s, a, s');
    case Propagate | RuleCheck(_) | RuleApply(_) | RulePush(_) | AfterRules => RulesMove(c, s, a, s');
    case FirstWrite | FirstCas | PostSnapshot | SecondWrite | SecondCas => CommitMoves(c, s, a, s');
    case RollbackIdentity | Unmounting(_) | RollbackVerify => RollbackMoves(s, a, s');
    case _ => FinishMoves(s, s');
  }

  lemma LeaseMoves(c: Config, s: State, a: Answer, s': State)
    requires StepLease(c, s, a) == Some(s')
    ensures WorkerMoves(s, s')
  {
    hide DoPreflight, DoLeaseCas, DoLeaseReload, DoLeaseMark, WorkerMoves;
    match s.worker.pc
    case Preflight => OwnDataMoves(s, s');
    case LeaseReload => LeaseReloadMoves(s);
    case _ => LeaseCasMoves(s);
  }

  /** A step on the worker's own data and the mounts alone. */
  lemma OwnDataMoves(s: State, s': State)
    requires s'.status == s.status && s'.lease == s.lease && s'.result == s.result
    ensures WorkerMoves(s, s')
  {
  }

  lemma LeaseReloadMoves(s: State)
    ensures WorkerMoves(s, DoLeaseReload(s))
  {
  }

  lemma LeaseCasMoves(s: State)
    ensures WorkerMoves(s, DoLeaseCas(s)) && WorkerMoves(s, DoLeaseMark(s))
  {
  }

  lemma RulesMove(c: Config, s: State, a: Answer, s': State)
    requires StepRules(c, s, a) == Some(s')
    ensures WorkerMoves(s, s')
  {
    hide DoRuleCheck, AfterRefusal, Bound, DoPush, DoAfterRules, WorkerMoves;
    OwnDataMoves(s, s');
  }

  lemma CommitMoves(c: Config, s: State, a: Answer, s': State)
    requires StepCommit(c, s, a) == Some(s')
    ensures WorkerMoves(s, s')
  {
    hide DoPostSnapshot, DoFirstCas, DoSecondCas, DoWriteSuccess, WorkerMoves;
    match s.worker.pc
    case FirstWrite => SuccessMoves(s, FirstCas);
    case SecondWrite => SuccessMoves(s, SecondCas);
    case PostSnapshot => OwnDataMoves(s, s');
    case _ => CommitCasMoves(s);
  }

  lemma SuccessMoves(s: State, next: WorkerPc)
    requires s.worker.pc.FirstWrite? || s.worker.pc.SecondWrite?
    ensures WorkerMoves(s, DoWriteSuccess(s, next))
  {
  }

  lemma CommitCasMoves(s: State)
    ensures WorkerMoves(s, DoFirstCas(s)) && WorkerMoves(s, DoSecondCas(s))
  {
    hide AfterApply;
  }

  lemma RollbackMoves(s: State, a: Answer, s': State)
    requires StepRollback(s, a) == Some(s')
    ensures WorkerMoves(s, s')
  {
    hide DoIdentity, DoVerify, Unmount, Top;
  }

  lemma FinishMoves(s: State, s': State)
    requires StepFinish(s) == Some(s')
    ensures WorkerMoves(s, s')
  {
  }

  /** The same for the companion, which may also close a cancelled or a dead transaction. */
  ghost predicate CompanionMoves(s: State, s': State) {
    var pc := s.companion.pc;
    && (s'.status == s.status
        || (s.status.Pending? && s'.status.Failed?)
        || (s.status.CancelRequested? && s'.status.Cancelled?)
        || (pc.TaintCas? && s'.status.NamespaceTainted?)
        || (pc.CompFinalCas? && s.status == s.companion.loaded && s'.status == pc.to))
    && s'.lease == s.lease
    && (s'.result == s.result || pc.CompStart? || pc.FailWrite? || pc.TaintWrite? || pc.CompFinalWrite?)
  }

  lemma CompanionMovesSo(s: State, a: Answer, s': State)
    requires StepCompanion(s, a) == Some(s')
    ensures CompanionMoves(s, s')
  {
    hide StepLaunch, StepPendingFailure, AfterReceive, StepOwnerDeath, StepPublish;
    match s.companion.pc
    case CompStart | CompReady => LaunchMoves(s, a, s');
    case FailWrite(_) | FailCas(_) | FailReload | FailMark => PendingFailureMoves(s, a, s');
    case Receiving | Reload | SecondReceive | Reaping =>
    case AfterWait | TaintWrite | TaintCas | TaintTerminate => OwnerDeathMoves(s, a, s');
    case _ => PublishMoves(s, s');
  }

  lemma LaunchMoves(s: State, a: Answer, s': State)
    requires StepLaunch(s, a) == Some(s')
    ensures CompanionMoves(s, s')
  {
  }

  lemma PendingFailureMoves(s: State, a: Answer, s': State)
    requires StepPendingFailure(s, a) == Some(s')
    ensures CompanionMoves(s, s')
  {
  }

  lemma OwnerDeathMoves(s: State, a: Answer, s': State)
    requires StepOwnerDeath(s, a) == Some(s')
    ensures CompanionMoves(s, s')
  {
  }

  lemma PublishMoves(s: State, s': State)
    requires StepPublish(s) == Some(s')
    ensures CompanionMoves(s, s')
  {
    hide StepCompanionFinal, TransitionAllowed;
  }

  /** What any step can do to the status word, the lease and the record. */
  ghost predicate Moves(s: State, ev: Event, s': State) {
    match ev
    case WorkerStep(_) => WorkerMoves(s, s')
    case CompanionStep(_) => CompanionMoves(s, s')
    case _ =>
      && (s'.status == s.status || (s'.status.CancelRequested? && (s.status.Pending? || s.status.Applying?)))
      && s'.lease == s.lease && s'.result == s.result
  }

  lemma AppMoves(s: State, expired: bool, s': State)
    requires StepApp(s, expired) == Some(s')
    ensures s'.status == s.status || (s'.status.CancelRequested? && (s.status.Pending? || s.status.Applying?))
    ensures s'.lease == s.lease && s'.result == s.result
  {
    hide AfterLoad, AfterOwnerLoad;
  }

  lemma StepMoves(c: Config, s: State, ev: Event, s': State)
    requires Step(c, s, ev) == Some(s')
    ensures Moves(s, ev, s')
  {
    hide StepApp, StepWorker, StepCompanion, WorkerMoves, CompanionMoves, Unmount, Bindable, Answers;
    match ev
    case AppStep(expired) => AppMoves(s, expired, s');
    case WorkerStep(a) => WorkerMovesSo(c, s, a, s');
    case CompanionStep(a) => CompanionMovesSo(s, a, s');
    case _ =>
  }

  /** The lease is won only from Pending, and Pending is never entered. */
  lemma NeverPendingAgain(c: Config, s: State, ev: Event, s': State)
    requires Inv(c, s) && Step(c, s, ev) == Some(s') && s.status != Pending
    ensures s'.status != Pending && s'.lease == s.lease
  {
    hide Step, Data, WorkerRole, StatusRole, AppRole, MessageRole, ResultInv;
    StepMoves(c, s, ev, s');
  }

  /** When the app's wait returns false and the app was not killed, this transaction has
      made no mount and no propagation change, and never will. */
  lemma FalseMeansNoMutation(c: Config, r: Run, i: nat, j: nat)
    requires c.Valid() && IsRun(c, r) && i <= j < |r.states|
    requires r.states[i].app.pc == AppFalse
    ensures forall k :: 0 <= k <= j ==> Untouched(r, k)
  {
    FalseIsFinal(c, r, i, j);
    forall k | 0 <= k <= j ensures Untouched(r, k) {
      LeaseStays(c, r, k, j);
      RunKeeps(c, r, k);
      CleanIsUntouched(c, r, k);
    }
  }

  lemma LeaseIsKept(c: Config, s: State, ev: Event, s': State)
    requires Inv(c, s) && Step(c, s, ev) == Some(s') && s.lease
    ensures s'.lease
  {
    hide Step, Data, WorkerRole, AppRole, CompanionRole, MessageRole, ResultInv;
    NeverPendingAgain(c, s, ev, s');
  }

  lemma {:induction false} LeaseStays(c: Config, r: Run, k: nat, j: nat)
    requires c.Valid() && IsRun(c, r) && k <= j < |r.states|
    ensures r.states[k].lease ==> r.states[j].lease
  {
    hide Inv, Step;
    if k < j && r.states[k].lease {
      LeaseStays(c, r, k, j - 1);
      RunKeeps(c, r, j - 1);
      LeaseIsKept(c, r.states[j - 1], r.events[j - 1], r.states[j]);
    }
  }

  // ------------------------------------------------------------------- rollback

  /** A transaction that reports a completed rollback left nothing behind, or the
      namespace's members were killed: also when the worker's own publication lost the
      race against the app's cancellation and the companion published instead. */
  lemma RollbackCompleteRestores(c: Config, r: Run, n: nat)
    requires c.Valid() && IsRun(c, r) && n < |r.states|
    requires r.states[n].status == RollbackComplete
    ensures r.states[n].terminated || Untouched(r, n)
  {
    RunKeeps(c, r, n);
    if Clean(r.states[n]) {
      CleanIsUntouched(c, r, n);
    }
  }

  /** Every unmount of a rollback happens after all identities were confirmed, and takes
      away the mount whose confirmed id the journal holds, newest first. */
  lemma UnmountsAreConfirmed(c: Config, r: Run, n: nat)
    requires c.Valid() && IsRun(c, r) && n < |r.events|
    requires r.states[n].worker.pc.Unmounting? && r.events[n].WorkerStep?
    requires r.states[n + 1].table != r.states[n].table
    ensures var s, left := r.states[n], r.states[n].worker.pc.left;
            && 0 < left == |Ours(s.table)| <= |s.worker.journal|
            && (forall k :: 0 <= k < |s.worker.journal| ==> s.worker.journal[k].mountId != 0)
            && (forall k :: 0 <= k < left ==> s.worker.journal[k].mountId == Ours(s.table)[k].id)
            && Ours(r.states[n + 1].table) == Ours(s.table)[..left - 1]
            && Foreign(r.states[n + 1].table) == Foreign(s.table)
  {
    hide Inv, Step;
    RunKeeps(c, r, n);
    StepKeeps(c, r.states[n], r.events[n], r.states[n + 1]);
    UnmountingHolds(c, r.states[n]);
    StepUnmounts(c, r.states[n], r.events[n], r.states[n + 1]);
    UnmountTakesOne(c, r.states[n], r.events[n].answer);
  }

  lemma UnmountingHolds(c: Config, s: State)
    requires Inv(c, s) && s.worker.pc.Unmounting?
    ensures s.worker.pc.left == |Ours(s.table)| <= |s.worker.journal|
    ensures forall k :: 0 <= k < |s.worker.journal| ==> s.worker.journal[k].mountId != 0
    ensures forall k :: 0 <= k < s.worker.pc.left ==> s.worker.journal[k].mountId == Ours(s.table)[k].id
  {
    hide Control, TableInv, EntryAt;
  }

  lemma StepUnmounts(c: Config, s: State, ev: Event, s': State)
    requires Step(c, s, ev) == Some(s') && ev.WorkerStep? && s.worker.pc.Unmounting?
    ensures s.worker.pc.left <= |s.worker.journal| && s' == DoUnmount(s, s.worker.pc.left, ev.answer)
  {
    hide DoUnmount, StepLease, StepRules, StepCommit, StepFinish, StepCompanion, StepApp, Answers;
  }

  lemma UnmountTakesOne(c: Config, s: State, a: Answer)
    requires c.Valid() && Inv(c, s) && s.worker.pc.Unmounting? && s.worker.pc.left <= |s.worker.journal|
    requires DoUnmount(s, s.worker.pc.left, a).table != s.table
    ensures s.worker.pc.left > 0
    ensures Ours(DoUnmount(s, s.worker.pc.left, a).table) == Ours(s.table)[..s.worker.pc.left - 1]
  {
    hide Control;
    var n := s.worker.pc.left;
    if n > 0 {
      assert EntryAt(c, s.worker.journal, s.worker.backend, n - 1);
      UnmountKeepsTable(c, s.table, n);
    }
  }

  /** The rollback is over and the worker has not returned. */
  ghost predicate RolledBack(pc: WorkerPc) {
    pc.FinalLoad? || pc.FinalWrite? || pc.FinalCas? || pc.Terminating?
  }

  /** A rollback that reports no failure has undone every mount by the time the worker publishes,
      whether or not the propagation of /storage was changed before. */
  lemma CleanRollbackIsExact(c: Config, r: Run, n: nat)
    requires c.Valid() && IsRun(c, r) && n < |r.states|
    requires RolledBack(r.states[n].worker.pc) && !r.states[n].worker.rollbackFailed
    ensures Ours(r.states[n].table) == []
    ensures Alone(r) ==> r.states[n].table == r.states[0].table
  {
    RunKeeps(c, r, n);
    NoOursMeansForeign(r.states[n].table);
    if Alone(r) {
      AloneKeepsForeign(c, r, n);
    }
  }

  /** An entry whose identity was never confirmed keeps every mount in place. */
  lemma UnconfirmedBlocksUnmount(c: Config, s: State, a: Answer, k: nat)
    requires c.Valid() && Inv(c, s) && s.worker.pc.RollbackIdentity?
    requires k < |s.worker.journal| && s.worker.journal[k].mountId == 0
    ensures DoIdentity(s, a).pc == FinalLoad && DoIdentity(s, a).rollbackFailed
  {
    var w := s.worker;
    var snapshot := if w.snapshot.Some? then w.snapshot.value else s.table;
    ValidateAllPasses(w.journal, snapshot, a.checks);
    assert ValidateRollback(w.journal[k], snapshot, CheckAt(a.checks, k)) != 0;
  }

  /** The journal has room for every mutation of a loaded plan. */
  lemma JournalNeverOverflows(c: Config, r: Run, n: nat)
    requires c.Valid() && IsRun(c, r) && n < |r.states|
    ensures |r.states[n].worker.journal| <= MAX_MOUNT_RULES && !r.states[n].worker.untracked
    ensures r.states[n].worker.pc.RulePush? ==> |r.states[n].worker.journal| < MAX_MOUNT_RULES
  {
    RunKeeps(c, r, n);
  }

  // ----------------------------------------------------------------- completion

  /** Every rule of the plan has its own live mount on top of its target, in plan order,
      recorded in the journal, all through one backend. */
  ghost predicate InForce(c: Config, s: State) {
    && |Ours(s.table)| == |s.worker.journal| == |c.rules|
    && (forall k :: 0 <= k < |c.rules| ==>
         && Top(s.table, c.rules[k].target) == Some(Ours(s.table)[k])
         && Ours(s.table)[k].origin == Some(k)
         && s.worker.journal[k].operation == k
         && s.worker.journal[k].target == c.rules[k].target
         && s.worker.journal[k].backend == s.worker.backend)
    && s.worker.backend != Unsupported
    && (s.worker.backend == LegacyString ==>
         c.allowLegacy && forall k :: 0 <= k < |c.rules| ==> c.rules[k].action == Redirect)
  }

  lemma CompleteIsInForce(c: Config, s: State)
    requires c.Valid() && Inv(c, s) && s.status == Complete
    ensures InForce(c, s)
  {
    forall k | 0 <= k < |c.rules|
      ensures OursAt(c, s.table, k) && EntryAt(c, s.worker.journal, s.worker.backend, k)
      ensures c.rules[k].action in c.Required()
    {
    }
  }

  /** From the step that sets Complete on, the whole plan is in force and stays so. */
  lemma CompleteStaysInForce(c: Config, r: Run, i: nat, j: nat)
    requires c.Valid() && IsRun(c, r) && i <= j < |r.states|
    requires r.states[i].status == Complete
    ensures r.states[j].status == Complete && InForce(c, r.states[j])
  {
    ResultIsFinal(c, r, i, j);
    RunKeeps(c, r, j);
    CompleteIsInForce(c, r.states[j]);
  }

  /** Complete is set by the worker that holds the lease, and by nobody else. */
  lemma OnlyTheLeaseHolderCompletes(c: Config, r: Run, n: nat)
    requires c.Valid() && IsRun(c, r) && n < |r.events|
    requires r.states[n].status != Complete && r.states[n + 1].status == Complete
    ensures r.events[n].WorkerStep? && r.states[n].lease && r.states[n].status == Applying
  {
    RunKeeps(c, r, n);
    CompletingStep(c, r.states[n], r.events[n], r.states[n + 1]);
  }

  lemma CompletingStep(c: Config, s: State, ev: Event, s': State)
    requires Inv(c, s) && Step(c, s, ev) == Some(s')
    requires s.status != Complete && s'.status == Complete
    ensures ev.WorkerStep? && s.lease && s.status == Applying
  {
    hide Step, Data, AppRole, MessageRole, ResultInv;
    StepMoves(c, s, ev, s');
  }

  // --------------------------------------------------------------------- result

  /** No step changes a status that has a result, nor the result it announced. */
  lemma ResultStays(c: Config, s: State, ev: Event, s': State)
    requires Inv(c, s) && Step(c, s, ev) == Some(s') && HasResult(s.status)
    ensures s'.status == s.status && s'.result == s.result
  {
    hide Step, Data, AppRole, MessageRole, ResultInv;
    StepMoves(c, s, ev, s');
  }

  /** A published outcome is final, whatever the transition table would allow. */
  lemma {:induction false} ResultIsFinal(c: Config, r: Run, i: nat, j: nat)
    requires c.Valid() && IsRun(c, r) && i <= j < |r.states| && HasResult(r.states[i].status)
    ensures r.states[j].status == r.states[i].status && r.states[j].result == r.states[i].result
  {
    hide Inv, Step;
    if i < j {
      ResultIsFinal(c, r, i, j - 1);
      RunKeeps(c, r, j - 1);
      ResultStays(c, r.states[j - 1], r.events[j - 1], r.states[j]);
    }
  }

  /** An app that reads a result reads success exactly for a completed transaction. */
  lemma ResultMatchesStatus(c: Config, r: Run, n: nat)
    requires c.Valid() && IsRun(c, r) && n < |r.states| && HasResult(r.states[n].status)
    ensures r.states[n].result.error == 0 <==> r.states[n].status == Complete
  {
    RunKeeps(c, r, n);
  }

  /** The companion never holds a worker's report while the status still says Applying,
      so its branch that would publish Complete on the worker's behalf is dead. */
  lemma NoReportWhileApplying(c: Config, r: Run, n: nat)
    requires c.Valid() && IsRun(c, r) && n < |r.states|
    ensures r.states[n].companion.received ==> r.states[n].status != Applying
    ensures r.states[n].companion.pc != CompFinalWrite(Complete)
  {
    RunKeeps(c, r, n);
  }

  // ---------------------------------------------------------------- a whole run

  ghost predicate Reaches(c: Config, from: State, to: State) {
    exists r: Run :: IsRun(c, r) && r.states[0] == from && r.states[|r.states| - 1] == to
  }

  lemma ReachesItself(c: Config, s: State)
    requires Init(s)
    ensures Reaches(c, s, s)
  {
    assert IsRun(c, Run([s], []));
  }

  lemma ReachesMore(c: Config, from: State, s: State, ev: Event, s': State)
    requires Reaches(c, from, s) && Step(c, s, ev) == Some(s')
    ensures Reaches(c, from, s')
  {
    hide Init, Step;
    var r: Run :| IsRun(c, r) && r.states[0] == from && r.states[|r.states| - 1] == s;
    var more := Run(r.states + [s'], r.events + [ev]);
    assert IsRun(c, more);
  }

  const QUIET := Entry(0, 0, 0, "", "", "", None)

  function Accepting(e: Entry): Answer { Answer(true, false, 0, 0, e, {}, []) }

  lemma Launched(c: Config, s: State) returns (t: State)
    requires Init(s)
    ensures Reaches(c, s, t) && t.worker == s.worker.(pc := Preflight) && t.status == Pending && t.table == s.table
  {
    var a := Accepting(QUIET);
    ReachesItself(c, s);
    var s1 := StepCompanion(s, a).value;
    ReachesMore(c, s, s, CompanionStep(a), s1);
    t := StepCompanion(s1, a).value;
    ReachesMore(c, s, s1, CompanionStep(a), t);
  }

  lemma WorkerReaches(c: Config, from: State, s: State, a: Answer)
    requires Reaches(c, from, s) && Answers(c, s, a) && StepWorker(c, s, a).Some?
    ensures Reaches(c, from, StepWorker(c, s, a).value)
  {
    hide Reaches, StepWorker, Answers;
    ReachesMore(c, from, s, WorkerStep(a), StepWorker(c, s, a).value);
  }

  lemma LeaseTaken(c: Config, from: State, s: State) returns (t: State)
    requires Reaches(c, from, s) && s.worker.pc == Preflight && s.status == Pending
    ensures Reaches(c, from, t) && t.status == Applying && t.table == s.table
    ensures t.worker == s.worker.(before := s.table, requiresPrivate := false, backend := StrictOpenTree,
                                  locked := false, pc := RuleCheck(0))
  {
    hide Reaches;
    var a := Accepting(QUIET);
    WorkerReaches(c, from, s, a);
    var s1 := StepWorker(c, s, a).value;
    WorkerReaches(c, from, s1, a);
    var s2 := StepWorker(c, s1, a).value;
    WorkerReaches(c, from, s2, a);
    t := StepWorker(c, s2, a).value;
  }

  lemma RuleMounted(c: Config, from: State, s: State, e: Entry) returns (t: State)
    requires Reaches(c, from, s) && s.worker.pc == RuleCheck(0) && |c.rules| == 1 && s.worker.journal == []
    requires s.status == Applying && Bindable(s.table, c.rules[0].target, Bound(c, 0, Accepting(e)))
    ensures Reaches(c, from, t) && t.status == Applying && t.worker.pc == RuleCheck(1)
    ensures t.worker.journal != [] && t.worker.error == s.worker.error && t.worker.backend == s.worker.backend
  {
    hide Reaches;
    var a := Accepting(e);
    WorkerReaches(c, from, s, a);
    var s1 := StepWorker(c, s, a).value;
    WorkerReaches(c, from, s1, a);
    var s2 := StepWorker(c, s1, a).value;
    WorkerReaches(c, from, s2, a);
    t := StepWorker(c, s2, a).value;
  }

  lemma RulesDone(c: Config, from: State, s: State) returns (t: State)
    requires Reaches(c, from, s) && s.worker.pc == RuleCheck(1) && |c.rules| == 1 && s.worker.journal != []
    requires s.status == Applying && s.worker.error == 0 && s.worker.backend == StrictOpenTree
    ensures Reaches(c, from, t) && t.status == Applying && t.worker.pc == FirstWrite
  {
    hide Reaches;
    var a := Accepting(QUIET);
    WorkerReaches(c, from, s, a);
    var s1 := StepWorker(c, s, a).value;
    WorkerReaches(c, from, s1, a);
    t := StepWorker(c, s1, a).value;
  }

  lemma Published(c: Config, from: State, s: State) returns (t: State)
    requires Reaches(c, from, s) && s.worker.pc == FirstWrite && s.status == Applying
    ensures Reaches(c, from, t) && t.status == Complete
  {
    hide Reaches, AfterApply;
    var a := Accepting(QUIET);
    WorkerReaches(c, from, s, a);
    var s1 := StepWorker(c, s, a).value;
    WorkerReaches(c, from, s1, a);
    t := StepWorker(c, s1, a).value;
  }

  /** From every initial state a plan of one rule can run to completion. */
  lemma CompletionIsReachable(c: Config, s: State, e: Entry)
    requires c.Valid() && |c.rules| == 1 && Init(s)
    requires Bindable(s.table, c.rules[0].target, Bound(c, 0, Accepting(e)))
    ensures exists t: State :: Reaches(c, s, t) && t.status == Complete
  {
    hide Reaches, Bindable;
    var launched := Launched(c, s);
    var leased := LeaseTaken(c, s, launched);
    var mounted := RuleMounted(c, s, leased, e);
    var done := RulesDone(c, s, mounted);
    var published := Published(c, s, done);
  }
}
