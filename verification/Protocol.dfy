/** The mount transaction as a state machine: the app waiting in WaitForSharedResult, the
    forked worker in ApplyProcessPlan and the companion in CompanionHandler, all three in
    zygisk/src/module_entry.cpp, over one shared status word, one shared result record and
    one kernel mount table. Every load, write and compare-and-swap on shared memory and
    every kernel mutation is a step of its own; a load and the branch it feeds are one step.
    Any process may die between any two steps. */
module Protocol {
  import opened MountTransaction
  import opened MountBackend
  import opened MountTable
  import opened Wrappers
  import opened MountExecutor
  import opened MutationJournal

  const MAX_MOUNT_RULES := 64

  /** Copied from a plan that LoadProcessPlan accepted, with the directories pinned. */
  datatype PlannedMount = PlannedMount(action: Action, target: string, source: Pinned, pin: Pinned)

  datatype Config = Config(rules: seq<PlannedMount>, allowLegacy: bool) {
    function Required(): set<Action> {
      set r | r in rules :: r.action
    }

    /** A loaded plan: between one and 64 redirects and denials, whose targets are absolute and
        distinct. One target may lie below another. */
    ghost predicate Valid() {
      && 0 < |rules| <= MAX_MOUNT_RULES
      && (forall k :: 0 <= k < |rules| ==>
           rules[k].action in {Redirect, DenyAnchor} && IsPathOnMount(rules[k].target, rules[k].target))
      && (forall j, k :: 0 <= j < |rules| && 0 <= k < |rules| && j != k ==>
           rules[j].target != rules[k].target)
    }

    /** A path where other processes may mount without meeting the plan's targets. */
    ghost predicate Elsewhere(path: string) {
      && IsPathOnMount(path, path)
      && forall k :: 0 <= k < |rules| ==>
           !IsPathOnMount(path, rules[k].target) && !IsPathOnMount(rules[k].target, path)
    }
  }

  /** The shared result record: the readiness time and the error of the mount phase. */
  datatype Result = Result(ready: nat, error: nat)

  // --------------------------------------------------------------- processes

  datatype AppPc =
    | AppLoad | AppCasPending | AppCasApplying | AppOwnerLoad
    | AppTrue | AppFalse | AppSelfKilled | AppDead

  datatype App = App(pc: AppPc, graceUsed: bool)

  datatype WorkerPc =
    | NotForked
    | Preflight | LeaseCas | LeaseReload | LeaseMark
    | Propagate
    | RuleCheck(rule: nat) | RuleApply(rule: nat) | RulePush(rule: nat)
    | AfterRules
    | FirstWrite | FirstCas
    | PostSnapshot
    | SecondWrite | SecondCas
    | RollbackIdentity | Unmounting(left: nat) | RollbackVerify
    | FinalLoad | FinalWrite | FinalCas | Terminating
    | Returning | Exited | WorkerDead

  datatype Worker = Worker(
    pc: WorkerPc,
    before: Table,                 // snapshot the plan was pinned against
    requiresPrivate: bool,
    backend: Backend, locked: bool,
    journal: seq<Applied>,
    snapshot: Option<Table>,       // snapshot taken after the mounts
    error: nat,
    propagationChanged: bool, rollbackFailed: bool, untracked: bool,
    loaded: Status)

  datatype CompanionPc =
    | CompStart | CompReady
    | FailWrite(failure: nat) | FailCas(failure: nat) | FailReload | FailMark
    | Receiving | Reload | SecondReceive | Reaping | AfterWait
    | TaintWrite | TaintCas | TaintTerminate
    | CompFinalLoad | CompFinalWrite(to: Status) | CompFinalCas(to: Status)
    | CompDone

  datatype Companion = Companion(
    pc: CompanionPc, received: bool, message: nat, ownerDeath: bool, loaded: Status)

  datatype State = State(
    status: Status, result: Result,
    app: App, worker: Worker, companion: Companion,
    table: Table,
    madePrivate: bool,             // history: propagation of /storage was changed
    terminated: bool,              // history: the namespace's members were killed
    lease: bool)                   // history: the worker won Pending -> Applying

  /** What the outside answers during one step. */
  datatype Answer = Answer(
    ok: bool, flag: bool, error: nat, ready: nat, entry: Entry,
    primitives: set<Primitive>, checks: seq<Check>)

  datatype Event =
    | AppStep(expired: bool) | AppDies
    | WorkerStep(answer: Answer) | WorkerDies
    | CompanionStep(answer: Answer) | CompanionDies
    | OtherMount(entry: Entry) | OtherUnmount(path: string)

  function Errno(a: Answer): (e: nat) ensures e != 0 {
    if a.error == 0 then EIO else a.error
  }

  // --------------------------------------------------------------------- app

  /** WaitForSharedResult. `expired` says whether the deadline in force has passed. */
  function StepApp(s: State, expired: bool): Option<State> {
    match s.app.pc
    case AppLoad => Some(s.(app := AfterLoad(s, expired)))
    case AppCasPending => Some(DoAppCas(s, Pending, AppFalse))
    case AppCasApplying => Some(DoAppCas(s, Applying, AppOwnerLoad))
    case AppOwnerLoad => Some(s.(app := AfterOwnerLoad(s, expired)))
    case _ => None
  }

  /** The first phase, up to a grace period for a transaction that is being applied. */
  function AfterLoad(s: State, expired: bool): App {
    if HasResult(s.status) then s.app.(pc := AppTrue)
    else if s.status == Cancelled then s.app.(pc := AppFalse)
    else if !expired then s.app
    else if s.status == Pending then s.app.(pc := AppCasPending)
    else if s.status == Applying && !s.app.graceUsed then s.app.(graceUsed := true)
    else if s.status == Applying then s.app.(pc := AppCasApplying)
    else s.app.(pc := AppOwnerLoad)
  }

  function DoAppCas(s: State, from: Status, won: AppPc): State {
    s.(status := CompareAndSwap(s.status, from, CancelRequested),
       app := s.app.(pc := if Swaps(s.status, from, CancelRequested) then won else AppLoad))
  }

  /** The second phase, once the owner of the lease was asked to cancel. */
  function AfterOwnerLoad(s: State, expired: bool): App {
    if HasResult(s.status) then s.app.(pc := AppTrue)
    else if s.status == Cancelled then s.app.(pc := AppFalse)
    else if expired then s.app.(pc := AppSelfKilled)
    else s.app
  }

  // ------------------------------------------------------------------ worker

  /** The capabilities a probe of the pinned directories can report. */
  function Probed(primitives: set<Primitive>): Capabilities {
    Capabilities(primitives, {Redirect, DenyAnchor}, {Redirect})
  }

  function Fail(w: Worker, error: nat): Worker {
    w.(error := error, pc := Returning)
  }

  function RollbackFailure(w: Worker, error: nat): Worker {
    w.(error := error, rollbackFailed := true, pc := FinalLoad)
  }

  /** Where ApplyProcessPlan goes once the rules are done. */
  function AfterApply(w: Worker): WorkerPc {
    if w.error == 0 && !NeedsPostMountSnapshot(w.backend, w.journal != [], true) then FirstWrite
    else if NeedsPostMountSnapshot(w.backend, w.journal != [], w.error == 0) then PostSnapshot
    else if w.error == 0 then SecondWrite
    else RollbackIdentity
  }

  /** One confirmed identity is written back to the journal; a failed check is not. */
  function HydrateAt(c: Config, w: Worker, after: Table, checks: seq<Check>, k: nat): Verdict
    requires k < |w.journal|
  {
    var a := w.journal[k];
    if a.operation >= |c.rules| then Verdict(a, EOVERFLOW)
    else
      var rule := c.rules[a.operation];
      VerifyMount(w.before, after, rule.source, rule.pin, a, |w.journal|, CheckAt(checks, k))
  }

  function Hydrated(c: Config, w: Worker, after: Table, checks: seq<Check>): (r: seq<Applied>)
    ensures |r| == |w.journal|
  {
    seq(|w.journal|, k requires 0 <= k < |w.journal| =>
      var v := HydrateAt(c, w, after, checks, k);
      if v.Confirmed() then v.applied else w.journal[k])
  }

  /** The first verification error among entries `from..`, or the error already present. */
  function HydrateError(c: Config, w: Worker, after: Table, checks: seq<Check>, from: nat): nat
    decreases |w.journal| - from
  {
    if w.error != 0 then w.error
    else if from >= |w.journal| then 0
    else
      var e := HydrateAt(c, w, after, checks, from).error;
      if e != 0 then e else HydrateError(c, w, after, checks, from + 1)
  }

  function Untracks(c: Config, w: Worker): bool {
    w.untracked || exists a :: a in w.journal && a.operation >= |c.rules|
  }

  function Tainted(w: Worker): bool {
    w.propagationChanged || w.rollbackFailed || w.untracked
  }

  function StepWorker(c: Config, s: State, a: Answer): Option<State> {
    match s.worker.pc
    case Preflight | LeaseCas | LeaseReload | LeaseMark => StepLease(c, s, a)
    case Propagate | RuleCheck(_) | RuleApply(_) | RulePush(_) | AfterRules => StepRules(c, s, a)
    case FirstWrite | FirstCas | PostSnapshot | SecondWrite | SecondCas => StepCommit(c, s, a)
    case RollbackIdentity | Unmounting(_) | RollbackVerify => StepRollback(s, a)
    case FinalLoad | FinalWrite | FinalCas | Terminating | Returning => StepFinish(s)
    case _ => None
  }

  /** Preflight, and AcquireMutationLease. */
  function StepLease(c: Config, s: State, a: Answer): Option<State> {
    match s.worker.pc
    case Preflight => Some(s.(worker := DoPreflight(c, s, a)))
    case LeaseCas => Some(DoLeaseCas(s))
    case LeaseReload => Some(DoLeaseReload(s))
    case LeaseMark => Some(DoLeaseMark(s))
    case _ => None
  }

  /** Everything before the lease: any check may fail, and a probe may fix the backend. */
  function DoPreflight(c: Config, s: State, a: Answer): Worker {
    var w := s.worker;
    if !a.ok then Fail(w, Errno(a))
    else if s.status == CancelRequested then Fail(w, ECANCELED)
    else if !a.flag then
      w.(before := s.table, requiresPrivate := false,
         backend := StrictOpenTree, locked := false, pc := LeaseCas)
    else
      var choice := SelectBackend(c.Required(), Probed(a.primitives), c.allowLegacy);
      if choice.backend == Unsupported then Fail(w, ENOTSUP)
      else w.(before := s.table, requiresPrivate := true,
              backend := choice.backend, locked := true, pc := LeaseCas)
  }

  function DoLeaseCas(s: State): State {
    if Swaps(s.status, Pending, Applying)
    then s.(status := Applying, lease := true, worker := s.worker.(pc := Propagate))
    else s.(worker := s.worker.(pc := LeaseReload))
  }

  function DoLeaseReload(s: State): State {
    s.(worker := if s.status == CancelRequested then s.worker.(pc := LeaseMark)
                 else Fail(s.worker, ECANCELED))
  }

  function DoLeaseMark(s: State): State {
    s.(status := CompareAndSwap(s.status, CancelRequested, Cancelled),
       worker := Fail(s.worker, ECANCELED))
  }

  /** The mutating loop over the plan's rules. */
  function StepRules(c: Config, s: State, a: Answer): Option<State> {
    match s.worker.pc
    case Propagate => Some(DoPropagate(s, a))
    case RuleCheck(i) => Some(s.(worker := DoRuleCheck(c, s, i)))
    case RuleApply(i) => if i < |c.rules| then Some(DoApply(c, s, i, a)) else None
    case RulePush(i) => Some(s.(worker := DoPush(c, s.worker, i)))
    case AfterRules => Some(s.(worker := DoAfterRules(s)))
    case _ => None
  }

  function DoPropagate(s: State, a: Answer): State {
    var w := s.worker;
    if !w.requiresPrivate then s.(worker := w.(pc := RuleCheck(0)))
    else if !a.ok then s.(worker := w.(error := Errno(a), pc := AfterRules))
    else s.(madePrivate := true, worker := w.(propagationChanged := true, pc := RuleCheck(0)))
  }

  function DoRuleCheck(c: Config, s: State, i: nat): Worker {
    if i >= |c.rules| then s.worker.(pc := AfterRules)
    else if s.status == CancelRequested then s.worker.(error := ECANCELED, pc := AfterRules)
    else s.worker.(pc := RuleApply(i))
  }

  /** ApplyDirectoryMountRaw and the fallback of the first rule. */
  function DoApply(c: Config, s: State, i: nat, a: Answer): State
    requires i < |c.rules|
  {
    if a.ok
    then s.(table := s.table + [Bound(c, i, a)],
            worker := s.worker.(locked := true, pc := RulePush(i)))
    else s.(worker := AfterRefusal(c, s.worker, i, a))
  }

  /** The row the kernel adds for rule `i`. */
  function Bound(c: Config, i: nat, a: Answer): Entry
    requires i < |c.rules|
  {
    a.entry.(mountpoint := c.rules[i].target, origin := Some(i))
  }

  /** The kernel answers a bind with a row it may append. */
  ghost predicate Answers(c: Config, s: State, a: Answer) {
    s.worker.pc.RuleApply? && s.worker.pc.rule < |c.rules| && a.ok ==>
      var i := s.worker.pc.rule; Bindable(s.table, c.rules[i].target, Bound(c, i, a))
  }

  function AfterRefusal(c: Config, w: Worker, i: nat, a: Answer): Worker {
    var legacyOk := w.backend == StrictProcFd && c.allowLegacy
                    && c.Required() == {Redirect} && a.flag;
    var next := NextBackend(w.backend, c.Required(), c.allowLegacy, legacyOk);
    if w.locked || i != 0 || next == Unsupported
    then w.(error := Errno(a), pc := AfterRules)
    else w.(backend := next)
  }

  function DoPush(c: Config, w: Worker, i: nat): Worker {
    var target := if i < |c.rules| then c.rules[i].target else "";
    var journal := Pushed(w.journal, Applied(w.backend, target, 0, i), MAX_MOUNT_RULES);
    if journal.None? then w.(error := EOVERFLOW, untracked := true, pc := AfterRules)
    else w.(journal := journal.value, pc := RuleCheck(i + 1))
  }

  function DoAfterRules(s: State): Worker {
    var e := if s.worker.error == 0 && s.status == CancelRequested then ECANCELED else s.worker.error;
    var w := s.worker.(error := e);
    w.(pc := AfterApply(w))
  }

  /** Publishing success, before or after the mounts were looked up again. */
  function StepCommit(c: Config, s: State, a: Answer): Option<State> {
    match s.worker.pc
    case FirstWrite => Some(DoWriteSuccess(s, FirstCas))
    case FirstCas => Some(DoFirstCas(s))
    case PostSnapshot => Some(s.(worker := DoPostSnapshot(c, s, a)))
    case SecondWrite => Some(DoWriteSuccess(s, SecondCas))
    case SecondCas => Some(DoSecondCas(s))
    case _ => None
  }

  function DoWriteSuccess(s: State, next: WorkerPc): State {
    s.(result := s.result.(error := 0), worker := s.worker.(pc := next))
  }

  function DoFirstCas(s: State): State {
    if Swaps(s.status, Applying, Complete) then Completed(s)
    else
      var lost := s.worker.(error := ECANCELED);
      s.(worker := lost.(pc := AfterApply(lost)))
  }

  function DoSecondCas(s: State): State {
    if Swaps(s.status, Applying, Complete) then Completed(s)
    else s.(worker := s.worker.(error := ECANCELED, pc := RollbackIdentity))
  }

  function Completed(s: State): State {
    s.(status := Complete, worker := s.worker.(pc := Returning))
  }

  function DoPostSnapshot(c: Config, s: State, a: Answer): Worker {
    var w := s.worker;
    var w1 :=
      if !a.ok then w.(error := if w.error == 0 then Errno(a) else w.error)
      else w.(snapshot := Some(s.table),
              journal := Hydrated(c, w, s.table, a.checks),
              error := HydrateError(c, w, s.table, a.checks, 0),
              untracked := Untracks(c, w));
    w1.(pc := if w1.error == 0 then SecondWrite else RollbackIdentity)
  }

  function StepRollback(s: State, a: Answer): Option<State> {
    match s.worker.pc
    case RollbackIdentity => Some(s.(worker := DoIdentity(s, a)))
    case Unmounting(n) => if n <= |s.worker.journal| then Some(DoUnmount(s, n, a)) else None
    case RollbackVerify => Some(s.(worker := DoVerify(s, a)))
    case _ => None
  }

  /** First rollback pass: every identity, before anything is unmounted. */
  function DoIdentity(s: State, a: Answer): Worker {
    var w := s.worker;
    if w.journal == [] then w.(pc := FinalLoad)
    else if w.snapshot.None? && !a.ok then RollbackFailure(w, Errno(a))
    else
      var snapshot := if w.snapshot.Some? then w.snapshot.value else s.table;
      var e := ValidateAll(w.journal, snapshot, a.checks);
      if e != 0 then RollbackFailure(w, e) else w.(pc := Unmounting(|w.journal|))
  }

  /** Second pass: one umount2 per step, newest mount first. */
  function DoUnmount(s: State, n: nat, a: Answer): State
    requires n <= |s.worker.journal|
  {
    var w := s.worker;
    if n == 0 then s.(worker := w.(pc := RollbackVerify))
    else if !a.ok || Top(s.table, w.journal[n - 1].target).None? then
      s.(worker := RollbackFailure(w, Errno(a)))
    else
      s.(table := Unmount(s.table, w.journal[n - 1].target), worker := w.(pc := Unmounting(n - 1)))
  }

  /** Third pass: none of the confirmed mounts is left. */
  function DoVerify(s: State, a: Answer): Worker {
    var w := s.worker;
    var e := if a.ok then VerifyRollbackAll(w.journal, s.table, a.checks) else Errno(a);
    if e != 0 then RollbackFailure(w, e) else w.(journal := [], pc := FinalLoad)
  }

  /** Publishing failure, and the return. */
  function StepFinish(s: State): Option<State> {
    match s.worker.pc
    case FinalLoad => Some(DoFinalLoad(s))
    case FinalWrite => Some(DoFinalWrite(s))
    case FinalCas => Some(DoFinalCas(s))
    case Terminating => Some(s.(terminated := true, worker := s.worker.(pc := Returning)))
    case Returning => Some(s.(worker := s.worker.(pc := Exited)))
    case _ => None
  }

  function DoFinalLoad(s: State): State {
    var publishes := Tainted(s.worker) || s.status.CancelRequested? || s.status.Applying?;
    s.(worker := s.worker.(loaded := s.status, pc := if publishes then FinalWrite else Returning))
  }

  function DoFinalWrite(s: State): State {
    s.(result := s.result.(error := s.worker.error), worker := s.worker.(pc := FinalCas))
  }

  function DoFinalCas(s: State): State {
    if Tainted(s.worker)
    then s.(status := CompareAndSwap(s.status, s.worker.loaded, NamespaceTainted),
            worker := s.worker.(pc := Terminating))
    else s.(status := CompareAndSwap(s.status, s.worker.loaded, RollbackComplete),
            worker := s.worker.(pc := Returning))
  }

  // --------------------------------------------------------------- companion

  function StepCompanion(s: State, a: Answer): Option<State> {
    match s.companion.pc
    case CompStart | CompReady => StepLaunch(s, a)
    case FailWrite(_) | FailCas(_) | FailReload | FailMark => StepPendingFailure(s, a)
    case Receiving | Reload | SecondReceive | Reaping =>
      var p := AfterReceive(s, a);
      if p.None? then None else Some(s.(companion := p.value))
    case AfterWait | TaintWrite | TaintCas | TaintTerminate => StepOwnerDeath(s, a)
    case CompFinalLoad | CompFinalWrite(_) | CompFinalCas(_) => StepPublish(s)
    case CompDone => None
  }

  /** Up to the fork: a stale plan, an unready process, a bad topology or a failed fork. */
  function StepLaunch(s: State, a: Answer): Option<State> {
    var p := s.companion;
    if p.pc.CompStart? then
      if a.ok then
        Some(s.(result := s.result.(ready := a.ready), companion := p.(pc := CompReady)))
      else if a.flag && s.status == CancelRequested then
        Some(s.(companion := p.(pc := FailMark)))
      else if a.error != 0 then Some(s.(companion := p.(pc := FailWrite(a.error))))
      else Some(s.(companion := p.(pc := CompDone)))
    else
      if a.ok then
        Some(s.(worker := s.worker.(pc := Preflight), companion := p.(pc := Receiving)))
      else if a.flag then Some(s.(companion := p.(message := Errno(a), pc := CompFinalLoad)))
      else Some(s.(companion := p.(pc := FailWrite(Errno(a)))))
  }

  /** PublishPendingFailure. */
  function StepPendingFailure(s: State, a: Answer): Option<State> {
    var p := s.companion;
    match p.pc
    case FailWrite(e) =>
      Some(s.(result := Result(a.ready, e), companion := p.(pc := FailCas(e))))
    case FailCas(_) =>
      Some(s.(status := CompareAndSwap(s.status, Pending, Failed),
              companion := p.(pc := if Swaps(s.status, Pending, Failed)
                                    then CompDone else FailReload)))
    case FailReload =>
      Some(s.(companion := p.(pc := if s.status == CancelRequested then FailMark else CompDone)))
    case FailMark =>
      Some(s.(status := CompareAndSwap(s.status, CancelRequested, Cancelled),
              companion := p.(pc := CompDone)))
    case _ => None
  }

  /** Waiting for the worker's report, and for its end. */
  function AfterReceive(s: State, a: Answer): Option<Companion> {
    var p := s.companion;
    match p.pc
    case Receiving => if a.ok then Receive(s) else Some(p.(pc := Reload))
    case Reload =>
      if s.status.Applying? || s.status.CancelRequested?
      then Some(p.(ownerDeath := true, message := EOWNERDEAD, pc := Reaping))
      else Some(p.(pc := SecondReceive))
    case SecondReceive => if a.ok then Receive(s) else Some(p.(message := EIO, pc := Reaping))
    case Reaping =>
      if s.worker.pc.Exited? || s.worker.pc.WorkerDead? then Some(p.(pc := AfterWait)) else None
    case _ => None
  }

  /** A worker that ended without a report while it may have held the lease. */
  function StepOwnerDeath(s: State, a: Answer): Option<State> {
    var p := s.companion;
    match p.pc
    case AfterWait => Some(s.(companion := DoAfterWait(s)))
    case TaintWrite =>
      Some(s.(result := s.result.(error := p.message), companion := p.(pc := TaintCas)))
    case TaintCas => Some(DoTaintCas(s))
    case TaintTerminate =>
      Some(s.(terminated := s.terminated || a.ok, companion := p.(pc := CompFinalLoad)))
    case _ => None
  }

  function DoAfterWait(s: State): Companion {
    if s.companion.ownerDeath && (s.status.Applying? || s.status.CancelRequested?)
    then s.companion.(loaded := s.status, pc := TaintWrite)
    else s.companion.(pc := CompFinalLoad)
  }

  function DoTaintCas(s: State): State {
    s.(status := CompareAndSwap(s.status, s.companion.loaded, NamespaceTainted),
       companion := s.companion.(pc := TaintTerminate))
  }

  /** The closing publication on behalf of the worker. */
  function StepPublish(s: State): Option<State> {
    var p := s.companion;
    match p.pc
    case CompFinalLoad => Some(s.(companion := StepCompanionFinal(s)))
    case CompFinalWrite(to) =>
      Some(s.(result := s.result.(error := p.message), companion := p.(pc := CompFinalCas(to))))
    case CompFinalCas(to) =>
      Some(s.(status := CompareAndSwap(s.status, p.loaded, to), companion := p.(pc := CompDone)))
    case _ => None
  }

  /** The worker's report arrives, which it sends just before it exits. */
  function Receive(s: State): Option<Companion> {
    if s.worker.pc != Exited then None
    else Some(s.companion.(received := true, message := s.worker.error, pc := Reaping))
  }

  function StepCompanionFinal(s: State): Companion {
    var p := s.companion.(loaded := s.status);
    if s.status == Pending then
      p.(pc := FailWrite(if p.message == 0 then EPROTO else p.message))
    else if p.received && s.status == CancelRequested && p.message != 0 then
      p.(pc := CompFinalWrite(RollbackComplete))
    else if p.received && s.status == Applying then
      p.(pc := CompFinalWrite(if p.message == 0 then Complete else RollbackComplete))
    else p.(pc := CompDone)
  }

  // ---------------------------------------------------------------- the whole

  /** One step of the system, or None when the event cannot happen here. */
  ghost function Step(c: Config, s: State, ev: Event): Option<State> {
    match ev
    case AppStep(expired) => StepApp(s, expired)
    case AppDies => Some(s.(app := s.app.(pc := AppDead)))
    case WorkerStep(a) =>
      if Answers(c, s, a) then StepWorker(c, s, a) else None
    case WorkerDies =>
      if (s.worker.pc.NotForked? || s.worker.pc.Exited?) then None
      else Some(s.(worker := s.worker.(pc := WorkerDead)))
    case CompanionStep(a) => StepCompanion(s, a)
    case CompanionDies => Some(s.(companion := s.companion.(pc := CompDone)))
    case OtherMount(e) =>
      if c.Elsewhere(e.mountpoint) && e.origin.None? && Bindable(s.table, e.mountpoint, e)
      then Some(s.(table := s.table + [e]))
      else None
    case OtherUnmount(path) =>
      if c.Elsewhere(path) then Some(s.(table := Unmount(s.table, path))) else None
  }

  ghost predicate Init(s: State) {
    && s.status == Pending && !s.madePrivate && !s.terminated && !s.lease
    && s.app == App(AppLoad, false)
    && s.worker.pc == NotForked && s.worker.journal == [] && s.worker.error == 0
    && s.worker.snapshot.None? && !s.worker.locked
    && !s.worker.propagationChanged && !s.worker.rollbackFailed && !s.worker.untracked
    && s.companion.pc == CompStart && !s.companion.received && !s.companion.ownerDeath
    && s.companion.message == 0
    && WellFormed(s.table) && Ours(s.table) == []
  }

  /** A run: states joined by events, from an initial state. */
  datatype Run = Run(states: seq<State>, events: seq<Event>)

  ghost predicate IsRun(c: Config, r: Run) {
    && |r.states| == |r.events| + 1
    && Init(r.states[0])
    && forall k :: 0 <= k < |r.events| ==> Step(c, r.states[k], r.events[k]) == Some(r.states[k + 1])
  }
}
