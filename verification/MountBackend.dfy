/** Backend selection for namespace mutations: core/include/pathguard/mount_backend.h.
    The 32-bit action and primitive masks of the source are modelled as sets. */
module MountBackend {

  datatype Action = Redirect | DenyAnchor | IsolateRoot | Restore

  datatype Primitive = OpenTreeMoveMount | ProcFdMount | StringBindMount

  datatype Backend = Unsupported | StrictOpenTree | StrictProcFd | LegacyString

  datatype Reason = NoReason | CapabilityMissing | LegacyNotAuthorized | UnsupportedAction

  datatype Capabilities = Capabilities(
    primitives: set<Primitive>,
    strictActions: set<Action>,
    legacyActions: set<Action>)

  datatype Selection = Selection(backend: Backend, reason: Reason)

  predicate SupportsAll(supported: set<Action>, required: set<Action>) {
    required != {} && required <= supported
  }

  /** A backend can carry out a plan: its primitive is there and supports every action, and the
      string bind is authorized. */
  predicate Usable(b: Backend, required: set<Action>, caps: Capabilities, allowLegacy: bool) {
    match b
    case Unsupported => false
    case StrictOpenTree => SupportsAll(caps.strictActions, required) && OpenTreeMoveMount in caps.primitives
    case StrictProcFd => SupportsAll(caps.strictActions, required) && ProcFdMount in caps.primitives
    case LegacyString =>
      allowLegacy && SupportsAll(caps.legacyActions, required) && StringBindMount in caps.primitives
  }

  /** The backend chosen before any mutation is the first usable one; and why nothing was chosen. */
  function SelectBackend(required: set<Action>, caps: Capabilities, allowLegacy: bool): (r: Selection)
    ensures r.backend == Unsupported <==> r.reason != NoReason
    ensures r.backend != Unsupported ==>
      Usable(r.backend, required, caps, allowLegacy)
      && forall b :: Usable(b, required, caps, allowLegacy) ==> Rank(r.backend) <= Rank(b)
    ensures r.backend == Unsupported ==> forall b :: !Usable(b, required, caps, allowLegacy)
    ensures r.reason == CapabilityMissing ==> StringBindMount !in caps.primitives
    ensures r.reason == LegacyNotAuthorized ==> StringBindMount in caps.primitives && !allowLegacy
    ensures r.reason == UnsupportedAction ==>
      required == {} || (StringBindMount in caps.primitives && allowLegacy && !SupportsAll(caps.legacyActions, required))
  {
    if required == {} then
      Selection(Unsupported, UnsupportedAction)
    else if SupportsAll(caps.strictActions, required) && OpenTreeMoveMount in caps.primitives then
      Selection(StrictOpenTree, NoReason)
    else if SupportsAll(caps.strictActions, required) && ProcFdMount in caps.primitives then
      Selection(StrictProcFd, NoReason)
    else if StringBindMount !in caps.primitives then
      Selection(Unsupported, CapabilityMissing)
    else if !allowLegacy then
      Selection(Unsupported, LegacyNotAuthorized)
    else if !SupportsAll(caps.legacyActions, required) then
      Selection(Unsupported, UnsupportedAction)
    else
      Selection(LegacyString, NoReason)
  }

  /** The fallback tried when the first mount of a transaction is refused. */
  function NextBackend(current: Backend, required: set<Action>,
                       allowLegacy: bool, legacyNamespaceAllowed: bool): (r: Backend)
    ensures r == LegacyString ==> allowLegacy && legacyNamespaceAllowed && required == {Redirect}
    ensures Rank(r) > Rank(current) || r == Unsupported
  {
    if current == StrictOpenTree then
      StrictProcFd
    else if current == StrictProcFd && allowLegacy && legacyNamespaceAllowed
            && SupportsAll({Redirect}, required) then
      LegacyString
    else
      Unsupported
  }

  /** Fallback order: every retry moves strictly up, so there are at most two. */
  function Rank(b: Backend): nat {
    match b
    case Unsupported => 0
    case StrictOpenTree => 1
    case StrictProcFd => 2
    case LegacyString => 3
  }

  predicate NeedsPostMountSnapshot(backend: Backend, mutationRecorded: bool, applySucceeded: bool) {
    mutationRecorded && (!applySucceeded || backend == LegacyString)
  }
}
