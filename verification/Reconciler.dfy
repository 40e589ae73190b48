/** The Reconciler class of daemon/src/rules_control.cpp: rules.toml is compiled, admitted and
    published, and the control state says which policy is active. */
module Reconciler {
  import opened Wrappers
  import opened Publisher

  datatype ControlStatus = Activated | SourceInvalid | EnvironmentUnsupported | PublishFailed

  datatype ControlState = ControlState(
    digest: string, candidate: nat, generation: nat, epoch: nat, capability: nat, topology: nat,
    status: ControlStatus)

  datatype DeviceSnapshot = DeviceSnapshot(capability: nat, topology: nat)

  /** What the daemon computes with: the compiler with its admission check, the digest of a
      source, and the generation a policy file decodes to. */
  datatype Toolchain = Toolchain(
    compile: string -> Option<Blob>, admits: (string, DeviceSnapshot) -> bool, digest: string -> string,
    decode: string -> Option<nat>)
  {
    /** The compiler verifies what it returns by decoding it. */
    ghost predicate Sound() {
      forall s :: compile(s).Some? ==> decode(compile(s).value.bytes) == Some(compile(s).value.generation)
    }

    function GenerationOf(policy: Option<string>): nat {
      if policy.Some? && decode(policy.value).Some? then decode(policy.value).value else 0
    }
  }

  /** The names and failures of one publish. */
  datatype Attempt = Attempt(temporary: string, backup: string, fault: PublishFault, env: Environment) {
    predicate Distinct() { NamesApart(temporary, backup) }
  }

  datatype ReconcileResult = ReconcileResult(compiled: bool, published: bool, same: bool)

  datatype SaveOutcome = Rejected | Saved(reconcile: ReconcileResult)

  /** How an atomic write of rules.toml ends; a failure may be reported after the file is in place. */
  datatype WriteOutcome = WriteFails | WriteFailsAfterRename | Written

  class Reconciler {
    const tools: Toolchain
    const run: Directory
    var rules: Option<string>
    var snapshot: DeviceSnapshot
    var dirty: bool
    var state: ControlState
    ghost const initial: Option<string>
    ghost const firstEpoch: nat
    ghost var activations: seq<string>

    /** Every activation is a policy and has been counted. */
    ghost predicate Counted()
      reads this
    {
      && tools.Sound() && (forall p :: p in activations ==> tools.decode(p).Some?)
      && state.epoch == firstEpoch + |activations|
    }

    /** The state names the generation of the policy file. */
    ghost predicate Truthful()
      reads this, run
    {
      state.generation == tools.GenerationOf(run.Active())
    }

    /** Besides, the policy file is the last one activated, or the one found at the start. */
    ghost predicate Valid()
      reads this, run
    {
      && Counted() && Truthful()
      && run.Active() == (if activations == [] then initial else Some(activations[|activations| - 1]))
    }

    constructor (
        tools: Toolchain, run: Directory, rules: Option<string>, snapshot: DeviceSnapshot,
        recordedGeneration: nat, recordedEpoch: nat)
      requires tools.Sound()
      ensures Valid() && activations == [] && this.run == run && this.tools == tools && this.rules == rules
      ensures this.snapshot == snapshot && !dirty && state.digest == ""
      ensures run.Active() == initial && state.generation == tools.GenerationOf(run.Active())
      ensures state.epoch == if state.generation == 0 then 0
                             else if recordedGeneration == state.generation && recordedEpoch != 0 then recordedEpoch
                             else 1
    {
      this.tools, this.run, this.rules, this.snapshot, this.dirty := tools, run, rules, snapshot, false;
      var generation := tools.GenerationOf(run.Active());
      var epoch := 0;
      if generation != 0 {
        epoch := if recordedGeneration == generation && recordedEpoch != 0 then recordedEpoch else 1;
      }
      state := ControlState("", 0, generation, epoch, 0, 0, SourceInvalid);
      initial, firstEpoch, activations := run.Active(), epoch, [];
    }

    method SetDeviceSnapshot(snapshot: DeviceSnapshot)
      requires Counted()
      modifies this`snapshot, this`dirty
      ensures Counted() && (Valid() <==> old(Valid())) && this.snapshot == snapshot && dirty
    {
      this.snapshot := snapshot;
      dirty := true;
    }

    /** Someone edits rules.toml between two calls. */
    method Edit(rules: Option<string>)
      requires Counted()
      modifies this`rules
      ensures Counted() && (Valid() <==> old(Valid())) && this.rules == rules
    {
      this.rules := rules;
    }

    /** The call gets as far as replacing the policy file, and is stranded there. */
    ghost predicate Stranded(loadFails: bool, attempt: Attempt)
      reads this, run
    {
      && !loadFails && rules.Some? && (tools.digest(rules.value) == state.digest ==> dirty)
      && tools.compile(rules.value).Some? && tools.admits(rules.value, snapshot)
      && AttemptStrands(tools.compile(rules.value).value, attempt)
    }

    ghost predicate AttemptStrands(blob: Blob, attempt: Attempt)
      reads this, run
    {
      && !(run.Active().Some? && tools.decode(run.Active().value) == Some(blob.generation))
      && Strands(tools.decode, blob, attempt.fault, attempt.env, run.Active().Some?)
    }

    /** MAIN RESULT. The policy file changes only to a complete compiled policy of the current
        rules that the device admits; the epoch rises by one exactly then. The state goes on
        telling the truth about the file exactly unless the publish is stranded; after that it
        tells the truth again once a policy is published or found to be active already, which
        takes other rules or another device snapshot. */
    method Reconcile(loadFails: bool, attempt: Attempt) returns (r: ReconcileResult)
      requires Counted() && attempt.Distinct()
      modifies this`state, this`dirty, this`activations, run
      ensures Counted()
      ensures old(Valid()) ==> (Valid() <==> !old(Stranded(loadFails, attempt)))
      ensures old(Valid()) && attempt.env.Recovers(old(run.Active()).Some?) ==> Valid()
      ensures old(Valid()) ==> (Valid() <==> r.published || run.Active() == old(run.Active()))
      ensures r.published ==> Valid()
      ensures r.compiled && r.same ==> Truthful() && run.Active() == old(run.Active()) && state.status == Activated
      ensures !r.published && !(r.compiled && r.same) ==> state.generation == old(state.generation)
      ensures !loadFails && rules.Some? && tools.digest(rules.value) == old(state.digest) && !old(dirty) ==>
        r == ReconcileResult(false, false, true) && run.files == old(run.files) && !dirty && state.digest == old(state.digest)
      ensures !loadFails && rules.Some? && tools.compile(rules.value).Some? && tools.admits(rules.value, snapshot) && old(dirty)
              && old(run.Active()).Some?
              && tools.decode(old(run.Active()).value) == Some(tools.compile(rules.value).value.generation) ==>
        r == ReconcileResult(true, false, true)
      ensures r.published ==>
        && rules.Some? && tools.compile(rules.value).Some? && tools.admits(rules.value, snapshot)
        && run.Active() == Some(tools.compile(rules.value).value.bytes)
        && activations == old(activations) + [run.Active().value]
        && state.epoch == old(state.epoch) + 1 && state.status == Activated
      ensures !r.published ==> activations == old(activations) && state.epoch == old(state.epoch)
      ensures run.Active() in {old(run.Active()), None} || (rules.Some? && tools.compile(rules.value).Some?
        && run.Active() == Some(tools.compile(rules.value).value.bytes))
      ensures old(Stranded(loadFails, attempt)) ==>
        state.status == PublishFailed && state.digest == tools.digest(rules.value) && !dirty
      ensures state.status == Activated && (old(state.status) != Activated || r.compiled) ==>
        rules.Some? && tools.compile(rules.value).Some?
        && state.generation == tools.compile(rules.value).value.generation
    {
      if loadFails || rules.None? {
        state := state.(candidate := state.candidate + 1, status := SourceInvalid);
        return ReconcileResult(false, false, false);
      }
      var source := rules.value;
      if tools.digest(source) == state.digest && !dirty {
        state := state.(capability := snapshot.capability, topology := snapshot.topology);
        return ReconcileResult(false, false, true);
      }
      state := state.(digest := tools.digest(source), candidate := state.candidate + 1);
      dirty := false;
      var built := tools.compile(source);
      if built.None? {
        state := state.(status := SourceInvalid);
        return ReconcileResult(true, false, false);
      }
      state := state.(capability := snapshot.capability, topology := snapshot.topology);
      if !tools.admits(source, snapshot) {
        state := state.(status := EnvironmentUnsupported);
        return ReconcileResult(true, false, false);
      }
      r := Activate(built.value, attempt);
    }

    method Activate(blob: Blob, attempt: Attempt) returns (r: ReconcileResult)
      requires Counted() && attempt.Distinct() && tools.decode(blob.bytes) == Some(blob.generation)
      modifies this`state, this`activations, run
      ensures Counted() && r.compiled && state.digest == old(state.digest)
      ensures old(Valid()) ==> (Valid() <==> !old(AttemptStrands(blob, attempt)))
      ensures r.published ==> Valid()
      ensures r.same <==> old(run.Active()).Some? && tools.decode(old(run.Active()).value) == Some(blob.generation)
      ensures r.same ==> Truthful() && run.Active() == old(run.Active()) && !r.published
      ensures !r.published && !r.same ==> state.generation == old(state.generation)
      ensures r.published ==> run.Active() == Some(blob.bytes) && activations == old(activations) + [blob.bytes]
                              && state.epoch == old(state.epoch) + 1
      ensures old(Valid()) ==> (Valid() <==> r.published || run.Active() == old(run.Active()))
      ensures !r.published ==> activations == old(activations) && state.epoch == old(state.epoch)
      ensures !r.published ==> run.Active() == old(run.Active()) || run.Active().None? || run.Active() == Some(blob.bytes)
      ensures old(AttemptStrands(blob, attempt)) ==> state.status == PublishFailed
      ensures r.published || r.same <==> state.status == Activated
      ensures state.status == Activated ==> state.generation == blob.generation
    {
      var published := Publish(run, tools.decode, blob, attempt.temporary, attempt.backup, attempt.fault, attempt.env);
      if !published.Ok() {
        state := state.(status := PublishFailed);
        return ReconcileResult(true, false, false);
      }
      state := state.(status := Activated, generation := blob.generation);
      if published.published {
        state := state.(epoch := state.epoch + 1);
        activations := activations + [blob.bytes];
      }
      return ReconcileResult(true, published.published, published.same);
    }

    /** MAIN RESULT. A save goes through only over the source the caller last saw, and only with
        rules that compile and are admitted; a rejected one leaves policy and state alone. What
        is saved is reconciled: the policy is then the compiled replacement and the epoch has
        risen by one, or neither has changed. */
    method SaveRules(
        expected: string, replacement: string, firstLoadFails: bool, interference: Option<Option<string>>,
        secondLoadFails: bool, write: WriteOutcome, loadFails: bool, attempt: Attempt) returns (r: SaveOutcome)
      requires Counted() && attempt.Distinct()
      modifies this`rules, this`state, this`dirty, this`activations, run
      ensures Counted()
      ensures r.Saved? ==>
        && tools.compile(replacement).Some? && tools.admits(replacement, snapshot)
        && rules == Some(replacement)
        && old(rules).Some? && tools.digest(old(rules).value) == expected
        && (interference.Some? ==> interference.value.Some? && tools.digest(interference.value.value) == expected)
      ensures old(Valid()) && attempt.env.Recovers(old(run.Active()).Some?) ==> Valid()
      ensures old(Valid()) ==> (Valid() <==> run.Active() == old(run.Active()) || (r.Saved? && r.reconcile.published))
      ensures r.Saved? && r.reconcile.compiled && r.reconcile.same ==> Truthful()
      ensures r.Saved? && r.reconcile.published ==> Valid()
      ensures r.Saved? && r.reconcile.published ==>
        && run.Active() == Some(tools.compile(replacement).value.bytes)
        && activations == old(activations) + [run.Active().value]
        && state.epoch == old(state.epoch) + 1 && state.status == Activated
      ensures !(r.Saved? && r.reconcile.published) ==>
        activations == old(activations) && state.epoch == old(state.epoch)
      ensures r.Rejected? ==> state == old(state) && run.files == old(run.files) && activations == old(activations)
      ensures r.Rejected? && write != WriteFailsAfterRename ==>
        rules == old(rules) || (interference.Some? && rules == interference.value)
    {
      if firstLoadFails || rules.None? {
        return Rejected;
      }
      if tools.digest(rules.value) != expected {
        return Rejected;
      }
      if tools.compile(replacement).None? || !tools.admits(replacement, snapshot) {
        return Rejected;
      }
      if interference.Some? {
        rules := interference.value;
      }
      if secondLoadFails || rules.None? || tools.digest(rules.value) != expected {
        return Rejected;
      }
      if write == WriteFails {
        return Rejected;
      }
      rules := Some(replacement);
      if write == WriteFailsAfterRename {
        return Rejected;
      }
      var reconciled := Reconcile(loadFails, attempt);
      return Saved(reconciled);
    }
  }

  /** Not every failed call can be told from the state: with no policy there, a directory that
      cannot be flushed and a file that cannot be removed, the new policy stays in place and the
      state says there is none. */
  method StrandedPolicy(tools: Toolchain, source: string, device: DeviceSnapshot) returns (control: Reconciler)
    requires tools.Sound() && tools.compile(source).Some? && tools.admits(source, device)
    requires tools.compile(source).value.generation != 0 && tools.digest(source) != ""
    ensures fresh(control) && fresh(control.run) && control.Counted() && control.rules == Some(source)
    ensures control.tools == tools && control.snapshot == device
    ensures control.state.status == PublishFailed && control.state.generation == 0
    ensures control.state.digest == tools.digest(source) && !control.dirty
    ensures control.run.Active() == Some(tools.compile(source).value.bytes) && !control.Truthful()
  {
    var blob := tools.compile(source).value;
    var run := new Directory(map[]);
    control := new Reconciler(tools, run, Some(source), device, 0, 0);
    var env := CALM.(landed := blob.bytes, directorySyncFails := true, removeFails := true);
    var r := control.Reconcile(false, Attempt("candidate", "backup", NoFault, env));
  }

  /** Reconciling the same rules again changes nothing about that; with a new device snapshot the
      policy is found to be active, and the state tells the truth again, at the same epoch. */
  method StrandedUntilDirty(tools: Toolchain, source: string, device: DeviceSnapshot, attempt: Attempt)
    returns (control: Reconciler, again: ReconcileResult, before: ControlState, found: ReconcileResult)
    requires tools.Sound() && tools.compile(source).Some? && tools.admits(source, device) && attempt.Distinct()
    requires tools.compile(source).value.generation != 0 && tools.digest(source) != ""
    ensures again == ReconcileResult(false, false, true) && before.generation == 0
    ensures found == ReconcileResult(true, false, true) && control.state.epoch == before.epoch
    ensures control.Truthful() && control.run.Active() == Some(tools.compile(source).value.bytes)
  {
    control := StrandedPolicy(tools, source, device);
    again := control.Reconcile(false, attempt);
    before := control.state;
    control.SetDeviceSnapshot(device);
    found := control.Reconcile(false, attempt);
  }
}
