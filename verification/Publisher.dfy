/** Publisher::Publish of daemon/src/rules_control.cpp: a new policy replaces the active one in a
    directory whose every operation may fail. */
module Publisher {
  import opened Wrappers

  const ACTIVE := "policy.bin"

  datatype Blob = Blob(bytes: string, generation: nat)

  /** The run directory: what each file holds. */
  class Directory {
    var files: map<string, string>

    constructor (files: map<string, string>)
      ensures this.files == files
    {
      this.files := files;
    }

    function Active(): Option<string>
      reads this
    {
      if ACTIVE in files then Some(files[ACTIVE]) else None
    }
  }

  /** Faults the caller injects. */
  datatype PublishFault =
    | NoFault | Create | Write | SetMode | SetOwner | SetContext | Verify | FileSync | Rename | DirectorySync

  /** What the system does: which calls fail, and what a write leaves in the file. */
  datatype Environment = Environment(
    createFails: bool, openFails: bool, writeFails: bool, landed: string, modeFails: bool, readFails: bool,
    syncFails: bool, preserveFails: bool, replaceFails: bool, directorySyncFails: bool,
    removeFails: bool, restoreFails: bool)
  {
    /** What undoing a publish relies on: the preserved policy can be renamed back; without one,
        the new file can be removed again. */
    predicate Recovers(hadActive: bool) { if hadActive then !restoreFails else !removeFails }
  }

  datatype PublishResult = PublishResult(published: bool, same: bool) {
    predicate Ok() { published || same }
  }

  const FAILED := PublishResult(false, false)

  predicate NamesApart(temporary: string, backup: string) {
    temporary != ACTIVE && backup != ACTIVE && temporary != backup
  }

  /** The candidate gets written, checked and flushed. */
  predicate Prepares(decode: string -> Option<nat>, blob: Blob, fault: PublishFault, env: Environment) {
    && !env.createFails && !env.openFails && !env.writeFails && !env.modeFails && !env.readFails && !env.syncFails
    && fault !in {Create, Write, SetMode, SetOwner, SetContext, Verify, FileSync}
    && env.landed == blob.bytes && decode(blob.bytes) == Some(blob.generation)
  }

  /** The publish fails after it has begun to move files, and what it moved cannot be undone. */
  predicate Strands(
      decode: string -> Option<nat>, blob: Blob, fault: PublishFault, env: Environment, hadActive: bool)
  {
    var replaced := fault != Rename && !env.replaceFails;
    && Prepares(decode, blob, fault, env) && (hadActive ==> !env.preserveFails)
    && (if replaced then fault == DirectorySync || env.directorySyncFails else hadActive)
    && !env.Recovers(hadActive)
  }

  ghost predicate Keeps(before: map<string, string>, after: map<string, string>, changed: set<string>) {
    forall name :: name !in changed ==>
      (name in after <==> name in before) && (name in before ==> after[name] == before[name])
  }

  method Remove(dir: Directory, name: string, fails: bool)
    modifies dir
    ensures dir.files == if fails then old(dir.files) else old(dir.files) - {name}
  {
    if !fails {
      dir.files := dir.files - {name};
    }
  }

  method Move(dir: Directory, from: string, to: string, fails: bool) returns (error: bool)
    modifies dir
    ensures error == (fails || from !in old(dir.files))
    ensures dir.files == if error then old(dir.files) else (old(dir.files) - {from})[to := old(dir.files)[from]]
  {
    if fails || from !in dir.files {
      return true;
    }
    dir.files := (dir.files - {from})[to := dir.files[from]];
    return false;
  }

  /** The candidate, written and checked but not yet in place. */
  method Prepare(
      dir: Directory, decode: string -> Option<nat>, blob: Blob, temporary: string, fault: PublishFault,
      env: Environment) returns (ready: bool)
    requires !env.createFails && fault != Create
    modifies dir
    ensures Keeps(old(dir.files), dir.files, {temporary})
    ensures ready <==> Prepares(decode, blob, fault, env)
    ensures ready ==> temporary in dir.files && dir.files[temporary] == blob.bytes
  {
    if env.openFails || fault == Write {
      Remove(dir, temporary, env.removeFails);
      return false;
    }
    dir.files := dir.files[temporary := env.landed];
    if env.writeFails {
      Remove(dir, temporary, env.removeFails);
      return false;
    }
    if fault == SetMode {
      Remove(dir, temporary, env.removeFails);
      return false;
    }
    if env.modeFails || fault == SetOwner || fault == SetContext {
      Remove(dir, temporary, env.removeFails);
      return false;
    }
    var written := dir.files[temporary];
    if fault == Verify || env.readFails || written != blob.bytes || decode(written) != Some(blob.generation) {
      Remove(dir, temporary, env.removeFails);
      return false;
    }
    if fault == FileSync || env.syncFails {
      Remove(dir, temporary, env.removeFails);
      return false;
    }
    return true;
  }

  /** MAIN RESULT. Afterwards the active policy is the complete, verified new one, the one that was
      there, or missing; a failed publish leaves it as it was exactly unless it was stranded. */
  method Publish(
      dir: Directory, decode: string -> Option<nat>, blob: Blob, temporary: string, backup: string,
      fault: PublishFault, env: Environment) returns (r: PublishResult)
    requires NamesApart(temporary, backup)
    modifies dir
    ensures Keeps(old(dir.files), dir.files, {ACTIVE, temporary, backup})
    ensures r.published ==> dir.Active() == Some(blob.bytes) && decode(blob.bytes) == Some(blob.generation)
    ensures r.published ==> !Strands(decode, blob, fault, env, old(dir.Active()).Some?)
    ensures r.same <==> old(dir.Active()).Some? && decode(old(dir.Active()).value) == Some(blob.generation)
    ensures r.same ==> dir.files == old(dir.files) && !r.published
    ensures !r.published && !r.same ==>
              (dir.Active() == old(dir.Active()) <==> !Strands(decode, blob, fault, env, old(dir.Active()).Some?))
    ensures dir.Active() == old(dir.Active()) || dir.Active().None?
            || (dir.Active() == Some(blob.bytes) && decode(blob.bytes) == Some(blob.generation))
  {
    if ACTIVE in dir.files && decode(dir.files[ACTIVE]) == Some(blob.generation) {
      return PublishResult(false, true);
    }
    if env.createFails || fault == Create {
      return FAILED;
    }
    var ready := Prepare(dir, decode, blob, temporary, fault, env);
    if !ready {
      return FAILED;
    }
    r := Install(dir, decode, blob, temporary, backup, fault, env);
  }

  method Install(
      dir: Directory, ghost decode: string -> Option<nat>, blob: Blob, temporary: string, backup: string,
      fault: PublishFault, env: Environment) returns (r: PublishResult)
    requires NamesApart(temporary, backup) && temporary in dir.files && dir.files[temporary] == blob.bytes
    requires Prepares(decode, blob, fault, env) && dir.Active() != Some(blob.bytes)
    modifies dir
    ensures !r.same && Keeps(old(dir.files), dir.files, {ACTIVE, temporary, backup})
    ensures r.published ==> dir.Active() == Some(blob.bytes)
    ensures r.published ==> !Strands(decode, blob, fault, env, old(dir.Active()).Some?)
    ensures !r.published ==>
              (dir.Active() == old(dir.Active()) <==> !Strands(decode, blob, fault, env, old(dir.Active()).Some?))
    ensures dir.Active() == old(dir.Active()) || dir.Active().None? || dir.Active() == Some(blob.bytes)
  {
    var hadActive := ACTIVE in dir.files;
    if hadActive {
      var error := Move(dir, ACTIVE, backup, env.preserveFails);
      if error {
        Remove(dir, temporary, env.removeFails);
        return FAILED;
      }
    }
    var error := true;
    if fault != Rename {
      error := Move(dir, temporary, ACTIVE, env.replaceFails);
    }
    if error {
      if hadActive {
        var restoreError := Move(dir, backup, ACTIVE, env.restoreFails);
      }
      Remove(dir, temporary, env.removeFails);
      return FAILED;
    }
    if fault == DirectorySync || env.directorySyncFails {
      Remove(dir, ACTIVE, env.removeFails);
      if hadActive {
        var restoreError := Move(dir, backup, ACTIVE, env.restoreFails);
      }
      return FAILED;
    }
    Remove(dir, backup, env.removeFails);
    return PublishResult(true, false);
  }

  const CALM := Environment(false, false, false, "", false, false, false, false, false, false, false, false)

  /** Whether undoing is at hand decides, over everything else that may go wrong, whether a publish
      can be stranded. */
  lemma RecoversExactly(decode: string -> Option<nat>, blob: Blob, env: Environment, hadActive: bool)
    requires decode(blob.bytes) == Some(blob.generation)
    ensures env.Recovers(hadActive) <==>
      forall fault, e: Environment :: e.Recovers(hadActive) == env.Recovers(hadActive) ==>
        !Strands(decode, blob, fault, e, hadActive)
  {
    if !env.Recovers(hadActive) {
      var e := CALM.(landed := blob.bytes, removeFails := true, restoreFails := true);
      assert Strands(decode, blob, DirectorySync, e, hadActive);
    }
  }
}
