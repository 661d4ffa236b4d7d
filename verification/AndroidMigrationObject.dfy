/** The migration as the source carries it out: file operations in order, each an early return when it fails, each
    proved to leave the disk and the history its value-level model says. */
module AndroidMigrationObject {
  import opened Wrappers
  import opened FileOps
  import opened AndroidMigration

  class EncryptedDatabaseMigrator {
    var disk: Disk
    /** Every disk there has been, in order. */
    ghost var trace: seq<Disk>
    const checks: Checks
    const env: Env

    constructor (disk: Disk, checks: Checks, env: Env)
      ensures this.disk == disk && trace == [] && this.checks == checks && this.env == env
    {
      this.disk, this.checks, this.env := disk, checks, env;
      trace := [];
    }

    ghost function Now(ok: bool): Progress<Disk>
      reads this
    {
      Progress(disk, trace, ok)
    }

    /** One file operation. */
    method Commit(d: Disk)
      modifies this
      ensures disk == d && trace == old(trace) + [d]
    {
      disk := d;
      trace := trace + [d];
    }

    method GetOrCreateKey() returns (ok: bool)
      modifies this
      ensures Now(ok) == Keyed(old(Now(true)))
    {
      var required := Artifacts(disk);
      if !required {
        required := if disk.database.Missing? then AnyBeside(disk.beside) else !disk.database.Plain?;
      }
      match disk.key {
        case Kept => return true;
        case Pending => return false;
        case Absent =>
          if required {
            return false;
          }
          Commit(disk.(key := Pending));
          Commit(disk.(key := Kept));
          return true;
      }
    }

    method CheckpointSource() returns (ok: bool)
      requires disk.database.Plain?
      modifies this
      ensures Now(ok) == Checkpoint(checks, old(Now(true)), env)
      ensures disk.database == old(disk.database)
    {
      if !Sound(checks, disk.database.db) {
        return false;
      }
      Commit(disk.(beside := Closed(env.coldJournal)));
      if disk.beside.journal == Cold {
        Commit(disk.(beside := Closed(false)));
      }
      return !Blocking(disk.beside) && env.fault != Some(Checkpointed);
    }

    method DeleteArtifacts()
      modifies this
      ensures Now(true) == Deleted(old(Now(true)), 4)
      ensures disk.database == old(disk.database)
    {
      for k := 0 to 4
        invariant Now(true) == Deleted(old(Now(true)), k)
        invariant disk.database == old(disk.database)
      {
        if Exists(disk, k) {
          Commit(Delete(disk, k));
        }
      }
    }

    method ExportCopy() returns (ok: bool)
      requires disk.database.Plain?
      modifies this
      ensures Now(ok) == Export(checks, old(Now(true)), env)
      ensures disk.database == old(disk.database)
    {
      for i := 0 to |env.drafts|
        invariant Now(true) == Drafted(old(Now(true)), env, i)
        invariant disk.database == old(disk.database)
      {
        Commit(disk.(staging := env.drafts[i].staging, stagingBeside := env.drafts[i].beside));
      }
      if View(checks, env.exported) != View(checks, disk.database.db) {
        return false;
      }
      Commit(disk.(staging := Other(Some(env.exported)), stagingBeside := Closed(env.coldStagingJournal)));
      return true;
    }

    method ReplaceOriginal() returns (ok: bool)
      requires disk.database.Plain?
      modifies this
      ensures Now(ok) == Replace(checks, old(Now(true)), env)
    {
      if env.fault == Some(Exported) || Blocking(disk.stagingBeside) {
        return false;
      }
      if !Copy(checks, disk.database.db, disk.staging) || env.fault == Some(Verified) {
        return false;
      }
      if Blocking(disk.beside) || env.fault == Some(BeforeReplace) {
        return false;
      }
      Commit(disk.(database := disk.staging, staging := Missing));
      return env.fault != Some(Replaced) && env.fault != Some(Committed);
    }

    method MigrateDatabase() returns (ok: bool)
      requires disk.database.Plain?
      modifies this
      ensures Now(ok) == Migrate(checks, old(Now(true)), env)
    {
      var checkpointed := CheckpointSource();
      if !checkpointed {
        FailedMigration(Now(false));
        return false;
      }
      DeleteArtifacts();
      var exported := ExportCopy();
      if !exported {
        return false;
      }
      ok := ReplaceOriginal();
    }

    lemma FailedMigration(p: Progress<Disk>)
      requires !p.ok && p.disk.database.Plain?
      ensures Deleted(p, 4) == p && Export(checks, p, env) == p && Replace(checks, p, env) == p
    {
      DeletedStays(p, 4);
      DraftedStays(p, env, |env.drafts|);
    }

    method Prepare() returns (ok: bool)
      requires trace == []
      modifies this
      ensures Now(ok) == Attempt(checks, old(disk), env)
    {
      var keyed := GetOrCreateKey();
      if !keyed {
        return false;
      }
      match disk.database {
        case Missing => return !AnyBeside(disk.beside) && !Artifacts(disk);
        case Plain(_) => ok := MigrateDatabase();
        case Other(found) =>
          if Artifacts(disk) {
            return false;
          }
          return found.Some? && Sound(checks, found.value);
      }
    }
  }
}
