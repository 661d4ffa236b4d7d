/** The migration as the source carries it out: file operations in order, each an early return when it fails, each
    proved to leave the disk and the history its value-level model says. */
module DesktopMigrationObject {
  import opened Wrappers
  import opened FileOps
  import opened ContentFingerprint
  import opened DesktopMigration

  class Migrator {
    var disk: Disk
    /** Every disk there has been, in order. */
    ghost var trace: seq<Disk>
    const digest: Digester
    const env: Env

    constructor (disk: Disk, digest: Digester, env: Env)
      ensures this.disk == disk && trace == [] && this.digest == digest && this.env == env
    {
      this.disk, this.digest, this.env := disk, digest, env;
      trace := [];
    }

    ghost function Now(ok: bool): Progress<Disk>
      reads this
    {
      Progress(disk, trace, ok)
    }

    /** One file operation. */
    method Commit(d: Disk)
      modifies this
      ensures disk == d && trace == old(trace) + [d]
    {
      disk := d;
      trace := trace + [d];
    }

    /** Closing a database, which may leave its journal. */
    method CloseDatabase(n: Name)
      modifies this
      ensures Now(true) == Settled(old(Now(true)), n, env)
    {
      Commit(if env.cold then disk else disk.(sidecars := disk.sidecars - {n}));
    }

    method LegacyLocked(n: Name) returns (ok: bool)
      modifies this
      ensures Now(ok) == Locked(old(Now(true)), n, env)
    {
      if !FileAt(disk, n).Plain? {
        return false;
      }
      CloseDatabase(n);
      return true;
    }

    method VerifyExport(n: Name, expected: Digest) returns (ok: bool)
      modifies this
      ensures ok <==> Matches(digest, FileAt(old(disk), n), expected) && (env.cold ==> n !in old(disk.sidecars))
      ensures Now(ok) == Verified(digest, old(Now(true)), n, expected, env)
    {
      var f := FileAt(disk, n);
      if !f.Cipher? || f.found.None? {
        return false;
      }
      if DigestOf(digest, f.found.value) != expected {
        return false;
      }
      CloseDatabase(n);
      return n !in disk.sidecars;
    }

    method MoveWithoutReplace(from: Name, to: Name) returns (ok: bool)
      modifies this
      ensures Now(ok) == Moved(old(Now(true)), from, to, env)
    {
      if !FileAt(disk, to).Missing? {
        return false;
      }
      if env.atomic {
        Commit(With(With(disk, to, FileAt(disk, from)), from, Missing));
      } else {
        Commit(With(disk, to, FileAt(disk, from)));
        Commit(With(disk, from, Missing));
      }
      return true;
    }

    method Export()
      modifies this
      ensures Now(true) == Exported(old(Now(true)), env) && disk.main == old(disk.main)
    {
      Commit(disk.(staged := Short));
      ghost var reserved := Now(true);
      for i := 0 to |env.drafts|
        invariant Now(true) == Drafted(reserved, env, i)
      {
        Commit(Draw(disk, env.drafts[i]));
      }
      DraftedKeepsOk(reserved, env, |env.drafts|);
      Commit(Draw(disk, Draft(Cipher(Some(env.exported)), env.cold)));
    }

    method CleanupBackup() returns (ok: bool)
      modifies this
      ensures Now(ok) == Cleaned(digest, old(Now(true)), env)
    {
      if Main in disk.sidecars || Backup in disk.sidecars {
        return false;
      }
      var locked := LegacyLocked(Backup);
      if !locked {
        return false;
      }
      var verified := VerifyExport(Main, DigestOf(digest, disk.backup.db));
      if !verified || env.fault == Some(BeforeCleanup) || Backup in disk.sidecars {
        return false;
      }
      Commit(disk.(backup := Missing));
      return true;
    }

    method Install() returns (ok: bool)
      modifies this
      ensures Now(ok) == Installed(digest, old(Now(true)), env)
    {
      if Main in disk.sidecars || Backup in disk.sidecars {
        return false;
      }
      var locked := LegacyLocked(Backup);
      if !locked {
        return false;
      }
      var verified := VerifyExport(Staged, DigestOf(digest, disk.backup.db));
      if !verified {
        return false;
      }
      var moved := MoveWithoutReplace(Staged, Main);
      if !moved || env.fault == Some(AfterInstall) {
        return false;
      }
      ok := CleanupBackup();
    }

    method RenameOriginal(expected: Digest) returns (ok: bool)
      requires disk.main.Plain? && expected == DigestOf(digest, disk.main.db)
      modifies this
      ensures Now(ok) == Renamed(digest, old(Now(true)), env)
    {
      var verified := VerifyExport(Staged, expected);
      if !verified || env.fault == Some(AfterValidation) || Main in disk.sidecars {
        return false;
      }
      var moved := MoveWithoutReplace(Main, Backup);
      return moved && env.fault != Some(AfterBackupRename);
    }

    method SetOriginalAside() returns (ok: bool)
      modifies this
      ensures Now(ok) == SetAside(digest, old(Now(true)), env)
    {
      if !disk.backup.Missing? {
        FailedExport(Now(false), env);
        return false;
      }
      var locked := LegacyLocked(Main);
      if !locked || env.fault == Some(BeforeExport) {
        FailedExport(Now(false), env);
        return false;
      }
      var expected := DigestOf(digest, disk.main.db);
      if disk.staged.Missing? {
        Export();
      }
      if env.fault == Some(AfterExport) {
        return false;
      }
      ok := RenameOriginal(expected);
    }

    /** An encrypted database opens, no candidate may be beside it, and a backup is cleaned up. */
    method OpenEncrypted() returns (ok: bool)
      requires disk.main.Cipher?
      modifies this
      ensures Now(ok) == Prepared(digest, old(Now(true)), env)
    {
      if disk.main.found.None? {
        return false;
      }
      CloseDatabase(Main);
      if !disk.staged.Missing? {
        return false;
      }
      if disk.backup.Missing? {
        return true;
      }
      ok := CleanupBackup();
    }

    /** With no database there must be nothing at all, or a whole backup and a candidate to install. */
    method CreateOrResume() returns (ok: bool)
      requires disk.main.Missing?
      modifies this
      ensures Now(ok) == Prepared(digest, old(Now(true)), env)
    {
      if disk.staged.Missing? && disk.backup.Missing? {
        Commit(disk.(main := Short));
        Commit(disk.(main := Cipher(Some(EMPTY))));
        return true;
      }
      if !disk.backup.Plain? || disk.staged.Missing? {
        FailedInstall(digest, Now(false), env);
        return false;
      }
      ok := Install();
    }

    method MigratePlaintext() returns (ok: bool)
      requires disk.main.Plain?
      modifies this
      ensures Now(ok) == Prepared(digest, old(Now(true)), env)
    {
      var aside := SetOriginalAside();
      if !aside || Main in disk.sidecars {
        FailedInstall(digest, Now(false), env);
        return false;
      }
      ok := Install();
    }

    method Prepare() returns (ok: bool)
      modifies this
      ensures Now(ok) == Prepared(digest, old(Now(true)), env)
    {
      match disk.main {
        case Short => ok := false;
        case Missing => ok := CreateOrResume();
        case Plain(_) => ok := MigratePlaintext();
        case Cipher(_) => ok := OpenEncrypted();
      }
    }

    method Initialize() returns (ok: bool)
      requires trace == []
      modifies this
      ensures Now(ok) == Attempt(digest, old(disk), env)
    {
      var alone := disk.staged.Missing? && disk.backup.Missing?;
      if disk.main.Short? || (disk.main.Missing? && disk.key && alone) {
        return false;
      }
      if disk.main.Missing? && Main in disk.sidecars {
        return false;
      }
      if !disk.key {
        if disk.main.Cipher? || !alone {
          return false;
        }
        Commit(disk.(key := true));
      }
      ok := Prepare();
    }
  }
}
