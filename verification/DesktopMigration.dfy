/** The desktop's plaintext-to-encrypted migration (desktop/src-tauri/src/db/encrypted.rs) over a small file system in
    which a crash can fall between any two file operations.  An attempt is recorded as the disks it passes through, so
    a crash leaves one of them and the next start begins there. */
module DesktopMigration {
  import opened Wrappers
  import opened FileOps
  import opened Runs
  import opened ContentFingerprint

  type Digester = Database -> Digest

  function DigestOf(digest: Digester, db: Database): Digest {
    digest(db)
  }

  datatype Name = Main | Staged | Backup

  /** A file: too short for a header, a plaintext database, or anything else, which under the key opens as a sound
      database or not at all. */
  datatype File = Missing | Short | Plain(db: Database) | Cipher(found: Option<Database>)

  /** Three files, whether the protected key exists, and which files have a journal or log beside them. */
  datatype Disk = Disk(main: File, staged: File, backup: File, key: bool, sidecars: set<Name>)

  datatype Stage = BeforeExport | AfterExport | AfterValidation | AfterBackupRename | AfterInstall | BeforeCleanup

  /** What an export has written so far, and whether it has a journal. */
  datatype Draft = Draft(file: File, journal: bool)

  /** What the environment decides about one attempt: what the export yields, what is on disk while it runs, whether
      the engine leaves journals behind, whether a move is one operation, and at which stage the attempt is made to
      fail, if at any. */
  datatype Env = Env(exported: Database, drafts: seq<Draft>, cold: bool, atomic: bool, fault: Option<Stage>)

  function FileAt(d: Disk, n: Name): File {
    match n
    case Main => d.main
    case Staged => d.staged
    case Backup => d.backup
  }

  function With(d: Disk, n: Name, f: File): Disk {
    match n
    case Main => d.(main := f)
    case Staged => d.(staged := f)
    case Backup => d.(backup := f)
  }

  // ----- Steps -----

  function Reach(p: Progress<Disk>, stage: Stage, env: Env): Progress<Disk> {
    Ensure(p, env.fault != Some(stage))
  }

  function NoSidecars(p: Progress<Disk>, n: Name): Progress<Disk> {
    Ensure(p, n !in p.disk.sidecars)
  }

  /** Opening and closing a database folds its journal or log into it, and removes it unless an empty one is left. */
  function Settled(p: Progress<Disk>, n: Name, env: Env): Progress<Disk> {
    Write(p, if env.cold then p.disk else p.disk.(sidecars := p.disk.sidecars - {n}))
  }

  /** legacy_locked: only a plaintext file opens, and its log is checkpointed. */
  function Locked(p: Progress<Disk>, n: Name, env: Env): Progress<Disk> {
    Settled(Ensure(p, FileAt(p.disk, n).Plain?), n, env)
  }

  /** An encrypted file that opens and has the fingerprint. */
  predicate Matches(digest: Digester, f: File, expected: Digest) {
    f.Cipher? && f.found.Some? && DigestOf(digest, f.found.value) == expected
  }

  /** verify_export: a match, with no journal beside it once it is closed. */
  function Verified(digest: Digester, p: Progress<Disk>, n: Name, expected: Digest, env: Env): Progress<Disk> {
    NoSidecars(Settled(Ensure(p, Matches(digest, FileAt(p.disk, n), expected)), n, env), n)
  }

  /** A candidate verified against the fingerprint of the plaintext database it was made from. */
  function Compared(digest: Digester, p: Progress<Disk>, n: Name, source: Name, env: Env): Progress<Disk> {
    match FileAt(p.disk, source)
    case Plain(db) => Verified(digest, p, n, DigestOf(digest, db), env)
    case _ => Ensure(p, false)
  }

  /** move_without_replace: one operation, or a second name and then the removal of the first. */
  function Moved(p: Progress<Disk>, from: Name, to: Name, env: Env): Progress<Disk> {
    var q := Ensure(p, FileAt(p.disk, to).Missing?);
    var linked := With(q.disk, to, FileAt(q.disk, from));
    var moved := With(linked, from, Missing);
    if env.atomic then Write(q, moved) else Write(Write(q, linked), moved)
  }

  function Draw(d: Disk, draft: Draft): Disk {
    d.(staged := draft.file, sidecars := if draft.journal then d.sidecars + {Staged} else d.sidecars - {Staged})
  }

  /** The first `n` things an export leaves on disk before it is complete. */
  function Drafted(p: Progress<Disk>, env: Env, n: nat): Progress<Disk>
    requires n <= |env.drafts|
  {
    if n == 0 then p
    else
      var q := Drafted(p, env, n - 1);
      Write(q, Draw(q.disk, env.drafts[n - 1]))
  }

  /** export: reserve the file, fill it, commit. */
  function Exported(p: Progress<Disk>, env: Env): Progress<Disk> {
    var reserved := Write(p, p.disk.(staged := Short));
    var filling := Drafted(reserved, env, |env.drafts|);
    Write(filling, Draw(filling.disk, Draft(Cipher(Some(env.exported)), env.cold)))
  }

  function Cleaned(digest: Digester, p: Progress<Disk>, env: Env): Progress<Disk> {
    var quiet := NoSidecars(NoSidecars(p, Main), Backup);
    var compared := Compared(digest, Locked(quiet, Backup, env), Main, Backup, env);
    var checked := NoSidecars(Reach(compared, BeforeCleanup, env), Backup);
    Write(checked, checked.disk.(backup := Missing))
  }

  function Installed(digest: Digester, p: Progress<Disk>, env: Env): Progress<Disk> {
    var quiet := NoSidecars(NoSidecars(p, Main), Backup);
    var compared := Compared(digest, Locked(quiet, Backup, env), Staged, Backup, env);
    Cleaned(digest, Reach(Moved(compared, Staged, Main, env), AfterInstall, env), env)
  }

  /** The candidate beside a plaintext database is compared, and the original renamed. */
  function Renamed(digest: Digester, p: Progress<Disk>, env: Env): Progress<Disk> {
    var compared := NoSidecars(Reach(Compared(digest, p, Staged, Main, env), AfterValidation, env), Main);
    Reach(Moved(compared, Main, Backup, env), AfterBackupRename, env)
  }

  /** A plaintext database up to its rename: export unless a candidate exists, compare, set the original aside. */
  function SetAside(digest: Digester, p: Progress<Disk>, env: Env): Progress<Disk> {
    var locked := Reach(Locked(Ensure(p, p.disk.backup.Missing?), Main, env), BeforeExport, env);
    var exported := if locked.disk.staged.Missing? then Exported(locked, env) else locked;
    Renamed(digest, Reach(exported, AfterExport, env), env)
  }

  const EMPTY: Database := Database(0, 0, 0, [])

  function Created(p: Progress<Disk>): Progress<Disk> {
    var reserved := Write(p, p.disk.(main := Short));
    Write(reserved, reserved.disk.(main := Cipher(Some(EMPTY))))
  }

  function Prepared(digest: Digester, p: Progress<Disk>, env: Env): Progress<Disk> {
    match p.disk.main
    case Short => Ensure(p, false)
    case Missing =>
      if p.disk.staged.Missing? && p.disk.backup.Missing? then Created(p)
      else Installed(digest, Ensure(p, p.disk.backup.Plain? && !p.disk.staged.Missing?), env)
    case Plain(_) => Installed(digest, NoSidecars(SetAside(digest, p, env), Main), env)
    case Cipher(found) =>
      var settled := Ensure(Settled(Ensure(p, found.Some?), Main, env), p.disk.staged.Missing?);
      if p.disk.backup.Missing? then settled else Cleaned(digest, settled, env)
  }

  /** load_key: an existing key, or a new one where no encrypted file can depend on a lost one. */
  function Keyed(p: Progress<Disk>): Progress<Disk> {
    if p.disk.key then p
    else
      var creatable := !p.disk.main.Cipher? && p.disk.staged.Missing? && p.disk.backup.Missing?;
      Write(Ensure(p, creatable), p.disk.(key := true))
  }

  /** initialize_impl. */
  function Attempt(digest: Digester, d: Disk, env: Env): Progress<Disk> {
    var p := Progress(d, [], true);
    var alone := d.staged.Missing? && d.backup.Missing?;
    var found := Ensure(p, !d.main.Short? && !(d.main.Missing? && d.key && alone));
    var quiet := if d.main.Missing? then NoSidecars(found, Main) else found;
    var keyed := Keyed(quiet);
    if keyed.ok then Prepared(digest, keyed, env) else keyed
  }

  // ----- What every disk on the way satisfies -----

  /** No journal or log beside any file. */
  predicate Alone(d: Disk) {
    Main !in d.sidecars && Staged !in d.sidecars && Backup !in d.sidecars
  }

  /** An encrypted copy the fingerprint cannot tell from the original. */
  predicate Copy(digest: Digester, o: Database, f: File) {
    Matches(digest, f, DigestOf(digest, o))
  }

  /** The original in place, with nothing, a candidate, or the wreck of one beside it. */
  predicate Before(digest: Digester, o: Database, d: Disk) {
    && d.main == Plain(o) && d.backup.Missing? && !d.staged.Plain? && Backup !in d.sidecars
    && (d.staged.Missing? || d.key)
  }

  /** Midway through setting the original aside: it has both names. */
  predicate Aside(digest: Digester, o: Database, d: Disk) {
    d.main == Plain(o) && d.backup == Plain(o) && Copy(digest, o, d.staged) && d.key && Alone(d)
  }

  predicate Between(digest: Digester, o: Database, d: Disk) {
    d.main.Missing? && d.backup == Plain(o) && Copy(digest, o, d.staged) && d.key && Alone(d)
  }

  /** Midway through publishing the copy: it has both names. */
  predicate Publishing(digest: Digester, o: Database, d: Disk) {
    d.main == d.staged && d.backup == Plain(o) && Copy(digest, o, d.main) && d.key && Alone(d)
  }

  predicate After(digest: Digester, o: Database, d: Disk) {
    d.staged.Missing? && d.backup == Plain(o) && Copy(digest, o, d.main) && d.key && Alone(d)
  }

  /** Only the encrypted copy is left. */
  predicate Done(digest: Digester, o: Database, d: Disk) {
    d.staged.Missing? && d.backup.Missing? && Copy(digest, o, d.main) && d.key && Alone(d)
  }

  predicate Safe(digest: Digester, o: Database, d: Disk) {
    || Before(digest, o, d) || Aside(digest, o, d) || Between(digest, o, d)
    || Publishing(digest, o, d) || After(digest, o, d) || Done(digest, o, d)
  }

  predicate AllSafe(digest: Digester, o: Database, p: Progress<Disk>) {
    Safe(digest, o, p.disk) && forall i :: 0 <= i < |p.trace| ==> Safe(digest, o, p.trace[i])
  }

  // ----- Each part of an attempt -----

  lemma {:induction false} DraftedSafe(digest: Digester, o: Database, p: Progress<Disk>, env: Env, n: nat)
    requires n <= |env.drafts| && AllSafe(digest, o, p) && Before(digest, o, p.disk) && p.disk.key
    requires forall i :: 0 <= i < |env.drafts| ==> env.drafts[i].file.Short? || env.drafts[i].file.Cipher?
    ensures AllSafe(digest, o, Drafted(p, env, n)) && Before(digest, o, Drafted(p, env, n).disk)
    ensures Drafted(p, env, n).disk.key && Drafted(p, env, n).ok == p.ok
    ensures Drafted(p, env, n).disk.sidecars <= p.disk.sidecars + {Staged}
  {
    if n != 0 {
      DraftedSafe(digest, o, p, env, n - 1);
    }
  }

  /** An export never holds plaintext on the way. */
  predicate Sealed(env: Env) {
    forall i :: 0 <= i < |env.drafts| ==> env.drafts[i].file.Short? || env.drafts[i].file.Cipher?
  }

  lemma ExportedSafe(digest: Digester, o: Database, p: Progress<Disk>, env: Env)
    requires Sealed(env) && AllSafe(digest, o, p) && Before(digest, o, p.disk) && p.disk.key && p.ok
    ensures var q := Exported(p, env);
      && AllSafe(digest, o, q) && Before(digest, o, q.disk) && q.disk.key && q.ok
      && q.disk.staged == Cipher(Some(env.exported))
      && (Main in q.disk.sidecars ==> Main in p.disk.sidecars)
  {
    var reserved := Write(p, p.disk.(staged := Short));
    DraftedSafe(digest, o, reserved, env, |env.drafts|);
  }

  predicate SameFiles(d: Disk, e: Disk) {
    d.main == e.main && d.staged == e.staged && d.backup == e.backup
  }

  /** No file has been touched, now or on the way. */
  predicate AllSame(d: Disk, p: Progress<Disk>) {
    SameFiles(d, p.disk) && forall i :: 0 <= i < |p.trace| ==> SameFiles(d, p.trace[i])
  }

  /** Everything in place to finish: where an attempt resumes without asking for help. */
  predicate Resumable(digest: Digester, o: Database, d: Disk) {
    match d.main
    case Plain(_) => d.backup.Missing? && (d.staged.Missing? || Copy(digest, o, d.staged))
    case Missing => true
    case Cipher(_) => d.staged.Missing?
    case Short => false
  }

  predicate Faithful(digest: Digester, o: Database, env: Env) {
    DigestOf(digest, env.exported) == DigestOf(digest, o)
  }

  lemma CleanedSafe(digest: Digester, o: Database, p: Progress<Disk>, env: Env)
    requires AllSafe(digest, o, p) && p.ok && After(digest, o, p.disk)
    ensures AllSafe(digest, o, Cleaned(digest, p, env))
    ensures Cleaned(digest, p, env).ok <==> env.fault != Some(BeforeCleanup)
    ensures Cleaned(digest, p, env).ok ==> Done(digest, o, Cleaned(digest, p, env).disk)
    ensures Resumable(digest, o, Cleaned(digest, p, env).disk)
  {
  }

  lemma InstalledSafe(digest: Digester, o: Database, p: Progress<Disk>, env: Env)
    requires AllSafe(digest, o, p) && p.ok && Between(digest, o, p.disk)
    ensures AllSafe(digest, o, Installed(digest, p, env))
    ensures Installed(digest, p, env).ok <==> env.fault !in {Some(AfterInstall), Some(BeforeCleanup)}
    ensures Installed(digest, p, env).ok ==> Done(digest, o, Installed(digest, p, env).disk)
    ensures Resumable(digest, o, Installed(digest, p, env).disk)
  {
    var quiet := NoSidecars(NoSidecars(p, Main), Backup);
    var compared := Compared(digest, Locked(quiet, Backup, env), Staged, Backup, env);
    var moved := Moved(compared, Staged, Main, env);
    assert AllSafe(digest, o, compared) && compared.ok;
    assert AllSafe(digest, o, moved) && After(digest, o, moved.disk);
    if env.fault != Some(AfterInstall) {
      CleanedSafe(digest, o, moved, env);
    }
  }

  lemma {:induction false} DraftedKeepsOk(p: Progress<Disk>, env: Env, n: nat)
    requires n <= |env.drafts|
    ensures Drafted(p, env, n).ok == p.ok && (!p.ok ==> Drafted(p, env, n) == p)
    ensures Drafted(p, env, n).disk.main == p.disk.main
  {
    if n != 0 {
      DraftedKeepsOk(p, env, n - 1);
    }
  }

  lemma FailedExport(p: Progress<Disk>, env: Env)
    requires !p.ok
    ensures Exported(p, env) == p
  {
    DraftedKeepsOk(p, env, |env.drafts|);
  }

  lemma AllStages(fault: Option<Stage>)
    ensures fault in {Some(BeforeExport), Some(AfterExport), Some(AfterValidation), Some(AfterBackupRename),
                      Some(AfterInstall), Some(BeforeCleanup), None}
  {
    match fault {
      case None =>
      case Some(stage) =>
        match stage {
          case BeforeExport =>
          case AfterExport =>
          case AfterValidation =>
          case AfterBackupRename =>
          case AfterInstall =>
          case BeforeCleanup =>
        }
    }
  }

  /** Up to the rename the original stays in place; the rename happens only beside a compared copy. */
  lemma SetAsideSafe(digest: Digester, o: Database, p: Progress<Disk>, env: Env)
    requires Sealed(env) && AllSafe(digest, o, p) && p.ok && Before(digest, o, p.disk) && p.disk.key
    ensures var q := SetAside(digest, p, env);
      && AllSafe(digest, o, q)
      && (q.ok ==> Between(digest, o, q.disk))
      && (q.ok ==> Resumable(digest, o, p.disk) && (env.fault in {None, Some(AfterInstall), Some(BeforeCleanup)}))
      && (env.fault.None? && !env.cold && Faithful(digest, o, env) && Resumable(digest, o, p.disk) ==> q.ok)
      && (Faithful(digest, o, env) && Resumable(digest, o, p.disk) ==> Resumable(digest, o, q.disk))
      && (!Resumable(digest, o, p.disk) && AllSame(p.disk, p) ==> AllSame(p.disk, q))
  {
    var locked := Reach(Locked(Ensure(p, p.disk.backup.Missing?), Main, env), BeforeExport, env);
    assert AllSafe(digest, o, locked) && Before(digest, o, locked.disk);
    var exporting := if locked.disk.staged.Missing? then Exported(locked, env) else locked;
    if locked.ok && locked.disk.staged.Missing? {
      ExportedSafe(digest, o, locked, env);
    } else if !locked.ok {
      FailedExport(locked, env);
    }
    assert AllSafe(digest, o, exporting) && Before(digest, o, exporting.disk);
    assert !env.cold && locked.ok ==> Main !in exporting.disk.sidecars;
    assert exporting.ok <==> locked.ok;
    RenamedSafe(digest, o, Reach(exporting, AfterExport, env), env);
    AllStages(env.fault);
  }

  lemma RenamedSafe(digest: Digester, o: Database, p: Progress<Disk>, env: Env)
    requires AllSafe(digest, o, p) && Before(digest, o, p.disk) && p.disk.key
    ensures var q := Renamed(digest, p, env);
      && AllSafe(digest, o, q)
      && (q.ok ==> Between(digest, o, q.disk))
      && (q.ok ==>
            && p.ok && Copy(digest, o, p.disk.staged)
            && env.fault !in {Some(AfterValidation), Some(AfterBackupRename)})
      && (env.fault.None? && !env.cold && Main !in p.disk.sidecars && p.ok && Copy(digest, o, p.disk.staged) ==> q.ok)
      && (Copy(digest, o, p.disk.staged) || (!p.ok && p.disk.staged.Missing?) ==> Resumable(digest, o, q.disk))
      && (!Copy(digest, o, p.disk.staged) ==> q == p.(ok := false))
  {
  }

  // ----- A whole attempt -----

  /** What one attempt on a safe disk keeps, when it succeeds, and what it leaves to resume from. */
  predicate Sound(digest: Digester, o: Database, d: Disk, env: Env, p: Progress<Disk>) {
    && AllSafe(digest, o, p)
    && (p.ok ==> Done(digest, o, p.disk) && Resumable(digest, o, d))
    && (p.ok && d.main.Plain? ==> env.fault.None?)
    && (env.fault.None? && !env.cold && Faithful(digest, o, env) && Resumable(digest, o, d) ==> p.ok)
    && (Faithful(digest, o, env) && Resumable(digest, o, d) ==> Resumable(digest, o, p.disk))
    && (!Resumable(digest, o, d) ==> AllSame(d, p))
  }

  lemma PlainAttempt(digest: Digester, o: Database, d: Disk, env: Env)
    requires Sealed(env) && Safe(digest, o, d) && d.main.Plain?
    ensures Sound(digest, o, d, env, Attempt(digest, d, env))
  {
    var keyed := Keyed(Progress(d, [], true));
    if Before(digest, o, d) {
      assert Before(digest, o, keyed.disk) && AllSafe(digest, o, keyed) && keyed.ok;
      SetAsideSafe(digest, o, keyed, env);
      var aside := SetAside(digest, keyed, env);
      if aside.ok {
        InstalledSafe(digest, o, NoSidecars(aside, Main), env);
      } else {
        FailedInstall(digest, NoSidecars(aside, Main), env);
      }
    } else {
      assert Aside(digest, o, d);
      FailedInstall(digest, NoSidecars(SetAside(digest, keyed, env), Main), env);
    }
  }

  /** A failed part changes nothing. */
  lemma FailedInstall(digest: Digester, p: Progress<Disk>, env: Env)
    requires !p.ok
    ensures Installed(digest, p, env) == p
  {
  }

  lemma MissingAttempt(digest: Digester, o: Database, d: Disk, env: Env)
    requires Safe(digest, o, d) && d.main.Missing?
    ensures Sound(digest, o, d, env, Attempt(digest, d, env))
  {
    var p := Progress(d, [], true);
    InstalledSafe(digest, o, p, env);
    assert Prepared(digest, p, env) == Installed(digest, p, env);
  }

  lemma CipherAttempt(digest: Digester, o: Database, d: Disk, env: Env)
    requires Safe(digest, o, d) && d.main.Cipher?
    ensures Sound(digest, o, d, env, Attempt(digest, d, env))
  {
    var settled := Ensure(Settled(Progress(d, [], true), Main, env), d.staged.Missing?);
    assert settled.disk == d;
    if After(digest, o, d) {
      CleanedSafe(digest, o, settled, env);
    } else if Publishing(digest, o, d) {
      assert Cleaned(digest, settled, env) == settled;
    }
  }

  /** Every disk an attempt passes through is safe; it succeeds only with the copy alone left; made on a resumable
      disk it succeeds, or leaves one; and made on any other it refuses and leaves every file as it was. */
  lemma AttemptSound(digest: Digester, o: Database, d: Disk, env: Env)
    requires Sealed(env) && Safe(digest, o, d)
    ensures Sound(digest, o, d, env, Attempt(digest, d, env))
  {
    if d.main.Plain? {
      PlainAttempt(digest, o, d, env);
    } else if d.main.Missing? {
      MissingAttempt(digest, o, d, env);
    } else {
      CipherAttempt(digest, o, d, env);
    }
  }

  // ----- Crashes and restarts -----

  /** One start of the program, and after how many file operations it is cut short. */
  datatype Start = Start(env: Env, cut: nat)

  function Next(digest: Digester): (Disk, Start) -> Disk {
    (d: Disk, e: Start) => Cut(Attempt(digest, d, e.env), d, e.cut)
  }

  predicate Possible(d: Disk, e: Start) {
    Sealed(e.env)
  }

  /** The legacy database in place, perhaps with its own log, and nothing of a migration yet. */
  predicate Legacy(o: Database, d: Disk) {
    d.main == Plain(o) && d.staged.Missing? && d.backup.Missing? && Backup !in d.sidecars
  }

  function Restarted(digest: Digester, d: Disk, starts: seq<Start>, n: nat): Disk
    requires n <= |starts|
  {
    RunTo(Next(digest), d, starts, n)
  }

  lemma CutSafe(digest: Digester, o: Database, d: Disk, e: Start)
    requires Safe(digest, o, d) && Sealed(e.env)
    ensures Safe(digest, o, Cut(Attempt(digest, d, e.env), d, e.cut))
    ensures !Resumable(digest, o, d) ==> SameFiles(d, Cut(Attempt(digest, d, e.env), d, e.cut))
  {
    AttemptSound(digest, o, d, e.env);
  }

  lemma EveryRestart(digest: Digester, o: Database, d: Disk, starts: seq<Start>, n: nat)
    requires Legacy(o, d) && n <= |starts| && Follows(Next(digest), Possible, d, starts)
    ensures Safe(digest, o, Restarted(digest, d, starts, n))
  {
    var inv := (e: Disk) => Safe(digest, o, e);
    forall e: Disk, s: Start | Holds(inv, e) && Fits(Possible, e, s)
      ensures Holds(inv, Apply(Next(digest), e, s))
    {
      CutSafe(digest, o, e, s);
    }
    InductiveHolds(Next(digest), inv, Possible, d, starts, n);
  }

  // ----- Main results -----

  predicate HeldBy(digest: Digester, o: Database, d: Disk, n: Name) {
    FileAt(d, n) == Plain(o) || Copy(digest, o, FileAt(d, n))
  }

  predicate PlaintextLeft(o: Database, d: Disk) {
    d.main == Plain(o) || d.backup == Plain(o)
  }

  /** After any number of starts, each cut short anywhere, some file holds the whole original, and the plaintext is
      gone only if the database itself is an encrypted copy of it. */
  lemma OriginalKept(digest: Digester, o: Database, d: Disk, starts: seq<Start>, n: nat)
    requires Legacy(o, d) && n <= |starts| && Follows(Next(digest), Possible, d, starts)
    ensures var e := Restarted(digest, d, starts, n);
      && (HeldBy(digest, o, e, Main) || HeldBy(digest, o, e, Backup))
      && (!PlaintextLeft(o, e) ==> Copy(digest, o, e.main) && e.staged.Missing? && e.backup.Missing?)
  {
    EveryRestart(digest, o, d, starts, n);
    SafeHolds(digest, o, Restarted(digest, d, starts, n));
  }

  lemma SafeHolds(digest: Digester, o: Database, d: Disk)
    requires Safe(digest, o, d)
    ensures HeldBy(digest, o, d, Main) || HeldBy(digest, o, d, Backup)
    ensures !PlaintextLeft(o, d) ==> Copy(digest, o, d.main) && d.staged.Missing? && d.backup.Missing?
  {
  }

  /** From there an uninterrupted start succeeds exactly when the disk is resumable, and then only the encrypted copy is
      left; otherwise it refuses and touches no file. */
  lemma RestartCompletes(digest: Digester, o: Database, d: Disk, starts: seq<Start>, n: nat, env: Env)
    requires Legacy(o, d) && n <= |starts| && Follows(Next(digest), Possible, d, starts)
    requires Sealed(env) && env.fault.None? && !env.cold && Faithful(digest, o, env)
    ensures var e := Restarted(digest, d, starts, n);
      var p := Attempt(digest, e, env);
      && (p.ok <==> Resumable(digest, o, e))
      && (p.ok ==> Done(digest, o, p.disk))
      && (!p.ok ==> AllSame(e, p))
  {
    EveryRestart(digest, o, d, starts, n);
    AttemptSound(digest, o, Restarted(digest, d, starts, n), env);
  }

  /** Made to fail at any of the six stages, the migration is finished by the next start. */
  lemma EveryStageRecovers(digest: Digester, o: Database, d: Disk, stage: Stage, env: Env, again: Env)
    requires Legacy(o, d) && Sealed(env) && Sealed(again)
    requires env.fault == Some(stage) && again.fault.None? && !again.cold
    requires Faithful(digest, o, env) && Faithful(digest, o, again)
    ensures !Attempt(digest, d, env).ok
    ensures Attempt(digest, Attempt(digest, d, env).disk, again).ok
    ensures Done(digest, o, Attempt(digest, Attempt(digest, d, env).disk, again).disk)
  {
    AttemptSound(digest, o, d, env);
    AttemptSound(digest, o, Attempt(digest, d, env).disk, again);
  }

  /** With a fingerprint that tells contents apart, the copy left has the very content of the original. */
  lemma CopyIsContent(h: Hasher, o: Database, c: Database)
    requires NoCollision(h, Inputs(WordBytes, h, o) + Inputs(WordBytes, h, c))
    ensures Copy(db => ContentFingerprint.Fingerprint(h, db), o, Cipher(Some(c))) <==> SameContent(c, o)
  {
    FingerprintsAgree(h, c, o);
  }

  /** An attempt an abandoned journal stops is finished by the next one that finds none. */
  lemma JournalDelays(digest: Digester, o: Database, d: Disk, env: Env, again: Env)
    requires Legacy(o, d) && Sealed(env) && Sealed(again)
    requires again.fault.None? && !again.cold && Faithful(digest, o, env) && Faithful(digest, o, again)
    ensures !Attempt(digest, d, env.(fault := None, cold := true)).ok
    ensures Attempt(digest, Attempt(digest, d, env.(fault := None, cold := true)).disk, again).ok
  {
    var first := env.(fault := None, cold := true);
    AttemptSound(digest, o, d, first);
    ColdStops(digest, o, d, first);
    AttemptSound(digest, o, Attempt(digest, d, first).disk, again);
  }

  /** The journal its own export leaves fails the comparison that follows. */
  lemma ColdStops(digest: Digester, o: Database, d: Disk, env: Env)
    requires Legacy(o, d) && Sealed(env) && env.fault.None? && env.cold
    ensures !Attempt(digest, d, env).ok
  {
    var keyed := Keyed(Progress(d, [], true));
    var locked := Locked(keyed, Main, env);
    ExportLeaves(locked, env);
    FailedInstall(digest, NoSidecars(SetAside(digest, keyed, env), Main), env);
  }

  lemma ExportLeaves(p: Progress<Disk>, env: Env)
    requires p.ok && env.cold
    ensures Exported(p, env).ok && Staged in Exported(p, env).disk.sidecars
  {
    DraftedKeepsOk(Write(p, p.disk.(staged := Short)), env, |env.drafts|);
  }

  predicate Wrecked(digest: Digester, o: Database, d: Disk, e: Disk) {
    Safe(digest, o, e) && SameFiles(d, e) && !Resumable(digest, o, e)
  }

  /** On a disk that is not resumable every start refuses, however often and wherever it is cut short, and no file
      changes. */
  lemma WreckStays(digest: Digester, o: Database, d: Disk, starts: seq<Start>, n: nat)
    requires Safe(digest, o, d) && !Resumable(digest, o, d)
    requires n <= |starts| && Follows(Next(digest), Possible, d, starts)
    ensures Wrecked(digest, o, d, Restarted(digest, d, starts, n))
    ensures n < |starts| ==> !Attempt(digest, Restarted(digest, d, starts, n), starts[n].env).ok
  {
    var inv := (e: Disk) => Wrecked(digest, o, d, e);
    forall e: Disk, s: Start | Holds(inv, e) && Fits(Possible, e, s)
      ensures Holds(inv, Apply(Next(digest), e, s))
    {
      CutSafe(digest, o, e, s);
    }
    InductiveHolds(Next(digest), inv, Possible, d, starts, n);
    assert Holds(inv, Restarted(digest, d, starts, n));
    if n < |starts| {
      assert Fits(Possible, Restarted(digest, d, starts, n), starts[n]);
      AttemptSound(digest, o, Restarted(digest, d, starts, n), starts[n].env);
    }
  }

  /** A crash that leaves anything but a whole copy under the candidate's name leaves a wreck: the original is in place,
      and no later start, however many there are, succeeds or touches a file. */
  lemma ExportCutShort(digest: Digester, o: Database, d: Disk, env: Env, cut: nat, starts: seq<Start>, n: nat)
    requires Legacy(o, d) && Sealed(env)
    requires var e := Cut(Attempt(digest, d, env), d, cut);
      && !e.staged.Missing? && !Copy(digest, o, e.staged)
      && n <= |starts| && Follows(Next(digest), Possible, e, starts)
    ensures var e := Cut(Attempt(digest, d, env), d, cut);
      && e.main == Plain(o) && SameFiles(e, Restarted(digest, e, starts, n))
      && (n < |starts| ==> !Attempt(digest, Restarted(digest, e, starts, n), starts[n].env).ok)
  {
    AttemptSound(digest, o, d, env);
    WreckStays(digest, o, Cut(Attempt(digest, d, env), d, cut), starts, n);
  }

  /** Such a crash exists: after the candidate's name is reserved and before anything is in it. */
  lemma WreckHappens(digest: Digester, o: Database, d: Disk)
    requires Legacy(o, d) && d.key
    ensures Cut(Attempt(digest, d, Env(o, [], false, true, Some(AfterExport))), d, 2).staged == Short
  {
    var env := Env(o, [], false, true, Some(AfterExport));
    var locked := Reach(Locked(Progress(d, [], true), Main, env), BeforeExport, env);
    var exported := Exported(locked, env);
    assert exported.trace == [locked.disk, locked.disk.(staged := Short), exported.disk];
    FailedInstall(digest, NoSidecars(SetAside(digest, Progress(d, [], true), env), Main), env);
    assert Attempt(digest, d, env).trace == exported.trace;
  }

  /** Creating a new database survives a crash only before the key is written or after the first page is: in between
      every later start refuses, as the key or an empty file is there with no database. */
  lemma NewDatabase(digest: Digester, d: Disk, env: Env, cut: nat, again: Env)
    requires d.main.Missing? && d.staged.Missing? && d.backup.Missing? && !d.key && Main !in d.sidecars
    ensures Attempt(digest, d, env).ok && Attempt(digest, d, env).disk.main == Cipher(Some(EMPTY))
    ensures Attempt(digest, Cut(Attempt(digest, d, env), d, cut), again).ok <==> cut == 0 || cut >= 3
  {
    var keyed := d.(key := true);
    var reserved := keyed.(main := Short);
    var created := keyed.(main := Cipher(Some(EMPTY)));
    assert Attempt(digest, d, env) == Progress(created, [keyed, reserved, created], true);
    assert !Attempt(digest, keyed, again).ok && !Attempt(digest, reserved, again).ok
      && Attempt(digest, created, again).ok;
    assert Attempt(digest, d, again).ok;
  }
}
