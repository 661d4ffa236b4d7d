/** The phone's plaintext-to-encrypted migration (EncryptedDatabaseMigrator.kt) over a small file system in which a
    crash can fall between any two file operations.  The encrypted export replaces the original by one rename. */
module AndroidMigration {
  import opened Wrappers
  import opened FileOps
  import opened Runs
  import opened ContentFingerprint

  /** What is compared before and after: header values, schema, and one digest for each table. */
  datatype Snapshot = Snapshot(
    version: int, applicationId: int, autoVacuum: int, schema: seq<seq<Option<Octets>>>, tables: map<Octets, Digest>)

  type Viewer = Database -> Snapshot
  type Judge = Database -> bool

  /** A snapshot of a database, and whether it passes the integrity, foreign-key and version checks. */
  datatype Checks = Checks(view: Viewer, sound: Judge)

  function View(c: Checks, db: Database): Snapshot {
    c.view(db)
  }

  predicate Sound(c: Checks, db: Database) {
    c.sound(db)
  }

  /** A file without the plaintext header opens under the key as some database, or not at all. */
  datatype File = Missing | Plain(db: Database) | Other(found: Option<Database>)

  /** A rollback journal of length zero is cold: it holds nothing to roll back. */
  datatype Journal = NoJournal | Cold | Hot

  /** The -wal, -shm and -journal files beside a database. */
  datatype Beside = Beside(log: bool, shared: bool, journal: Journal)

  /** The key record; one being written is Pending, and found so it is never overwritten. */
  datatype KeyRecord = Absent | Pending | Kept

  datatype Disk = Disk(database: File, beside: Beside, staging: File, stagingBeside: Beside, key: KeyRecord)

  datatype Phase = Checkpointed | Exported | Verified | BeforeReplace | Replaced | Committed

  datatype Draft = Draft(staging: File, beside: Beside)

  /** What the environment decides about one attempt: what the export yields, what is on disk while it runs, whether
      closing leaves a cold journal beside the database or the export, and the phase it is made to fail at. */
  datatype Env = Env(exported: Database, drafts: seq<Draft>, coldJournal: bool, coldStagingJournal: bool,
    fault: Option<Phase>)

  predicate AnyBeside(b: Beside) {
    b.log || b.shared || b.journal != NoJournal
  }

  /** What requireNoSidecars refuses: anything but a cold journal. */
  predicate Blocking(b: Beside) {
    b.log || b.shared || b.journal == Hot
  }

  /** The staging file or anything beside it. */
  predicate Artifacts(d: Disk) {
    !d.staging.Missing? || AnyBeside(d.stagingBeside)
  }

  function Closed(cold: bool): Beside {
    Beside(false, false, if cold then Cold else NoJournal)
  }

  function Reach(p: Progress<Disk>, phase: Phase, env: Env): Progress<Disk> {
    Ensure(p, env.fault != Some(phase))
  }

  // ----- Steps -----

  /** getOrCreate: a new key only where nothing encrypted can depend on a lost one. */
  function Keyed(p: Progress<Disk>): Progress<Disk> {
    var d := p.disk;
    var required := Artifacts(d) || (if d.database.Missing? then AnyBeside(d.beside) else !d.database.Plain?);
    match d.key
    case Kept => p
    case Pending => Ensure(p, false)
    case Absent =>
      var pending := Write(Ensure(p, !required), d.(key := Pending));
      Write(pending, d.(key := Kept))
  }

  /** The source is checked, checkpointed and closed, and a cold journal beside it retired. */
  function Checkpoint(c: Checks, p: Progress<Disk>, env: Env): Progress<Disk>
    requires p.disk.database.Plain?
  {
    var closed := Write(Ensure(p, Sound(c, p.disk.database.db)), p.disk.(beside := Closed(env.coldJournal)));
    var retired :=
      if closed.disk.beside.journal == Cold then Write(closed, closed.disk.(beside := Closed(false))) else closed;
    Reach(Ensure(retired, !Blocking(retired.disk.beside)), Checkpointed, env)
  }

  predicate Exists(d: Disk, k: nat) {
    if k == 0 then !d.staging.Missing?
    else if k == 1 then d.stagingBeside.log
    else if k == 2 then d.stagingBeside.shared
    else d.stagingBeside.journal != NoJournal
  }

  function Delete(d: Disk, k: nat): Disk {
    if k == 0 then d.(staging := Missing)
    else if k == 1 then d.(stagingBeside := d.stagingBeside.(log := false))
    else if k == 2 then d.(stagingBeside := d.stagingBeside.(shared := false))
    else d.(stagingBeside := d.stagingBeside.(journal := NoJournal))
  }

  /** The first `n` of the four staging artifacts deleted, those that exist. */
  function Deleted(p: Progress<Disk>, n: nat): Progress<Disk>
    requires n <= 4
  {
    if n == 0 then p
    else
      var q := Deleted(p, n - 1);
      if Exists(q.disk, n - 1) then Write(q, Delete(q.disk, n - 1)) else q
  }

  /** The first `n` things the export leaves on disk before it commits. */
  function Drafted(p: Progress<Disk>, env: Env, n: nat): Progress<Disk>
    requires n <= |env.drafts|
  {
    if n == 0 then p
    else
      var q := Drafted(p, env, n - 1);
      Write(q, q.disk.(staging := env.drafts[n - 1].staging, stagingBeside := env.drafts[n - 1].beside))
  }

  /** The export, which commits only a copy whose snapshot equals that of the source. */
  function Export(c: Checks, p: Progress<Disk>, env: Env): Progress<Disk>
    requires p.disk.database.Plain?
  {
    var equal := View(c, env.exported) == View(c, p.disk.database.db);
    var filling := Ensure(Drafted(p, env, |env.drafts|), equal);
    Write(filling, filling.disk.(staging := Other(Some(env.exported)), stagingBeside := Closed(env.coldStagingJournal)))
  }

  /** An encrypted file that opens, passes the checks and has the snapshot of the original. */
  predicate Copy(c: Checks, o: Database, f: File) {
    f.Other? && f.found.Some? && Sound(c, f.found.value) && View(c, f.found.value) == View(c, o)
  }

  /** The export is reopened and compared, and renamed over the original. */
  function Replace(c: Checks, p: Progress<Disk>, env: Env): Progress<Disk>
    requires p.disk.database.Plain?
  {
    var exported := Ensure(Reach(p, Exported, env), !Blocking(p.disk.stagingBeside));
    var compared := Reach(Ensure(exported, Copy(c, p.disk.database.db, p.disk.staging)), Verified, env);
    var quiet := Reach(Ensure(compared, !Blocking(p.disk.beside)), BeforeReplace, env);
    var replaced := Write(quiet, p.disk.(database := p.disk.staging, staging := Missing));
    Reach(Reach(replaced, Replaced, env), Committed, env)
  }

  function Migrate(c: Checks, p: Progress<Disk>, env: Env): Progress<Disk>
    requires p.disk.database.Plain?
  {
    var emptied := Deleted(Checkpoint(c, p, env), 4);
    SourceStays(p, c, env);
    Replace(c, Export(c, emptied, env), env)
  }

  /** prepare. */
  function Attempt(c: Checks, d: Disk, env: Env): Progress<Disk> {
    var keyed := Keyed(Progress(d, [], true));
    if !keyed.ok then keyed
    else
      match d.database
      case Missing => Ensure(keyed, !AnyBeside(d.beside) && !Artifacts(d))
      case Plain(_) => Migrate(c, keyed, env)
      case Other(found) => Ensure(keyed, !Artifacts(d) && found.Some? && Sound(c, found.value))
  }

  lemma {:induction false} DeletedStays(p: Progress<Disk>, n: nat)
    requires n <= 4
    ensures var q := Deleted(p, n);
      && q.disk.database == p.disk.database && q.disk.beside == p.disk.beside && q.disk.key == p.disk.key
      && q.ok == p.ok
      && (!p.ok ==> q == p)
      && (p.ok ==> forall k: nat :: k < n ==> !Exists(q.disk, k))
  {
    if n != 0 {
      DeletedStays(p, n - 1);
      var q, r := Deleted(p, n - 1), Deleted(p, n);
      if p.ok {
        forall k: nat | k < n
          ensures !Exists(r.disk, k)
        {
          assert k < n - 1 ==> !Exists(q.disk, k);
        }
      }
    }
  }

  lemma {:induction false} DraftedStays(p: Progress<Disk>, env: Env, n: nat)
    requires n <= |env.drafts|
    ensures var q := Drafted(p, env, n);
      && q.disk.database == p.disk.database && q.disk.beside == p.disk.beside && q.disk.key == p.disk.key
      && q.ok == p.ok
      && (!p.ok ==> q == p)
  {
    if n != 0 {
      DraftedStays(p, env, n - 1);
    }
  }

  /** Nothing before the rename touches the source. */
  lemma SourceStays(p: Progress<Disk>, c: Checks, env: Env)
    requires p.disk.database.Plain?
    ensures var emptied := Deleted(Checkpoint(c, p, env), 4);
      && emptied.disk.database == p.disk.database
      && Export(c, emptied, env).disk.database == p.disk.database
  {
    var checked := Checkpoint(c, p, env);
    DeletedStays(checked, 4);
    DraftedStays(Deleted(checked, 4), env, |env.drafts|);
  }

  // ----- What every disk on the way satisfies -----

  /** The original in place, whatever of an export beside it. */
  predicate Before(o: Database, d: Disk) {
    d.database == Plain(o) && !d.staging.Plain? && (Artifacts(d) ==> d.key == Kept)
  }

  /** The copy in place; at most a cold journal is left where the export was. */
  predicate After(c: Checks, o: Database, d: Disk) {
    && Copy(c, o, d.database) && d.staging.Missing? && d.key == Kept
    && !Blocking(d.stagingBeside) && !Blocking(d.beside)
  }

  predicate Safe(c: Checks, o: Database, d: Disk) {
    Before(o, d) || After(c, o, d)
  }

  predicate AllSafe(c: Checks, o: Database, p: Progress<Disk>) {
    Safe(c, o, p.disk) && forall i :: 0 <= i < |p.trace| ==> Safe(c, o, p.trace[i])
  }

  /** An export never holds plaintext on the way. */
  predicate Sealed(env: Env) {
    forall i :: 0 <= i < |env.drafts| ==> !env.drafts[i].staging.Plain?
  }

  predicate Faithful(c: Checks, o: Database, env: Env) {
    Sound(c, env.exported) && View(c, env.exported) == View(c, o)
  }

  lemma {:induction false} DeletedSafe(c: Checks, o: Database, p: Progress<Disk>, n: nat)
    requires n <= 4 && AllSafe(c, o, p) && Before(o, p.disk) && p.disk.key == Kept
    ensures AllSafe(c, o, Deleted(p, n)) && Before(o, Deleted(p, n).disk)
  {
    if n != 0 {
      DeletedSafe(c, o, p, n - 1);
      DeletedStays(p, n - 1);
    }
  }

  lemma {:induction false} DraftedSafe(c: Checks, o: Database, p: Progress<Disk>, env: Env, n: nat)
    requires n <= |env.drafts| && Sealed(env) && AllSafe(c, o, p) && Before(o, p.disk) && p.disk.key == Kept
    ensures AllSafe(c, o, Drafted(p, env, n)) && Before(o, Drafted(p, env, n).disk)
  {
    if n != 0 {
      DraftedSafe(c, o, p, env, n - 1);
      DraftedStays(p, env, n - 1);
    }
  }

  lemma CheckpointSafe(c: Checks, o: Database, p: Progress<Disk>, env: Env)
    requires AllSafe(c, o, p) && Before(o, p.disk) && p.disk.key == Kept && p.ok
    ensures var q := Checkpoint(c, p, env);
      && AllSafe(c, o, q) && Before(o, q.disk) && q.disk.key == Kept
      && (q.ok ==> !AnyBeside(q.disk.beside) && Sound(c, o) && env.fault != Some(Checkpointed))
      && (Sound(c, o) && env.fault != Some(Checkpointed) ==> q.ok)
  {
  }

  lemma ExportSafe(c: Checks, o: Database, p: Progress<Disk>, env: Env)
    requires Sealed(env) && AllSafe(c, o, p) && Before(o, p.disk) && p.disk.key == Kept
    ensures var q := Export(c, p, env);
      && AllSafe(c, o, q) && Before(o, q.disk) && q.disk.key == Kept && q.disk.beside == p.disk.beside
      && (q.ok <==> p.ok && View(c, env.exported) == View(c, o))
      && (q.ok ==>
            q.disk.staging == Other(Some(env.exported)) && q.disk.stagingBeside == Closed(env.coldStagingJournal))
  {
    DraftedSafe(c, o, p, env, |env.drafts|);
    DraftedStays(p, env, |env.drafts|);
  }

  lemma ReplaceSafe(c: Checks, o: Database, p: Progress<Disk>, env: Env)
    requires AllSafe(c, o, p) && Before(o, p.disk) && p.disk.key == Kept && !AnyBeside(p.disk.beside)
    ensures var q := Replace(c, p, env);
      && AllSafe(c, o, q)
      && (q.ok ==>
            && After(c, o, q.disk) && q.disk.stagingBeside == p.disk.stagingBeside
            && env.fault in {None, Some(Checkpointed)})
      && (p.ok && env.fault.None? && !Blocking(p.disk.stagingBeside) && Copy(c, o, p.disk.staging) ==> q.ok)
      && (After(c, o, q.disk) ==> q.disk.stagingBeside == p.disk.stagingBeside)
  {
    AllPhases(env.fault);
  }

  lemma AllPhases(fault: Option<Phase>)
    ensures fault in {Some(Checkpointed), Some(Exported), Some(Verified), Some(BeforeReplace), Some(Replaced),
                      Some(Committed), None}
  {
    match fault {
      case None =>
      case Some(phase) =>
        match phase {
          case Checkpointed =>
          case Exported =>
          case Verified =>
          case BeforeReplace =>
          case Replaced =>
          case Committed =>
        }
    }
  }

  // ----- A whole attempt -----

  /** Where an attempt succeeds without asking for help: no half-written key, and nothing left of an export beside an
      encrypted database. */
  predicate Resumable(d: Disk) {
    d.key != Pending && (d.database.Plain? || !Artifacts(d))
  }

  /** What one attempt on a safe disk keeps, when it succeeds, and what it leaves beside the database. */
  predicate SoundAttempt(c: Checks, o: Database, d: Disk, env: Env, p: Progress<Disk>) {
    && AllSafe(c, o, p)
    && (p.ok ==> After(c, o, p.disk) && Resumable(d))
    && (env.fault.None? && Faithful(c, o, env) && Sound(c, o) && Resumable(d) ==> p.ok)
    && (!Resumable(d) ==> p.disk == d)
    && (p.ok && d.database.Plain? ==> (Artifacts(p.disk) <==> env.coldStagingJournal) && env.fault.None?)
  }

  lemma MigrateSafe(c: Checks, o: Database, p: Progress<Disk>, env: Env)
    requires Sealed(env) && AllSafe(c, o, p) && Before(o, p.disk) && p.disk.key == Kept && p.ok
    ensures var q := Migrate(c, p, env);
      && AllSafe(c, o, q)
      && (q.ok ==> After(c, o, q.disk) && q.disk.stagingBeside == Closed(env.coldStagingJournal) && env.fault.None?)
      && (env.fault.None? && Faithful(c, o, env) && Sound(c, o) ==> q.ok)
  {
    var checked := Checkpoint(c, p, env);
    var emptied := Deleted(checked, 4);
    CheckpointSafe(c, o, p, env);
    DeletedSafe(c, o, checked, 4);
    DeletedStays(checked, 4);
    var exported := Export(c, emptied, env);
    ExportSafe(c, o, emptied, env);
    if exported.ok {
      ReplaceSafe(c, o, exported, env);
    } else {
      assert Replace(c, exported, env) == exported;
    }
  }

  lemma KeyedSafe(c: Checks, o: Database, d: Disk)
    requires Safe(c, o, d)
    ensures var q := Keyed(Progress(d, [], true));
      && AllSafe(c, o, q)
      && (q.ok <==> d.key != Pending)
      && (q.ok ==> q.disk == d.(key := Kept))
      && (!q.ok ==> q.disk == d)
      && (After(c, o, d) ==> q.ok && q.disk == d)
  {
  }

  /** Every disk an attempt passes through is safe; it succeeds only with the copy in place; it succeeds on every
      resumable disk; and on any other it refuses and changes nothing. */
  lemma AttemptSound(c: Checks, o: Database, d: Disk, env: Env)
    requires Sealed(env) && Safe(c, o, d)
    ensures SoundAttempt(c, o, d, env, Attempt(c, d, env))
  {
    var keyed := Keyed(Progress(d, [], true));
    KeyedSafe(c, o, d);
    if keyed.ok && d.database.Plain? {
      MigrateSafe(c, o, keyed, env);
    }
  }

  // ----- Crashes and restarts -----

  /** One start of the app, and after how many file operations it is cut short. */
  datatype Start = Start(env: Env, cut: nat)

  function Next(c: Checks): (Disk, Start) -> Disk {
    (d: Disk, e: Start) => Cut(Attempt(c, d, e.env), d, e.cut)
  }

  predicate Possible(d: Disk, e: Start) {
    Sealed(e.env)
  }

  /** The legacy database in place, perhaps with its own logs, and nothing of a migration yet. */
  predicate Legacy(o: Database, d: Disk) {
    d.database == Plain(o) && !Artifacts(d)
  }

  function Restarted(c: Checks, d: Disk, starts: seq<Start>, n: nat): Disk
    requires n <= |starts|
  {
    RunTo(Next(c), d, starts, n)
  }

  lemma EveryRestart(c: Checks, o: Database, d: Disk, starts: seq<Start>, n: nat)
    requires Legacy(o, d) && n <= |starts| && Follows(Next(c), Possible, d, starts)
    ensures Safe(c, o, Restarted(c, d, starts, n))
  {
    var inv := (e: Disk) => Safe(c, o, e);
    forall e: Disk, s: Start | Holds(inv, e) && Fits(Possible, e, s)
      ensures Holds(inv, Apply(Next(c), e, s))
    {
      AttemptSound(c, o, e, s.env);
    }
    InductiveHolds(Next(c), inv, Possible, d, starts, n);
  }

  // ----- Main results -----

  /** After any number of starts, each cut short anywhere, the database path holds the original or an encrypted copy
      with the same snapshot. */
  lemma PathHolds(c: Checks, o: Database, d: Disk, starts: seq<Start>, n: nat)
    requires Legacy(o, d) && n <= |starts| && Follows(Next(c), Possible, d, starts)
    ensures var e := Restarted(c, d, starts, n);
      e.database == Plain(o) || Copy(c, o, e.database)
  {
    EveryRestart(c, o, d, starts, n);
  }

  /** From there one uninterrupted attempt succeeds exactly when the disk is resumable, and then the copy is in place
      with no staging file; otherwise it refuses and changes nothing. */
  lemma RestartCompletes(c: Checks, o: Database, d: Disk, starts: seq<Start>, n: nat, env: Env)
    requires Legacy(o, d) && n <= |starts| && Follows(Next(c), Possible, d, starts)
    requires Sealed(env) && env.fault.None? && Faithful(c, o, env) && Sound(c, o)
    ensures var e := Restarted(c, d, starts, n);
      var p := Attempt(c, e, env);
      && (p.ok <==> Resumable(e))
      && (p.ok ==> Copy(c, o, p.disk.database) && p.disk.staging.Missing?)
      && (!p.ok ==> p.disk == e)
  {
    EveryRestart(c, o, d, starts, n);
    AttemptSound(c, o, Restarted(c, d, starts, n), env);
  }

  /** A completed migration is accepted by the next start exactly when closing the export left no cold journal: the
      rename moves the staging file but not what is beside it, and a start beside an encrypted database refuses even
      a journal the migration itself tolerated. */
  lemma SecondStart(c: Checks, o: Database, d: Disk, env: Env, again: Env)
    requires Legacy(o, d) && d.key != Pending && Sound(c, o)
    requires Sealed(env) && env.fault.None? && Faithful(c, o, env) && Sealed(again)
    ensures Attempt(c, d, env).ok
    ensures Attempt(c, Attempt(c, d, env).disk, again).ok <==> !env.coldStagingJournal
  {
    AttemptSound(c, o, d, env);
  }

  /** Once a cold journal is left beside the migrated database's staging name, no start ever succeeds again. */
  lemma ColdJournalBlocks(c: Checks, o: Database, d: Disk, starts: seq<Start>, n: nat)
    requires After(c, o, d) && Artifacts(d) && n <= |starts|
    ensures Restarted(c, d, starts, n) == d
    ensures n < |starts| ==> !Attempt(c, Restarted(c, d, starts, n), starts[n].env).ok
  {
    if n != 0 {
      ColdJournalBlocks(c, o, d, starts, n - 1);
      assert Restarted(c, d, starts, n) == Apply(Next(c), Restarted(c, d, starts, n - 1), starts[n - 1]);
    }
  }

  /** Made to fail at any of the six phases, the migration is finished by the next start, except where the rename is
      done and a cold journal was left behind it. */
  lemma EveryPhaseRecovers(c: Checks, o: Database, d: Disk, phase: Phase, env: Env, again: Env)
    requires Legacy(o, d) && d.key != Pending && Sound(c, o)
    requires Sealed(env) && env.fault == Some(phase) && Faithful(c, o, env)
    requires Sealed(again) && again.fault.None? && Faithful(c, o, again)
    ensures !Attempt(c, d, env).ok
    ensures Attempt(c, Attempt(c, d, env).disk, again).ok
       <==> !(phase in {Replaced, Committed} && env.coldStagingJournal)
  {
    AttemptSound(c, o, d, env);
    AttemptSound(c, o, Attempt(c, d, env).disk, again);
    PhaseLeaves(c, o, d, phase, env);
  }

  /** Where each phase leaves the disk. */
  lemma PhaseLeaves(c: Checks, o: Database, d: Disk, phase: Phase, env: Env)
    requires Legacy(o, d) && d.key != Pending && Sound(c, o)
    requires Sealed(env) && env.fault == Some(phase) && Faithful(c, o, env)
    ensures Attempt(c, d, env).disk.key == Kept
    ensures phase in {Replaced, Committed} <==> Attempt(c, d, env).disk.database.Other?
    ensures phase in {Replaced, Committed} ==>
      After(c, o, Attempt(c, d, env).disk) && (Artifacts(Attempt(c, d, env).disk) <==> env.coldStagingJournal)
  {
    var p := Keyed(Progress(d, [], true));
    KeyedSafe(c, o, d);
    var checked := Checkpoint(c, p, env);
    var emptied := Deleted(checked, 4);
    CheckpointSafe(c, o, p, env);
    DeletedSafe(c, o, checked, 4);
    DeletedStays(checked, 4);
    var exported := Export(c, emptied, env);
    ExportSafe(c, o, emptied, env);
    ReplaceLeaves(c, o, exported, phase, env);
  }

  lemma ReplaceLeaves(c: Checks, o: Database, p: Progress<Disk>, phase: Phase, env: Env)
    requires Before(o, p.disk) && p.disk.key == Kept && env.fault == Some(phase)
    requires p.ok ==> Copy(c, o, p.disk.staging) && !Blocking(p.disk.stagingBeside) && !AnyBeside(p.disk.beside)
    requires p.ok <==> phase != Checkpointed
    ensures var q := Replace(c, p, env);
      && q.disk.key == Kept
      && (phase in {Replaced, Committed} <==> q.disk.database.Other?)
      && (phase in {Replaced, Committed} ==>
            After(c, o, q.disk) && (Artifacts(q.disk) <==> AnyBeside(p.disk.stagingBeside)))
  {
    match phase {
      case Checkpointed =>
      case Exported =>
      case Verified =>
      case BeforeReplace =>
      case Replaced =>
      case Committed =>
    }
  }
}
