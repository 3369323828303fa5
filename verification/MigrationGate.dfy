/** `python -m control_plane.db migrate --backup-first` (control_plane/db.py `main`, `migrate`,
    `pending_migrations`) with `create_pre_migrate_backup` and `_reusable_pre_migrate_backup` of
    control_plane/backup.py: no schema change without an exact restore point, and no heap of restore
    points from a container that keeps failing to boot. */
module MigrationGate {
  import opened Basics
  import opened BundleVolume
  import opened ArchiveCodec

  // `schema_migrations`: there is none, it reads, or it does not - and one that does not read says nothing
  // of what was applied.
  datatype Ledger = NoLedger | Applied(names: set<string>) | Damaged

  datatype Database = Database(contents: Bytes, ledger: Ledger)

  // One shipped script: what it makes of the contents, or a statement that fails.
  datatype Script = Script(name: string, effect: Bytes -> Option<Bytes>)

  // `<db>.pre-migrate-<revision>-<stamp>[-<suffix>].bak`, suffix 0 when there is none.
  datatype ArchiveName = ArchiveName(revision: string, stamp: int, suffix: nat)

  datatype Disk = Disk(database: Database, archives: map<ArchiveName, Bytes>)

  // What does not change between boots of one image under one key.
  datatype Deployment = Deployment(gcm: Gcm, key: Bytes, scripts: seq<Script>,
                                   image: Database -> Bytes, revision: set<string> -> string)

  // How publishing a new archive ends: durably, withdrawn again, or standing but not known to be
  // durable (`AmbiguousPublication`).
  datatype Publication = Durable | Withdrawn | Unsure

  // What one boot meets: SQLite's verdict, whether the comparison image can be written, the archives
  // that cannot be read, the clock, a fresh nonce, and how publishing an archive would end.
  datatype Boot = Boot(sound: bool, scratch: bool, unreadable: set<ArchiveName>, stamp: int, nonce: Bytes,
                       publication: Publication)

  function AppliedNames(l: Ledger): (names: set<string>) {
    if l.Applied? then l.names else {}
  }

  // `pending_migrations`, in the sorted order the scripts are listed in.
  function Pending(scripts: seq<Script>, applied: set<string>): (p: seq<Script>) {
    if scripts == [] then []
    else (if scripts[0].name in applied then [] else [scripts[0]]) + Pending(scripts[1..], applied)
  }

  ghost predicate Recorded(l: Ledger, name: string) {
    l.Applied? && name in l.names
  }

  // These positions of the list, in its order, are exactly those of the scripts not in the ledger yet.
  ghost predicate Selects(scripts: seq<Script>, l: Ledger, at: seq<nat>) {
    && (forall i, j | 0 <= i < j < |at| :: at[i] < at[j])
    && (forall i: nat :: i in at <==> i < |scripts| && !Recorded(l, scripts[i].name))
  }

  // What the scripts at these positions make of the contents, one after the other, as far as they go.
  ghost predicate Stages(scripts: seq<Script>, at: seq<nat>, contents: Bytes, stages: seq<Bytes>) {
    && 0 < |stages| <= |at| + 1 && stages[0] == contents
    && forall k | 0 <= k < |stages| - 1 ::
         at[k] < |scripts| && scripts[at[k]].effect(stages[k]) == Some(stages[k + 1])
  }

  // The next of them fails.
  ghost predicate Fails(scripts: seq<Script>, at: seq<nat>, stages: seq<Bytes>) {
    && 0 < |stages| <= |at| && at[|stages| - 1] < |scripts|
    && scripts[at[|stages| - 1]].effect(stages[|stages| - 1]) == None
  }

  lemma {:induction false} PendingSnoc(scripts: seq<Script>, last: Script, applied: set<string>)
    ensures Pending(scripts + [last], applied)
            == Pending(scripts, applied) + if last.name in applied then [] else [last]
  {
    if scripts == [] {
      assert scripts + [last] == [last];
    } else {
      assert (scripts + [last])[0] == scripts[0] && (scripts + [last])[1..] == scripts[1..] + [last];
      PendingSnoc(scripts[1..], last, applied);
    }
  }

  /** The pending scripts are those the ledger does not name, in the order of the list. */
  lemma {:induction false} PendingSelects(scripts: seq<Script>, l: Ledger) returns (at: seq<nat>)
    ensures Selects(scripts, l, at)
    ensures var pending := Pending(scripts, AppliedNames(l));
            |pending| == |at| && forall k | 0 <= k < |at| :: at[k] < |scripts| && pending[k] == scripts[at[k]]
  {
    at := [];
    if scripts != [] {
      var n := |scripts| - 1;
      var front := PendingSelects(scripts[..n], l);
      assert scripts == scripts[..n] + [scripts[n]];
      PendingSnoc(scripts[..n], scripts[n], AppliedNames(l));
      assert forall k | 0 <= k < |front| :: front[k] in front && front[k] < n;
      var recorded := Recorded(l, scripts[n].name);
      assert recorded <==> scripts[n].name in AppliedNames(l);
      at := front + if recorded then [] else [n];
      forall i: nat
        ensures i in at <==> i < |scripts| && !Recorded(l, scripts[i].name)
      {
        assert i < n ==> scripts[..n][i] == scripts[i];
        assert i in at <==> i in front || (i == n && !recorded);
      }
    }
  }

  // One stage more.
  lemma StagesSnoc(scripts: seq<Script>, at: seq<nat>, contents: Bytes, stages: seq<Bytes>, next: Bytes)
    requires Stages(scripts, at, contents, stages) && |stages| <= |at| && at[|stages| - 1] < |scripts|
    requires scripts[at[|stages| - 1]].effect(stages[|stages| - 1]) == Some(next)
    ensures Stages(scripts, at, contents, stages + [next])
  {
  }

  // What was recorded and what ran is all there is.
  lemma SelectedCover(scripts: seq<Script>, l: Ledger, at: seq<nat>, names: set<string>)
    requires Selects(scripts, l, at) && forall k | 0 <= k < |at| :: at[k] < |scripts| && scripts[at[k]].name in names
    requires forall name | Recorded(l, name) :: name in names
    ensures forall i | 0 <= i < |scripts| :: scripts[i].name in names
  {
    forall i | 0 <= i < |scripts|
      ensures scripts[i].name in names
    {
      assert !Recorded(l, scripts[i].name) ==> i in at;
    }
  }

  /** `migrate`: every script the ledger does not name, in the order of the list, each on what the one before
      it left, and every name recorded, in one transaction - or nothing at all. */
  method Migrate(database: Database, scripts: seq<Script>)
    returns (after: Database, ok: bool, ghost at: seq<nat>, ghost stages: seq<Bytes>)
    ensures !ok ==> after == database
    ensures database.ledger == Damaged ==> !ok
    ensures database.ledger != Damaged ==>
              && Selects(scripts, database.ledger, at) && Stages(scripts, at, database.contents, stages)
              && if ok then |stages| == |at| + 1 else Fails(scripts, at, stages)
    ensures ok ==> after.contents == stages[|at|] && (at == [] ==> after == database)
    ensures ok ==> forall i | 0 <= i < |scripts| :: Recorded(after.ledger, scripts[i].name)
    ensures ok ==>
              forall name ::
                Recorded(after.ledger, name)
                <==> Recorded(database.ledger, name) || exists k | 0 <= k < |at| :: scripts[at[k]].name == name
  {
    at, stages := [], [database.contents];
    if database.ledger == Damaged {
      return database, false, [], [];
    }
    at := PendingSelects(scripts, database.ledger);
    var pending := Pending(scripts, AppliedNames(database.ledger));
    if pending == [] {
      return database, true, at, stages;
    }
    var contents, names := database.contents, AppliedNames(database.ledger);
    for i := 0 to |pending|
      invariant |stages| == i + 1 && contents == stages[i] && Stages(scripts, at, database.contents, stages)
      invariant forall name :: name in names <==>
                  Recorded(database.ledger, name) || exists k | 0 <= k < i :: scripts[at[k]].name == name
    {
      var next := pending[i].effect(contents);
      if next == None {
        return database, false, at, stages;  // ROLLBACK
      }
      contents := next.value;
      StagesSnoc(scripts, at, database.contents, stages, contents);
      stages := stages + [contents];
      names := names + {pending[i].name};
    }
    after, ok := Database(contents, Applied(names)), true;
    SelectedCover(scripts, database.ledger, at, names);
  }

  // An archive of this revision that opens under the key and holds exactly this image.
  predicate RestorePoint(d: Deployment, disk: Disk, n: ArchiveName) {
    && disk.database.ledger != Damaged
    && n in disk.archives
    && n.revision == d.revision(AppliedNames(disk.database.ledger))
    && d.gcm.Authentic(d.key, disk.archives[n])
    && d.gcm.Plaintext(d.key, disk.archives[n]) == d.image(disk.database)
  }

  predicate HasRestorePoint(d: Deployment, disk: Disk) {
    exists n | n in disk.archives :: RestorePoint(d, disk, n)
  }

  /** `_reusable_pre_migrate_backup`: an existing archive is reused exactly when it can be read, opens
      under the key and holds the current image. Every candidate is asked, in whatever order the
      directory lists them. */
  method Reusable(d: Deployment, disk: Disk, boot: Boot, listing: seq<ArchiveName>) returns (found: Option<ArchiveName>)
    requires disk.database.ledger != Damaged
    requires forall n :: n in listing
               <==> n in disk.archives && n.revision == d.revision(AppliedNames(disk.database.ledger))
    ensures found.Some? ==> RestorePoint(d, disk, found.value)
    ensures found == None && boot.scratch ==> forall n | RestorePoint(d, disk, n) :: n in boot.unreadable
    ensures !boot.scratch ==> found == None
  {
    if !boot.scratch {
      return None;
    }
    var current := Sha256(d.image(disk.database));
    for i := 0 to |listing|
      invariant forall j | 0 <= j < i :: RestorePoint(d, disk, listing[j]) ==> listing[j] in boot.unreadable
    {
      var digest := AuthenticatedDigest(d.gcm, disk.archives[listing[i]], d.key, listing[i] !in boot.unreadable);
      if digest == Some(current) {
        return Some(listing[i]);
      }
    }
    found := None;
  }

  // The first of the ten names for this second that is free, or the last of them.
  function FreeSuffix(archives: map<ArchiveName, Bytes>, revision: string, stamp: int, k: nat): (suffix: nat)
    requires k <= 9
    ensures k <= suffix <= 9
    ensures forall j | k <= j < suffix :: ArchiveName(revision, stamp, j) in archives
    ensures suffix < 9 ==> ArchiveName(revision, stamp, suffix) !in archives
    decreases 9 - k
  {
    if k == 9 || ArchiveName(revision, stamp, k) !in archives then k
    else FreeSuffix(archives, revision, stamp, k + 1)
  }

  // What one boot may do to the disk.
  predicate BootStep(d: Deployment, before: Disk, boot: Boot, after: Disk, ok: bool) {
    // No archive is ever removed or rewritten, and at most one is added.
    && before.archives.Keys <= after.archives.Keys
    && (forall n | n in before.archives :: after.archives[n] == before.archives[n])
    && |after.archives| <= |before.archives| + 1
    // One that is added holds exactly the image the boot found.
    && (after.archives != before.archives ==> HasRestorePoint(d, Disk(before.database, after.archives)))
    // Never migrate without an exact restore point; never leave a partial migration.
    && (after.database != before.database ==> ok && HasRestorePoint(d, Disk(before.database, after.archives)))
    // A readable restore point is reused, as long as it can be compared.
    && (boot.scratch && (exists n | n in before.archives :: RestorePoint(d, before, n) && n !in boot.unreadable)
        ==> after.archives == before.archives)
  }

  // Nothing stands in the way of taking a restore point.
  predicate Unobstructed(d: Deployment, disk: Disk, boot: Boot) {
    && disk.database.ledger != Damaged && boot.sound && boot.publication == Durable && |d.key| == KEY_BYTES
    && exists k: nat | k <= 9 ::
         ArchiveName(d.revision(AppliedNames(disk.database.ledger)), boot.stamp, k) !in disk.archives
  }

  class ControlPlane {
    var disk: Disk

    constructor (disk: Disk)
      ensures this.disk == disk
    {
      this.disk := disk;
    }

    /** `create_pre_migrate_backup`, where migrations are pending. */
    method CreatePreMigrateBackup(d: Deployment, boot: Boot, listing: seq<ArchiveName>) returns (ok: bool)
      requires |boot.nonce| == NONCE_BYTES
      requires disk.database.ledger != Damaged
      requires forall n :: n in listing
                 <==> n in disk.archives && n.revision == d.revision(AppliedNames(disk.database.ledger))
      modifies this
      ensures BootStep(d, old(disk), boot, disk, ok)
      ensures disk.database == old(disk).database
      ensures ok ==> boot.sound && HasRestorePoint(d, disk)
      ensures Unobstructed(d, old(disk), boot) ==> ok
      // What is written is named after this second, under the first of its ten names that is free.
      ensures forall n | n in disk.archives && n !in old(disk).archives ::
                && n.stamp == boot.stamp && n.suffix <= 9
                && forall j | 0 <= j < n.suffix :: n.(suffix := j) in old(disk).archives
    {
      if !boot.sound {
        return false;
      }
      var found := Reusable(d, disk, boot, listing);
      if found.Some? {
        assert RestorePoint(d, disk, found.value);
        return true;
      }
      var revision := d.revision(AppliedNames(disk.database.ledger));
      var target := ArchiveName(revision, boot.stamp, FreeSuffix(disk.archives, revision, boot.stamp, 0));
      if target in disk.archives {
        return false;  // FileExistsError
      }
      var archive := EncryptImage(d.gcm, d.key, boot.nonce, d.image(disk.database));
      if archive == None || boot.publication == Withdrawn {
        return false;
      }
      d.gcm.DecodeOfEncode(d.key, boot.nonce, d.image(disk.database));
      disk := disk.(archives := disk.archives[target := archive.value]);
      assert RestorePoint(d, disk, target);
      ok := boot.publication == Durable;
    }

    /** `main` with `--backup-first`: back up, then migrate, failing closed. */
    method BackupFirst(d: Deployment, boot: Boot, listing: seq<ArchiveName>)
      returns (ok: bool, ghost at: seq<nat>, ghost stages: seq<Bytes>)
      requires |boot.nonce| == NONCE_BYTES
      requires disk.database.ledger != Damaged ==>
                 forall n :: n in listing
                   <==> n in disk.archives && n.revision == d.revision(AppliedNames(disk.database.ledger))
      modifies this
      ensures BootStep(d, old(disk), boot, disk, ok)
      // Success means every script is recorded, and those that were not have run.
      ensures ok ==> forall i | 0 <= i < |d.scripts| :: Recorded(disk.database.ledger, d.scripts[i].name)
      ensures ok ==> old(disk).database.ledger != Damaged && Selects(d.scripts, old(disk).database.ledger, at)
                     && Stages(d.scripts, at, old(disk).database.contents, stages)
                     && |stages| == |at| + 1 && disk.database.contents == stages[|at|]
      // With something to run, it succeeds only beside an exact restore point; with nothing, it changes nothing.
      ensures ok && at != [] ==> HasRestorePoint(d, Disk(old(disk).database, disk.archives))
      ensures ok && at == [] ==> disk == old(disk)
      // Unobstructed, it fails only where a script does.
      ensures Unobstructed(d, old(disk), boot) && !ok ==>
                && Selects(d.scripts, old(disk).database.ledger, at)
                && Stages(d.scripts, at, old(disk).database.contents, stages) && Fails(d.scripts, at, stages)
    {
      at, stages := [], [];
      if disk.database.ledger == Damaged {
        return false, at, stages;
      }
      ghost var first := PendingSelects(d.scripts, disk.database.ledger);
      if Pending(d.scripts, AppliedNames(disk.database.ledger)) != [] {
        ok := CreatePreMigrateBackup(d, boot, listing);
        if !ok {
          return;
        }
      }
      var after;
      after, ok, at, stages := Migrate(disk.database, d.scripts);
      assert first != [] ==> first[0] in first;
      assert at != [] ==> at[0] in at && at[0] in first;
      disk := disk.(database := after);
    }
  }

  // A run of boots: consecutive disks linked by boot steps.
  predicate Run(d: Deployment, disks: seq<Disk>, boots: seq<Boot>, oks: seq<bool>) {
    && |disks| == |boots| + 1 && |oks| == |boots|
    && forall i | 0 <= i < |boots| :: BootStep(d, disks[i], boots[i], disks[i + 1], oks[i])
  }

  /** Any number of consecutive failing boots writes at most one archive, as long as the archives can
      be read and the comparison image written. */
  lemma {:induction false} FailingBootsWriteOneArchive(d: Deployment, disks: seq<Disk>, boots: seq<Boot>,
                                                       oks: seq<bool>)
    requires Run(d, disks, boots, oks)
    requires forall i | 0 <= i < |boots| :: !oks[i] && boots[i].scratch && boots[i].unreadable == {}
    ensures disks[|boots|].database == disks[0].database
    ensures |disks[|boots|].archives| <= |disks[0].archives| + 1
    ensures disks[|boots|].archives != disks[0].archives ==> HasRestorePoint(d, disks[|boots|])
    ensures HasRestorePoint(d, disks[0]) ==> disks[|boots|].archives == disks[0].archives
  {
    if |boots| > 0 {
      var n := |boots| - 1;
      FailingBootsWriteOneArchive(d, disks[..n + 1], boots[..n], oks[..n]);
      assert disks[n + 1] == Disk(disks[n].database, disks[n + 1].archives);
      if HasRestorePoint(d, disks[n]) {
        assert disks[n + 1].archives == disks[n].archives;
      }
    }
  }

  /** Every schema change anywhere in a run leaves behind, for the rest of the run, an archive that
      decrypts to the exact image from before it. */
  lemma {:induction false} EveryMigrationStaysRestorable(d: Deployment, disks: seq<Disk>, boots: seq<Boot>,
                                                         oks: seq<bool>, i: nat, j: nat)
    requires Run(d, disks, boots, oks)
    requires i < j <= |boots| && disks[i + 1].database != disks[i].database
    ensures HasRestorePoint(d, Disk(disks[i].database, disks[j].archives))
    decreases j
  {
    if i + 1 < j {
      EveryMigrationStaysRestorable(d, disks, boots, oks, i, j - 1);
      var n :| n in disks[j - 1].archives && RestorePoint(d, Disk(disks[i].database, disks[j - 1].archives), n);
      assert BootStep(d, disks[j - 1], boots[j - 1], disks[j], oks[j - 1]);
      assert RestorePoint(d, Disk(disks[i].database, disks[j].archives), n);
    } else {
      assert BootStep(d, disks[i], boots[i], disks[j], oks[i]);
    }
  }
}
