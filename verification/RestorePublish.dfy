/** `restore_backup`, `_restore_locked` and `_withdraw_pause` of control_plane/backup.py: an archive
    becomes a database at a free name, and its worker pause is visible before it is and for as long
    as it is. */
module RestorePublish {
  import opened Basics
  import opened BundleVolume
  import opened ArchiveCodec

  const DATABASE := Name(Canonical, Db)
  const PAUSE := Name(Canonical, Pause)
  const TEMPORARY := Scratch(0)
  const MARKER := Scratch(1)

  // `_require_free_bundle`.
  predicate FreeBundle(f: Files) {
    forall m: Member :: Name(Canonical, m) !in f
  }

  /** Visible implies paused: a database at the destination stands beside its pause marker, beside no
      sidecar of another generation, and holds exactly `image`. */
  ghost predicate Guarded(f: Files, image: Bytes) {
    && Name(Canonical, Wal) !in f && Name(Canonical, Shm) !in f
    && (DATABASE in f ==> PAUSE in f && f[DATABASE].data == image)
  }

  // Nothing but the destination's database, its marker and the two temporaries is ever touched.
  ghost predicate OthersUntouched(f: Files, original: Files) {
    forall n | n !in {DATABASE, PAUSE, TEMPORARY, MARKER} :: Lookup(f, n) == Lookup(original, n)
  }

  // What every step of a restore keeps.
  ghost predicate Safe(f: Files, original: Files, image: Bytes) {
    && Guarded(f, image)
    && OthersUntouched(f, original)
  }

  twostate predicate SafeSince(volume: Volume, original: Files, image: Bytes)
    reads volume
  {
    && |old(volume.history)| <= |volume.history|
    && volume.history[..|old(volume.history)|] == old(volume.history)
    && (forall k | |old(volume.history)| <= k < |volume.history| :: Safe(volume.history[k], original, image))
    && Safe(volume.files, original, image)
    && old(volume.faults) <= volume.faults && old(volume.unread) <= volume.unread
  }

  // The names a step leaves alone, one by one.
  lemma SameNames(f: Files, g: Files)
    ensures forall n :: Lookup(f, n) == Lookup(g, n) ==> (n in f <==> n in g) && (n in f ==> f[n] == g[n])
  {
  }

  lemma PauseStepSafe(f: Files, g: Files, original: Files, image: Bytes)
    requires Safe(f, original, image) && DATABASE !in f
    requires PublishStep(f, g, MARKER, PAUSE)
    ensures Safe(g, original, image) && DATABASE !in g
    ensures Lookup(g, TEMPORARY) == Lookup(f, TEMPORARY)
  {
    assert Lookup(g, DATABASE) == None && Lookup(g, Name(Canonical, Wal)) == None
           && Lookup(g, Name(Canonical, Shm)) == None;
  }

  lemma DatabaseStepSafe(f: Files, g: Files, original: Files, image: Bytes)
    requires Safe(f, original, image) && DATABASE !in f && PAUSE in f
    requires TEMPORARY in f && f[TEMPORARY].data == image
    requires PublishStep(f, g, TEMPORARY, DATABASE)
    ensures Safe(g, original, image) && PAUSE in g && g[PAUSE] == f[PAUSE]
    ensures Lookup(g, MARKER) == Lookup(f, MARKER)
  {
    assert Lookup(g, PAUSE) == Lookup(f, PAUSE);
    assert Lookup(g, Name(Canonical, Wal)) == None && Lookup(g, Name(Canonical, Shm)) == None;
    assert Lookup(g, DATABASE) in {None, Lookup(f, TEMPORARY)};
  }

  lemma FreeByParts(f: Files)
    requires DATABASE !in f && PAUSE !in f && Name(Canonical, Wal) !in f && Name(Canonical, Shm) !in f
    ensures FreeBundle(f)
  {
    forall m: Member
      ensures Name(Canonical, m) !in f
    {
      match m { case Db => case Wal => case Shm => case Pause => }
    }
  }

  datatype Restore = Restored | RestoreFailed

  /** `_withdraw_pause`: removes the marker of this call and nobody else's, and nothing at all once a database
      is visible. */
  method WithdrawPause(volume: Volume, owned: Identity) returns (ok: bool)
    modifies volume
    ensures volume.files == old(volume.files)
            || (DATABASE !in old(volume.files) && volume.files == old(volume.files) - {PAUSE}
                && IdentityOf(old(volume.files), PAUSE) == owned)
    ensures volume.history == old(volume.history) || volume.history == old(volume.history) + [volume.files]
    ensures old(volume.faults) <= volume.faults && old(volume.unread) <= volume.unread
    ensures volume.faults == old(volume.faults) && DATABASE !in old(volume.files)
            && owned == IdentityOf(old(volume.files), PAUSE)
            ==> PAUSE !in volume.files
    ensures ok || volume.faults > old(volume.faults)
  {
    if owned == Absent || owned == Unreadable {
      return true;
    }
    var current := volume.ReadIdentity(PAUSE);
    if current != owned || DATABASE in volume.files {
      return true;
    }
    ok := volume.Unlink(PAUSE);
  }

  /** The pause first, and durably. On failure the destination still has no database. */
  method PublishPause(volume: Volume, text: Bytes, ghost original: Files, ghost image: Bytes)
    returns (r: Result, owned: Identity)
    requires FreeBundle(volume.files) && OthersUntouched(volume.files, original)
    requires TEMPORARY in volume.files && MARKER !in volume.files
    modifies volume
    ensures SafeSince(volume, original, image)
    ensures Lookup(volume.files, TEMPORARY) == Lookup(old(volume.files), TEMPORARY)
    ensures DATABASE !in volume.files
    ensures r == Done ==> PAUSE in volume.files && MARKER !in volume.files && owned == IdentityOf(volume.files, PAUSE)
    ensures volume.faults == old(volume.faults) ==> r == Done
    ensures r != Done && volume.faults <= old(volume.faults) + 1 && volume.unread == old(volume.unread) ==>
              FreeBundle(volume.files)
  {
    owned := Absent;
    var written := volume.Write(MARKER, text);
    r := OsError;
    ghost var marked := volume.files;
    if written {
      var synced := volume.FsyncDirectory();
      if synced {
        r, owned := volume.Publish(MARKER, PAUSE);
        forall g | PublishStep(marked, g, MARKER, PAUSE)
          ensures Safe(g, original, image) && DATABASE !in g && Lookup(g, TEMPORARY) == Lookup(marked, TEMPORARY)
        {
          PauseStepSafe(marked, g, original, image);
        }
        if r != Done {
          owned := Absent;
        }
      }
    }
    assert SafeSince(volume, original, image) && DATABASE !in volume.files;
    if r == OsError {
      // `owned` is unknown on every failure here, so no marker is taken back by name.
      var _ := volume.Unlink(MARKER);
    }
    if PAUSE !in volume.files {
      FreeByParts(volume.files);
    }
  }

  /** The database, once its marker stands. An ambiguous publication leaves the marker in place. */
  method PublishDatabase(volume: Volume, owned: Identity, ghost original: Files, ghost image: Bytes)
    returns (r: Restore)
    requires Safe(volume.files, original, image) && DATABASE !in volume.files
    requires PAUSE in volume.files && owned == IdentityOf(volume.files, PAUSE)
    requires TEMPORARY in volume.files && volume.files[TEMPORARY].data == image
    modifies volume
    ensures SafeSince(volume, original, image)
    ensures Lookup(volume.files, MARKER) == Lookup(old(volume.files), MARKER)
    ensures r == Restored ==> DATABASE in volume.files && TEMPORARY !in volume.files
                              && volume.files[DATABASE] == old(volume.files)[TEMPORARY]
    ensures volume.faults == old(volume.faults) ==> r == Restored
    ensures r != Restored && volume.faults <= old(volume.faults) + 1 && volume.unread == old(volume.unread) ==>
              FreeBundle(volume.files)
  {
    ghost var before := volume.files;
    var published, _ := volume.Publish(TEMPORARY, DATABASE);
    forall g | PublishStep(before, g, TEMPORARY, DATABASE)
      ensures Safe(g, original, image) && PAUSE in g && g[PAUSE] == before[PAUSE]
              && Lookup(g, MARKER) == Lookup(before, MARKER)
    {
      DatabaseStepSafe(before, g, original, image);
    }
    if published == Done {
      return Restored;
    }
    if published != Ambiguous {
      var _ := WithdrawPause(volume, owned);
    }
    if PAUSE !in volume.files && DATABASE !in volume.files {
      FreeByParts(volume.files);
    }
    r := RestoreFailed;
  }

  lemma TemporaryIsInvisible(original: Files, f: Files)
    requires OnlyDiffersAt(original, f, TEMPORARY)
    ensures FreeBundle(f) <==> FreeBundle(original)
    ensures FreeBundle(original) ==> forall image :: Safe(f, original, image)
    ensures MARKER in f <==> MARKER in original
    ensures forall m: Member :: Lookup(f, Name(Canonical, m)) == Lookup(original, Name(Canonical, m))
  {
    SameNames(f, original);
    assert Lookup(f, MARKER) == Lookup(original, MARKER);
    forall m: Member
      ensures Name(Canonical, m) in f <==> Name(Canonical, m) in original
    {
      assert Lookup(f, Name(Canonical, m)) == Lookup(original, Name(Canonical, m));
    }
  }

  // `finally: temporary.unlink(missing_ok=True)`.
  method DropTemporary(volume: Volume, ghost original: Files)
    modifies volume
    ensures volume.files == old(volume.files) || volume.files == old(volume.files) - {TEMPORARY}
    ensures volume.history == old(volume.history) || volume.history == old(volume.history) + [volume.files]
    ensures old(volume.faults) <= volume.faults && old(volume.unread) <= volume.unread
  {
    var _ := volume.Unlink(TEMPORARY);
  }

  method PublishRestored(volume: Volume, text: Bytes, ghost original: Files, ghost image: Bytes) returns (r: Restore)
    requires FreeBundle(volume.files) && OthersUntouched(volume.files, original)
    requires TEMPORARY in volume.files && volume.files[TEMPORARY].data == image && MARKER !in volume.files
    modifies volume
    ensures SafeSince(volume, original, image)
    ensures r == Restored ==>
              && DATABASE in volume.files && PAUSE in volume.files && volume.files[DATABASE].data == image
              && TEMPORARY !in volume.files && MARKER !in volume.files
    ensures volume.faults == old(volume.faults) ==> r == Restored
    ensures r != Restored && volume.faults <= old(volume.faults) + 1 && volume.unread == old(volume.unread) ==>
              FreeBundle(volume.files)
  {
    var paused, owned := PublishPause(volume, text, original, image);
    r := RestoreFailed;
    if paused == Done {
      r := PublishDatabase(volume, owned, original, image);
      SameNames(volume.files, volume.files);
    }
    if r == RestoreFailed {
      DropTemporary(volume, original);
    }
  }

  /** `_restore_locked` up to the moment migrations may run, over every placement of I/O failures.
      `sound` and `ours` are the verdicts of SQLite's integrity checks and of
      `require_control_plane_image` on the decrypted file. */
  method RestoreLocked(volume: Volume, gcm: Gcm, archive: Bytes, key: Bytes, text: Bytes, sound: bool, ours: bool)
    returns (r: Restore)
    requires TEMPORARY !in volume.files && MARKER !in volume.files
    modifies volume
    // A crash at any step, and any way of failing, leaves a visible database paused and holding the
    // authenticated plaintext.
    ensures FreeBundle(old(volume.files)) && Restorable(gcm, key, archive) ==>
              SafeSince(volume, old(volume.files), gcm.Plaintext(key, archive))
    // Whatever database is ever visible at a name that was free is the sealed archive's own image.
    ensures DATABASE !in old(volume.files) ==>
              forall k | |old(volume.history)| <= k < |volume.history| && DATABASE in volume.history[k] ::
                && Sealed(gcm, key, archive) && |archive| > 34 && sound && ours
                && Holds(gcm, key, archive, volume.history[k][DATABASE].data)
    // An archive that is not sealed under the key or is empty, whose image is refused, or which meets a
    // name of its bundle, never becomes visible.
    ensures (exists m: Member :: Name(Canonical, m) in old(volume.files))
            || !Sealed(gcm, key, archive) || |archive| == 34 || !sound || !ours ==>
              && r == RestoreFailed
              && (forall k, m: Member | |old(volume.history)| <= k < |volume.history| ::
                    Lookup(volume.history[k], Name(Canonical, m)) == Lookup(old(volume.files), Name(Canonical, m)))
              && (forall m: Member ::
                    Lookup(volume.files, Name(Canonical, m)) == Lookup(old(volume.files), Name(Canonical, m)))
    ensures |old(volume.history)| <= |volume.history| && volume.history[..|old(volume.history)|] == old(volume.history)
    ensures r == Restored ==>
              && DATABASE in volume.files && PAUSE in volume.files
              && Holds(gcm, key, archive, volume.files[DATABASE].data)
              && TEMPORARY !in volume.files && MARKER !in volume.files
    // Only a failed system call stops the restore of a sound archive into a free bundle.
    ensures (forall m: Member :: Name(Canonical, m) !in old(volume.files))
            && Sealed(gcm, key, archive) && |archive| > 34 && sound && ours && volume.faults == old(volume.faults)
            ==> r == Restored
    // One failed system call, other than a read, leaves the destination free for the retry.
    ensures FreeBundle(old(volume.files)) && r == RestoreFailed
            && volume.faults <= old(volume.faults) + 1 && volume.unread == old(volume.unread)
            ==> FreeBundle(volume.files)
  {
    OpensIffSealed(gcm, key, archive);
    ghost var original := volume.files;
    var decrypted := DecryptTo(volume, TEMPORARY, gcm, archive, key);
    forall f | OnlyDiffersAt(original, f, TEMPORARY)
      ensures FreeBundle(f) <==> FreeBundle(original)
      ensures FreeBundle(original) ==> forall image :: Safe(f, original, image)
      ensures MARKER !in f
      ensures forall m: Member :: Lookup(f, Name(Canonical, m)) == Lookup(original, Name(Canonical, m))
    {
      TemporaryIsInvisible(original, f);
    }
    if decrypted && sound && ours && FreeBundle(volume.files) {
      r := PublishRestored(volume, text, original, gcm.Plaintext(key, archive));
    } else {
      DropTemporary(volume, original);
      r := RestoreFailed;
    }
  }

  /** `restore_backup`: refuse an occupied bundle, restore, then migrate if asked. Migrations rewrite
      the database and may create its sidecars; the marker is rewritten, never removed. */
  method RestoreBackup(volume: Volume, gcm: Gcm, archive: Bytes, key: Bytes, text: Bytes, sound: bool, ours: bool,
                       applyMigrations: bool, migrated: Bytes)
    returns (r: Restore)
    requires TEMPORARY !in volume.files && MARKER !in volume.files
    modifies volume
    ensures (exists m: Member :: Name(Canonical, m) in old(volume.files)) ==>
              r == RestoreFailed && volume.files == old(volume.files)
    ensures FreeBundle(old(volume.files)) ==>
              && |old(volume.history)| <= |volume.history|
              && forall k | |old(volume.history)| <= k < |volume.history| ::
                   DATABASE in volume.history[k] ==> PAUSE in volume.history[k]
    ensures FreeBundle(old(volume.files)) && DATABASE in volume.files ==> PAUSE in volume.files
    ensures r == Restored && !applyMigrations ==>
              && Sealed(gcm, key, archive) && |archive| > 34 && sound && ours
              && DATABASE in volume.files && Holds(gcm, key, archive, volume.files[DATABASE].data)
  {
    if !FreeBundle(volume.files) {
      return RestoreFailed;
    }
    r := RestoreLocked(volume, gcm, archive, key, text, sound, ours);
    if r == Restored {
      var ok := true;
      if applyMigrations {
        ok := volume.Write(DATABASE, migrated);
        if ok {
          ok := volume.Write(Name(Canonical, Wal), []);
        }
      }
      if ok {
        ok := volume.Write(PAUSE, text);
      }
      r := if ok then Restored else RestoreFailed;
    }
  }
}
