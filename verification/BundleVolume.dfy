/** The file-system primitives under every rollback install and restore: a volume is a map from
    names to directory entries, and every system call either takes effect or fails without effect.

    `Claim`, `Withdraw` and `Publish` are control_plane/backup.py's `_claim`, `_withdraw` and
    `_publish`. A ghost history records the volume after each primitive effect, so that a statement
    about "every crash point" is a statement about every element of the history. */
module BundleVolume {
  import opened Basics

  // A SHA-256 digest, idealised as collision free: it is determined by, and determines, its preimage.
  datatype Digest = Sha256(preimage: Bytes)

  // The members that travel together with one database (`_bundle`).
  datatype Member = Db | Wal | Shm | Pause

  // Where a bundle stands. `_refuse_overlap` refuses aliases, so the three bundles are disjoint.
  datatype Place = Canonical | Aside | Staged

  datatype Name = Name(place: Place, member: Member) | Scratch(id: nat)

  datatype Entry = Entry(inode: nat, data: Bytes)

  type Files = map<Name, Entry>

  // What a name is, as `_identity_or_unreadable` answers it.
  datatype Identity = Absent | Unreadable | Seen(inode: nat, digest: Digest)

  function Lookup(f: Files, n: Name): (e: Option<Entry>) {
    if n in f then Some(f[n]) else None
  }

  // This identity is what stands at the name: nothing, or a file by its inode and its content.
  ghost predicate Stands(f: Files, n: Name, id: Identity) {
    && (id == Absent <==> n !in f)
    && (n in f ==> id.Seen? && id.inode == f[n].inode && id.digest.preimage == f[n].data)
  }

  function EntryIdentity(e: Entry): (id: Identity) {
    Seen(e.inode, Sha256(e.data))
  }

  function IdentityOf(f: Files, n: Name): (id: Identity) {
    if n in f then EntryIdentity(f[n]) else Absent
  }

  lemma OnlyItsIdentityStands(f: Files, n: Name)
    ensures forall id :: Stands(f, n, id) <==> id == IdentityOf(f, n)
  {
  }

  // One member's journey (`_Move`): where it came from, where it was published, the identity it
  // had (`Unreadable` when it could not be established), and whether the source name is gone.
  datatype Move = Move(source: Name, destination: Name, published: Identity, sourceRemoved: bool)

  // `after` is `before` with this one move appended: its identity was read off the source, and a
  // move whose identity could not be established never removed its source.
  predicate Records(f: Files, before: seq<Move>, after: seq<Move>, source: Name, destination: Name, removed: bool) {
    && |after| == |before| + 1
    && after[..|before|] == before
    && var m := after[|before|];
    && m.source == source && m.destination == destination && m.sourceRemoved == removed
    && (m.published == Unreadable || m.published == IdentityOf(f, source))
    && (removed ==> m.published != Unreadable)
  }

  class Journal {
    var moves: seq<Move>

    constructor ()
      ensures moves == []
    {
      moves := [];
    }
  }

  // The two primitive effects of a move.
  function Linked(f: Files, source: Name, destination: Name): (g: Files)
    requires source in f
  {
    f[destination := f[source]]
  }

  function Moved(f: Files, source: Name, destination: Name): (g: Files)
    requires source in f
  {
    Linked(f, source, destination) - {source}
  }

  /** A move neither creates nor destroys an entry, at either of its two steps. */
  lemma MoveConserves(f: Files, source: Name, destination: Name)
    requires source in f && destination !in f
    ensures Linked(f, source, destination).Values == f.Values
    ensures Moved(f, source, destination).Values == f.Values
  {
    var l, m := Linked(f, source, destination), Moved(f, source, destination);
    assert destination in l && destination in m && source in f;
    forall e | e in f.Values
      ensures e in l.Values && e in m.Values
    {
      var n :| n in f && f[n] == e;
      assert n in l && l[n] == e;
      if n != source {
        assert m[n] == e;
      } else {
        assert m[destination] == e;
      }
    }
  }

  // How a call that can fail came back.
  datatype Result = Done | OsError | Ambiguous

  // What a publication may leave, at any of its steps and on any failure: the destination is as it
  // was, or holds exactly the temporary's entry; nothing but the two names is touched.
  ghost predicate PublishStep(before: Files, after: Files, temporary: Name, destination: Name) {
    && (forall n | n !in {temporary, destination} :: Lookup(after, n) == Lookup(before, n))
    && (Lookup(after, temporary) in {None, Lookup(before, temporary)})
    && (|| Lookup(after, destination) == Lookup(before, destination)
        || (Lookup(before, destination) == None && Lookup(after, destination) == Lookup(before, temporary)))
  }

  class Volume {
    var files: Files
    ghost var history: seq<Files>

    // How many system calls have failed, and how many of those were reads of an identity.
    ghost var faults: nat

    ghost var unread: nat

    constructor (initial: Files)
      ensures files == initial && history == [initial]
    {
      files := initial;
      history := [initial];
      faults, unread := 0, 0;
    }

    // The states passed through since `since`, each one of `allowed`.
    twostate predicate Passed(allowed: set<Files>)
      reads this
    {
      && |old(history)| <= |history|
      && history[..|old(history)|] == old(history)
      && forall k | |old(history)| <= k < |history| :: history[k] in allowed
    }

    // ---- system calls: each may fail, and then has no effect ----

    /** `os.link`: refuses to replace anything. */
    method Link(source: Name, destination: Name) returns (ok: bool)
      modifies this
      ensures ok ==> source in old(files) && destination !in old(files)
                     && files == Linked(old(files), source, destination)
      ensures !ok ==> files == old(files)
      ensures history == old(history) + if ok then [files] else []
      ensures unread == old(unread) && old(faults) <= faults <= old(faults) + if ok then 0 else 1
      ensures faults == old(faults) && source in old(files) && destination !in old(files) ==> ok
    {
      var fault: bool := *;
      ok := !fault && source in files && destination !in files;
      if ok {
        files := Linked(files, source, destination);
        history := history + [files];
      } else if fault {
        faults := faults + 1;
      }
    }

    /** `Path.unlink(missing_ok=True)`. */
    method Unlink(name: Name) returns (ok: bool)
      modifies this
      ensures ok ==> files == old(files) - {name}
      ensures !ok ==> files == old(files)
      ensures history == old(history) + if ok then [files] else []
      ensures unread == old(unread) && faults == old(faults) + if ok then 0 else 1
    {
      var fault: bool := *;
      ok := !fault;
      if ok {
        files := files - {name};
        history := history + [files];
      } else {
        faults := faults + 1;
      }
    }

    /** Creating or rewriting a file this process owns: `open(.., O_CREAT)` and `write`. On failure
        the name may still exist, holding anything. */
    method Write(name: Name, data: Bytes) returns (ok: bool)
      modifies this
      ensures exists e: Entry :: files == old(files)[name := e] && (ok ==> e.data == data)
      ensures history == old(history) + [files]
      ensures unread == old(unread) && faults == old(faults) + if ok then 0 else 1
    {
      var fault: bool, inode: nat, partial: Bytes := *, *, *;
      ok := !fault;
      var e := Entry(if name in files then files[name].inode else inode, if ok then data else partial);
      files := files[name := e];
      history := history + [files];
      if fault {
        faults := faults + 1;
      }
    }

    /** `_identity_or_unreadable`: a present member may fail to read; an absent one never does. */
    method ReadIdentity(name: Name) returns (id: Identity)
      modifies this`faults, this`unread
      ensures if faults == old(faults) then id == IdentityOf(files, name) && unread == old(unread)
              else name in files && id == Unreadable && faults == old(faults) + 1 && unread == old(unread) + 1
    {
      var fault: bool := *;
      if fault && name in files {
        faults, unread := faults + 1, unread + 1;
        id := Unreadable;
      } else {
        id := IdentityOf(files, name);
      }
    }

    method FsyncDirectory() returns (ok: bool)
      modifies this`faults
      ensures unread == old(unread) && faults == old(faults) + if ok then 0 else 1
    {
      ok := *;
      if !ok {
        faults := faults + 1;
      }
    }

    // The journal and the volume agree on how far one move went: not at all, linked, or complete.
    twostate predicate Journalled(journal: Journal, source: Name, destination: Name)
      reads this, journal
    {
      if |journal.moves| <= |old(journal.moves)| then
        journal.moves == old(journal.moves) && files == old(files) && history == old(history)
      else
        && source in old(files) && destination !in old(files)
        && var removed := journal.moves[|old(journal.moves)|].sourceRemoved;
        && Records(old(files), old(journal.moves), journal.moves, source, destination, removed)
        && files == (if removed then Moved(old(files), source, destination)
                     else Linked(old(files), source, destination))
        && history == old(history) + [Linked(old(files), source, destination)]
                      + if removed then [Moved(old(files), source, destination)] else []
    }

    // ---- the move protocol ----

    /** Take a published name away, only while it still holds what was published, and make the
        absence durable. */
    method Withdraw(destination: Name, published: Identity) returns (r: Result)
      modifies this
      ensures files == old(files) || (destination in old(files) && files == old(files) - {destination}
                                      && IdentityOf(old(files), destination) == published)
      ensures Passed({files})
      // A published name survives a completed withdrawal only where it could not be read back.
      ensures published == Unreadable ==> r == Ambiguous
      ensures old(faults) <= faults && old(unread) <= unread
      ensures faults == old(faults) && published != Unreadable ==>
                && r == Done
                && (IdentityOf(old(files), destination) == published ==> files == old(files) - {destination})
    {
      if published == Unreadable {
        return Ambiguous;
      }
      var current := ReadIdentity(destination);
      if current != published {
        return Done;
      }
      var ok := Unlink(destination);
      if !ok {
        return OsError;
      }
      var synced := FsyncDirectory();
      return if synced then Done else Ambiguous;
    }

    /** `source` goes to `destination`, which has to be free. With a journal the move is recorded as soon as
        the link stands; without one a failure takes it back.

        Completed: the entry has moved. Failed: the volume is as it was, or both names stand, and
        which of the two is in the journal. */
    method Claim(source: Name, destination: Name, journal: Journal?) returns (r: Result, published: Identity)
      requires source != destination
      modifies this, if journal == null then {} else {journal}
      ensures r == Done ==>
                && source in old(files) && destination !in old(files)
                && files == Moved(old(files), source, destination)
                && published == IdentityOf(old(files), source)
      ensures r != Done ==>
                || files == old(files)
                || (source in old(files) && destination !in old(files)
                    && files == Linked(old(files), source, destination))
      ensures Passed({old(files), files}
                     + if source in old(files) && destination !in old(files) && (journal == null || files != old(files))
                       then {Linked(old(files), source, destination)} else {})
      ensures journal != null ==> Journalled(journal, source, destination)
      ensures journal != null ==> (r == Done <==> |journal.moves| > |old(journal.moves)|
                                                  && journal.moves[|old(journal.moves)|].sourceRemoved)
      ensures journal != null ==> r != Ambiguous
      ensures old(faults) <= faults && old(unread) <= unread
      ensures faults == old(faults) && source in old(files) && destination !in old(files) ==> r == Done
      ensures r == Done ==> faults == old(faults)
      // One failed system call, other than a read, is undone on the spot where no journal will do it.
      ensures r != Done && journal == null && faults <= old(faults) + 1 && unread == old(unread)
              ==> files == old(files) && r == OsError
      ensures published == Unreadable ==> unread > old(unread)
      ensures journal != null && |journal.moves| > |old(journal.moves)| ==>
                journal.moves[|old(journal.moves)|].published == published
    {
      published := ReadIdentity(source);
      var linked := Link(source, destination);
      if !linked {
        return OsError, published;
      }
      assert files[destination] == old(files)[source];
      if journal != null {
        journal.moves := journal.moves + [Move(source, destination, published, false)];
      }
      // Only a source that still reads as what was published may be removed. An identity that was
      // never established equals nothing, including itself.
      var current := ReadIdentity(source);
      var removed := false;
      if current == published && published != Unreadable {
        removed := Unlink(source);
      }
      if !removed {
        if journal != null {
          return OsError, published;
        }
        r := Withdraw(destination, published);
        if r != Ambiguous {
          r := OsError;
        }
        assert files == old(files) || files == Linked(old(files), source, destination);
        return;
      }
      if journal != null {
        journal.moves := journal.moves[..|journal.moves| - 1] + [Move(source, destination, published, true)];
      }
      r := Done;
    }

    /** `_rename_or_exdev` on one file system: a claim, then the directory made durable. */
    method Rename(source: Name, destination: Name, journal: Journal?) returns (ok: bool)
      requires source != destination
      modifies this, if journal == null then {} else {journal}
      ensures ok ==> source in old(files) && destination !in old(files)
                     && files == Moved(old(files), source, destination)
      ensures files == old(files)
              || (source in old(files) && destination !in old(files)
                  && files in {Linked(old(files), source, destination), Moved(old(files), source, destination)})
      ensures Passed({old(files), files}
                     + if source in old(files) && destination !in old(files) && (journal == null || files != old(files))
                       then {Linked(old(files), source, destination)} else {})
      ensures journal != null ==> Journalled(journal, source, destination)
      ensures journal != null && ok ==> |journal.moves| > |old(journal.moves)|
                                        && journal.moves[|old(journal.moves)|].sourceRemoved
      ensures old(faults) <= faults && old(unread) <= unread
      ensures faults == old(faults) && source in old(files) && destination !in old(files) ==> ok
      ensures ok ==> faults == old(faults)
      ensures journal != null && |journal.moves| > |old(journal.moves)| ==>
                (journal.moves[|old(journal.moves)|].published == Unreadable ==> unread > old(unread))
    {
      var r, p := Claim(source, destination, journal);
      if r != Done {
        assert source in old(files) && destination !in old(files) ==>
            source in Linked(old(files), source, destination);
        return false;
      }
      ok := FsyncDirectory();
    }

    /** Rename into place and make the directory entry durable; a publication whose directory will
        not sync is withdrawn again. */
    method Publish(temporary: Name, destination: Name) returns (r: Result, published: Identity)
      requires temporary != destination
      modifies this
      ensures r == Done ==>
                && temporary in old(files) && destination !in old(files)
                && files == Moved(old(files), temporary, destination)
                && published == IdentityOf(old(files), temporary)
      ensures forall n | n !in {temporary, destination} :: Lookup(files, n) == Lookup(old(files), n)
      ensures forall k | |old(history)| <= k < |history| ::
                PublishStep(old(files), history[k], temporary, destination)
      ensures |old(history)| <= |history| && history[..|old(history)|] == old(history)
      ensures PublishStep(old(files), files, temporary, destination)
      ensures old(faults) <= faults && old(unread) <= unread
      ensures faults == old(faults) && temporary in old(files) && destination !in old(files) ==> r == Done
      ensures r != Done && faults <= old(faults) + 1 && unread == old(unread) && destination !in old(files) ==>
                r == OsError && destination !in files
    {
      r, published := Claim(temporary, destination, null);
      if r != Done {
        return;
      }
      var synced := FsyncDirectory();
      if !synced {
        r := Withdraw(destination, published);
        if r != Ambiguous {
          r := OsError;
        }
      }
    }
  }
}
