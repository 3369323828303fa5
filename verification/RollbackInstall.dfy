/** `_undo` and `_install_rollback_locked` of control_plane/backup.py: a restored bundle takes the
    place of the live one, member by member, under a journal that is walked backwards on failure. */
module RollbackInstall {
  import opened Basics
  import opened BundleVolume

  // ---- what a journal means ----

  function Apply(f: Files, m: Move): (g: Files) {
    if m.source !in f then f
    else if m.sourceRemoved then Moved(f, m.source, m.destination)
    else Linked(f, m.source, m.destination)
  }

  // The volume a journal leads to.
  function Replay(f: Files, moves: seq<Move>): (g: Files) {
    if moves == [] then f else Apply(Replay(f, moves[..|moves| - 1]), moves[|moves| - 1])
  }

  // Every volume that stood while the journal was being written.
  function Crossed(f: Files, moves: seq<Move>): (s: set<Files>) {
    if moves == [] then {f}
    else
      var before := Replay(f, moves[..|moves| - 1]);
      var last := moves[|moves| - 1];
      Crossed(f, moves[..|moves| - 1])
      + {Apply(before, last.(sourceRemoved := false)), Apply(before, last)}
  }

  predicate ValidMove(f: Files, m: Move) {
    && m.source != m.destination
    && m.source in f && m.destination !in f
    && (m.published == Unreadable || m.published == IdentityOf(f, m.source))
    && (m.sourceRemoved ==> m.published != Unreadable)
  }

  // Each move was made from where the previous ones led, and only the last may be half made.
  predicate WellJournalled(f: Files, moves: seq<Move>) {
    moves == [] ||
    var front := moves[..|moves| - 1];
    && WellJournalled(f, front)
    && (forall m | m in front :: m.sourceRemoved)
    && ValidMove(Replay(f, front), moves[|moves| - 1])
  }

  lemma {:induction false} PrefixWellJournalled(f: Files, moves: seq<Move>, i: nat)
    requires WellJournalled(f, moves) && i <= |moves|
    ensures WellJournalled(f, moves[..i])
    ensures Crossed(f, moves[..i]) <= Crossed(f, moves)
    ensures Replay(f, moves[..i]) in Crossed(f, moves)
  {
    if i < |moves| {
      var front := moves[..|moves| - 1];
      PrefixWellJournalled(f, front, i);
      assert front[..i] == moves[..i];
    } else {
      assert moves[..i] == moves;
    }
  }

  /** No entry is created or lost anywhere along a journal. */
  lemma {:induction false} JournalConserves(f: Files, moves: seq<Move>)
    requires WellJournalled(f, moves)
    ensures Replay(f, moves).Values == f.Values
    ensures forall s | s in Crossed(f, moves) :: s.Values == f.Values
  {
    if moves != [] {
      var front, last := moves[..|moves| - 1], moves[|moves| - 1];
      JournalConserves(f, front);
      MoveConserves(Replay(f, front), last.source, last.destination);
    }
  }

  // Every move is complete, under a known identity.
  predicate Settled(moves: seq<Move>) {
    forall m | m in moves :: m.sourceRemoved && m.published != Unreadable
  }

  /** Extending the journal by what a claim recorded. */
  lemma ExtendJournal(f: Files, before: seq<Move>, after: seq<Move>, source: Name, destination: Name, removed: bool)
    requires WellJournalled(f, before) && Settled(before)
    requires source != destination
    requires source in Replay(f, before) && destination !in Replay(f, before)
    requires Records(Replay(f, before), before, after, source, destination, removed)
    ensures WellJournalled(f, after)
    ensures Replay(f, after)
            == if removed then Moved(Replay(f, before), source, destination)
               else Linked(Replay(f, before), source, destination)
    ensures Crossed(f, after)
            == Crossed(f, before) + {Linked(Replay(f, before), source, destination), Replay(f, after)}
    ensures removed ==> Settled(after)
  {
  }

  /** Taking the newest move back restores the volume it was made from. */
  lemma ReverseMove(f: Files, m: Move)
    requires ValidMove(f, m)
    ensures !m.sourceRemoved ==> Apply(f, m) - {m.destination} == f
    ensures m.sourceRemoved ==>
              && m.destination in Apply(f, m) && m.source !in Apply(f, m)
              && Moved(Apply(f, m), m.destination, m.source) == f
              && Linked(Apply(f, m), m.destination, m.source) == Apply(f, m.(sourceRemoved := false))
    ensures IdentityOf(Apply(f, m), m.destination) == IdentityOf(f, m.source)
  {
  }

  // What the i-th reversal starts from.
  lemma StepBack(original: Files, moved: seq<Move>, i: nat)
    requires WellJournalled(original, moved) && i < |moved|
    ensures ValidMove(Replay(original, moved[..i]), moved[i])
    ensures Replay(original, moved[..i + 1]) == Apply(Replay(original, moved[..i]), moved[i])
    ensures i < |moved| - 1 ==> moved[i].sourceRemoved
    ensures Apply(Replay(original, moved[..i]), moved[i].(sourceRemoved := false)) in Crossed(original, moved)
    ensures Apply(Replay(original, moved[..i]), moved[i]) in Crossed(original, moved)
    ensures Replay(original, moved[..i]) in Crossed(original, moved)
  {
    PrefixWellJournalled(original, moved, i + 1);
    PrefixWellJournalled(original, moved, i);
    assert moved[..i + 1][..i] == moved[..i];
    if i < |moved| - 1 {
      assert moved[i] in moved[..|moved| - 1];
    }
  }

  // One reversal: is this move certainly no longer in effect?
  method ReverseOne(volume: Volume, move: Move) returns (reversed: bool)
    requires move.source != move.destination
    // A half-made move left both names on one entry.
    requires !move.sourceRemoved ==> Lookup(volume.files, move.source) == Lookup(volume.files, move.destination)
    modifies volume
    ensures volume.files.Values == old(volume.files).Values
    ensures |old(volume.history)| <= |volume.history|
    ensures volume.history[..|old(volume.history)|] == old(volume.history)
    ensures forall k | |old(volume.history)| <= k < |volume.history| ::
              volume.history[k].Values == old(volume.files).Values
    ensures reversed && move.destination in old(volume.files) ==>
              && move.published == IdentityOf(old(volume.files), move.destination)
              && if move.sourceRemoved
                 then move.source !in old(volume.files)
                      && volume.files == Moved(old(volume.files), move.destination, move.source)
                 else volume.files == old(volume.files) - {move.destination}
    ensures reversed && move.destination in old(volume.files) ==>
              forall k | |old(volume.history)| <= k < |volume.history| ::
                || volume.history[k] == old(volume.files) || volume.history[k] == volume.files
                || (move.sourceRemoved && volume.history[k] == Linked(old(volume.files), move.destination, move.source))
    ensures move.destination !in old(volume.files) ==>
              volume.files == old(volume.files) && volume.history == old(volume.history)
    // A member missing from both of its names is never reported as put back.
    ensures reversed ==> move.source in volume.files || !move.sourceRemoved
    ensures old(volume.faults) <= volume.faults && old(volume.unread) <= volume.unread
    ensures volume.faults == old(volume.faults) && move.destination in old(volume.files)
            && move.published == IdentityOf(old(volume.files), move.destination)
            && (move.sourceRemoved ==> move.source !in old(volume.files))
            ==> reversed
  {
    if move.destination !in volume.files {
      return !(move.sourceRemoved && move.source !in volume.files);
    }
    var current := volume.ReadIdentity(move.destination);
    if move.published == Unreadable || current != move.published {
      return false;
    }
    if !move.sourceRemoved {
      ghost var before := volume.files;
      var ok := volume.Unlink(move.destination);
      if !ok {
        return false;
      }
      assert Linked(volume.files, move.source, move.destination) == before;
      MoveConserves(volume.files, move.source, move.destination);
      reversed := volume.FsyncDirectory();
    } else if move.source in volume.files {
      return false;
    } else {
      MoveConserves(volume.files, move.destination, move.source);
      reversed := volume.Rename(move.destination, move.source, null);
      if reversed {
        reversed := volume.FsyncDirectory();
      }
    }
  }

  // One turn: from where the first i + 1 moves led back to where the first i did.
  method ReverseAt(volume: Volume, moved: seq<Move>, i: nat, ghost original: Files) returns (reversed: bool)
    requires WellJournalled(original, moved) && i < |moved|
    requires volume.files == Replay(original, moved[..i + 1]) || i < |moved| - 1
    modifies volume
    ensures volume.files.Values == old(volume.files).Values
    ensures |old(volume.history)| <= |volume.history|
    ensures volume.history[..|old(volume.history)|] == old(volume.history)
    ensures forall k | |old(volume.history)| <= k < |volume.history| ::
              volume.history[k].Values == old(volume.files).Values
    ensures old(volume.files) == Replay(original, moved[..i + 1]) && reversed ==>
              && volume.files == Replay(original, moved[..i])
              && forall k | |old(volume.history)| <= k < |volume.history| ::
                   volume.history[k] in Crossed(original, moved)
    ensures old(volume.faults) <= volume.faults && old(volume.unread) <= volume.unread
    ensures volume.faults == old(volume.faults) && moved[i].published != Unreadable
            && old(volume.files) == Replay(original, moved[..i + 1])
            ==> reversed
  {
    StepBack(original, moved, i);
    ReverseMove(Replay(original, moved[..i]), moved[i]);
    reversed := ReverseOne(volume, moved[i]);
  }

  /** `_undo`: the journal backwards. What could not be taken back is returned.

      An empty answer means the original volume stands again and no step on the way passed through
      a volume the forward direction had not. Whatever the answer, no entry was created or lost. */
  method Undo(volume: Volume, moved: seq<Move>, ghost original: Files) returns (unreversed: seq<Move>)
    requires WellJournalled(original, moved) && volume.files == Replay(original, moved)
    modifies volume
    ensures unreversed == [] ==> volume.files == original
    ensures volume.files.Values == original.Values
    ensures |old(volume.history)| <= |volume.history|
    ensures volume.history[..|old(volume.history)|] == old(volume.history)
    ensures forall k | |old(volume.history)| <= k < |volume.history| ::
              && volume.history[k].Values == original.Values
              && (unreversed == [] ==> volume.history[k] in Crossed(original, moved))
    ensures forall m | m in unreversed :: m in moved
    // It fails only for a system call that failed, or for a move whose identity was never read.
    ensures old(volume.faults) <= volume.faults && old(volume.unread) <= volume.unread
    ensures volume.faults == old(volume.faults) && (forall m | m in moved :: m.published != Unreadable) ==>
              unreversed == []
  {
    unreversed := [];
    JournalConserves(original, moved);
    assert moved[..|moved|] == moved;
    for i := |moved| downto 0
      invariant i == |moved| ==> unreversed == []
      invariant unreversed == [] ==> volume.files == Replay(original, moved[..i])
      invariant volume.files.Values == original.Values
      invariant |old(volume.history)| <= |volume.history|
      invariant volume.history[..|old(volume.history)|] == old(volume.history)
      invariant forall k | |old(volume.history)| <= k < |volume.history| ::
                  && volume.history[k].Values == original.Values
                  && (unreversed == [] ==> volume.history[k] in Crossed(original, moved))
      invariant forall m | m in unreversed :: m in moved
      invariant old(volume.faults) <= volume.faults && old(volume.unread) <= volume.unread
      invariant volume.faults == old(volume.faults) && (forall m | m in moved :: m.published != Unreadable) ==>
                  unreversed == []
    {
      var reversed := ReverseAt(volume, moved, i, original);
      if !reversed {
        unreversed := unreversed + [moved[i]];
      }
    }
    assert moved[..0] == [];
  }

  // ---- the install ----

  // `_bundle` order, and the order in which a candidate is published: its marker first, its
  // database last.
  const BUNDLE_ORDER: seq<Member> := [Db, Wal, Shm, Pause]
  const INSTALL_ORDER: seq<Member> := [Pause, Wal, Shm, Db]

  // All four members at a place, as one generation.
  predicate SameGeneration(f: Files, place: Place, g: Files, other: Place) {
    forall m: Member :: Lookup(f, Name(place, m)) == Lookup(g, Name(other, m))
  }

  /** A database at the canonical name stands with exactly its own generation's sidecars and marker:
      all four canonical members are the superseded bundle's, or all four are the candidate's. */
  predicate Coherent(original: Files, f: Files) {
    Name(Canonical, Db) in f ==>
      SameGeneration(f, Canonical, original, Canonical) || SameGeneration(f, Canonical, original, Staged)
  }

  // The volume a completed install leaves.
  ghost predicate Installed(original: Files, f: Files) {
    && SameGeneration(f, Canonical, original, Staged)
    && SameGeneration(f, Aside, original, Canonical)
    && (forall m: Member :: Name(Staged, m) !in f)
    && (forall k :: Lookup(f, Scratch(k)) == Lookup(original, Scratch(k)))
  }

  // The journal explains the volume, and every volume on the way was coherent.
  ghost predicate Tracked(original: Files, volume: Volume, journal: Journal, start: nat)
    reads volume, journal
  {
    && WellJournalled(original, journal.moves)
    && volume.files == Replay(original, journal.moves)
    && (forall s | s in Crossed(original, journal.moves) :: Coherent(original, s))
    && start <= |volume.history|
    && (forall k | start <= k < |volume.history| :: volume.history[k] in Crossed(original, journal.moves))
  }

  // After the first i superseded members have been moved aside.
  ghost predicate MovedAside(original: Files, f: Files, i: nat)
    requires i <= 4
  {
    && (forall j | 0 <= j < i :: Name(Canonical, BUNDLE_ORDER[j]) !in f
                               && Lookup(f, Name(Aside, BUNDLE_ORDER[j]))
                                  == Lookup(original, Name(Canonical, BUNDLE_ORDER[j])))
    && (forall j | i <= j < 4 :: Name(Aside, BUNDLE_ORDER[j]) !in f
                               && Lookup(f, Name(Canonical, BUNDLE_ORDER[j]))
                                  == Lookup(original, Name(Canonical, BUNDLE_ORDER[j])))
    && SameGeneration(f, Staged, original, Staged)
    && (forall k :: Lookup(f, Scratch(k)) == Lookup(original, Scratch(k)))
  }

  // After the first i candidate members have been published.
  ghost predicate Published(original: Files, f: Files, i: nat)
    requires i <= 4
  {
    && SameGeneration(f, Aside, original, Canonical)
    && (forall j | 0 <= j < i :: Name(Staged, INSTALL_ORDER[j]) !in f
                               && Lookup(f, Name(Canonical, INSTALL_ORDER[j]))
                                  == Lookup(original, Name(Staged, INSTALL_ORDER[j])))
    && (forall j | i <= j < 4 :: Name(Canonical, INSTALL_ORDER[j]) !in f
                               && Lookup(f, Name(Staged, INSTALL_ORDER[j]))
                                  == Lookup(original, Name(Staged, INSTALL_ORDER[j])))
    && (forall k :: Lookup(f, Scratch(k)) == Lookup(original, Scratch(k)))
  }

  lemma EveryMemberHasARank(m: Member)
    ensures m in {BUNDLE_ORDER[0], BUNDLE_ORDER[1], BUNDLE_ORDER[2], BUNDLE_ORDER[3]}
    ensures m in {INSTALL_ORDER[0], INSTALL_ORDER[1], INSTALL_ORDER[2], INSTALL_ORDER[3]}
  {
  }

  /** Linking or moving one superseded member keeps the volume coherent: the database goes first. */
  lemma MoveAsideStep(original: Files, f: Files, i: nat)
    requires i < 4 && MovedAside(original, f, i)
    ensures Name(Canonical, BUNDLE_ORDER[i]) !in f ==> MovedAside(original, f, i + 1)
    ensures Name(Canonical, BUNDLE_ORDER[i]) in f ==>
              var s, d := Name(Canonical, BUNDLE_ORDER[i]), Name(Aside, BUNDLE_ORDER[i]);
              && d !in f
              && MovedAside(original, Moved(f, s, d), i + 1)
              && Coherent(original, Linked(f, s, d))
              && Coherent(original, Moved(f, s, d))
  {
    if Name(Canonical, BUNDLE_ORDER[i]) in f {
      var g := Linked(f, Name(Canonical, BUNDLE_ORDER[i]), Name(Aside, BUNDLE_ORDER[i]));
      if i == 0 {
        forall m: Member
          ensures Lookup(g, Name(Canonical, m)) == Lookup(original, Name(Canonical, m))
        {
          EveryMemberHasARank(m);
        }
      } else {
        assert Name(Canonical, BUNDLE_ORDER[0]) !in g;
      }
    }
  }

  /** Publishing one candidate member keeps the volume coherent: the database comes last. */
  lemma PublishStepCoherent(original: Files, f: Files, i: nat)
    requires i < 4 && Published(original, f, i)
    ensures Name(Staged, INSTALL_ORDER[i]) !in f ==> Published(original, f, i + 1)
    ensures Name(Staged, INSTALL_ORDER[i]) in f ==>
              var s, d := Name(Staged, INSTALL_ORDER[i]), Name(Canonical, INSTALL_ORDER[i]);
              && d !in f
              && Published(original, Moved(f, s, d), i + 1)
              && Coherent(original, Linked(f, s, d))
              && Coherent(original, Moved(f, s, d))
  {
    if Name(Staged, INSTALL_ORDER[i]) in f {
      var s, d := Name(Staged, INSTALL_ORDER[i]), Name(Canonical, INSTALL_ORDER[i]);
      var g := Linked(f, s, d);
      if i == 3 {
        forall m: Member
          ensures Lookup(g, Name(Canonical, m)) == Lookup(original, Name(Staged, m))
        {
          EveryMemberHasARank(m);
        }
        forall m: Member
          ensures Lookup(Moved(f, s, d), Name(Canonical, m)) == Lookup(original, Name(Staged, m))
        {
          assert Lookup(g, Name(Canonical, m)) == Lookup(original, Name(Staged, m));
        }
      } else {
        assert Name(Canonical, INSTALL_ORDER[3]) !in g;
      }
    }
  }

  // `candidate.get(source, (None, None))`.
  function Validated(candidate: map<Member, Identity>, m: Member): (id: Identity) {
    if m in candidate then candidate[m] else Absent
  }

  // What stands at a place is what passed validation, member by member, and nothing else stands there.
  ghost predicate Matches(candidate: map<Member, Identity>, f: Files, place: Place) {
    forall m: Member ::
      if m in candidate then Stands(f, Name(place, m), candidate[m]) else Name(place, m) !in f
  }

  // Every move of the journal has an identity, unless a read failed since.
  twostate predicate Explained(volume: Volume, journal: Journal)
    reads volume, journal
  {
    && old(volume.faults) <= volume.faults && old(volume.unread) <= volume.unread
    && (volume.unread == old(volume.unread) ==> forall m | m in journal.moves :: m.published != Unreadable)
  }

  // `_claim` or `_rename_or_exdev`, under the journal.
  method ClaimOrRename(volume: Volume, journal: Journal, source: Name, destination: Name, sync: bool) returns (ok: bool)
    requires source != destination && source in volume.files && destination !in volume.files
    modifies volume, journal
    ensures ok <==> volume.faults == old(volume.faults)
    ensures ok ==> volume.files == Moved(old(volume.files), source, destination)
    ensures ok ==> |journal.moves| > |old(journal.moves)| && journal.moves[|old(journal.moves)|].sourceRemoved
    ensures volume.Passed({old(volume.files), volume.files}
                          + if volume.files != old(volume.files) then {Linked(old(volume.files), source, destination)}
                            else {})
    ensures volume.Journalled(journal, source, destination)
    ensures old(volume.faults) <= volume.faults && old(volume.unread) <= volume.unread
    ensures |journal.moves| > |old(journal.moves)| ==>
              (journal.moves[|old(journal.moves)|].published == Unreadable ==> volume.unread > old(volume.unread))
  {
    if sync {
      ok := volume.Rename(source, destination, journal);
    } else {
      var r, _ := volume.Claim(source, destination, journal);
      ok := r == Done;
    }
  }

  // One such move: the journal keeps explaining the volume.
  method TrackedMove(volume: Volume, journal: Journal, source: Name, destination: Name, sync: bool,
                     ghost original: Files, ghost start: nat)
    returns (ok: bool)
    requires source != destination && source in volume.files && destination !in volume.files
    requires Tracked(original, volume, journal, start) && Settled(journal.moves)
    requires Coherent(original, Linked(volume.files, source, destination))
    requires Coherent(original, Moved(volume.files, source, destination))
    modifies volume, journal
    ensures Tracked(original, volume, journal, start)
    ensures ok ==> volume.files == Moved(old(volume.files), source, destination)
    ensures ok ==> Settled(journal.moves)
    ensures Explained(volume, journal)
    ensures ok <==> volume.faults == old(volume.faults)
  {
    ghost var moves := journal.moves;
    ok := ClaimOrRename(volume, journal, source, destination, sync);
    if |journal.moves| > |moves| {
      ExtendJournal(original, moves, journal.moves, source, destination, journal.moves[|moves|].sourceRemoved);
    }
  }

  method MoveAside(volume: Volume, journal: Journal, ghost original: Files, ghost start: nat) returns (ok: bool)
    requires Tracked(original, volume, journal, start) && journal.moves == []
    requires forall m: Member :: Name(Aside, m) !in original
    modifies volume, journal
    ensures Tracked(original, volume, journal, start)
    ensures ok ==> Published(original, volume.files, 0) && Settled(journal.moves)
    ensures Explained(volume, journal)
    ensures ok <==> volume.faults == old(volume.faults)
  {
    for i := 0 to 4
      invariant volume.faults == old(volume.faults) && Explained(volume, journal)
      invariant Tracked(original, volume, journal, start)
      invariant MovedAside(original, volume.files, i)
      invariant Settled(journal.moves)
    {
      var source, destination := Name(Canonical, BUNDLE_ORDER[i]), Name(Aside, BUNDLE_ORDER[i]);
      MoveAsideStep(original, volume.files, i);
      if source in volume.files {
        ok := TrackedMove(volume, journal, source, destination, false, original, start);
        if !ok {
          return;
        }
      }
    }
    forall m: Member
      ensures Lookup(volume.files, Name(Aside, m)) == Lookup(original, Name(Canonical, m))
      ensures Name(Canonical, m) !in volume.files
    {
      EveryMemberHasARank(m);
    }
    ok := true;
  }

  // One turn of the publication loop: the member is what passed validation, or nothing further is installed.
  method PublishMember(volume: Volume, journal: Journal, candidate: map<Member, Identity>, i: nat,
                       ghost original: Files, ghost start: nat)
    returns (ok: bool)
    requires i < 4 && Published(original, volume.files, i)
    requires Tracked(original, volume, journal, start) && Settled(journal.moves)
    requires Unreadable !in candidate.Values
    modifies volume, journal
    ensures Tracked(original, volume, journal, start)
    ensures Explained(volume, journal)
    ensures ok ==> Published(original, volume.files, i + 1) && Settled(journal.moves)
    ensures ok ==> IdentityOf(original, Name(Staged, INSTALL_ORDER[i])) == Validated(candidate, INSTALL_ORDER[i])
    ensures ok ==> volume.faults == old(volume.faults)
    ensures Matches(candidate, original, Staged) && volume.faults == old(volume.faults) ==> ok
  {
    var member := INSTALL_ORDER[i];
    var source, destination := Name(Staged, member), Name(Canonical, member);
    PublishStepCoherent(original, volume.files, i);
    assert Lookup(volume.files, source) == Lookup(original, source);
    var current := volume.ReadIdentity(source);
    if current != Validated(candidate, member) {
      return false;
    }
    ok := true;
    if Validated(candidate, member) != Absent {
      ok := TrackedMove(volume, journal, source, destination, true, original, start);
    }
  }

  method PublishCandidate(volume: Volume, journal: Journal, candidate: map<Member, Identity>,
                          ghost original: Files, ghost start: nat)
    returns (ok: bool)
    requires Tracked(original, volume, journal, start)
    requires Published(original, volume.files, 0) && Settled(journal.moves)
    requires Unreadable !in candidate.Values
    modifies volume, journal
    ensures Tracked(original, volume, journal, start)
    ensures Explained(volume, journal)
    ensures ok ==> volume.faults == old(volume.faults)
    ensures Matches(candidate, original, Staged) && volume.faults == old(volume.faults) ==> ok
    ensures ok ==> Published(original, volume.files, 4)
    // Nothing is installed that is not what passed validation.
    ensures ok ==> Matches(candidate, original, Staged)
  {
    for i := 0 to 4
      invariant volume.faults == old(volume.faults) && Explained(volume, journal)
      invariant Tracked(original, volume, journal, start)
      invariant Published(original, volume.files, i)
      invariant Settled(journal.moves)
      invariant forall j | 0 <= j < i ::
                  IdentityOf(original, Name(Staged, INSTALL_ORDER[j])) == Validated(candidate, INSTALL_ORDER[j])
    {
      ok := PublishMember(volume, journal, candidate, i, original, start);
      if !ok {
        return;
      }
    }
    forall m: Member
      ensures IdentityOf(original, Name(Staged, m)) == Validated(candidate, m)
    {
      EveryMemberHasARank(m);
    }
    ok := true;
  }

  /** `_install_failsafe_pause`: pause whatever stands at the target, without touching anything that
      already does. */
  method InstallFailsafePause(volume: Volume) returns (paused: bool)
    modifies volume
    ensures paused ==> Name(Canonical, Pause) in volume.files
    ensures forall n | n in old(volume.files) :: Lookup(volume.files, n) == Lookup(old(volume.files), n)
    ensures forall n | n in volume.files && n !in old(volume.files) :: n == Name(Canonical, Pause)
    ensures old(volume.files).Values <= volume.files.Values
    ensures volume.history == old(volume.history) || volume.history == old(volume.history) + [volume.files]
    ensures old(volume.faults) <= volume.faults && volume.unread == old(volume.unread)
  {
    if Name(Canonical, Pause) in volume.files {
      return true;
    }
    var created: bool := *;
    if !created {
      return false;
    }
    ghost var before := volume.files;
    paused := volume.Write(Name(Canonical, Pause), []);
    forall e | e in before.Values
      ensures e in volume.files.Values
    {
      var n :| n in before && before[n] == e;
      assert n in volume.files && volume.files[n] == e;
    }
    if paused {
      paused := volume.FsyncDirectory();
    }
  }

  datatype Outcome =
    | InstallDone
    | InstallFailed
    | IncompleteReversal(unreversed: seq<Move>, paused: bool)

  // What a failed install does: undo it, or pause what cannot be undone.
  method TakeBack(volume: Volume, journal: Journal, ghost original: Files, ghost start: nat) returns (outcome: Outcome)
    requires Tracked(original, volume, journal, start)
    modifies volume
    ensures outcome != InstallDone
    ensures outcome == InstallFailed ==> volume.files == original
    ensures outcome.IncompleteReversal? ==>
              outcome.unreversed != [] && (outcome.paused ==> Name(Canonical, Pause) in volume.files)
    ensures |old(volume.history)| <= |volume.history|
    ensures volume.history[..|old(volume.history)|] == old(volume.history)
    ensures forall k | start <= k < |volume.history| :: original.Values <= volume.history[k].Values
    ensures original.Values <= volume.files.Values
    ensures !outcome.IncompleteReversal? ==>
              forall k | start <= k < |volume.history| ::
                Coherent(original, volume.history[k]) && volume.history[k].Values == original.Values
    ensures old(volume.faults) <= volume.faults && old(volume.unread) <= volume.unread
    ensures volume.faults == old(volume.faults) && (forall m | m in journal.moves :: m.published != Unreadable)
            ==> outcome == InstallFailed
  {
    JournalConserves(original, journal.moves);
    var unreversed := Undo(volume, journal.moves, original);
    if unreversed == [] {
      return InstallFailed;
    }
    var paused := InstallFailsafePause(volume);
    outcome := IncompleteReversal(unreversed, paused);
  }

  lemma InstallComplete(original: Files, f: Files)
    requires Published(original, f, 4)
    ensures Installed(original, f)
  {
    forall m: Member
      ensures Lookup(f, Name(Canonical, m)) == Lookup(original, Name(Staged, m))
      ensures Name(Staged, m) !in f
    {
      EveryMemberHasARank(m);
    }
  }

  predicate SameDigest(a: Identity, b: Identity) {
    a.Seen? && b.Seen? && a.digest == b.digest
  }

  // A file of this content stands at the name, whatever file it is.
  ghost predicate HasContent(f: Files, n: Name, id: Identity) {
    id.Seen? ==> n in f && f[n].data == id.digest.preimage
  }

  // Every landed member holds the validated content.
  ghost predicate Landed(f: Files, candidate: map<Member, Identity>) {
    forall m | m in candidate :: HasContent(f, Name(Canonical, m), candidate[m])
  }

  // Every superseded member stands aside with the content it had.
  ghost predicate KeptAside(f: Files, supersededBefore: seq<Identity>)
    requires |supersededBefore| == 4
  {
    forall i | 0 <= i < 4 :: HasContent(f, Name(Aside, BUNDLE_ORDER[i]), supersededBefore[i])
  }

  /** The closing checks, on digests: they pass exactly when both hold and every read succeeds. */
  method Verify(volume: Volume, candidate: map<Member, Identity>, supersededBefore: seq<Identity>) returns (ok: bool)
    requires |supersededBefore| == 4
    requires Unreadable !in candidate.Values && Unreadable !in supersededBefore
    modifies volume`faults, volume`unread
    ensures old(volume.faults) <= volume.faults && old(volume.unread) <= volume.unread
    ensures ok <==> volume.faults == old(volume.faults) && Landed(volume.files, candidate)
                    && KeptAside(volume.files, supersededBefore)
  {
    for i := 0 to 4
      invariant volume.faults == old(volume.faults) && volume.unread == old(volume.unread)
      invariant forall j | 0 <= j < i && INSTALL_ORDER[j] in candidate ::
                  HasContent(volume.files, Name(Canonical, INSTALL_ORDER[j]), candidate[INSTALL_ORDER[j]])
    {
      var expected := Validated(candidate, INSTALL_ORDER[i]);
      if expected != Absent {
        var landed := volume.ReadIdentity(Name(Canonical, INSTALL_ORDER[i]));
        if !SameDigest(landed, expected) {
          return false;
        }
      }
    }
    for i := 0 to 4
      invariant volume.faults == old(volume.faults) && volume.unread == old(volume.unread)
      invariant forall j | 0 <= j < i :: HasContent(volume.files, Name(Aside, BUNDLE_ORDER[j]), supersededBefore[j])
    {
      if supersededBefore[i] != Absent {
        var landed := volume.ReadIdentity(Name(Aside, BUNDLE_ORDER[i]));
        if !SameDigest(landed, supersededBefore[i]) {
          return false;
        }
      }
    }
    forall m | m in candidate
      ensures HasContent(volume.files, Name(Canonical, m), candidate[m])
    {
      EveryMemberHasARank(m);
    }
    ok := true;
  }

  // Everything inside the one failure boundary.
  method Forward(volume: Volume, journal: Journal, candidate: map<Member, Identity>, supersededBefore: seq<Identity>)
    returns (ok: bool)
    requires journal.moves == [] && |supersededBefore| == 4 && Unreadable !in supersededBefore
    requires forall m: Member :: Name(Aside, m) !in volume.files
    requires Unreadable !in candidate.Values
    modifies volume, journal
    ensures Tracked(old(volume.files), volume, journal, |old(volume.history)|)
    ensures Explained(volume, journal)
    ensures ok ==> volume.faults == old(volume.faults)
    ensures Matches(candidate, old(volume.files), Staged) && volume.faults == old(volume.faults)
            && (forall i | 0 <= i < 4 ::
                  Stands(old(volume.files), Name(Canonical, BUNDLE_ORDER[i]), supersededBefore[i]))
            ==> ok
    ensures ok ==>
              && Installed(old(volume.files), volume.files)
              && Matches(candidate, volume.files, Canonical)
  {
    ghost var original, start := volume.files, |volume.history|;
    ok := MoveAside(volume, journal, original, start);
    if ok {
      ok := PublishCandidate(volume, journal, candidate, original, start);
    }
    if ok {
      InstallComplete(original, volume.files);
      forall m: Member
        ensures Lookup(volume.files, Name(Canonical, m)) == Lookup(original, Name(Staged, m))
      {
      }
      assert Matches(candidate, volume.files, Canonical);
      ok := Verify(volume, candidate, supersededBefore);
    }
  }

  method ReadBundle(volume: Volume) returns (readable: bool, identities: seq<Identity>)
    modifies volume`faults, volume`unread
    ensures old(volume.faults) <= volume.faults && old(volume.unread) <= volume.unread
    ensures readable <==> volume.faults == old(volume.faults)
    ensures !readable ==> volume.unread > old(volume.unread)
    ensures readable ==> volume.unread == old(volume.unread) && Unreadable !in identities
    ensures readable ==>
              && |identities| == 4
              && forall i | 0 <= i < 4 :: identities[i] == IdentityOf(volume.files, Name(Canonical, BUNDLE_ORDER[i]))
  {
    identities := [];
    for i := 0 to 4
      invariant volume.faults == old(volume.faults) && volume.unread == old(volume.unread) && Unreadable !in identities
      invariant |identities| == i
      invariant forall j | 0 <= j < i :: identities[j] == IdentityOf(volume.files, Name(Canonical, BUNDLE_ORDER[j]))
    {
      var id := volume.ReadIdentity(Name(Canonical, BUNDLE_ORDER[i]));
      if id == Unreadable {
        return false, identities;
      }
      identities := identities + [id];
    }
    readable := true;
  }

  /** `_install_rollback_locked`, moving by link, with every placement of I/O failures.

      It ends in exactly one of three ways. Whenever it does not report an incomplete reversal, every
      volume it ever passed through - every possible crash point - was coherent. */
  method Install(volume: Volume, candidate: map<Member, Identity>) returns (outcome: Outcome, ghost turned: nat)
    requires forall m: Member :: Name(Aside, m) !in volume.files
    requires Unreadable !in candidate.Values
    modifies volume
    ensures outcome == InstallDone ==>
              && Installed(old(volume.files), volume.files)
              && Matches(candidate, volume.files, Canonical)
    ensures outcome == InstallFailed ==> volume.files == old(volume.files)
    ensures outcome.IncompleteReversal? ==>
              && outcome.unreversed != []
              && (outcome.paused ==> Name(Canonical, Pause) in volume.files)
    // However it ends, every crash point of the forward direction - up to where it turned back, if it did -
    // is coherent.
    ensures |old(volume.history)| <= turned <= |volume.history|
    ensures outcome == InstallDone ==> turned == |volume.history|
    ensures forall k | |old(volume.history)| <= k < turned ::
              Coherent(old(volume.files), volume.history[k]) && volume.history[k].Values == old(volume.files).Values
    // No crash point, on any path and however it ends, has lost an entry of either bundle.
    ensures forall k | |old(volume.history)| <= k < |volume.history| ::
              old(volume.files).Values <= volume.history[k].Values
    ensures old(volume.files).Values <= volume.files.Values
    // Only failed system calls stop a validated candidate, and one of them alone never leaves the
    // bundle mixed, unless it was the reading of an identity.
    ensures Matches(candidate, old(volume.files), Staged) && volume.faults == old(volume.faults) ==>
              outcome == InstallDone
    ensures Matches(candidate, old(volume.files), Staged) && volume.faults == old(volume.faults) + 1
            && volume.unread == old(volume.unread)
            ==> outcome == InstallFailed
    ensures !outcome.IncompleteReversal? ==>
              forall k | |old(volume.history)| <= k < |volume.history| ::
                && Coherent(old(volume.files), volume.history[k])
                && volume.history[k].Values == old(volume.files).Values
  {
    ghost var original := volume.files;
    // Nothing is moved before everything live has been read.
    var readable, supersededBefore := ReadBundle(volume);
    turned := |volume.history|;
    if !readable {
      return InstallFailed, turned;
    }
    var journal := new Journal();
    var ok := Forward(volume, journal, candidate, supersededBefore);
    JournalConserves(original, journal.moves);
    turned := |volume.history|;
    if ok {
      return InstallDone, turned;
    }
    outcome := TakeBack(volume, journal, original, |old(volume.history)|);
  }
}
