/** `DeletionService` of control_plane/privacy/delete.py: erasure that is retried against providers which
    may refuse, answer late or not at all, until every target has proven itself absent. */
module Erasure {
  import opened Basics
  import Jobs = ProviderJobs

  // What a provider's `deprovision` or the runtime's `delete` answers; Raises is any exception.
  datatype Reply = Pending | Ready | Failed | Absent | Unknown | Raises

  // A pass may fail to decrypt a resource, before it calls anyone, or to commit what it was told.
  datatype Fate = Finishes | CannotRead | CannotWrite

  // Everything one pass over a household meets.
  datatype Round = Round(runtime: Reply, providers: nat -> Reply, unresolvedJobs: bool, fate: Fate, at: real)

  datatype Household = Household(runtimeRef: Option<string>, runtimeDeleted: bool,
                                 resources: map<nat, Jobs.ResourceStatus>, deleting: bool, updatedAt: real)

  datatype Target = Runtime | Provider(resource: nat)

  datatype Outcome = NotFound | Raised | CompletelyErased | OutcomeUnknown | Partial

  function Heard(reply: Reply): (r: Reply) {
    if reply == Raises then Unknown else reply
  }

  function RuntimeState(h: Household, r: Round): (state: Reply) {
    if h.runtimeDeleted || h.runtimeRef.None? then Absent else Heard(r.runtime)
  }

  function ResourceState(h: Household, r: Round, id: nat): (state: Reply)
    requires id in h.resources
  {
    if h.resources[id] == Jobs.Deleted then Absent else Heard(r.providers(id))
  }

  function Durable(state: Reply): (status: Jobs.ResourceStatus) {
    if state == Absent then Jobs.Deleted else if state == Unknown then Jobs.ResourceUnknown else Jobs.Deleting
  }

  predicate AllAbsent(h: Household, r: Round) {
    && RuntimeState(h, r) == Absent
    && (forall id | id in h.resources :: ResourceState(h, r, id) == Absent)
    && !r.unresolvedJobs
  }

  // The runtime's proof is committed on its own, before any provider is called.
  function WithRuntimeProof(h: Household, r: Round): (h': Household) {
    if !h.runtimeDeleted && h.runtimeRef.Some? && RuntimeState(h, r) == Absent
    then h.(runtimeDeleted := true, updatedAt := r.at) else h
  }

  predicate AnyUnknown(h: Household, r: Round) {
    || r.unresolvedJobs || RuntimeState(h, r) == Unknown
    || exists k | k in h.resources :: ResourceState(h, r, k) == Unknown
  }

  function Answer(h: Household, r: Round): (outcome: Outcome) {
    if r.fate != Finishes then Raised
    else if AllAbsent(h, r) then CompletelyErased
    else if AnyUnknown(h, r) then OutcomeUnknown else Partial
  }

  // What a pass leaves of the household: None when it is erased.
  function After(h: Household, r: Round): (h': Option<Household>) {
    match r.fate
    case CannotRead => Some(h)
    case CannotWrite => Some(WithRuntimeProof(h, r))
    case Finishes =>
      if AllAbsent(h, r) then None else
      Some(WithRuntimeProof(h, r).(resources := map id | id in h.resources :: Durable(ResourceState(h, r, id)),
                                   updatedAt := r.at))
  }

  // The targets a pass still has to call.
  function Unproven(h: Household): (targets: set<Target>) {
    (if !h.runtimeDeleted && h.runtimeRef.Some? then {Runtime} else {})
    + set id | id in h.resources && h.resources[id] != Jobs.Deleted :: Provider(id)
  }

  function Resumed(hs: map<nat, Household>, id: nat, r: Round): (after: map<nat, Household>) {
    if id !in hs || !hs[id].deleting then hs else
    match After(hs[id], r)
    case None => hs - {id}
    case Some(h) => hs[id := h]
  }

  // A sweep resumes one household after another and ends at the first pass that raises.
  function ResumedAll(hs: map<nat, Household>, ids: seq<nat>, rounds: nat -> Round): (after: map<nat, Household>)
    decreases |ids|
  {
    if ids == [] then hs else
    var after := Resumed(hs, ids[0], rounds(ids[0]));
    if ids[0] in hs && hs[ids[0]].deleting && rounds(ids[0]).fate != Finishes then after
    else ResumedAll(after, ids[1..], rounds)
  }

  predicate Sooner(hs: map<nat, Household>, a: nat, b: nat)
    requires a in hs && b in hs
  {
    hs[a].updatedAt < hs[b].updatedAt || (hs[a].updatedAt == hs[b].updatedAt && a < b)
  }

  function Deleting(hs: map<nat, Household>): (ids: set<nat>) {
    set id | id in hs && hs[id].deleting
  }

  // `WHERE status = 'deleting' ORDER BY updated_at, id LIMIT ?`.
  ghost predicate IsBatch(hs: map<nat, Household>, limit: nat, batch: seq<nat>) {
    && |batch| <= limit
    && (forall i | 0 <= i < |batch| :: batch[i] in Deleting(hs))
    && (forall i, j | 0 <= i < j < |batch| :: Sooner(hs, batch[i], batch[j]))
    && (forall id | id in Deleting(hs) && id !in batch ::
          |batch| == limit && forall i | 0 <= i < |batch| :: Sooner(hs, batch[i], id))
  }

  // ---- what a pass comes to, target by target ----

  // The runtime has proven itself absent, before or in this pass; or there never was one.
  ghost predicate RuntimeGone(h: Household, r: Round) {
    h.runtimeDeleted || h.runtimeRef == None || r.runtime == Absent
  }

  ghost predicate ResourceGone(h: Household, r: Round, k: nat) {
    k in h.resources && (h.resources[k] == Jobs.Deleted || r.providers(k) == Absent)
  }

  // Nothing is left, neither a target nor a job.
  ghost predicate AllGone(h: Household, r: Round) {
    RuntimeGone(h, r) && !r.unresolvedJobs && forall k | k in h.resources :: ResourceGone(h, r, k)
  }

  // A call that said it does not know, or did not come back.
  ghost predicate Mute(reply: Reply) {
    reply == Unknown || reply == Raises
  }

  ghost predicate SomethingUnknown(h: Household, r: Round) {
    || r.unresolvedJobs
    || (!h.runtimeDeleted && h.runtimeRef != None && Mute(r.runtime))
    || exists k | k in h.resources :: h.resources[k] != Jobs.Deleted && Mute(r.providers(k))
  }

  /** What a pass reports: an error if it could not read or record, erased exactly when nothing is left, and a
      plain "partial" exactly when something is left and nothing of it is unknown. */
  ghost predicate Reports(h: Household, r: Round, outcome: Outcome) {
    && (outcome == Raised <==> r.fate == CannotRead || r.fate == CannotWrite)
    && (outcome == CompletelyErased <==> r.fate == Finishes && AllGone(h, r))
    && (outcome == OutcomeUnknown <==> r.fate == Finishes && !AllGone(h, r) && SomethingUnknown(h, r))
    && (outcome == Partial <==> r.fate == Finishes && !AllGone(h, r) && !SomethingUnknown(h, r))
  }

  /** What a pass that does not erase records: of the runtime, whether it is gone; of each resource, once the
      pass finishes, whether it is gone, unknown, or on its way; and when. */
  ghost predicate Records(h: Household, r: Round, h': Household) {
    && h'.runtimeRef == h.runtimeRef && h'.deleting == h.deleting && h'.resources.Keys == h.resources.Keys
    && (h'.runtimeDeleted <==>
          h.runtimeDeleted || (h.runtimeRef != None && r.runtime == Absent && r.fate != CannotRead))
    && (forall k | k in h.resources ::
          if r.fate != Finishes then h'.resources[k] == h.resources[k]
          else && (h'.resources[k] == Jobs.Deleted <==> ResourceGone(h, r, k))
               && (h'.resources[k] == Jobs.ResourceUnknown <==>
                     !ResourceGone(h, r, k) && Mute(r.providers(k)))
               && (h'.resources[k] == Jobs.Deleting <==> !ResourceGone(h, r, k) && !Mute(r.providers(k))))
    && h'.updatedAt == if r.fate == Finishes || h'.runtimeDeleted != h.runtimeDeleted then r.at else h.updatedAt
  }

  // Whom a pass calls: exactly the targets that have not proven themselves absent.
  ghost predicate Calls(h: Household, r: Round, calls: set<Target>) {
    forall t :: t in calls <==>
      && r.fate != CannotRead
      && match t
         case Runtime => !h.runtimeDeleted && h.runtimeRef != None
         case Provider(k) => k in h.resources && h.resources[k] != Jobs.Deleted
  }

  lemma AllAbsentIsAllGone(h: Household, r: Round)
    ensures AllAbsent(h, r) <==> AllGone(h, r)
  {
    assert forall k | k in h.resources :: ResourceState(h, r, k) == Absent <==> ResourceGone(h, r, k);
  }

  /** A pass erases a household exactly when it finishes and nothing is left, and otherwise keeps this record. */
  lemma PassLeaves(h: Household, r: Round)
    ensures After(h, r).None? <==> r.fate == Finishes && AllGone(h, r)
    ensures After(h, r).Some? ==> Records(h, r, After(h, r).value)
  {
    AllAbsentIsAllGone(h, r);
  }

  lemma PassReports(h: Household, r: Round)
    ensures Reports(h, r, Answer(h, r))
  {
    AllAbsentIsAllGone(h, r);
    assert AnyUnknown(h, r) <==> SomethingUnknown(h, r);
  }

  lemma PassCalls(h: Household, r: Round)
    ensures Calls(h, r, if r.fate == CannotRead then {} else Unproven(h))
  {
  }

  // The deletions that have waited longest, the earlier asked for first; at most a limit of them.
  ghost predicate LongestWaiting(hs: map<nat, Household>, limit: nat, batch: seq<nat>) {
    && |batch| <= limit
    && (forall i | 0 <= i < |batch| :: batch[i] in hs && hs[batch[i]].deleting)
    && (forall i, j | 0 <= i < j < |batch| ::
          || hs[batch[i]].updatedAt < hs[batch[j]].updatedAt
          || (hs[batch[i]].updatedAt == hs[batch[j]].updatedAt && batch[i] < batch[j]))
    && (forall id | id in hs && hs[id].deleting && id !in batch ::
          && |batch| == limit
          && forall i | 0 <= i < |batch| ::
               || hs[batch[i]].updatedAt < hs[id].updatedAt
               || (hs[batch[i]].updatedAt == hs[id].updatedAt && batch[i] < id))
  }

  lemma BatchIsDistinct(hs: map<nat, Household>, limit: nat, batch: seq<nat>)
    requires IsBatch(hs, limit, batch)
    ensures forall i | 0 <= i < |batch| :: batch[i] in hs && hs[batch[i]].deleting
    ensures forall i, j | 0 <= i < j < |batch| :: batch[i] != batch[j]
  {
    assert forall i | 0 <= i < |batch| :: batch[i] in Deleting(hs);
    assert forall i, j | 0 <= i < j < |batch| :: Sooner(hs, batch[i], batch[j]);
  }

  // One deletion of a sweep, by a pass that did not raise.
  ghost predicate Served(h: Household, r: Round, outcome: Outcome, left: bool, h': Household) {
    && r.fate == Finishes && Reports(h, r, outcome)
    && (left <==> outcome != CompletelyErased)
    && (left ==> Records(h, r, h'))
  }

  lemma BatchIsLongestWaiting(hs: map<nat, Household>, limit: nat, batch: seq<nat>)
    requires IsBatch(hs, limit, batch)
    ensures LongestWaiting(hs, limit, batch)
  {
    assert forall i | 0 <= i < |batch| :: batch[i] in Deleting(hs);
    assert forall i, j | 0 <= i < j < |batch| :: Sooner(hs, batch[i], batch[j]);
    assert forall id | id in hs && hs[id].deleting :: id in Deleting(hs);
  }

  lemma SoonerIsTransitive(hs: map<nat, Household>, a: nat, b: nat, c: nat)
    requires a in hs && b in hs && c in hs && Sooner(hs, a, b) && Sooner(hs, b, c)
    ensures Sooner(hs, a, c)
  {
  }

  class DeletionService {
    var households: map<nat, Household>

    constructor (households: map<nat, Household>)
      ensures this.households == households
    {
      this.households := households;
    }

    // The loop over the resources: those already proven absent are not called.
    method CallProviders(h: Household, r: Round) returns (states: map<nat, Reply>, ghost calls: set<Target>)
      ensures states.Keys == h.resources.Keys && forall k | k in states :: states[k] == ResourceState(h, r, k)
      ensures calls == set k | k in h.resources && h.resources[k] != Jobs.Deleted :: Provider(k)
    {
      states, calls := map[], {};
      var left := h.resources.Keys;
      while left != {}
        invariant left <= h.resources.Keys && states.Keys == h.resources.Keys - left
        invariant forall k | k in states :: states[k] == ResourceState(h, r, k)
        invariant calls == set k | k in h.resources && h.resources[k] != Jobs.Deleted && k !in left :: Provider(k)
        decreases left
      {
        var k :| k in left;
        if h.resources[k] == Jobs.Deleted {
          states := states[k := Absent];
        } else {
          calls := calls + {Provider(k)};
          states := states[k := Heard(r.providers(k))];
        }
        left := left - {k};
      }
    }

    // One pass.
    method Pass(id: nat, r: Round) returns (outcome: Outcome, ghost calls: set<Target>)
      modifies this
      ensures households == Resumed(old(households), id, r)
      ensures outcome == NotFound <==> id !in Deleting(old(households))
      ensures outcome == NotFound ==> calls == {}
      ensures outcome != NotFound ==> outcome == Answer(old(households)[id], r)
      ensures outcome != NotFound ==> calls == if r.fate == CannotRead then {} else Unproven(old(households)[id])
    {
      if id !in households || !households[id].deleting {
        return NotFound, {};
      }
      var h := households[id];
      if r.fate == CannotRead {
        return Raised, {};
      }
      var runtimeState := RuntimeState(h, r);
      calls := if !h.runtimeDeleted && h.runtimeRef.Some? then {Runtime} else {};
      if !h.runtimeDeleted && h.runtimeRef.Some? && runtimeState == Absent {
        households := households[id := h.(runtimeDeleted := true, updatedAt := r.at)];
      }
      var states, called := CallProviders(h, r);
      calls := calls + called;
      if r.fate == CannotWrite {
        return Raised, calls;
      }
      if runtimeState == Absent && (forall k | k in states :: states[k] == Absent) && !r.unresolvedJobs {
        households := households - {id};
        assert households == old(households) - {id};
        return CompletelyErased, calls;
      }
      var statuses := map k | k in states :: Durable(states[k]);
      assert statuses == map k | k in h.resources :: Durable(ResourceState(h, r, k));
      households := households[id := households[id].(resources := statuses, updatedAt := r.at)];
      var anyUnknown := r.unresolvedJobs || runtimeState == Unknown || exists k | k in states :: states[k] == Unknown;
      return (if anyUnknown then OutcomeUnknown else Partial), calls;
    }

    /** `resume`. It calls exactly the targets that have not proven themselves absent, and records and reports
        exactly what they answered. */
    method Resume(id: nat, r: Round) returns (outcome: Outcome, ghost calls: set<Target>)
      modifies this
      ensures households == Resumed(old(households), id, r)
      ensures outcome == NotFound <==> id !in old(households) || !old(households)[id].deleting
      ensures outcome == NotFound ==> calls == {} && households == old(households)
      ensures forall other | other != id ::
                && (other in households <==> other in old(households))
                && (other in households ==> households[other] == old(households)[other])
      ensures outcome != NotFound ==> Reports(old(households)[id], r, outcome)
      ensures outcome != NotFound ==> (id in households <==> outcome != CompletelyErased)
      ensures outcome != NotFound && id in households ==> Records(old(households)[id], r, households[id])
      ensures outcome != NotFound ==> Calls(old(households)[id], r, calls)
    {
      ghost var before := households;
      outcome, calls := Pass(id, r);
      if id in before {
        PassLeaves(before[id], r);
        PassReports(before[id], r);
        PassCalls(before[id], r);
      }
    }

    method Soonest(ids: set<nat>) returns (first: nat)
      requires ids != {} && ids <= households.Keys
      ensures first in ids && forall id | id in ids && id != first :: Sooner(households, first, id)
    {
      first :| first in ids;
      var left := ids - {first};
      while left != {}
        invariant first in ids && left <= ids && first !in left
        invariant forall id | id in ids - left && id != first :: Sooner(households, first, id)
        decreases left
      {
        var next :| next in left;
        if Sooner(households, next, first) {
          forall id | id in ids - left && id != first
            ensures Sooner(households, next, id)
          {
            SoonerIsTransitive(households, next, first, id);
          }
          first := next;
        }
        left := left - {next};
      }
    }

    method SelectPending(limit: nat) returns (batch: seq<nat>)
      ensures IsBatch(households, limit, batch)
    {
      batch := [];
      var left := Deleting(households);
      while |batch| < limit && left != {}
        invariant left <= Deleting(households) && |batch| <= limit
        invariant forall id :: id in batch <==> id in Deleting(households) - left
        invariant forall i | 0 <= i < |batch| :: batch[i] in Deleting(households)
        invariant forall i, j | 0 <= i < j < |batch| :: Sooner(households, batch[i], batch[j])
        invariant forall i, id | 0 <= i < |batch| && id in left :: Sooner(households, batch[i], id)
        decreases left
      {
        var first := Soonest(left);
        batch := batch + [first];
        left := left - {first};
      }
    }

    /** `resume_pending`: the deletions that have waited longest, at most a limit of them, until a pass raises.
        If none does, each was resumed once, from what it was before the sweep, and reported in this order. */
    method ResumePending(limit: nat, rounds: nat -> Round)
      returns (results: Option<seq<Outcome>>, ghost batch: seq<nat>)
      modifies this
      ensures IsBatch(old(households), limit, batch) && LongestWaiting(old(households), limit, batch)
      ensures households == ResumedAll(old(households), batch, rounds)
      ensures results.None? <==> exists id | id in batch :: rounds(id).fate != Finishes
      ensures results.Some? ==>
                && |results.value| == |batch|
                && forall i | 0 <= i < |batch| ::
                     && batch[i] in old(households)
                     && Reports(old(households)[batch[i]], rounds(batch[i]), results.value[i])
                     && (batch[i] in households <==> results.value[i] != CompletelyErased)
                     && (batch[i] in households ==>
                           Records(old(households)[batch[i]], rounds(batch[i]), households[batch[i]]))
      ensures forall id | id !in batch ::
                && (id in households <==> id in old(households))
                && (id in households ==> households[id] == old(households)[id])
    {
      var ids := SelectPending(limit);
      ghost var before := households;
      batch := ids;
      BatchIsLongestWaiting(households, limit, ids);
      BatchIsDistinct(households, limit, ids);
      assert ids[0..] == ids;
      var outcomes := [];
      for i := 0 to |ids|
        invariant |outcomes| == i
        invariant ResumedAll(before, batch, rounds) == ResumedAll(households, ids[i..], rounds)
        invariant forall k | i <= k < |ids| :: ids[k] in households && households[ids[k]] == before[ids[k]]
        invariant forall k | 0 <= k < i ::
                    Served(before[ids[k]], rounds(ids[k]), outcomes[k], ids[k] in households,
                           if ids[k] in households then households[ids[k]] else before[ids[k]])
        invariant forall id | id !in batch ::
                    && (id in households <==> id in before)
                    && (id in households ==> households[id] == before[id])
      {
        var outcome, calls := Resume(ids[i], rounds(ids[i]));
        assert ids[i..][0] == ids[i] && ids[i..][1..] == ids[i + 1..];
        if outcome == Raised {
          return None, batch;
        }
        outcomes := outcomes + [outcome];
      }
      assert ids[|ids|..] == [];
      results := Some(outcomes);
    }
  }

  // ---- one household over many passes ----

  function AfterAll(h: Option<Household>, rounds: seq<Round>): (h': Option<Household>)
    decreases |rounds|
  {
    if h.None? || rounds == [] then h else AfterAll(After(h.value, rounds[0]), rounds[1..])
  }

  // Some pass up to and including the n-th heard the runtime say it is gone (or there never was one).
  predicate RuntimeProvenBy(h: Household, rounds: seq<Round>, n: nat)
    requires n < |rounds|
  {
    || h.runtimeDeleted || h.runtimeRef.None?
    || exists j | 0 <= j <= n :: rounds[j].fate != CannotRead && rounds[j].runtime == Absent
  }

  // Some pass that could record it, up to and including the n-th, heard the provider say so.
  predicate ResourceProvenBy(h: Household, rounds: seq<Round>, n: nat, id: nat)
    requires n < |rounds| && id in h.resources
  {
    || h.resources[id] == Jobs.Deleted
    || exists j | 0 <= j <= n :: rounds[j].fate == Finishes && rounds[j].providers(id) == Absent
  }

  predicate ErasedAt(h: Household, rounds: seq<Round>, n: nat)
    requires n < |rounds|
  {
    && rounds[n].fate == Finishes && !rounds[n].unresolvedJobs
    && RuntimeProvenBy(h, rounds, n)
    && forall id | id in h.resources :: ResourceProvenBy(h, rounds, n, id)
  }

  // What the first pass learned is what later passes start from.
  lemma ProofCarries(h: Household, rounds: seq<Round>, n: nat)
    requires 0 < n < |rounds| && After(h, rounds[0]).Some?
    ensures ErasedAt(h, rounds, n) <==> ErasedAt(After(h, rounds[0]).value, rounds[1..], n - 1)
  {
    var next, tail := After(h, rounds[0]).value, rounds[1..];
    assert forall j | 0 <= j < |tail| :: tail[j] == rounds[j + 1];
    assert RuntimeProvenBy(h, rounds, n) <==> RuntimeProvenBy(next, tail, n - 1) by {
      if j :| 0 <= j <= n && rounds[j].fate != CannotRead && rounds[j].runtime == Absent {
        assert j > 0 ==> tail[j - 1].fate != CannotRead && tail[j - 1].runtime == Absent;
      }
      if j :| 0 <= j <= n - 1 && tail[j].fate != CannotRead && tail[j].runtime == Absent {
        assert rounds[j + 1].fate != CannotRead && rounds[j + 1].runtime == Absent;
      }
    }
    forall id | id in h.resources
      ensures ResourceProvenBy(h, rounds, n, id) <==> ResourceProvenBy(next, tail, n - 1, id)
    {
      if j :| 0 <= j <= n && rounds[j].fate == Finishes && rounds[j].providers(id) == Absent {
        assert j > 0 ==> tail[j - 1].fate == Finishes && tail[j - 1].providers(id) == Absent;
      }
      if j :| 0 <= j <= n - 1 && tail[j].fate == Finishes && tail[j].providers(id) == Absent {
        assert rounds[j + 1].fate == Finishes && rounds[j + 1].providers(id) == Absent;
      }
    }
  }

  lemma ErasedFirst(h: Household, rounds: seq<Round>)
    requires rounds != []
    ensures ErasedAt(h, rounds, 0) <==> After(h, rounds[0]).None?
  {
  }

  /** Deletion converges, and exactly this way: a household is gone after a series of passes if and only
      if one of them finished without a job outstanding at a time by which the runtime and every
      resource had each, in whatever pass, answered that they are absent. */
  lemma {:induction false} ErasureConverges(h: Household, rounds: seq<Round>)
    ensures AfterAll(Some(h), rounds).None? <==> exists n | 0 <= n < |rounds| :: ErasedAt(h, rounds, n)
    decreases |rounds|
  {
    if rounds != [] {
      ErasedFirst(h, rounds);
      if After(h, rounds[0]).Some? {
        var next, tail := After(h, rounds[0]).value, rounds[1..];
        ErasureConverges(next, tail);
        forall n | 0 < n < |rounds|
          ensures ErasedAt(h, rounds, n) <==> ErasedAt(next, tail, n - 1)
        {
          ProofCarries(h, rounds, n);
        }
        if n :| 0 <= n < |tail| && ErasedAt(next, tail, n) {
          assert ErasedAt(h, rounds, n + 1);
        }
      } else {
        assert AfterAll(Some(h), rounds) == AfterAll(None, rounds[1..]) == None;
        assert ErasedAt(h, rounds, 0);
      }
    }
  }

  /** Whatever happens in between, a target that proved itself absent is never called again: the targets
      a later pass calls are among those an earlier one had to call. */
  lemma {:induction false} NeverCalledAgain(h: Household, rounds: seq<Round>)
    requires AfterAll(Some(h), rounds).Some?
    ensures Unproven(AfterAll(Some(h), rounds).value) <= Unproven(h)
    ensures forall j, id | 0 <= j < |rounds| && rounds[j].fate == Finishes && id in h.resources
            && rounds[j].providers(id) == Absent ::
              Provider(id) !in Unproven(AfterAll(Some(h), rounds).value)
    ensures forall j | 0 <= j < |rounds| && rounds[j].fate != CannotRead && rounds[j].runtime == Absent ::
              Runtime !in Unproven(AfterAll(Some(h), rounds).value)
    decreases |rounds|
  {
    if rounds != [] && After(h, rounds[0]).Some? {
      var next := After(h, rounds[0]).value;
      NeverCalledAgain(next, rounds[1..]);
      assert Unproven(next) <= Unproven(h);
      assert forall j | 0 < j < |rounds| :: rounds[j] == rounds[1..][j - 1];
    }
  }

  // ---- sweeps ----

  // The deletions a sweep takes before this one.
  function Ahead(hs: map<nat, Household>, h: nat): (ids: set<nat>)
    requires h in hs
  {
    set id | id in Deleting(hs) && Sooner(hs, id, h)
  }

  // A sweep, and the deletions asked for after it.
  datatype Sweep = Sweep(batch: seq<nat>, rounds: nat -> Round, arrivals: map<nat, Household>)

  function Swept(hs: map<nat, Household>, s: Sweep): (after: map<nat, Household>) {
    ResumedAll(hs, s.batch, s.rounds) + s.arrivals
  }

  function SweptAll(hs: map<nat, Household>, sweeps: seq<Sweep>): (after: map<nat, Household>)
    decreases |sweeps|
  {
    if sweeps == [] then hs else SweptAll(Swept(hs, sweeps[0]), sweeps[1..])
  }

  // A sweep that picks its batch, whose passes finish, and what it touches or what arrives comes later
  // than this deletion last did.
  ghost predicate FairSweep(hs: map<nat, Household>, s: Sweep, limit: nat, h: nat) {
    && h in Deleting(hs) && IsBatch(hs, limit, s.batch)
    && (forall id | id in s.batch :: s.rounds(id).fate == Finishes && s.rounds(id).at > hs[h].updatedAt)
    && (forall id | id in s.arrivals :: id !in Deleting(hs) && s.arrivals[id].updatedAt > hs[h].updatedAt)
  }

  ghost predicate Fair(hs: map<nat, Household>, sweeps: seq<Sweep>, limit: nat, h: nat)
    decreases |sweeps|
  {
    sweeps != [] ==> FairSweep(hs, sweeps[0], limit, h) && Fair(Swept(hs, sweeps[0]), sweeps[1..], limit, h)
  }

  // Resuming a list of households touches only those, and leaves them later.
  lemma {:induction false} ResumedAllOnly(hs: map<nat, Household>, ids: seq<nat>, rounds: nat -> Round, t: real)
    requires forall id | id in ids :: rounds(id).fate == Finishes && rounds(id).at > t
    requires forall i, j | 0 <= i < j < |ids| :: ids[i] != ids[j]
    requires forall id | id in ids :: id in Deleting(hs)
    ensures var after := ResumedAll(hs, ids, rounds);
            && after.Keys <= hs.Keys
            && (forall id | id in hs && id !in ids :: id in after && after[id] == hs[id])
            && (forall id | id in after && id in ids :: after[id].updatedAt > t)
    decreases |ids|
  {
    if ids != [] {
      var next := Resumed(hs, ids[0], rounds(ids[0]));
      assert forall i | 0 <= i < |ids| - 1 :: ids[1..][i] == ids[i + 1];
      assert ids[0] !in ids[1..];
      assert forall id | id in ids[1..] :: id in ids;
      ResumedAllOnly(next, ids[1..], rounds, t);
    }
  }

  function Members(ids: seq<nat>): (r: set<nat>) {
    set id | id in ids
  }

  lemma {:induction false} DistinctCount(ids: seq<nat>)
    requires forall i, j | 0 <= i < j < |ids| :: ids[i] != ids[j]
    ensures |Members(ids)| == |ids|
    decreases |ids|
  {
    if ids != [] {
      var rest := ids[1..];
      DistinctCount(rest);
      assert ids == [ids[0]] + rest;
      assert Members(ids) == {ids[0]} + Members(rest);
      assert ids[0] !in rest;
    }
  }

  // What is still ahead after the sweep was ahead before, and not in the batch.
  lemma LeftAhead(hs: map<nat, Household>, s: Sweep, limit: nat, h: nat, id: nat)
    requires FairSweep(hs, s, limit, h) && h !in s.batch && h in Swept(hs, s) && Swept(hs, s)[h] == hs[h]
    requires id in Ahead(Swept(hs, s), h)
    ensures id in Ahead(hs, h) && id !in s.batch
  {
    ResumedAllOnly(hs, s.batch, s.rounds, hs[h].updatedAt);
    assert id !in s.arrivals;
  }

  // A sweep that passes a deletion over takes a full batch from those ahead of it.
  lemma PassedOver(hs: map<nat, Household>, s: Sweep, limit: nat, h: nat)
    requires FairSweep(hs, s, limit, h) && h !in s.batch
    ensures h in Deleting(Swept(hs, s)) && Swept(hs, s)[h] == hs[h]
    ensures |Ahead(Swept(hs, s), h)| + limit <= |Ahead(hs, h)|
  {
    var taken, after := Members(s.batch), Swept(hs, s);
    ResumedAllOnly(hs, s.batch, s.rounds, hs[h].updatedAt);
    DistinctCount(s.batch);
    forall id | id in taken
      ensures id in Ahead(hs, h)
    {
      var i :| 0 <= i < |s.batch| && s.batch[i] == id;
      assert Sooner(hs, s.batch[i], h);
    }
    forall id | id in Ahead(after, h)
      ensures id in Ahead(hs, h) - taken
    {
      LeftAhead(hs, s, limit, h, id);
    }
    SubsetCount(Ahead(after, h), Ahead(hs, h) - taken);
    assert |Ahead(hs, h) - taken| == |Ahead(hs, h)| - |taken|;
  }

  lemma OneMore(n: nat, limit: nat)
    ensures (n + 1) * limit == n * limit + limit
  {
  }

  /** No deletion is starved: if n sweeps in a row pass one over, each finishing its passes, then at least
      n full batches of older ones stood before it. */
  lemma {:induction false} NoDeletionIsStarved(hs: map<nat, Household>, sweeps: seq<Sweep>, limit: nat, h: nat)
    requires h in hs && Fair(hs, sweeps, limit, h)
    requires forall s | s in sweeps :: h !in s.batch
    ensures |sweeps| * limit <= |Ahead(hs, h)|
    decreases |sweeps|
  {
    if sweeps != [] {
      var rest, next := sweeps[1..], Swept(hs, sweeps[0]);
      assert sweeps[0] in sweeps;
      PassedOver(hs, sweeps[0], limit, h);
      assert forall s | s in rest :: s in sweeps;
      NoDeletionIsStarved(next, rest, limit, h);
      OneMore(|rest|, limit);
    }
  }

  lemma HeadIsFirst(hs: map<nat, Household>, limit: nat, batch: seq<nat>, head: nat)
    requires limit > 0 && head in Deleting(hs) && IsBatch(hs, limit, batch)
    requires forall id | id in Deleting(hs) && id != head :: Sooner(hs, head, id)
    ensures batch != [] && batch[0] == head
  {
  }

  // ---- a household that cannot be read ----

  // A sweep in which one household cannot be read and every other pass finishes; what is asked for after it
  // comes later than that household last did.
  ghost predicate StuckSweep(hs: map<nat, Household>, s: Sweep, limit: nat, u: nat) {
    && u in Deleting(hs) && IsBatch(hs, limit, s.batch) && s.rounds(u).fate == CannotRead
    && (forall id | id in s.batch && id != u :: s.rounds(id).fate == Finishes && s.rounds(id).at > hs[u].updatedAt)
    && (forall id | id in s.arrivals :: id !in Deleting(hs) && s.arrivals[id].updatedAt > hs[u].updatedAt)
  }

  ghost predicate Stuck(hs: map<nat, Household>, sweeps: seq<Sweep>, limit: nat, u: nat)
    decreases |sweeps|
  {
    sweeps != [] ==> StuckSweep(hs, sweeps[0], limit, u) && Stuck(Swept(hs, sweeps[0]), sweeps[1..], limit, u)
  }

  // The pass that raises ends the sweep, and leaves what the passes before it left.
  lemma {:induction false} StopsAt(hs: map<nat, Household>, ids: seq<nat>, rounds: nat -> Round, p: nat)
    requires p < |ids| && (forall i, j | 0 <= i < j < |ids| :: ids[i] != ids[j])
    requires forall id | id in ids :: id in Deleting(hs)
    requires rounds(ids[p]).fate == CannotRead && forall i | 0 <= i < p :: rounds(ids[i]).fate == Finishes
    ensures ResumedAll(hs, ids, rounds) == ResumedAll(hs, ids[..p], rounds)
    decreases p
  {
    if p == 0 {
      assert ids[0] in ids;
      assert ids[..0] == [] && Resumed(hs, ids[0], rounds(ids[0])) == hs;
    } else {
      var next, rest := Resumed(hs, ids[0], rounds(ids[0])), ids[1..];
      forall id | id in rest
        ensures id in Deleting(next)
      {
        var i :| 0 <= i < |rest| && rest[i] == id;
        assert ids[i + 1] == id && ids[i + 1] != ids[0] && id in ids;
      }
      StopsAt(next, rest, rounds, p - 1);
      assert ids[..p][1..] == rest[..p - 1] && ids[..p][0] == ids[0];
    }
  }

  // The batch up to the unreadable household is all there is ahead of it.
  lemma AheadIsBeforeIt(hs: map<nat, Household>, limit: nat, batch: seq<nat>, p: nat)
    requires IsBatch(hs, limit, batch) && p < |batch|
    ensures batch[p] in hs && forall id :: id in Ahead(hs, batch[p]) <==> id in batch[..p]
  {
    var u := batch[p];
    assert u in Deleting(hs);
    forall id | id in Ahead(hs, u)
      ensures id in batch[..p]
    {
      assert id !in batch ==> Sooner(hs, batch[p], id);
      var i :| 0 <= i < |batch| && batch[i] == id;
      assert i > p ==> Sooner(hs, batch[p], batch[i]);
    }
    forall id | id in batch[..p]
      ensures id in Ahead(hs, u)
    {
      var i :| 0 <= i < p && batch[i] == id;
      assert Sooner(hs, batch[i], batch[p]);
    }
  }

  // What one such sweep leaves: the unreadable household and those behind it as they were, every other
  // entry as it was or later, and nothing new ahead.
  ghost predicate Passed(hs: map<nat, Household>, after: map<nat, Household>, u: nat) {
    && u in Deleting(hs) && u in Deleting(after) && after[u] == hs[u]
    && (forall id | id in Deleting(hs) && id !in Ahead(hs, u) :: id in after && after[id] == hs[id])
    && (forall id | id in after :: (id in hs && after[id] == hs[id]) || after[id].updatedAt > hs[u].updatedAt)
  }

  lemma PassedShrinks(hs: map<nat, Household>, after: map<nat, Household>, u: nat)
    requires Passed(hs, after, u)
    ensures Ahead(after, u) <= Ahead(hs, u)
    ensures forall id | id in Ahead(hs, u) - Ahead(after, u) :: id !in after || after[id].updatedAt > hs[u].updatedAt
  {
  }

  // A sweep resumes a list of households ahead of the unreadable one, and no other.
  lemma ResumedOnlyAhead(hs: map<nat, Household>, ids: seq<nat>, s: Sweep, u: nat)
    requires u in Deleting(hs) && (forall i, j | 0 <= i < j < |ids| :: ids[i] != ids[j])
    requires forall id | id in ids ::
               id in Ahead(hs, u) && s.rounds(id).fate == Finishes && s.rounds(id).at > hs[u].updatedAt
    requires forall id | id in s.arrivals :: id !in Deleting(hs) && s.arrivals[id].updatedAt > hs[u].updatedAt
    ensures var after := ResumedAll(hs, ids, s.rounds) + s.arrivals;
            Passed(hs, after, u) && forall id | id in ids :: id !in Ahead(after, u)
  {
    ResumedAllOnly(hs, ids, s.rounds, hs[u].updatedAt);
    assert u !in ids;
  }

  lemma StuckSweepPasses(hs: map<nat, Household>, s: Sweep, limit: nat, u: nat)
    requires StuckSweep(hs, s, limit, u)
    ensures Passed(hs, Swept(hs, s), u)
    ensures Ahead(Swept(hs, s), u) == {} || |Ahead(Swept(hs, s), u)| + limit <= |Ahead(hs, u)|
  {
    if u in s.batch {
      var p :| 0 <= p < |s.batch| && s.batch[p] == u;
      AheadIsBeforeIt(hs, limit, s.batch, p);
      assert forall i | 0 <= i < p :: s.batch[i] in s.batch && s.batch[i] != u;
      StopsAt(hs, s.batch, s.rounds, p);
      ResumedOnlyAhead(hs, s.batch[..p], s, u);
      PassedShrinks(hs, Swept(hs, s), u);
    } else {
      assert FairSweep(hs, s, limit, u);
      PassedOver(hs, s, limit, u);
      assert forall i | 0 <= i < |s.batch| :: Sooner(hs, s.batch[i], u);
      ResumedOnlyAhead(hs, s.batch, s, u);
    }
  }

  lemma PassesCompose(hs: map<nat, Household>, next: map<nat, Household>, after: map<nat, Household>, u: nat)
    requires Passed(hs, next, u) && Passed(next, after, u)
    ensures Passed(hs, after, u)
  {
    PassedShrinks(hs, next, u);
    forall id | id in Deleting(hs) && id !in Ahead(hs, u)
      ensures id in after && after[id] == hs[id]
    {
      assert next[id] == hs[id] && id in Deleting(next) && id !in Ahead(next, u);
    }
  }

  /** The deletions ahead of a household that cannot be read are the only ones that get through: it and
      those behind it stay as they were, and nothing comes to stand ahead of it. */
  lemma {:induction false} UnreadableBlocks(hs: map<nat, Household>, sweeps: seq<Sweep>, limit: nat, u: nat)
    requires u in Deleting(hs) && Stuck(hs, sweeps, limit, u)
    ensures Passed(hs, SweptAll(hs, sweeps), u)
    decreases |sweeps|
  {
    if sweeps != [] {
      var next := Swept(hs, sweeps[0]);
      StuckSweepPasses(hs, sweeps[0], limit, u);
      UnreadableBlocks(next, sweeps[1..], limit, u);
      PassesCompose(hs, next, SweptAll(next, sweeps[1..]), u);
    }
  }

  // What is ahead after n sweeps, of what was ahead first: nothing, or n full batches less.
  predicate Drifted(first: set<nat>, ahead: set<nat>, n: nat, limit: nat) {
    ahead == {} || |ahead| + n * limit <= |first|
  }

  lemma DriftsCompose(first: set<nat>, second: set<nat>, third: set<nat>, n: nat, limit: nat)
    requires third <= second && Drifted(first, second, 1, limit) && Drifted(second, third, n, limit)
    ensures Drifted(first, third, n + 1, limit)
  {
    OneMore(n, limit);
  }

  lemma StuckStep(hs: map<nat, Household>, sweeps: seq<Sweep>, limit: nat, u: nat) returns (next: map<nat, Household>)
    requires u in Deleting(hs) && Stuck(hs, sweeps, limit, u) && sweeps != []
    ensures next == Swept(hs, sweeps[0]) && SweptAll(hs, sweeps) == SweptAll(next, sweeps[1..])
    ensures u in Deleting(next) && Stuck(next, sweeps[1..], limit, u)
    ensures Drifted(Ahead(hs, u), Ahead(next, u), 1, limit)
    ensures Passed(next, SweptAll(hs, sweeps), u)
    ensures Ahead(SweptAll(hs, sweeps), u) <= Ahead(next, u)
  {
    next := Swept(hs, sweeps[0]);
    StuckSweepPasses(hs, sweeps[0], limit, u);
    UnreadableBlocks(next, sweeps[1..], limit, u);
    PassedShrinks(next, SweptAll(next, sweeps[1..]), u);
  }

  /** Never updated, it drifts to the head of the order: while n sweeps go by, n full batches ahead of it
      are resumed, or all there is. */
  lemma {:induction false} UnreadableDrifts(hs: map<nat, Household>, sweeps: seq<Sweep>, limit: nat, u: nat)
    requires u in Deleting(hs) && Stuck(hs, sweeps, limit, u)
    ensures u in SweptAll(hs, sweeps) && Drifted(Ahead(hs, u), Ahead(SweptAll(hs, sweeps), u), |sweeps|, limit)
    decreases |sweeps|
  {
    if sweeps != [] {
      var next := StuckStep(hs, sweeps, limit, u);
      UnreadableDrifts(next, sweeps[1..], limit, u);
      DriftsCompose(Ahead(hs, u), Ahead(next, u), Ahead(SweptAll(hs, sweeps), u), |sweeps| - 1, limit);
    }
  }

  /** Every deletion asked for meanwhile waits behind it, and is never resumed. */
  lemma {:induction false} ArrivalsWait(hs: map<nat, Household>, sweeps: seq<Sweep>, limit: nat, u: nat, j: nat,
                                        id: nat)
    requires u in Deleting(hs) && Stuck(hs, sweeps, limit, u)
    requires j < |sweeps| && id in sweeps[j].arrivals && sweeps[j].arrivals[id].deleting
    ensures id in SweptAll(hs, sweeps) && SweptAll(hs, sweeps)[id] == sweeps[j].arrivals[id]
    decreases |sweeps|
  {
    var next, rest := Swept(hs, sweeps[0]), sweeps[1..];
    StuckSweepPasses(hs, sweeps[0], limit, u);
    if j > 0 {
      ArrivalsWait(next, rest, limit, u, j - 1, id);
    } else {
      UnreadableBlocks(next, rest, limit, u);
      assert id in Deleting(next) && id !in Ahead(next, u);
    }
  }

  // Sweeps that pick their batches while this household cannot be read, and later deletions in between.
  ghost predicate HeadStays(hs: map<nat, Household>, sweeps: seq<Sweep>, limit: nat, head: nat)
    decreases |sweeps|
  {
    sweeps != [] ==>
      var s := sweeps[0];
      && head in Deleting(hs) && IsBatch(hs, limit, s.batch) && s.rounds(head).fate == CannotRead
      && (forall id | id in s.arrivals :: id !in Deleting(hs) && s.arrivals[id].updatedAt > hs[head].updatedAt)
      && HeadStays(Swept(hs, s), sweeps[1..], limit, head)
  }

  /** At the head it blocks whatever the other passes would do: no deletion is ever resumed again. */
  lemma {:induction false} UnreadableHeadBlocks(hs: map<nat, Household>, sweeps: seq<Sweep>, limit: nat, head: nat)
    requires limit > 0 && head in Deleting(hs) && HeadStays(hs, sweeps, limit, head)
    requires forall id | id in Deleting(hs) && id != head :: Sooner(hs, head, id)
    ensures forall id | id in Deleting(hs) :: id in SweptAll(hs, sweeps) && SweptAll(hs, sweeps)[id] == hs[id]
    decreases |sweeps|
  {
    if sweeps != [] {
      var s := sweeps[0];
      HeadIsFirst(hs, limit, s.batch, head);
      var next := hs + s.arrivals;
      assert Swept(hs, s) == next;
      forall id | id in Deleting(next) && id != head
        ensures Sooner(next, head, id)
      {
        assert id !in s.arrivals ==> id in Deleting(hs) && next[id] == hs[id];
      }
      UnreadableHeadBlocks(Swept(hs, s), sweeps[1..], limit, head);
    }
  }
}
