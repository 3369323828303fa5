/** The provisioning jobs and external resources a household leaves behind when its onboarding is reset,
    cancelled or withdrawn: `_supersede_unsettled_jobs` and `_schedule_registered_cleanup` of
    control_plane/onboarding/service.py, and `create` of control_plane/repositories/jobs.py. */
module ProviderJobs {
  import opened Basics

  datatype JobKind = EmailJob | WhatsAppJob | ChannelJob | RuntimeJob | CleanupJob | BootstrapCleanupJob

  datatype Operation = Ensure | Inspect | EnsureNamespace | Deprovision | RevokeConsent | DeleteEmailSecret
                     | OtherOperation(name: string)

  datatype JobStatus = Pending | Running | WaitingUser | Succeeded | Failed | OutcomeUnknown | Cancelled

  datatype NamespaceCause = AtProfile | AtReset(version: nat) | AtRetry(attempt: nat)

  // The intent keys, as what they are formatted from. They are unique in the table.
  datatype IntentKey =
    | CleanupKey(household: string, resource: nat, version: nat)
    | NamespaceKey(household: string, cause: NamespaceCause)
    | EnsureKey(household: string, step: JobKind, selectionKind: string, attempt: nat)
    | InspectKey(household: string, step: JobKind, attempt: nat, version: nat)
    | LateCleanupKey(household: string, job: nat)
    | WorkerKey(household: string, name: string)  // what else the worker, the bootstrap and a withdrawal queue

  datatype Job = Job(household: string, kind: JobKind, operation: Operation, key: IntentKey,
                     status: JobStatus, error: Option<string>, createdAt: real)

  datatype ResourceType = EmailIdentity | WhatsAppIdentity | ChannelBinding | RuntimeResource | SecretNamespace
                        | OtherResource

  datatype ResourceStatus = Planned | Creating | Ready | Deleting | Deleted | ResourceUnknown

  datatype Resource = Resource(household: string, kind: ResourceType, status: ResourceStatus, createdAt: real)

  predicate Matches(key: IntentKey, kind: JobKind) {
    key.CleanupKey? || key.LateCleanupKey? ==> kind == CleanupJob
  }

  datatype Book = Book(jobs: map<nat, Job>, nextJob: nat, resources: map<nat, Resource>) {
    // Job identifiers are handed out once, no two jobs share an intent, and a cleanup's intent is a cleanup's.
    ghost predicate Valid() {
      && (forall id | id in jobs :: id < nextJob)
      && (forall id | id in jobs :: Matches(jobs[id].key, jobs[id].kind))
      && (forall a, b | a in jobs && b in jobs && jobs[a].key == jobs[b].key :: a == b)
    }

    predicate HasIntent(key: IntentKey) {
      exists id | id in jobs :: jobs[id].key == key
    }

    // One more pending job, unless its intent is there already.
    function Queued(household: string, kind: JobKind, operation: Operation, key: IntentKey, now: real): (b: Book) {
      if HasIntent(key) then this
      else this.(jobs := jobs[nextJob := Job(household, kind, operation, key, Pending, None, now)],
                 nextJob := nextJob + 1)
    }
  }

  // ---- supersession ----

  const RECONCILIATION: string := "_requires_reconciliation"

  predicate EndsWith(s: string, suffix: string) {
    |suffix| <= |s| && s[|s| - |suffix|..] == suffix
  }

  // `COALESCE(error_code, '') LIKE '%!_requires!_reconciliation' ESCAPE '!'`.
  predicate Quarantined(error: Option<string>) {
    error.Some? && EndsWith(error.value, RECONCILIATION)
  }

  // Cleanup and consent revocation are not part of the attempt being superseded.
  predicate Exempt(j: Job) {
    j.kind == CleanupJob || j.kind == BootstrapCleanupJob || j.operation == RevokeConsent
  }

  // A call may have reached its provider and its outcome is not in yet.
  predicate Unsettled(j: Job) {
    j.status in {Running, WaitingUser, OutcomeUnknown}
  }

  // One supersession: for which household, why, and which job kinds (None: all of them).
  datatype Sweep = Sweep(household: string, reason: string, kinds: Option<set<JobKind>>)

  predicate InScope(j: Job, w: Sweep) {
    j.household == w.household && !Exempt(j) && (w.kinds.Some? ==> j.kind in w.kinds.value)
  }

  // The first statement: what was never handed to a provider is cancelled.
  function CancelPending(j: Job, w: Sweep): (r: Job) {
    if InScope(j, w) && j.status == Pending
    then j.(status := Cancelled, error := Some(w.reason + "_before_provider_call")) else j
  }

  // The second: what may have created something is kept for reconciliation, under the first code given.
  function Quarantine(j: Job, w: Sweep): (r: Job) {
    if InScope(j, w) && Unsettled(j) && !Quarantined(j.error)
    then j.(status := OutcomeUnknown, error := Some(w.reason + RECONCILIATION)) else j
  }

  function Swept(j: Job, w: Sweep): (r: Job) {
    Quarantine(CancelPending(j, w), w)
  }

  // The job is one a supersession leaves alone: somebody else's, of another kind, a cleanup, or the revocation
  // of a consent.
  ghost predicate OutOfReach(j: Job, w: Sweep) {
    || j.household != w.household || (w.kinds != None && j.kind !in w.kinds.value)
    || j.kind == CleanupJob || j.kind == BootstrapCleanupJob || j.operation == RevokeConsent
  }

  ghost predicate AwaitsReconciliation(j: Job) {
    j.error.Some? && exists head :: j.error.value == head + "_requires_reconciliation"
  }

  /** A superseded job, status by status: never handed out, it is cancelled; handed out and not settled, it is of
      unknown outcome under this supersession's code, unless it was so under an earlier one's; settled, or out of
      reach, it is as it was. */
  ghost predicate IsSuperseded(j: Job, r: Job, w: Sweep) {
    if OutOfReach(j, w) then r == j
    else match j.status
      case Pending => r == j.(status := Cancelled, error := Some(w.reason + "_before_provider_call"))
      case Running | WaitingUser | OutcomeUnknown =>
        if AwaitsReconciliation(j) then r == j
        else r == j.(status := OutcomeUnknown, error := Some(w.reason + "_requires_reconciliation"))
      case Succeeded | Failed | Cancelled => r == j
  }

  lemma QuarantinedAwaits(j: Job)
    ensures Quarantined(j.error) <==> AwaitsReconciliation(j)
  {
    if j.error.Some? {
      var e, n := j.error.value, |j.error.value| - |RECONCILIATION|;
      if Quarantined(j.error) {
        assert e == e[..n] + e[n..];
      }
      if AwaitsReconciliation(j) {
        var head :| e == head + "_requires_reconciliation";
        assert e[|e| - |RECONCILIATION|..] == RECONCILIATION;
      }
    }
  }

  lemma SweepSupersedes(j: Job, w: Sweep)
    ensures IsSuperseded(j, Swept(j, w), w)
  {
    QuarantinedAwaits(j);
  }

  function SweptAll(j: Job, sweeps: seq<Sweep>): (r: Job)
    decreases |sweeps|
  {
    if sweeps == [] then j else SweptAll(Swept(j, sweeps[0]), sweeps[1..])
  }

  lemma ReasonIsQuarantine(reason: string)
    ensures Quarantined(Some(reason + RECONCILIATION))
  {
  }

  // The first sweep of a series that concerns a job.
  predicate FirstInScope(j: Job, sweeps: seq<Sweep>, k: nat) {
    k < |sweeps| && InScope(j, sweeps[k]) && forall i | 0 <= i < k :: !InScope(j, sweeps[i])
  }

  lemma {:induction false} QuarantinedStays(j: Job, sweeps: seq<Sweep>)
    ensures Quarantined(j.error) && j.status != Pending ==> SweptAll(j, sweeps) == j
    ensures j.status in {Succeeded, Failed, Cancelled} ==> SweptAll(j, sweeps) == j
    decreases |sweeps|
  {
    if sweeps != [] {
      QuarantinedStays(Swept(j, sweeps[0]), sweeps[1..]);
    }
  }

  /** Provider effects are conserved by any series of resets, cancellations and withdrawals: an
      unsettled job stays unsettled under a reconciliation code, the first one it was ever given; a job
      that never reached its provider is cancelled, once; every other job is untouched. */
  lemma {:induction false} SweepsConserve(j: Job, sweeps: seq<Sweep>)
    ensures var r := SweptAll(j, sweeps);
            r == j.(status := r.status, error := r.error)
    ensures (forall w | w in sweeps :: !InScope(j, w)) ==> SweptAll(j, sweeps) == j
    ensures Exempt(j) || j.status in {Succeeded, Failed, Cancelled} ==> SweptAll(j, sweeps) == j
    ensures forall k: nat | FirstInScope(j, sweeps, k) ::
              var r := SweptAll(j, sweeps);
              && (j.status == Pending ==>
                    r.status == Cancelled && r.error == Some(sweeps[k].reason + "_before_provider_call"))
              && (Unsettled(j) ==> Unsettled(r) && Quarantined(r.error))
              && (Unsettled(j) && Quarantined(j.error) ==> r == j)
              && (Unsettled(j) && !Quarantined(j.error) ==>
                    r.status == OutcomeUnknown && r.error == Some(sweeps[k].reason + RECONCILIATION))
    decreases |sweeps|
  {
    if sweeps != [] {
      var next := Swept(j, sweeps[0]);
      ReasonIsQuarantine(sweeps[0].reason);
      SweepsConserve(next, sweeps[1..]);
      assert forall w :: InScope(next, w) <==> InScope(j, w);
      assert forall i | 0 <= i < |sweeps| - 1 :: sweeps[1..][i] == sweeps[i + 1];
      forall k: nat | FirstInScope(j, sweeps, k)
        ensures k > 0 ==> FirstInScope(next, sweeps[1..], k - 1)
      {
        forall i | 0 <= i < k - 1
          ensures !InScope(next, sweeps[1..][i])
        {
          assert !InScope(j, sweeps[i + 1]);
        }
      }
      if InScope(j, sweeps[0]) {
        QuarantinedStays(next, sweeps[1..]);
      }
    }
  }

  // ---- cleanup ----

  // The live resources a cleanup concerns (types None: all of them).
  function Live(b: Book, household: string, types: Option<set<ResourceType>>): (ids: set<nat>) {
    set r | r in b.resources && b.resources[r].household == household
            && b.resources[r].status in {Creating, Ready, ResourceUnknown}
            && (types.Some? ==> b.resources[r].kind in types.value)
  }

  // What a cleanup takes on: a resource of this household and of one of these types (None: of any) that stands
  // at its provider or may stand there.
  ghost predicate ToCleanUp(r: Resource, household: string, types: Option<set<ResourceType>>) {
    && r.household == household && (types == None || r.kind in types.value)
    && (r.status == Creating || r.status == Ready || r.status == ResourceUnknown)
  }

  lemma LiveIsToCleanUp(b: Book, household: string, types: Option<set<ResourceType>>)
    ensures forall r ::
              r in Live(b, household, types) <==> r in b.resources && ToCleanUp(b.resources[r], household, types)
  {
  }

  function Rank(t: ResourceType): (n: nat) {
    match t
    case EmailIdentity => 5 case WhatsAppIdentity => 4 case ChannelBinding => 3
    case RuntimeResource => 2 case SecretNamespace => 1 case OtherResource => 0
  }

  // `ORDER BY <rank> DESC, created_at DESC, id DESC`: what depends on something goes before it.
  predicate Before(b: Book, r: nat, s: nat)
    requires r in b.resources && s in b.resources
  {
    var x, y := b.resources[r], b.resources[s];
    || Rank(x.kind) > Rank(y.kind)
    || (Rank(x.kind) == Rank(y.kind) && (x.createdAt > y.createdAt || (x.createdAt == y.createdAt && r > s)))
  }

  // What is torn down before what.
  const TEARDOWN_ORDER :=
    [EmailIdentity, WhatsAppIdentity, ChannelBinding, RuntimeResource, SecretNamespace, OtherResource]

  ghost predicate GoesFirst(t: ResourceType, u: ResourceType) {
    exists i, j | 0 <= i < j < |TEARDOWN_ORDER| :: TEARDOWN_ORDER[i] == t && TEARDOWN_ORDER[j] == u
  }

  lemma RankIsTeardownOrder(t: ResourceType, u: ResourceType)
    ensures Rank(t) > Rank(u) <==> GoesFirst(t, u)
  {
    assert TEARDOWN_ORDER[5 - Rank(t)] == t && TEARDOWN_ORDER[5 - Rank(u)] == u;
  }

  lemma BeforeIsAnOrder(b: Book, r: nat, s: nat)
    requires r in b.resources && s in b.resources && r != s
    ensures Before(b, r, s) <==> !Before(b, s, r)
  {
  }

  lemma BeforeIsTransitive(b: Book, r: nat, s: nat, t: nat)
    requires r in b.resources && s in b.resources && t in b.resources
    requires Before(b, r, s) && Before(b, s, t)
    ensures Before(b, r, t)
  {
  }

  // The order a cleanup walks its resources in: each of them once, dependents first.
  ghost predicate IsCleanupOrder(b: Book, ids: set<nat>, order: seq<nat>) {
    && ids <= b.resources.Keys
    && (forall r :: r in order <==> r in ids)
    && (forall i, j | 0 <= i < j < |order| ::
          order[i] in b.resources && order[j] in b.resources && Before(b, order[i], order[j]))
  }

  const MICROSECOND: real := 0.000001

  // This job is the one of its intent: it was there, or it is new, pending and queued at this time.
  ghost predicate JobFor(before: Book, after: Book, key: IntentKey, at: real, id: nat) {
    && id in after.jobs && after.jobs[id].key == key
    && (id in before.jobs <==> before.HasIntent(key))
    && (id !in before.jobs && key.CleanupKey? ==>
          after.jobs[id] == Job(key.household, CleanupJob, Deprovision, key, Pending, None, at))
  }

  /** What scheduling a cleanup leaves: one cleanup job for each resource of the order, found by its
      intent and otherwise new, pending and queued in that order; the resources being deleted; and
      nothing else changed. */
  ghost predicate CleanupScheduled(before: Book, after: Book, household: string, version: nat, now: real,
                                   order: seq<nat>, ids: seq<nat>)
  {
    && |ids| == |order|
    && before.nextJob <= after.nextJob
    && (forall id | id in before.jobs :: id in after.jobs && after.jobs[id] == before.jobs[id])
    && (forall id | id in after.jobs && id !in before.jobs :: id in ids)
    && (forall k | 0 <= k < |order| ::
          JobFor(before, after, CleanupKey(household, order[k], version), now + k as real * MICROSECOND, ids[k]))
    && after.resources.Keys == before.resources.Keys
    && (forall r | r in before.resources ::
          after.resources[r] == if r in order then before.resources[r].(status := Deleting) else before.resources[r])
  }

  // One job under this intent, and no other.
  ghost predicate OneJobUnder(b: Book, key: IntentKey) {
    exists id | id in b.jobs && b.jobs[id].key == key ::
      forall other | other in b.jobs && b.jobs[other].key == key :: other == id
  }

  /** What that comes to, resource by resource: one that stands or may stand at its provider, of this household
      and in scope, is being deleted and has its one cleanup job; any other is as it was and got none. */
  ghost predicate CleansUp(before: Book, after: Book, household: string, version: nat,
                           types: Option<set<ResourceType>>)
  {
    forall r: nat ::
      var key := CleanupKey(household, r, version);
      if r in before.resources && ToCleanUp(before.resources[r], household, types)
      then && r in after.resources && after.resources[r] == before.resources[r].(status := Deleting)
           && OneJobUnder(after, key)
      else && (r in after.resources <==> r in before.resources)
           && (r in before.resources ==> after.resources[r] == before.resources[r])
           && forall id | id in after.jobs && id !in before.jobs :: after.jobs[id].key != key
  }

  lemma SchedulingCleansUp(before: Book, after: Book, household: string, version: nat, now: real,
                           types: Option<set<ResourceType>>, order: seq<nat>, ids: seq<nat>)
    requires after.Valid() && IsCleanupOrder(before, Live(before, household, types), order)
    requires CleanupScheduled(before, after, household, version, now, order, ids)
    ensures CleansUp(before, after, household, version, types)
  {
    LiveIsToCleanUp(before, household, types);
    forall r: nat | r in order
      ensures OneJobUnder(after, CleanupKey(household, r, version))
    {
      var k :| 0 <= k < |order| && order[k] == r;
      assert JobFor(before, after, CleanupKey(household, order[k], version), now + k as real * MICROSECOND, ids[k]);
      assert ids[k] in after.jobs;
    }
    forall id | id in after.jobs && id !in before.jobs
      ensures after.jobs[id].key.CleanupKey? && after.jobs[id].key.resource in order
    {
      var k :| 0 <= k < |ids| && ids[k] == id;
      assert JobFor(before, after, CleanupKey(household, order[k], version), now + k as real * MICROSECOND, ids[k]);
    }
  }

  ghost predicate Waits(j: Job, household: string, kind: JobKind) {
    j.household == household && j.kind == kind && j.status == WaitingUser
  }

  function Waiting(b: Book, household: string, kind: JobKind): (ids: set<nat>) {
    set id | id in b.jobs
             && b.jobs[id].household == household && b.jobs[id].kind == kind && b.jobs[id].status == WaitingUser
  }

  lemma WaitingIsWhoWaits(b: Book, household: string, kind: JobKind)
    ensures forall id :: id in Waiting(b, household, kind) <==> id in b.jobs && Waits(b.jobs[id], household, kind)
  {
  }

  // `ORDER BY created_at DESC, id DESC`.
  predicate IsNewer(b: Book, i: nat, j: nat)
    requires i in b.jobs && j in b.jobs
  {
    b.jobs[i].createdAt > b.jobs[j].createdAt || (b.jobs[i].createdAt == b.jobs[j].createdAt && i > j)
  }

  ghost predicate IsNewest(b: Book, ids: set<nat>, id: nat) {
    id in ids && ids <= b.jobs.Keys && forall i | i in ids && i != id :: IsNewer(b, id, i)
  }

  // One more job at the end of what was scheduled.
  lemma ScheduledStep(before: Book, prior: Book, after: Book, household: string, version: nat, now: real,
                      list: seq<nat>, k: nat, ids: seq<nat>, id: nat)
    requires k < |list| && list[k] in before.resources
    requires CleanupScheduled(before, prior, household, version, now, list[..k], ids)
    requires forall j | j in prior.jobs :: j in after.jobs && after.jobs[j] == prior.jobs[j]
    requires forall j | j in after.jobs && j !in prior.jobs :: j == id
    requires prior.nextJob <= after.nextJob
    requires JobFor(before, after, CleanupKey(household, list[k], version), now + k as real * MICROSECOND, id)
    requires list[k] in prior.resources
             && after.resources == prior.resources[list[k] := prior.resources[list[k]].(status := Deleting)]
    ensures CleanupScheduled(before, after, household, version, now, list[..k + 1], ids + [id])
  {
    assert list[..k + 1] == list[..k] + [list[k]];
    forall i | 0 <= i < k + 1
      ensures JobFor(before, after, CleanupKey(household, list[..k + 1][i], version), now + i as real * MICROSECOND,
                     (ids + [id])[i])
    {
      if i < k {
        assert JobFor(before, prior, CleanupKey(household, list[..k][i], version), now + i as real * MICROSECOND,
                      ids[i]);
      }
    }
    assert forall j | j in ids + [id] :: j in ids || j == id;
    assert (ids + [id])[k] == id;
  }

  // Nothing scheduled so far has the next key.
  lemma SameIntents(before: Book, after: Book, household: string, version: nat, now: real,
                    order: seq<nat>, ids: seq<nat>, key: IntentKey)
    requires CleanupScheduled(before, after, household, version, now, order, ids)
    requires key.CleanupKey? && key.household == household && key.resource !in order
    ensures after.HasIntent(key) <==> before.HasIntent(key)
  {
  }

  lemma OrderIsDistinct(b: Book, ids: set<nat>, order: seq<nat>)
    requires IsCleanupOrder(b, ids, order)
    ensures forall i, j | 0 <= i < j < |order| :: order[i] != order[j]
    ensures forall i | 0 <= i < |order| :: order[i] in b.resources
  {
  }

  // No cleanup of this household was ever scheduled at a later version than its workflow has.
  ghost predicate VersionsBound(b: Book, household: string, version: nat) {
    forall id | id in b.jobs && b.jobs[id].key.CleanupKey? && b.jobs[id].key.household == household ::
      b.jobs[id].key.version <= version
  }

  /** What a reset or a cancellation leaves of the jobs: each live resource of its scope has one new,
      pending cleanup job and is being deleted; every job there was is swept; nothing else is new. */
  ghost predicate TornDown(before: Book, after: Book, w: Sweep, version: nat, now: real,
                           types: Option<set<ResourceType>>, order: seq<nat>, ids: seq<nat>, others: set<nat>)
  {
    && IsCleanupOrder(before, Live(before, w.household, types), order) && |ids| == |order|
    && (forall k | 0 <= k < |order| ::
          && ids[k] !in before.jobs && ids[k] in after.jobs
          && after.jobs[ids[k]] == Job(w.household, CleanupJob, Deprovision, CleanupKey(w.household, order[k], version),
                                       Pending, None, now + k as real * MICROSECOND))
    && (forall id | id in before.jobs :: id in after.jobs && after.jobs[id] == Swept(before.jobs[id], w))
    && (forall id | id in after.jobs && id !in before.jobs :: id in ids || id in others)
    && after.resources.Keys == before.resources.Keys
    && (forall r | r in before.resources ::
          after.resources[r] == if r in order then before.resources[r].(status := Deleting) else before.resources[r])
  }

  /** At a version never used before, every live resource in scope gets exactly one new, pending
      cleanup job - what a reset or a cancellation does. */
  lemma NewVersionIsFresh(before: Book, after: Book, household: string, version: nat, now: real,
                          order: seq<nat>, ids: seq<nat>)
    requires before.Valid() && VersionsBound(before, household, version)
    requires CleanupScheduled(before, after, household, version + 1, now, order, ids)
    ensures forall k | 0 <= k < |order| :: ids[k] !in before.jobs && after.jobs[ids[k]].status == Pending
    ensures VersionsBound(after, household, version + 1)
  {
  }

  /** Scheduling at a version never used before, then superseding every kind of job, tears down. */
  lemma TearsDown(before: Book, scheduled: Book, after: Book, w: Sweep, version: nat, now: real,
                  types: Option<set<ResourceType>>, order: seq<nat>, ids: seq<nat>)
    requires before.Valid() && VersionsBound(before, w.household, version) && w.kinds == None
    requires IsCleanupOrder(before, Live(before, w.household, types), order)
    requires CleanupScheduled(before, scheduled, w.household, version + 1, now, order, ids)
    requires after.resources == scheduled.resources && after.jobs.Keys == scheduled.jobs.Keys
    requires forall id | id in after.jobs :: after.jobs[id] == Swept(scheduled.jobs[id], w)
    ensures TornDown(before, after, w, version + 1, now, types, order, ids, {})
  {
    NewVersionIsFresh(before, scheduled, w.household, version, now, order, ids);
    forall k | 0 <= k < |order|
      ensures ids[k] !in before.jobs && ids[k] in after.jobs
      ensures after.jobs[ids[k]] == Job(w.household, CleanupJob, Deprovision,
                                        CleanupKey(w.household, order[k], version + 1),
                                        Pending, None, now + k as real * MICROSECOND)
    {
      assert JobFor(before, scheduled, CleanupKey(w.household, order[k], version + 1), now + k as real * MICROSECOND,
                    ids[k]);
    }
  }

  // Every resource in scope is cleaned up, and every job superseded.
  ghost predicate TakesBack(before: Book, after: Book, w: Sweep, version: nat, types: Option<set<ResourceType>>) {
    && CleansUp(before, after, w.household, version, types)
    && forall id | id in before.jobs :: id in after.jobs && IsSuperseded(before.jobs[id], after.jobs[id], w)
  }

  /** What a tear-down comes to: every resource in scope cleaned up, and every job superseded. */
  lemma TornDownMeans(before: Book, after: Book, w: Sweep, version: nat, now: real, types: Option<set<ResourceType>>,
                      order: seq<nat>, ids: seq<nat>, others: set<nat>)
    requires after.Valid() && TornDown(before, after, w, version, now, types, order, ids, others)
    requires forall id | id in others && id in after.jobs :: !after.jobs[id].key.CleanupKey?
    ensures TakesBack(before, after, w, version, types)
  {
    LiveIsToCleanUp(before, w.household, types);
    forall r: nat | r in order
      ensures OneJobUnder(after, CleanupKey(w.household, r, version))
    {
      var k :| 0 <= k < |order| && order[k] == r;
      assert ids[k] in after.jobs && after.jobs[ids[k]].key == CleanupKey(w.household, order[k], version);
    }
    forall id | id in after.jobs && id !in before.jobs && after.jobs[id].key.CleanupKey?
      ensures after.jobs[id].key.resource in order
    {
      var k :| 0 <= k < |ids| && ids[k] == id;
      assert after.jobs[ids[k]].key == CleanupKey(w.household, order[k], version);
    }
    forall id | id in before.jobs
      ensures id in after.jobs && IsSuperseded(before.jobs[id], after.jobs[id], w)
    {
      SweepSupersedes(before.jobs[id], w);
    }
  }

  class JobLedger {
    var book: Book

    constructor ()
      ensures book == Book(map[], 0, map[]) && book.Valid()
    {
      book := Book(map[], 0, map[]);
    }

    /** `JobsRepository.create`: one job per intent. */
    method Create(household: string, kind: JobKind, operation: Operation, key: IntentKey, now: real)
      returns (id: nat, created: bool)
      requires book.Valid() && Matches(key, kind)
      modifies this
      ensures book.Valid()
      ensures created <==> forall j | j in old(book).jobs :: old(book).jobs[j].key != key
      ensures id in book.jobs && book.jobs[id].key == key
      ensures !created ==> book == old(book)
      ensures created ==>
                && id == old(book).nextJob && id !in old(book).jobs
                && book == old(book).(jobs := old(book).jobs[id := Job(household, kind, operation, key, Pending, None,
                                                                       now)],
                                      nextJob := id + 1)
      ensures book == old(book).Queued(household, kind, operation, key, now)
    {
      if book.HasIntent(key) {
        id :| id in book.jobs && book.jobs[id].key == key;
        return id, false;
      }
      id := book.nextJob;
      book := book.(jobs := book.jobs[id := Job(household, kind, operation, key, Pending, None, now)],
                    nextJob := id + 1);
      created := true;
    }

    // The newest job of a kind that waits for its user.
    method NewestWaiting(household: string, kind: JobKind) returns (newest: Option<nat>)
      ensures newest.None? <==> forall id | id in book.jobs :: !Waits(book.jobs[id], household, kind)
      ensures newest.Some? ==>
                && newest.value in book.jobs && Waits(book.jobs[newest.value], household, kind)
                && forall id | id in book.jobs && Waits(book.jobs[id], household, kind) && id != newest.value ::
                     || book.jobs[id].createdAt < book.jobs[newest.value].createdAt
                     || (book.jobs[id].createdAt == book.jobs[newest.value].createdAt && id < newest.value)
      ensures newest.None? <==> Waiting(book, household, kind) == {}
      ensures newest.Some? ==> IsNewest(book, Waiting(book, household, kind), newest.value)
    {
      newest := None;
      var left := Waiting(book, household, kind);
      while left != {}
        invariant left <= Waiting(book, household, kind)
        invariant newest.None? <==> left == Waiting(book, household, kind)
        invariant newest.Some? ==> IsNewest(book, Waiting(book, household, kind) - left, newest.value)
        decreases left
      {
        var id :| id in left;
        ghost var seen := Waiting(book, household, kind) - left;
        if newest.None? || IsNewer(book, id, newest.value) {
          assert forall i | i in seen && newest.Some? && i != newest.value :: IsNewer(book, newest.value, i);
          assert forall i | i in seen :: IsNewer(book, id, i);
          newest := Some(id);
        }
        left := left - {id};
        assert Waiting(book, household, kind) - left == seen + {id};
      }
      WaitingIsWhoWaits(book, household, kind);
      forall id | id in book.jobs && Waits(book.jobs[id], household, kind) && newest.Some? && id != newest.value
        ensures IsNewer(book, newest.value, id)
      {
        assert id in Waiting(book, household, kind);
      }
    }

    /** `_supersede_unsettled_jobs`, as its two statements. */
    method SupersedeUnsettledJobs(w: Sweep)
      requires book.Valid()
      modifies this
      ensures book.Valid()
      ensures book.resources == old(book).resources && book.nextJob == old(book).nextJob
      ensures book.jobs.Keys == old(book).jobs.Keys
      ensures forall id | id in book.jobs :: book.jobs[id] == Swept(old(book).jobs[id], w)
      ensures forall id | id in book.jobs :: IsSuperseded(old(book).jobs[id], book.jobs[id], w)
    {
      ghost var before := book;
      book := book.(jobs := map id | id in book.jobs :: CancelPending(book.jobs[id], w));
      book := book.(jobs := map id | id in book.jobs :: Quarantine(book.jobs[id], w));
      assert forall id | id in book.jobs ::
          id in before.jobs && book.jobs[id].key == before.jobs[id].key && book.jobs[id].kind == before.jobs[id].kind;
      forall id | id in before.jobs
        ensures IsSuperseded(before.jobs[id], Swept(before.jobs[id], w), w)
      {
        SweepSupersedes(before.jobs[id], w);
      }
    }

    method FirstOf(ids: set<nat>) returns (first: nat)
      requires ids != {} && ids <= book.resources.Keys
      ensures first in ids && forall r | r in ids && r != first :: Before(book, first, r)
    {
      first :| first in ids;
      var left := ids - {first};
      while left != {}
        invariant first in ids && left <= ids && first !in left
        invariant forall r | r in ids - left && r != first :: Before(book, first, r)
        decreases left
      {
        var next :| next in left;
        BeforeIsAnOrder(book, next, first);
        if Before(book, next, first) {
          forall r | r in ids - left && r != first
            ensures Before(book, next, r)
          {
            BeforeIsTransitive(book, next, first, r);
          }
          first := next;
        }
        left := left - {next};
      }
    }

    // The live resources, dependents first.
    method SelectLive(household: string, types: Option<set<ResourceType>>) returns (order: seq<nat>)
      ensures IsCleanupOrder(book, Live(book, household, types), order)
    {
      order := [];
      var left := Live(book, household, types);
      while left != {}
        invariant left <= Live(book, household, types)
        invariant forall r :: r in order <==> r in Live(book, household, types) - left
        invariant forall i | 0 <= i < |order| :: order[i] in book.resources
        invariant forall i, j | 0 <= i < j < |order| :: Before(book, order[i], order[j])
        invariant forall i, r | 0 <= i < |order| && r in left :: Before(book, order[i], r)
        decreases left
      {
        var first := FirstOf(left);
        order := order + [first];
        left := left - {first};
      }
    }

    // One turn of the loop.
    method CreateCleanup(household: string, version: nat, now: real, list: seq<nat>, k: nat,
                         ghost before: Book, ghost ids: seq<nat>)
      returns (id: nat, created: bool)
      requires book.Valid() && before.Valid() && k < |list| && list[k] in before.resources
      requires forall i, j | 0 <= i < j < |list| :: list[i] != list[j]
      requires CleanupScheduled(before, book, household, version, now, list[..k], ids)
      modifies this
      ensures book.Valid()
      ensures CleanupScheduled(before, book, household, version, now, list[..k + 1], ids + [id])
    {
      var key, at := CleanupKey(household, list[k], version), now + k as real * MICROSECOND;
      ghost var prior := book;
      SameIntents(before, prior, household, version, now, list[..k], ids, key);
      id, created := Create(household, CleanupJob, Deprovision, key, at);
      assert JobFor(before, book, key, at, id) by {
        if !created {
          var j :| j in before.jobs && before.jobs[j].key == key;
          assert j in book.jobs && book.jobs[j].key == key;
        }
      }
      book := book.(resources := book.resources[list[k] := book.resources[list[k]].(status := Deleting)]);
      ScheduledStep(before, prior, book, household, version, now, list, k, ids, id);
    }

    /** `_schedule_registered_cleanup`. */
    method ScheduleRegisteredCleanup(household: string, version: nat, now: real, types: Option<set<ResourceType>>)
      returns (ids: seq<nat>, ghost order: seq<nat>)
      requires book.Valid()
      modifies this
      ensures book.Valid()
      ensures IsCleanupOrder(old(book), Live(old(book), household, types), order)
      ensures CleanupScheduled(old(book), book, household, version, now, order, ids)
      ensures CleansUp(old(book), book, household, version, types)
    {
      var list := SelectLive(household, types);
      order := list;
      ids := [];
      OrderIsDistinct(book, Live(book, household, types), list);
      for k := 0 to |list|
        invariant book.Valid()
        invariant CleanupScheduled(old(book), book, household, version, now, list[..k], ids)
      {
        var id, created := CreateCleanup(household, version, now, list, k, old(book), ids);
        ids := ids + [id];
      }
      assert list[..|list|] == list;
      SchedulingCleansUp(old(book), book, household, version, now, types, order, ids);
    }

    /** The two calls a reset and a cancellation share: cleanup at the version to come, then supersession
        of every kind of job. */
    method TearDown(household: string, reason: string, next: nat, now: real, types: Option<set<ResourceType>>)
      returns (ids: seq<nat>, ghost order: seq<nat>)
      requires book.Valid() && next > 0 && VersionsBound(book, household, next - 1)
      modifies this
      ensures book.Valid()
      ensures TornDown(old(book), book, Sweep(household, reason, None), next, now, types, order, ids, {})
      ensures TakesBack(old(book), book, Sweep(household, reason, None), next, types)
    {
      ghost var before := book;
      ids, order := ScheduleRegisteredCleanup(household, next, now, types);
      ghost var scheduled := book;
      SupersedeUnsettledJobs(Sweep(household, reason, None));
      TearsDown(before, scheduled, book, Sweep(household, reason, None), next - 1, now, types, order, ids);
      TornDownMeans(before, book, Sweep(household, reason, None), next, now, types, order, ids, {});
    }
  }

  /** Once scheduled, nothing in scope is live any more: an immediate second call schedules nothing. */
  lemma SecondCleanupIsEmpty(before: Book, after: Book, household: string, version: nat, now: real,
                             types: Option<set<ResourceType>>, order: seq<nat>, ids: seq<nat>)
    requires IsCleanupOrder(before, Live(before, household, types), order)
    requires CleanupScheduled(before, after, household, version, now, order, ids)
    ensures Live(after, household, types) == {}
  {
  }

  /** Fresh cleanup jobs are queued so that a dependent is leased before what it depends on: mailbox, number,
      channel, runtime, secret namespace; within a type, the newest first. */
  lemma CleanupIsLeasedInOrder(before: Book, after: Book, household: string, version: nat, now: real,
                               types: Option<set<ResourceType>>, order: seq<nat>, ids: seq<nat>, i: nat, j: nat)
    requires IsCleanupOrder(before, Live(before, household, types), order)
    requires CleanupScheduled(before, after, household, version, now, order, ids)
    requires i < |order| && j < |order| && ids[i] !in before.jobs && ids[j] !in before.jobs
    requires order[i] in before.resources && order[j] in before.resources
    requires var (x, y) := (before.resources[order[i]], before.resources[order[j]]);
             || GoesFirst(x.kind, y.kind)
             || (x.kind == y.kind && (x.createdAt > y.createdAt || (x.createdAt == y.createdAt && order[i] > order[j])))
    ensures after.jobs[ids[i]].createdAt < after.jobs[ids[j]].createdAt
  {
    RankIsTeardownOrder(before.resources[order[i]].kind, before.resources[order[j]].kind);
    if j <= i {
      BeforeIsAnOrder(before, order[i], order[j]);
    }
  }

  // ---- withdrawal ----

  /** What withdrawing a consent leaves: the jobs of its kinds are swept, and then a cleanup of its
      resource types is scheduled - at the version the workflow has already. */
  ghost predicate Withdrawn(before: Book, swept: Book, after: Book, household: string, kinds: set<JobKind>,
                            types: set<ResourceType>, version: nat, now: real, order: seq<nat>, ids: seq<nat>)
  {
    && swept.resources == before.resources && swept.nextJob == before.nextJob && swept.jobs.Keys == before.jobs.Keys
    && (forall id | id in swept.jobs ::
          swept.jobs[id] == Swept(before.jobs[id], Sweep(household, "withdrawal", Some(kinds))))
    && IsCleanupOrder(swept, Live(swept, household, Some(types)), order)
    && CleanupScheduled(swept, after, household, version, now, order, ids)
  }

  /** And so does a withdrawal, for what its consent covered. */
  lemma WithdrawnMeans(before: Book, swept: Book, after: Book, household: string, kinds: set<JobKind>,
                       types: set<ResourceType>, version: nat, now: real, order: seq<nat>, ids: seq<nat>)
    requires after.Valid()
    requires Withdrawn(before, swept, after, household, kinds, types, version, now, order, ids)
    ensures TakesBack(before, after, Sweep(household, "withdrawal", Some(kinds)), version, Some(types))
  {
    SchedulingCleansUp(swept, after, household, version, now, Some(types), order, ids);
    forall id | id in before.jobs
      ensures id in after.jobs
              && IsSuperseded(before.jobs[id], after.jobs[id], Sweep(household, "withdrawal", Some(kinds)))
    {
      SweepSupersedes(before.jobs[id], Sweep(household, "withdrawal", Some(kinds)));
    }
  }

  // A pending job under this intent: the one that will call the provider.
  predicate PendingUnder(b: Book, key: IntentKey) {
    exists id | id in b.jobs :: b.jobs[id].key == key && b.jobs[id].status == Pending
  }

  predicate QueuedAnew(before: Book, after: Book, key: IntentKey) {
    exists id | id in after.jobs && id !in before.jobs :: after.jobs[id].key == key && after.jobs[id].status == Pending
  }

  lemma SweepKeepsKeys(j: Job, w: Sweep)
    ensures Swept(j, w).key == j.key && (Exempt(j) ==> Swept(j, w) == j)
  {
  }

  // Scheduling never gives an intent a second job.
  lemma OneJobPerIntent(before: Book, swept: Book, after: Book, household: string, version: nat, now: real,
                        order: seq<nat>, ids: seq<nat>, key: IntentKey, job: nat)
    requires before.Valid() && swept.jobs.Keys == before.jobs.Keys
    requires forall id | id in before.jobs :: swept.jobs[id].key == before.jobs[id].key
    requires CleanupScheduled(swept, after, household, version, now, order, ids)
    requires job in before.jobs && before.jobs[job].key == key
    ensures forall id | id in after.jobs && after.jobs[id].key == key :: id == job
  {
    assert swept.HasIntent(key) by {
      assert swept.jobs[job].key == key;
    }
    forall id | id in after.jobs && id !in swept.jobs
      ensures after.jobs[id].key != key
    {
      var k :| 0 <= k < |ids| && ids[k] == id;
      assert JobFor(swept, after, CleanupKey(household, order[k], version), now + k as real * MICROSECOND, ids[k]);
    }
  }

  /** Every live mailbox, number or binding the consent covered ends marked as being deleted. It also ends
      with a new pending cleanup job exactly when the ledger had none under its intent before - and where
      it had one, what there is to call the provider is that job, pending or settled as it was. */
  lemma WithdrawalQueuesIff(before: Book, swept: Book, after: Book, household: string, kinds: set<JobKind>,
                            types: set<ResourceType>, version: nat, now: real, order: seq<nat>, ids: seq<nat>, r: nat)
    requires before.Valid() && Withdrawn(before, swept, after, household, kinds, types, version, now, order, ids)
    requires r in Live(before, household, Some(types))
    ensures r in after.resources && after.resources[r].status == Deleting
    ensures var key := CleanupKey(household, r, version);
            && (QueuedAnew(before, after, key) <==> !before.HasIntent(key))
            && (PendingUnder(after, key) <==> !before.HasIntent(key) || PendingUnder(before, key))
  {
    var key := CleanupKey(household, r, version);
    assert Live(swept, household, Some(types)) == Live(before, household, Some(types));
    assert r in order;
    var k :| 0 <= k < |order| && order[k] == r;
    assert JobFor(swept, after, key, now + k as real * MICROSECOND, ids[k]);
    assert forall id | id in before.jobs :: swept.jobs[id].key == before.jobs[id].key;
    assert swept.HasIntent(key) <==> before.HasIntent(key);
    if before.HasIntent(key) {
      var earlier :| earlier in before.jobs && before.jobs[earlier].key == key;
      SweepKeepsKeys(before.jobs[earlier], Sweep(household, "withdrawal", Some(kinds)));
      assert after.jobs[earlier] == before.jobs[earlier];
      OneJobPerIntent(before, swept, after, household, version, now, order, ids, key, earlier);
    }
  }

  // ---- what the worker makes of a superseded job ----

  // It settles one.
  function Settled(b: Book, id: nat, status: JobStatus): (r: Book)
    requires id in b.jobs
  {
    b.(jobs := b.jobs[id := b.jobs[id].(status := status)])
  }

  // The result of a quarantined job arrives late, and taking it back at the provider does not come to an
  // end: the resource's state is unknown, and a cleanup of its own is queued.
  function LateResult(b: Book, household: string, job: nat, resource: nat, now: real): (r: Book)
    requires resource in b.resources
  {
    b.(resources := b.resources[resource := b.resources[resource].(status := ResourceUnknown)])
     .Queued(household, CleanupJob, Deprovision, LateCleanupKey(household, job), now)
  }

  // A ledger in which a mailbox is being set up and waits for its user.
  const SETTING_UP := Book(
    map[0 := Job("h", EmailJob, Ensure, EnsureKey("h", EmailJob, "managed", 1), WaitingUser, None, 0.0)], 1,
    map[7 := Resource("h", EmailIdentity, Creating, 0.0)])

  lemma SettingUpIsQuarantined()
    ensures var job := Swept(SETTING_UP.jobs[0], Sweep("h", "withdrawal", Some({EmailJob})));
            job.status == OutcomeUnknown && Quarantined(job.error) && job.key == EnsureKey("h", EmailJob, "managed", 1)
  {
    ReasonIsQuarantine("withdrawal");
  }

  lemma FirstWithdrawal() returns (swept: Book, after: Book)
    ensures SETTING_UP.Valid()
    ensures Withdrawn(SETTING_UP, swept, after, "h", {EmailJob}, {EmailIdentity}, 1, 1.0, [7], [1])
    ensures after.jobs.Keys == {0, 1} && after.nextJob == 2 && after.resources.Keys == {7}
    ensures after.jobs[0].status == OutcomeUnknown && Quarantined(after.jobs[0].error)
    ensures after.jobs[0].key.EnsureKey?
    ensures after.jobs[1] == Job("h", CleanupJob, Deprovision, CleanupKey("h", 7, 1), Pending, None, 1.0)
    ensures after.resources[7] == Resource("h", EmailIdentity, Deleting, 0.0)
  {
    var job := Swept(SETTING_UP.jobs[0], Sweep("h", "withdrawal", Some({EmailJob})));
    SettingUpIsQuarantined();
    swept := SETTING_UP.(jobs := map[0 := job]);
    var cleanup := Job("h", CleanupJob, Deprovision, CleanupKey("h", 7, 1), Pending, None, 1.0);
    after := Book(map[0 := job, 1 := cleanup], 2, map[7 := Resource("h", EmailIdentity, Deleting, 0.0)]);
    assert Live(swept, "h", Some({EmailIdentity})) == {7};
    assert [7][0] == 7 && [1][0] == 1;
    assert JobFor(swept, after, CleanupKey("h", 7, 1), 1.0 + 0 as real * MICROSECOND, 1);
  }

  lemma LateResultQueues(b: Book, now: real)
    requires b.jobs.Keys == {0, 1} && b.nextJob == 2 && b.resources.Keys == {7}
    requires forall id | id in b.jobs :: !b.jobs[id].key.LateCleanupKey?
    ensures var late := LateResult(b, "h", 0, 7, now);
            && late.jobs == b.jobs[2 := Job("h", CleanupJob, Deprovision, LateCleanupKey("h", 0), Pending, None, now)]
            && late.resources == map[7 := b.resources[7].(status := ResourceUnknown)]
  {
  }

  // Both cleanups are rejected.
  lemma WorkerGetsStuck(first: Book) returns (rejected: Book, late: Book, stuck: Book)
    requires first.jobs.Keys == {0, 1} && first.nextJob == 2 && first.resources.Keys == {7}
    requires first.jobs[0].status == OutcomeUnknown && Quarantined(first.jobs[0].error) && first.jobs[0].key.EnsureKey?
    requires first.jobs[1].key == CleanupKey("h", 7, 1)
    requires first.resources[7] == Resource("h", EmailIdentity, Deleting, 0.0)
    ensures rejected == Settled(first, 1, Failed)
    ensures 7 in rejected.resources && late == LateResult(rejected, "h", 0, 7, 1.5)
    ensures 2 in late.jobs && late.jobs[2].key == LateCleanupKey("h", 0) && stuck == Settled(late, 2, Failed)
    ensures stuck.jobs.Keys == {0, 1, 2}
            && stuck.resources == map[7 := Resource("h", EmailIdentity, ResourceUnknown, 0.0)]
    ensures stuck.jobs[0] == first.jobs[0] && stuck.jobs[1] == first.jobs[1].(status := Failed)
    ensures stuck.jobs[2].key.LateCleanupKey? && stuck.jobs[2].status == Failed
    ensures 7 in Live(stuck, "h", Some({EmailIdentity}))
  {
    rejected := Settled(first, 1, Failed);
    late := LateResult(rejected, "h", 0, 7, 1.5);
    LateResultQueues(rejected, 1.5);
    stuck := Settled(late, 2, Failed);
  }

  // A second withdrawal when every job is settled or quarantined and the mailbox's state is unknown.
  lemma SecondWithdrawal(before: Book) returns (after: Book)
    requires before.jobs.Keys == {0, 1, 2} && before.resources.Keys == {7}
    requires before.jobs[0].status == OutcomeUnknown && Quarantined(before.jobs[0].error)
    requires before.jobs[0].key.EnsureKey?
    requires before.jobs[1].key == CleanupKey("h", 7, 1) && before.jobs[1].status == Failed
    requires before.jobs[2].key.LateCleanupKey? && before.jobs[2].status == Failed
    requires before.resources[7] == Resource("h", EmailIdentity, ResourceUnknown, 0.0)
    ensures Withdrawn(before, before, after, "h", {EmailJob}, {EmailIdentity}, 1, 2.0, [7], [1])
    ensures after.jobs == before.jobs && after.resources.Keys == {7} && after.resources[7].status == Deleting
    ensures forall id | id in after.jobs :: after.jobs[id].status in {Failed, OutcomeUnknown}
  {
    after := before.(resources := map[7 := Resource("h", EmailIdentity, Deleting, 0.0)]);
    assert Live(before, "h", Some({EmailIdentity})) == {7};
    assert [7][0] == 7 && [1][0] == 1;
    assert JobFor(before, after, CleanupKey("h", 7, 1), 2.0 + 0 as real * MICROSECOND, 1);
  }

  /** A run in which a withdrawal queues nothing. A mailbox waits for its user; a withdrawal quarantines the job
      and schedules the mailbox's cleanup, which the provider rejects; the quarantined job's result arrives
      late and cannot be taken back, and neither can the cleanup queued for that. The second withdrawal, at
      the same version, finds the mailbox's state unknown, marks it as being deleted again, and leaves a
      ledger in which no job is pending: what remains is the first job, for an operator to reconcile. */
  lemma WithdrawalCanQueueNothing()
    returns (swept: Book, first: Book, rejected: Book, late: Book, stuck: Book, second: Book)
    ensures Withdrawn(SETTING_UP, swept, first, "h", {EmailJob}, {EmailIdentity}, 1, 1.0, [7], [1])
    ensures 1 in first.jobs && rejected == Settled(first, 1, Failed)
    ensures 7 in rejected.resources && late == LateResult(rejected, "h", 0, 7, 1.5)
    ensures 2 in late.jobs && late.jobs[2].key == LateCleanupKey("h", 0) && stuck == Settled(late, 2, Failed)
    ensures 7 in Live(stuck, "h", Some({EmailIdentity}))
    ensures Withdrawn(stuck, stuck, second, "h", {EmailJob}, {EmailIdentity}, 1, 2.0, [7], [1])
    ensures 7 in second.resources && second.resources[7].status == Deleting
    ensures second.jobs == stuck.jobs
    ensures forall id | id in second.jobs :: second.jobs[id].status in {Failed, OutcomeUnknown}
  {
    swept, first := FirstWithdrawal();
    rejected, late, stuck := WorkerGetsStuck(first);
    second := SecondWithdrawal(stuck);
  }
}
