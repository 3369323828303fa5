/** What the commands of control_plane/onboarding/service.py do to the job ledger, and the invariant that no
    job's intent runs ahead of its workflow - which is why the intents they need are always new. */
module OnboardingLedger {
  import opened Basics
  import opened OnboardingCommands
  import Jobs = ProviderJobs

  function JobKindOf(kind: StepKind): (k: Jobs.JobKind)
    requires UserStep(kind)
  {
    match kind case Email => Jobs.EmailJob case WhatsApp => Jobs.WhatsAppJob case PrimaryChannel => Jobs.ChannelJob
  }

  // What a reset of a step tears down.
  function ResetScope(kind: StepKind): (types: set<Jobs.ResourceType>) {
    match kind
    case Email => {Jobs.EmailIdentity, Jobs.WhatsAppIdentity, Jobs.ChannelBinding, Jobs.RuntimeResource}
    case WhatsApp => {Jobs.WhatsAppIdentity, Jobs.ChannelBinding, Jobs.RuntimeResource}
    case _ => {Jobs.ChannelBinding, Jobs.RuntimeResource}
  }

  // The job kinds that carry the same names as these resource types.
  function KindsOf(types: set<Jobs.ResourceType>): (kinds: set<Jobs.JobKind>) {
    (if Jobs.EmailIdentity in types then {Jobs.EmailJob} else {})
    + (if Jobs.WhatsAppIdentity in types then {Jobs.WhatsAppJob} else {})
    + (if Jobs.ChannelBinding in types then {Jobs.ChannelJob} else {})
    + (if Jobs.RuntimeResource in types then {Jobs.RuntimeJob} else {})
  }

  // ---- which jobs and resources belong to a step ----

  // What is provisioned for a step, and with which kind of job.
  ghost predicate BelongsTo(t: Jobs.ResourceType, kind: StepKind) {
    || (t == Jobs.EmailIdentity && kind == Email) || (t == Jobs.WhatsAppIdentity && kind == WhatsApp)
    || (t == Jobs.ChannelBinding && kind == PrimaryChannel)
  }

  ghost predicate Provisions(j: Jobs.JobKind, t: Jobs.ResourceType) {
    || (j == Jobs.EmailJob && t == Jobs.EmailIdentity) || (j == Jobs.WhatsAppJob && t == Jobs.WhatsAppIdentity)
    || (j == Jobs.ChannelJob && t == Jobs.ChannelBinding) || (j == Jobs.RuntimeJob && t == Jobs.RuntimeResource)
  }

  // A reset of a step concerns the runtime and what belongs to that step or to one after it.
  ghost predicate FromTheStepOn(t: Jobs.ResourceType, kind: StepKind) {
    t == Jobs.RuntimeResource || exists k: StepKind :: Place(kind) <= Place(k) && BelongsTo(t, k)
  }

  lemma ResetScopeIsFromTheStepOn(t: Jobs.ResourceType, kind: StepKind)
    requires UserStep(kind)
    ensures t in ResetScope(kind) <==> FromTheStepOn(t, kind)
  {
    if t in ResetScope(kind) && t != Jobs.RuntimeResource {
      var k := if t == Jobs.EmailIdentity then Email else if t == Jobs.WhatsAppIdentity then WhatsApp
               else PrimaryChannel;
      assert BelongsTo(t, k);
    }
  }

  lemma KindsProvision(types: set<Jobs.ResourceType>, j: Jobs.JobKind)
    ensures j in KindsOf(types) <==> exists t | t in types :: Provisions(j, t)
  {
  }

  lemma StepJobsProvision(kind: StepKind, t: Jobs.ResourceType)
    requires UserStep(kind)
    ensures Provisions(JobKindOf(kind), t) <==> BelongsTo(t, kind)
  {
  }

  // ---- intents never run ahead of the workflow ----

  function AttemptOf(steps: Steps, step: Jobs.JobKind): (n: nat) {
    match step
    case EmailJob => steps.email.attempt
    case WhatsAppJob => steps.whatsApp.attempt
    case ChannelJob => steps.channel.attempt
    case _ => 0
  }

  predicate KeyBound(key: Jobs.IntentKey, w: Workflow) {
    match key
    case CleanupKey(_, _, version) => version <= w.version
    case InspectKey(_, _, _, version) => version <= w.version
    case EnsureKey(_, step, _, attempt) => attempt <= AttemptOf(w.steps, step)
    case LateCleanupKey(_, _) => true
    case WorkerKey(_, _) => true
    case NamespaceKey(_, AtProfile) => w.steps.profile.status != Available
    case NamespaceKey(_, AtReset(version)) => version <= w.version
    case NamespaceKey(_, AtRetry(attempt)) => attempt <= w.steps.email.attempt
  }

  ghost predicate KeysBound(b: Jobs.Book, household: string, w: Workflow) {
    forall id | id in b.jobs && b.jobs[id].key.household == household :: KeyBound(b.jobs[id].key, w)
  }

  // Versions and attempts only grow, and a profile is saved once.
  predicate Grows(w: Workflow, w': Workflow) {
    && w.version <= w'.version
    && (forall k: StepKind :: w.steps.Get(k).attempt <= w'.steps.Get(k).attempt)
    && (w'.steps.profile.status == Available ==> w.steps.profile.status == Available)
  }

  lemma TransitGrows(w: Workflow, command: Command, body: Body)
    requires Transit(w, command, body).Some?
    ensures Grows(w, Transit(w, command, body).value)
  {
  }

  lemma KeysStayBound(b: Jobs.Book, household: string, w: Workflow, w': Workflow)
    requires KeysBound(b, household, w) && Grows(w, w')
    ensures KeysBound(b, household, w')
  {
    assert w.steps.Get(Email).attempt <= w'.steps.Get(Email).attempt;
    assert w.steps.Get(WhatsApp).attempt <= w'.steps.Get(WhatsApp).attempt;
    assert w.steps.Get(PrimaryChannel).attempt <= w'.steps.Get(PrimaryChannel).attempt;
  }

  // What the worker, the bootstrap and the retention sweep do to the ledger: they settle jobs, remove settled
  // ones, and queue jobs under intents of their own.
  ghost predicate Works(before: Jobs.Book, after: Jobs.Book) {
    forall id | id in after.jobs ::
      if id in before.jobs then after.jobs[id].key == before.jobs[id].key
      else after.jobs[id].key.LateCleanupKey? || after.jobs[id].key.WorkerKey?
  }

  /** What the worker does to a workflow and to the ledger keeps every intent bound too. */
  lemma WorkerGrows(before: Jobs.Book, after: Jobs.Book, household: string, w: Workflow, e: Event)
    requires KeysBound(before, household, w) && Works(before, after)
    ensures KeysBound(after, household, WorkerMove(w, e))
  {
    assert Grows(w, WorkerMove(w, e));
    KeysStayBound(before, household, w, WorkerMove(w, e));
  }

  ghost predicate AllKeysBound(b: Jobs.Book, db: Tables) {
    forall h | h in db.workflows :: KeysBound(b, h, db.workflows[h])
  }

  // ---- what one command adds to the ledger ----

  // Exactly one new job, pending, under an identifier and an intent never used before.
  ghost predicate Adds(before: Jobs.Book, after: Jobs.Book, job: Jobs.Job) {
    && (forall id | id in before.jobs :: before.jobs[id].key != job.key) && before.nextJob !in before.jobs
    && job.status == Jobs.Pending && job.error == None
    && after == before.(jobs := before.jobs[before.nextJob := job], nextJob := before.nextJob + 1)
  }

  function StepJob(household: string, kind: StepKind, key: Jobs.IntentKey, at: real): (j: Jobs.Job)
    requires UserStep(kind)
  {
    Jobs.Job(household, JobKindOf(kind), Jobs.Ensure, key, Jobs.Pending, None, at)
  }

  function NamespaceJob(household: string, cause: Jobs.NamespaceCause, at: real): (j: Jobs.Job) {
    Jobs.Job(household, Jobs.RuntimeJob, Jobs.EnsureNamespace, Jobs.NamespaceKey(household, cause), Jobs.Pending, None,
             at)
  }

  predicate HasNamespace(b: Jobs.Book, household: string) {
    Jobs.Live(b, household, Some({Jobs.SecretNamespace})) != {}
  }

  predicate NamespaceUnsettled(b: Jobs.Book, household: string) {
    exists id | id in b.jobs :: b.jobs[id].household == household && b.jobs[id].operation == Jobs.EnsureNamespace
                                && b.jobs[id].status in {Jobs.Pending, Jobs.Running, Jobs.OutcomeUnknown}
  }

  predicate NeedsRepair(b: Jobs.Book, household: string, kind: StepKind) {
    kind == Email && !HasNamespace(b, household) && !NamespaceUnsettled(b, household)
  }

  /** A namespace is repaired exactly for an e-mail step whose household has none, nor a job that may make one. */
  lemma NeedsRepairIff(b: Jobs.Book, household: string, kind: StepKind)
    ensures NeedsRepair(b, household, kind)
            <==> && kind == Email
                 && (forall r | r in b.resources && b.resources[r].kind == Jobs.SecretNamespace ::
                       !Jobs.ToCleanUp(b.resources[r], household, None))
                 && (forall id | id in b.jobs && b.jobs[id].household == household
                                 && b.jobs[id].operation == Jobs.EnsureNamespace ::
                       || b.jobs[id].status == Jobs.WaitingUser || b.jobs[id].status == Jobs.Succeeded
                       || b.jobs[id].status == Jobs.Failed || b.jobs[id].status == Jobs.Cancelled)
  {
    Jobs.LiveIsToCleanUp(b, household, Some({Jobs.SecretNamespace}));
    if r :| r in b.resources && b.resources[r].kind == Jobs.SecretNamespace
            && Jobs.ToCleanUp(b.resources[r], household, None) {
      assert Jobs.ToCleanUp(b.resources[r], household, Some({Jobs.SecretNamespace}));
    }
    if HasNamespace(b, household) {
      var r :| r in Jobs.Live(b, household, Some({Jobs.SecretNamespace}));
      assert Jobs.ToCleanUp(b.resources[r], household, None);
    }
  }

  // A retry adds one job for its attempt, after the namespace repair where one is needed.
  ghost predicate Retries(before: Jobs.Book, after: Jobs.Book, household: string, kind: StepKind, selectionKind: string,
                          attempt: nat, now: real)
    requires UserStep(kind)
  {
    var repair := NamespaceJob(household, Jobs.AtRetry(attempt), now);
    var mid := if NeedsRepair(before, household, kind)
               then before.Queued(household, Jobs.RuntimeJob, Jobs.EnsureNamespace, repair.key, now) else before;
    && (NeedsRepair(before, household, kind) ==> Adds(before, mid, repair))
    && Adds(mid, after, StepJob(household, kind, Jobs.EnsureKey(household, JobKindOf(kind), selectionKind, attempt),
                                if kind == Email then now + Jobs.MICROSECOND else now))
  }

  // What a reset leaves of the jobs: the tear-down, and for e-mail a namespace that is live or asked for.
  ghost predicate ResetLeaves(before: Jobs.Book, after: Jobs.Book, household: string, kind: StepKind, version: nat,
                              now: real, order: seq<nat>, ids: seq<nat>, repair: Option<nat>)
  {
    && (repair.Some? <==> kind == Email && !HasNamespace(after, household))
    && (repair.Some? ==>
          && repair.value !in before.jobs && repair.value !in ids && repair.value in after.jobs
          && after.jobs[repair.value] == NamespaceJob(household, Jobs.AtReset(version),
                                                      now + (|ids| + 1) as real * Jobs.MICROSECOND))
    && Jobs.TornDown(before, after, Jobs.Sweep(household, "reset", None), version, now, Some(ResetScope(kind)), order,
                     ids, if repair.Some? then {repair.value} else {})
  }

  ghost function TypesFrom(kind: StepKind): (types: set<Jobs.ResourceType>) {
    set t: Jobs.ResourceType | FromTheStepOn(t, kind)
  }

  /** So a reset cleans up what belongs to the step or to one after it, and the runtime, and nothing else; and it
      supersedes every job. */
  lemma ResetTakesBack(before: Jobs.Book, after: Jobs.Book, household: string, kind: StepKind, version: nat, now: real,
                       order: seq<nat>, ids: seq<nat>, repair: Option<nat>)
    requires UserStep(kind) && after.Valid()
    requires ResetLeaves(before, after, household, kind, version, now, order, ids, repair)
    ensures Jobs.TakesBack(before, after, Jobs.Sweep(household, "reset", None), version, Some(TypesFrom(kind)))
  {
    forall t
      ensures t in ResetScope(kind) <==> FromTheStepOn(t, kind)
    {
      ResetScopeIsFromTheStepOn(t, kind);
    }
    assert TypesFrom(kind) == ResetScope(kind);
    Jobs.TornDownMeans(before, after, Jobs.Sweep(household, "reset", None), version, now, Some(ResetScope(kind)), order,
                       ids, if repair.Some? then {repair.value} else {});
  }

  // The waiting job is settled, and one that inspects what it waits for is new.
  ghost predicate Inspects(before: Jobs.Book, after: Jobs.Book, household: string, kind: StepKind, w: Workflow,
                           waiting: nat, now: real)
    requires UserStep(kind)
  {
    && waiting in before.jobs
    && Adds(before.(jobs := before.jobs[waiting := before.jobs[waiting].(status := Jobs.Cancelled)]), after,
            Jobs.Job(household, JobKindOf(kind), Jobs.Inspect,
                     Jobs.InspectKey(household, JobKindOf(kind), w.steps.Get(kind).attempt, w.version + 1),
                     Jobs.Pending, None, now))
  }

  predicate TookEffect(answer: Answer) {
    answer.Done? && !answer.replayed
  }

  // A new intent keeps the others as they are.
  lemma AddsKeepsBound(before: Jobs.Book, after: Jobs.Book, household: string, kind: Jobs.JobKind,
                       operation: Jobs.Operation, key: Jobs.IntentKey, now: real, db: Tables)
    requires before.Valid() && AllKeysBound(before, db)
    requires household == key.household && after == before.Queued(household, kind, operation, key, now)
    requires household in db.workflows && KeyBound(key, db.workflows[household])
    ensures AllKeysBound(after, db)
  {
  }

  lemma CommitKeepsBound(b: Jobs.Book, db: Tables, q: Request, w: Workflow)
    requires AllKeysBound(b, db) && q.household in db.workflows && Grows(db.workflows[q.household], w)
    ensures AllKeysBound(b, db.(workflows := db.workflows[q.household := w]))
  {
    KeysStayBound(b, q.household, db.workflows[q.household], w);
  }

  lemma SettlingKeepsBound(before: Jobs.Book, after: Jobs.Book, db: Tables)
    requires AllKeysBound(before, db) && after.jobs.Keys == before.jobs.Keys
    requires forall id | id in before.jobs :: after.jobs[id].key == before.jobs[id].key
    ensures AllKeysBound(after, db)
  {
  }

  lemma BoundsVersions(b: Jobs.Book, household: string, w: Workflow)
    requires KeysBound(b, household, w)
    ensures Jobs.VersionsBound(b, household, w.version)
  {
  }

  lemma AttemptIsNew(b: Jobs.Book, household: string, kind: StepKind, selectionKind: string, w: Workflow)
    requires UserStep(kind) && KeysBound(b, household, w)
    ensures var attempt := w.steps.Get(kind).attempt + 1;
            && !b.HasIntent(Jobs.EnsureKey(household, JobKindOf(kind), selectionKind, attempt))
            && (kind == Email ==> !b.HasIntent(Jobs.NamespaceKey(household, Jobs.AtRetry(attempt))))
  {
  }

  lemma ResetKeyIsNew(before: Jobs.Book, after: Jobs.Book, household: string, w: Workflow, now: real,
                      types: Option<set<Jobs.ResourceType>>, order: seq<nat>, ids: seq<nat>)
    requires KeysBound(before, household, w)
    requires Jobs.TornDown(before, after, Jobs.Sweep(household, "reset", None), w.version + 1, now, types, order, ids,
                           {})
    ensures !after.HasIntent(Jobs.NamespaceKey(household, Jobs.AtReset(w.version + 1)))
  {
    forall id | id in after.jobs
      ensures after.jobs[id].key != Jobs.NamespaceKey(household, Jobs.AtReset(w.version + 1))
    {
      if id in before.jobs {
        assert before.jobs[id].key.household == household ==> KeyBound(before.jobs[id].key, w);
      } else {
        var k :| 0 <= k < |ids| && ids[k] == id;
        assert after.jobs[ids[k]].key.CleanupKey?;
      }
    }
  }

  lemma TornDownKeepsBound(before: Jobs.Book, after: Jobs.Book, db: Tables, q: Request, w: Workflow, reason: string,
                           now: real, types: Option<set<Jobs.ResourceType>>, order: seq<nat>, ids: seq<nat>,
                           others: set<nat>)
    requires AllKeysBound(before, db) && q.household in db.workflows && Grows(db.workflows[q.household], w)
    requires Jobs.TornDown(before, after, Jobs.Sweep(q.household, reason, None), w.version, now, types, order, ids,
                           others)
    requires forall id | id in others ::
               id in after.jobs && after.jobs[id].key == Jobs.NamespaceKey(q.household, Jobs.AtReset(w.version))
    ensures AllKeysBound(after, db.(workflows := db.workflows[q.household := w]))
  {
    CommitKeepsBound(before, db, q, w);
    var done := db.(workflows := db.workflows[q.household := w]);
    forall h, id | h in done.workflows && id in after.jobs && after.jobs[id].key.household == h
      ensures KeyBound(after.jobs[id].key, done.workflows[h])
    {
      if id in before.jobs {
        assert KeysBound(before, h, done.workflows[h]);
        assert KeyBound(before.jobs[id].key, done.workflows[h]);
      } else if id in ids {
        var k :| 0 <= k < |ids| && ids[k] == id;
        assert after.jobs[ids[k]].key == Jobs.CleanupKey(q.household, order[k], w.version);
      }
    }
    forall h | h in done.workflows
      ensures KeysBound(after, h, done.workflows[h])
    {
    }
  }

  lemma ResetKeepsBound(before: Jobs.Book, after: Jobs.Book, db: Tables, q: Request, kind: StepKind, w: Workflow,
                        now: real, order: seq<nat>, ids: seq<nat>, repair: Option<nat>)
    requires AllKeysBound(before, db) && q.household in db.workflows && Grows(db.workflows[q.household], w)
    requires ResetLeaves(before, after, q.household, kind, w.version, now, order, ids, repair)
    ensures AllKeysBound(after, db.(workflows := db.workflows[q.household := w]))
  {
    TornDownKeepsBound(before, after, db, q, w, "reset", now, Some(ResetScope(kind)), order, ids,
                       if repair.Some? then {repair.value} else {});
  }

  lemma RetriesKeepsBound(before: Jobs.Book, after: Jobs.Book, db: Tables, household: string, kind: StepKind,
                          selectionKind: string, attempt: nat, now: real)
    requires UserStep(kind) && before.Valid() && AllKeysBound(before, db) && household in db.workflows
    requires attempt <= db.workflows[household].steps.Get(kind).attempt
    requires Retries(before, after, household, kind, selectionKind, attempt, now)
    ensures AllKeysBound(after, db)
  {
  }

  lemma InspectsKeepsBound(before: Jobs.Book, after: Jobs.Book, db: Tables, q: Request, kind: StepKind, w: Workflow,
                           w': Workflow, waiting: nat, now: real)
    requires UserStep(kind) && Inspects(before, after, q.household, kind, w, waiting, now)
    requires AllKeysBound(before, db) && q.household in db.workflows && db.workflows[q.household] == w
    requires Grows(w, w') && w'.version == w.version + 1
    ensures AllKeysBound(after, db.(workflows := db.workflows[q.household := w']))
  {
    var mid := before.(jobs := before.jobs[waiting := before.jobs[waiting].(status := Jobs.Cancelled)]);
    SettlingKeepsBound(before, mid, db);
    CommitKeepsBound(mid, db, q, w');
    var done := db.(workflows := db.workflows[q.household := w']);
    forall h | h in done.workflows
      ensures KeysBound(after, h, done.workflows[h])
    {
      assert KeysBound(mid, h, done.workflows[h]);
    }
  }

  lemma CleanupKeepsBound(before: Jobs.Book, swept: Jobs.Book, after: Jobs.Book, household: string, now: real,
                          order: seq<nat>, ids: seq<nat>, db: Tables)
    requires AllKeysBound(before, db) && household in db.workflows && swept.jobs.Keys == before.jobs.Keys
    requires forall id | id in swept.jobs :: swept.jobs[id].key == before.jobs[id].key
    requires Jobs.CleanupScheduled(swept, after, household, db.workflows[household].version, now, order, ids)
    ensures AllKeysBound(after, db)
  {
  }
}
