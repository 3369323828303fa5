/** `OnboardingService` of control_plane/onboarding/service.py: each command as one transaction over the
    workflow and idempotency tables, the job ledger, the e-mail identities and the records of the runtime,
    rolled back whole when it is refused. For a deployment with e-mail identities. */
module OnboardingService {
  import opened Basics
  import opened OnboardingCommands
  import opened OnboardingLedger
  import Jobs = ProviderJobs
  import Mail = EmailIdentity
  import Mailbox = OnboardingMailbox
  import Records = RuntimeRecords

  // What a transaction that ran through leaves is what the command is specified to leave.
  lemma Commits(c: Config, before: Tables, after: Tables, answer: Answer, q: Request, body: Body, w: Workflow,
                world: World, now: real)
    requires BodyOf(c, before, q) == Some(body) && world.rest && Scoped(before, q)
    requires before.workflows[q.household].version == q.expected
    requires !Remembered(before, IdemKeyOf(q), now) && !(RolloutGated(q.command) && !world.rollout)
    requires Transit(before.workflows[q.household], q.command, body) == Some(w)
    requires answer == Done(Snapshot(q.household, w), false)
    requires after.workflows == before.workflows[q.household := w] && after.members == before.members
    requires after.idem == (before.idem - {IdemKeyOf(q)})[IdemKeyOf(q) :=
                             IdemRow(body, Snapshot(q.household, w), now + IDEMPOTENCY_TTL_SECONDS)]
    ensures Execute(c, before, q, world, now) == (after, answer)
  {
    var row := IdemRow(body, Snapshot(q.household, w), now + IDEMPOTENCY_TTL_SECONDS);
    assert after.idem == before.idem[IdemKeyOf(q) := row];
  }

  predicate Chooses(command: Command) {
    (command.Select? || command.Retry?) && command.kind == Email
  }

  // Only a reset of the e-mail step opens it again.
  lemma OpensOnlyByReset(w: Workflow, command: Command, body: Body)
    requires Transit(w, command, body).Some? && command != Command.Reset(Email)
    ensures Transit(w, command, body).value.steps.email.status in {Locked, Available} ==>
              w.steps.email.status in {Locked, Available}
    ensures Chooses(command) ==>
              Transit(w, command, body).value.steps.email.status !in {Locked, Available}
  {
  }

  // The jobs' intents and the e-mail identities agree with the workflows.
  ghost predicate Agrees(b: Jobs.Book, mail: Mail.Tables, db: Tables) {
    && b.Valid() && AllKeysBound(b, db)
    && Mail.Consistent(mail) && Mailbox.Coupled(db, mail)
  }

  // What a command leaves keeps the e-mail step and the identity coupled.
  lemma KeepsCoupled(before: Tables, mail: Mail.Tables, mail': Mail.Tables, q: Request, body: Body, w: Workflow)
    requires Mailbox.Coupled(before, mail) && Mailbox.OthersUntouched(mail, mail', q.household)
    requires q.household in before.workflows && Transit(before.workflows[q.household], q.command, body) == Some(w)
    requires || !Mail.HasIdentity(mail', q.household, Mail.LIVE)
             || (q.command != Command.Reset(Email) && (mail' == mail || Chooses(q.command)))
    ensures Mailbox.Coupled(before.(workflows := before.workflows[q.household := w]), mail')
  {
    if q.command != Command.Reset(Email) {
      OpensOnlyByReset(before.workflows[q.household], q.command, body);
    }
    Mailbox.CommandKeepsCoupled(before, mail, mail', q.household, w);
  }

  lemma SameWorkflows(b: Jobs.Book, mail: Mail.Tables, x: Tables, y: Tables)
    requires x.workflows == y.workflows && Agrees(b, mail, x)
    ensures Agrees(b, mail, y)
  {
  }

  // A withdrawal leaves the workflow where it is, without its identity.
  lemma KeepsUncoupled(db: Tables, mail: Mail.Tables, mail': Mail.Tables, household: string)
    requires Mailbox.Coupled(db, mail) && Mailbox.OthersUntouched(mail, mail', household)
    requires household in db.workflows && !Mail.HasIdentity(mail', household, Mail.LIVE)
    ensures Mailbox.Coupled(db, mail')
  {
    Mailbox.CommandKeepsCoupled(db, mail, mail', household, db.workflows[household]);
    assert db.workflows == db.workflows[household := db.workflows[household]];
  }

  lemma EachIsQueued(before: Jobs.Book, swept: Jobs.Book, after: Jobs.Book, household: string,
                     types: set<Jobs.ResourceType>, version: nat, now: real, order: seq<nat>, ids: seq<nat>)
    requires before.Valid() && Jobs.Withdrawn(before, swept, after, household, KindsOf(types), types, version, now,
                                              order, ids)
    ensures forall r | r in Jobs.Live(before, household, Some(types)) ::
              && r in after.resources && after.resources[r].status == Jobs.Deleting
              && var key := Jobs.CleanupKey(household, r, version);
              && (Jobs.QueuedAnew(before, after, key) <==> !before.HasIntent(key))
  {
    forall r | r in Jobs.Live(before, household, Some(types))
      ensures && r in after.resources && after.resources[r].status == Jobs.Deleting
              && var key := Jobs.CleanupKey(household, r, version);
              && (Jobs.QueuedAnew(before, after, key) <==> !before.HasIntent(key))
    {
      Jobs.WithdrawalQueuesIff(before, swept, after, household, KindsOf(types), types, version, now, order, ids, r);
    }
  }

  // What a command starts with is in order: it is nobody's repetition, its member and gate and version are right.
  predicate Begun(c: Config, db: Tables, q: Request, body: Body, rollout: bool, now: real) {
    && BodyOf(c, db, q) == Some(body) && Scoped(db, q) && db.workflows[q.household].version == q.expected
    && !Remembered(db, IdemKeyOf(q), now) && !(RolloutGated(q.command) && !rollout)
  }

  // What every command does to a workflow's numbers.
  predicate Follows(w: Workflow, w': Workflow) {
    Grows(w, w') && w'.version == w.version + 1
  }

  lemma TransitFollows(w: Workflow, command: Command, body: Body)
    requires Transit(w, command, body).Some?
    ensures Follows(w, Transit(w, command, body).value)
  {
    TransitGrows(w, command, body);
  }

  // One step and the version.
  function Advanced(w: Workflow, kind: StepKind, step: Step): (r: Workflow) {
    w.(steps := w.steps.Set(kind, step), version := w.version + 1)
  }

  lemma SelectTransits(w: Workflow, kind: StepKind, selection: string, body: Body)
    requires body.SelectionBody?
    ensures var step := w.steps.Get(kind);
            var next := NextStatus(kind, step.status, OnSelect);
            Transit(w, Command.Select(kind, selection), body)
            == if w.current != At(kind) || next.None? then None
               else Some(Advanced(w, kind, Step(next.value, Some(body.parsed), step.attempt + 1)))
  {
  }

  lemma RetryTransits(w: Workflow, kind: StepKind, body: Body)
    ensures var step := w.steps.Get(kind);
            var next := NextStatus(kind, step.status, OnRetry);
            Transit(w, Command.Retry(kind), body)
            == if next.None? then None
               else Some(Advanced(w, kind, step.(status := next.value, attempt := step.attempt + 1)))
  {
  }

  // A retry that is read at all reads a stored selection.
  lemma RetryReads(c: Config, db: Tables, q: Request, kind: StepKind)
    requires q.command == Command.Retry(kind) && BodyOf(c, db, q).Some?
    ensures UserStep(kind) && Scoped(db, q) && BodyOf(c, db, q).value.SelectionBody?
  {
  }

  lemma CheckTransits(w: Workflow, kind: StepKind, body: Body)
    ensures var step := w.steps.Get(kind);
            var next := NextStatus(kind, step.status, OnCheck);
            Transit(w, Command.Check(kind), body)
            == if w.current != At(kind) || next.None? then None
               else Some(Advanced(w, kind, step.(status := next.value)))
  {
  }

  lemma ResetTransits(w: Workflow, kind: StepKind, body: Body)
    requires UserStep(kind)
    ensures Transit(w, Command.Reset(kind), body)
            == if !Resettable(w, kind) then None
               else Some(Workflow(InProgress, At(kind), w.version + 1, ResetSteps(w.steps, kind)))
  {
  }

  lemma CancelTransits(w: Workflow, body: Body)
    ensures Transit(w, Command.Cancel, body)
            == if w.state in {Complete, Cancelled} then None
               else Some(Workflow(Cancelled, w.current, w.version + 1, CancelSteps(w.steps)))
  {
  }

  // The tables with a household's workflow replaced.
  function With(db: Tables, household: string, w: Workflow): (r: Tables) {
    db.(workflows := db.workflows[household := w])
  }

  // What a retry leaves of the jobs and the identity.
  ghost predicate RetriesEverything(b: Jobs.Book, b': Jobs.Book, mail: Mail.Tables, mail': Mail.Tables,
                                    household: string, kind: StepKind, selectionKind: string, attempt: nat, now: real)
    requires UserStep(kind)
  {
    && Retries(b, b', household, kind, selectionKind, attempt, now)
    && if kind == Email then Mailbox.Retries(mail, mail', household) else mail' == mail
  }

  // What a reset leaves of everything but the workflow and the recorded answers.
  ghost predicate ResetEverything(b: Jobs.Book, b': Jobs.Book, mail: Mail.Tables, mail': Mail.Tables,
                                  records: Records.Tables, records': Records.Tables, household: string, kind: StepKind,
                                  version: nat, now: real, order: seq<nat>, ids: seq<nat>, repair: Option<nat>)
  {
    && ResetLeaves(b, b', household, kind, version, now, order, ids, repair)
    && Jobs.TakesBack(b, b', Jobs.Sweep(household, "reset", None), version, Some(TypesFrom(kind)))
    && records' == Records.TakenDown(records, Records.ByReset(household))
    && Records.OutOfService(records', household)
    && if kind == Email then Mailbox.Disconnects(mail, mail', household, Mailbox.HandedOver(b, household))
       else mail' == mail
  }

  // What a cancellation leaves of them.
  ghost predicate CancelledEverything(b: Jobs.Book, b': Jobs.Book, mail: Mail.Tables, mail': Mail.Tables,
                                      records: Records.Tables, records': Records.Tables, household: string,
                                      version: nat, now: real, order: seq<nat>, ids: seq<nat>)
  {
    && Jobs.TornDown(b, b', Jobs.Sweep(household, "cancel", None), version, now, None, order, ids, {})
    && Jobs.TakesBack(b, b', Jobs.Sweep(household, "cancel", None), version, None)
    && records' == Records.TakenDown(records, Records.ByCancel(household))
    && Records.OutOfService(records', household)
    && Mailbox.Disconnects(mail, mail', household, Mailbox.HandedOver(b, household))
  }

  class OnboardingService {
    const config: Config
    const choiceOf: string -> Mailbox.Choice  // what a parsed e-mail selection asks for
    const jobs: Jobs.JobLedger
    const identities: Mail.EmailIdentityRepository
    const configs: Records.ConfigsRepository
    var db: Tables

    ghost predicate Consistent()
      reads this, jobs, identities
    {
      Agrees(jobs.book, identities.db, db)
    }

    constructor (config: Config, choiceOf: string -> Mailbox.Choice, jobs: Jobs.JobLedger,
                 identities: Mail.EmailIdentityRepository, configs: Records.ConfigsRepository, db: Tables)
      requires Agrees(jobs.book, identities.db, db)
      ensures this.config == config && this.choiceOf == choiceOf && this.db == db && Consistent()
      ensures this.jobs == jobs && this.identities == identities && this.configs == configs
    {
      this.config, this.choiceOf, this.db := config, choiceOf, db;
      this.jobs, this.identities, this.configs := jobs, identities, configs;
    }

    /** `_replay`, `_scoped_workflow`, the rollout gate and `_check_version`: what every command starts
        with. An expired row under the key is removed inside the transaction. */
    method Begin(q: Request, body: Body, rollout: bool, now: real, ghost world: World) returns (done: Option<Answer>)
      requires BodyOf(config, db, q) == Some(body) && world.rollout == rollout && Consistent()
      modifies this`db
      ensures Consistent()
      ensures done.Some? ==> db == old(db) && !TookEffect(done.value)
                             && Execute(config, old(db), q, world, now) == (old(db), done.value)
      ensures done.None? ==>
                && Begun(config, old(db), q, body, rollout, now)
                && db == old(db).(idem := old(db).idem - {IdemKeyOf(q)})
    {
      var key, saved := IdemKeyOf(q), db;
      if key in db.idem && now < db.idem[key].expiresAt {
        if db.idem[key].body != body {
          return Some(Refused(KeyReused));
        }
        return Some(Done(db.idem[key].snapshot, true));
      }
      db := db.(idem := db.idem - {key});
      SameWorkflows(jobs.book, identities.db, saved, db);
      if !Scoped(db, q) {
        db := saved;
        return Some(Refused(NotFound));
      }
      if RolloutGated(q.command) && !rollout {
        db := saved;
        return Some(Refused(NotOffered));
      }
      if db.workflows[q.household].version != q.expected {
        db := saved;
        return Some(Refused(StaleVersion));
      }
      done := None;
    }

    /** `_remember`: for a day, and whatever is looked up besides, the same key answers the same body with the
        snapshot of the change that was just made and refuses any other; nothing else is different. */
    method Remember(q: Request, body: Body, now: real) returns (answer: Answer)
      requires q.household in db.workflows && IdemKeyOf(q) !in db.idem
      modifies this`db
      ensures q.household in db.workflows && answer == Done(Snapshot(q.household, db.workflows[q.household]), false)
      ensures db.workflows == old(db).workflows && db.members == old(db).members
      ensures db.idem.Keys == old(db).idem.Keys + {IdemKeyOf(q)}
      ensures forall k | k in old(db).idem :: db.idem[k] == old(db).idem[k]
      ensures forall at: real :: Remembered(db, IdemKeyOf(q), at) <==> at < now + IDEMPOTENCY_TTL_SECONDS
      ensures forall again: Request, world: World, at: real
                | IdemKeyOf(again) == IdemKeyOf(q) && at < now + IDEMPOTENCY_TTL_SECONDS
                  && BodyOf(config, db, again).Some? ::
                Execute(config, db, again, world, at)
                == (db, if BodyOf(config, db, again) == Some(body) then Done(answer.snapshot, true)
                        else Refused(KeyReused))
      ensures db.idem[IdemKeyOf(q)] == IdemRow(body, answer.snapshot, now + IDEMPOTENCY_TTL_SECONDS)
    {
      var snapshot := Snapshot(q.household, db.workflows[q.household]);
      db := db.(idem := db.idem[IdemKeyOf(q) := IdemRow(body, snapshot, now + IDEMPOTENCY_TTL_SECONDS)]);
      answer := Done(snapshot, false);
    }

    // The end of every command that runs through: its change is there, and now its answer is too.
    method Conclude(q: Request, body: Body, ghost before: Tables, ghost world: World, now: real)
      returns (answer: Answer)
      requires Begun(config, before, q, body, world.rollout, now) && world.rest
      requires q.household in db.workflows && db.members == before.members && db.idem == before.idem - {IdemKeyOf(q)}
      requires db.workflows == before.workflows[q.household := db.workflows[q.household]]
      requires Transit(before.workflows[q.household], q.command, body) == Some(db.workflows[q.household])
      requires Consistent()
      modifies this`db
      ensures Consistent()
      ensures (db, answer) == Execute(config, before, q, world, now) && TookEffect(answer)
      ensures db.workflows == old(db).workflows
    {
      ghost var w := db.workflows[q.household];
      answer := Remember(q, body, now);
      assert db.idem == (before.idem - {IdemKeyOf(q)})[IdemKeyOf(q) :=
                          IdemRow(body, Snapshot(q.household, w), now + IDEMPOTENCY_TTL_SECONDS)];
      Commits(config, before, db, answer, q, body, w, world, now);
      SameWorkflows(jobs.book, identities.db, old(db), db);
    }

    // The end of every command that its step's state or something else refuses.
    method RollBack(q: Request, body: Body, saved: Tables, why: Refusal, ghost world: World, ghost now: real)
      returns (answer: Answer)
      requires Begun(config, saved, q, body, world.rollout, now)
      requires why == if Transit(saved.workflows[q.household], q.command, body).None? then WrongTransition
                      else RefusedElsewhere
      requires why == RefusedElsewhere ==> !world.rest
      requires Consistent() && db.workflows == saved.workflows
      modifies this`db
      ensures Consistent() && db == saved && answer == Refused(why)
      ensures (db, answer) == Execute(config, saved, q, world, now)
    {
      SameWorkflows(jobs.book, identities.db, db, saved);
      db := saved;
      answer := Refused(why);
    }

    method UpdateStep(household: string, kind: StepKind, step: Step)
      requires household in db.workflows
      modifies this`db
      ensures var w := old(db).workflows[household];
              db == With(old(db), household, w.(steps := w.steps.Set(kind, step)))
    {
      var w := db.workflows[household];
      db := With(db, household, w.(steps := w.steps.Set(kind, step)));
    }

    method UpdateSteps(household: string, steps: Steps)
      requires household in db.workflows
      modifies this`db
      ensures db == With(old(db), household, old(db).workflows[household].(steps := steps))
    {
      db := With(db, household, db.workflows[household].(steps := steps));
    }

    method UpdateWorkflow(household: string, state: WorkflowState, current: CurrentStep, version: nat)
      requires household in db.workflows
      modifies this`db
      ensures db == With(old(db), household, Workflow(state, current, version, old(db).workflows[household].steps))
    {
      db := With(db, household, Workflow(state, current, version, db.workflows[household].steps));
    }

    method Advance(household: string, kind: StepKind, step: Step)
      requires household in db.workflows
      modifies this`db
      ensures db == With(old(db), household, Advanced(old(db).workflows[household], kind, step))
    {
      var w := db.workflows[household];
      UpdateStep(household, kind, step);
      UpdateWorkflow(household, w.state, w.current, w.version + 1);
    }

    // `select` of control_plane/email/service.py.
    method SelectMailbox(household: string, choice: Mailbox.Choice, now: real) returns (ok: bool)
      requires Mail.Consistent(identities.db)
      modifies identities
      ensures ok <==> Mail.MayCreate(old(identities.db), household, choice.option, choice.address, now)
      ensures identities.db == if ok then Mailbox.Chosen(old(identities.db), household, choice, now)
                               else old(identities.db)
      ensures Mail.Consistent(identities.db) && Mailbox.OthersUntouched(old(identities.db), identities.db, household)
    {
      ghost var before := identities.db;
      var id := identities.CreateSelected(household, choice.option, choice.address, now);
      if id.None? {
        return false;
      }
      identities.MarkProvisioning(id.value);
      Mailbox.ChoosingKeeps(before, household, choice, now);
      ok := true;
    }

    // The part of a retry that concerns the identity.
    method RetryMailbox(household: string) returns (ok: bool)
      requires Mail.Consistent(identities.db)
      modifies identities
      ensures ok <==> Mailbox.MayRetry(old(identities.db), household)
      ensures if ok then Mailbox.Retries(old(identities.db), identities.db, household)
              else identities.db == old(identities.db)
      ensures Mail.Consistent(identities.db) && Mailbox.OthersUntouched(old(identities.db), identities.db, household)
    {
      ghost var before := identities.db;
      var current := identities.CurrentForHousehold(household);
      if current.None? {
        Mailbox.NoneToRetry(before, household);
        return false;
      }
      Mailbox.CurrentDecides(before, household, current.value);
      ok := identities.RetryProvisioning(current.value);
      if ok {
        Mailbox.MovedRetries(before, household, current.value);
        Mailbox.RetryingKeeps(before, identities.db, household);
      }
    }

    // `begin_disconnect` and `_finish_safe_email_disconnect`, after this supersession.
    method DisconnectMailbox(household: string, ghost before: Jobs.Book, ghost w: Jobs.Sweep)
      requires Mail.Consistent(identities.db) && w.household == household && Mailbox.Superseded(before, jobs.book, w)
      modifies identities
      ensures Mailbox.Disconnects(old(identities.db), identities.db, household, Mailbox.HandedOver(before, household))
      ensures Mail.Consistent(identities.db) && Mailbox.OthersUntouched(old(identities.db), identities.db, household)
      ensures !Mail.HasIdentity(identities.db, household, Mail.LIVE)
    {
      identities.BeginDisconnect(household);
      if Mail.HasIdentity(identities.db, household, {Mail.Disconnecting}) {
        var id :| id in identities.db.identities && identities.db.identities[id].household == household
                  && identities.db.identities[id].status in {Mail.Disconnecting};
        var finished := identities.FinishDisconnect(id, Mailbox.Outstanding(jobs.book, household));
      }
      Mailbox.OutstandingIsHandedOver(before, jobs.book, w);
      assert Mailbox.Disconnects(old(identities.db), identities.db, household, Mailbox.HandedOver(before, household));
      Mailbox.DisconnectingKeeps(old(identities.db), identities.db, household, Mailbox.HandedOver(before, household));
    }

    method QueueRetry(household: string, kind: StepKind, selectionKind: string, attempt: nat, now: real,
                      ghost w: Workflow)
      requires UserStep(kind) && jobs.book.Valid() && KeysBound(jobs.book, household, w)
      requires attempt == w.steps.Get(kind).attempt + 1
      modifies jobs
      ensures jobs.book.Valid() && Retries(old(jobs.book), jobs.book, household, kind, selectionKind, attempt, now)
    {
      var key := Jobs.EnsureKey(household, JobKindOf(kind), selectionKind, attempt);
      AttemptIsNew(jobs.book, household, kind, selectionKind, w);
      if NeedsRepair(jobs.book, household, kind) {
        var repair, repaired := jobs.Create(household, Jobs.RuntimeJob, Jobs.EnsureNamespace,
                                            Jobs.NamespaceKey(household, Jobs.AtRetry(attempt)), now);
      }
      var at := if kind == Email then now + Jobs.MICROSECOND else now;
      var job, created := jobs.Create(household, JobKindOf(kind), Jobs.Ensure, key, at);
    }

    // The pre-namespace repair, queued after the supersession so that it is not cancelled by it.
    method RepairNamespace(ghost before: Jobs.Book, household: string, w: Workflow, ghost now: real,
                           ghost types: Option<set<Jobs.ResourceType>>, ghost order: seq<nat>, ghost ids: seq<nat>,
                           at: real)
      returns (id: nat)
      requires before.Valid() && jobs.book.Valid() && KeysBound(before, household, w)
      requires Jobs.TornDown(before, jobs.book, Jobs.Sweep(household, "reset", None), w.version + 1, now, types, order,
                             ids, {})
      modifies jobs
      ensures jobs.book.Valid() && jobs.book.resources == old(jobs.book).resources
      ensures id !in before.jobs && id !in ids && id in jobs.book.jobs
      ensures jobs.book.jobs[id] == NamespaceJob(household, Jobs.AtReset(w.version + 1), at)
      ensures Jobs.TornDown(before, jobs.book, Jobs.Sweep(household, "reset", None), w.version + 1, now, types, order,
                            ids, {id})
    {
      ResetKeyIsNew(before, jobs.book, household, w, now, types, order, ids);
      var created;
      id, created := jobs.Create(household, Jobs.RuntimeJob, Jobs.EnsureNamespace,
                                 Jobs.NamespaceKey(household, Jobs.AtReset(w.version + 1)), at);
    }

    // A reset's cleanup and supersession, and its namespace repair.
    method TearDownFrom(household: string, kind: StepKind, w: Workflow, now: real)
      returns (ghost order: seq<nat>, ghost ids: seq<nat>, ghost repair: Option<nat>)
      requires jobs.book.Valid() && KeysBound(jobs.book, household, w)
      modifies jobs
      ensures jobs.book.Valid()
      ensures ResetLeaves(old(jobs.book), jobs.book, household, kind, w.version + 1, now, order, ids, repair)
    {
      repair := None;
      var cleanups;
      BoundsVersions(jobs.book, household, w);
      cleanups, order := jobs.TearDown(household, "reset", w.version + 1, now, Some(ResetScope(kind)));
      ids := cleanups;
      if kind == Email && !HasNamespace(jobs.book, household) {
        var at := now + (|cleanups| + 1) as real * Jobs.MICROSECOND;
        var id := RepairNamespace(old(jobs.book), household, w, now, Some(ResetScope(kind)), order, ids, at);
        repair := Some(id);
      }
    }

    // The newest waiting job gives way to its inspection.
    method Inspect(household: string, kind: StepKind, w: Workflow, now: real) returns (found: bool, ghost waiting: nat)
      requires UserStep(kind) && jobs.book.Valid() && KeysBound(jobs.book, household, w)
      modifies jobs
      ensures jobs.book.Valid()
      ensures found <==> Jobs.Waiting(old(jobs.book), household, JobKindOf(kind)) != {}
      ensures !found ==> jobs.book == old(jobs.book)
      ensures found ==>
                && Jobs.IsNewest(old(jobs.book), Jobs.Waiting(old(jobs.book), household, JobKindOf(kind)), waiting)
                && Inspects(old(jobs.book), jobs.book, household, kind, w, waiting, now)
    {
      ghost var before := jobs.book;
      var newest := jobs.NewestWaiting(household, JobKindOf(kind));
      if newest.None? {
        return false, 0;
      }
      var settled := newest.value;
      jobs.book := jobs.book.(jobs := jobs.book.jobs[settled := jobs.book.jobs[settled].(status := Jobs.Cancelled)]);
      var key := Jobs.InspectKey(household, JobKindOf(kind), w.steps.Get(kind).attempt, w.version + 1);
      assert !jobs.book.HasIntent(key) by {
        assert forall id | id in before.jobs && before.jobs[id].key.household == household ::
                 KeyBound(before.jobs[id].key, w);
        assert forall id | id in jobs.book.jobs :: jobs.book.jobs[id].key == before.jobs[id].key;
      }
      var job, created := jobs.Create(household, JobKindOf(kind), Jobs.Inspect, key, now);
      return true, settled;
    }

    // A profile's namespace job.
    method QueueNamespace(q: Request, ghost body: Body, ghost w: Workflow, now: real)
      requires q.command.SaveProfile? && Consistent()
      requires q.household in db.workflows && Transit(db.workflows[q.household], q.command, body) == Some(w)
      modifies jobs
      ensures Agrees(jobs.book, identities.db, With(db, q.household, w))
      ensures Adds(old(jobs.book), jobs.book, NamespaceJob(q.household, Jobs.AtProfile, now))
    {
      var key := Jobs.NamespaceKey(q.household, Jobs.AtProfile);
      var job, created := jobs.Create(q.household, Jobs.RuntimeJob, Jobs.EnsureNamespace, key, now);
      TransitGrows(db.workflows[q.household], q.command, body);
      CommitKeepsBound(old(jobs.book), db, q, w);
      AddsKeepsBound(old(jobs.book), jobs.book, q.household, Jobs.RuntimeJob, Jobs.EnsureNamespace, key, now,
                     With(db, q.household, w));
      KeepsCoupled(db, identities.db, identities.db, q, body, w);
    }

    // The profile step, and the one after it.
    method PutProfile(household: string)
      requires household in db.workflows && db.workflows[household].steps.profile.status == Available
      modifies this`db
      ensures Transit(old(db).workflows[household], Command.SaveProfile(""), ProfileBody("")).Some?
      ensures db == With(old(db), household,
                         Transit(old(db).workflows[household], Command.SaveProfile(""), ProfileBody("")).value)
    {
      var w := db.workflows[household];
      UpdateStep(household, Profile, w.steps.profile.(status := Verified));
      if w.steps.email.status == Locked {
        UpdateStep(household, Email, w.steps.email.(status := Available));
      }
      UpdateWorkflow(household, InProgress, At(Email), w.version + 1);
    }

    /** `save_profile`: besides the workflow, the household's secret namespace is asked for, once. */
    method SaveProfile(q: Request, profile: string, world: World, now: real) returns (answer: Answer)
      requires q.command == Command.SaveProfile(profile) && Consistent()
      modifies this`db, jobs
      ensures Consistent()
      ensures (db, answer) == Execute(config, old(db), q, world, now)
      ensures !TookEffect(answer) ==> jobs.book == old(jobs.book)
      ensures TookEffect(answer) ==> Adds(old(jobs.book), jobs.book, NamespaceJob(q.household, Jobs.AtProfile, now))
    {
      var saved, body := db, ProfileBody(profile);
      var done := Begin(q, body, world.rollout, now, world);
      if done.Some? {
        return done.value;
      }
      var next := NextStatus(Profile, db.workflows[q.household].steps.profile.status, OnSaveProfile);
      if next.None? || !world.rest {
        var why := if next.None? then WrongTransition else RefusedElsewhere;
        answer := RollBack(q, body, saved, why, world, now);
        return;
      }
      ghost var w := Transit(db.workflows[q.household], q.command, body).value;
      QueueNamespace(q, body, w, now);
      PutProfile(q.household);
      answer := Conclude(q, body, saved, world, now);
    }

    // The identity tables let the household make this choice.
    predicate MayChoose(mail: Mail.Tables, household: string, kind: StepKind, selection: string, now: real) {
      var parsed := Parsed(config, kind, household, selection);
      kind == Email && parsed.Some? && parsed.value.SelectionBody? ==>
        var choice := choiceOf(parsed.value.parsed);
        Mail.MayCreate(mail, household, choice.option, choice.address, now)
    }

    method QueueStep(q: Request, kind: StepKind, body: Body, attempt: nat, now: real, ghost w: Workflow)
      requires q.command.Select? && q.command.kind == kind && body.SelectionBody? && UserStep(kind)
      requires jobs.book.Valid() && AllKeysBound(jobs.book, db)
      requires q.household in db.workflows && Transit(db.workflows[q.household], q.command, body) == Some(w)
      requires attempt == db.workflows[q.household].steps.Get(kind).attempt + 1
      modifies jobs
      ensures jobs.book.Valid() && AllKeysBound(jobs.book, With(db, q.household, w))
      ensures Adds(old(jobs.book), jobs.book,
                   StepJob(q.household, kind,
                           Jobs.EnsureKey(q.household, JobKindOf(kind), config.kindOf(body.parsed), attempt), now))
    {
      var key := Jobs.EnsureKey(q.household, JobKindOf(kind), config.kindOf(body.parsed), attempt);
      AttemptIsNew(jobs.book, q.household, kind, config.kindOf(body.parsed), db.workflows[q.household]);
      TransitGrows(db.workflows[q.household], q.command, body);
      CommitKeepsBound(jobs.book, db, q, w);
      var job, created := jobs.Create(q.household, JobKindOf(kind), Jobs.Ensure, key, now);
      AddsKeepsBound(old(jobs.book), jobs.book, q.household, JobKindOf(kind), Jobs.Ensure, key, now,
                     With(db, q.household, w));
    }

    // The job of a new attempt, and for e-mail its identity; or nothing.
    method QueueSelection(q: Request, kind: StepKind, body: Body, attempt: nat, now: real, ghost w: Workflow)
      returns (ok: bool)
      requires q.command.Select? && q.command.kind == kind && body.SelectionBody? && UserStep(kind) && Consistent()
      requires q.household in db.workflows && Transit(db.workflows[q.household], q.command, body) == Some(w)
      requires attempt == db.workflows[q.household].steps.Get(kind).attempt + 1
      modifies jobs, identities
      ensures var choice := choiceOf(body.parsed);
              ok <==> (kind == Email ==>
                         Mail.MayCreate(old(identities.db), q.household, choice.option, choice.address, now))
      ensures !ok ==> jobs.book == old(jobs.book) && identities.db == old(identities.db)
      ensures ok ==>
                && Agrees(jobs.book, identities.db, With(db, q.household, w))
                && Adds(old(jobs.book), jobs.book,
                        StepJob(q.household, kind,
                                Jobs.EnsureKey(q.household, JobKindOf(kind), config.kindOf(body.parsed), attempt), now))
                && identities.db == if kind == Email
                                    then Mailbox.Chosen(old(identities.db), q.household, choiceOf(body.parsed), now)
                                    else old(identities.db)
    {
      ok := true;
      if kind == Email {
        ok := SelectMailbox(q.household, choiceOf(body.parsed), now);
      }
      if !ok {
        return;
      }
      KeepsCoupled(db, old(identities.db), identities.db, q, body, w);
      QueueStep(q, kind, body, attempt, now, w);
    }

    /** `select`: one new job for a new attempt at the chosen option, and for e-mail the identity it is for. */
    method Select(q: Request, kind: StepKind, selection: string, world: World, now: real) returns (answer: Answer)
      requires q.command == Command.Select(kind, selection) && Consistent()
      modifies this`db, jobs, identities
      ensures Consistent()
      ensures var lets := MayChoose(old(identities.db), q.household, kind, selection, now);
              (db, answer) == Execute(config, old(db), q, world.(rest := world.rest && lets), now)
      ensures !TookEffect(answer) ==> jobs.book == old(jobs.book) && identities.db == old(identities.db)
      ensures TookEffect(answer) ==>
                && UserStep(kind) && q.household in db.workflows
                && var step := db.workflows[q.household].steps.Get(kind);
                && step.selection.Some?
                && var selection := step.selection.value;
                && var key := Jobs.EnsureKey(q.household, JobKindOf(kind), config.kindOf(selection), step.attempt);
                && Adds(old(jobs.book), jobs.book, StepJob(q.household, kind, key, now))
                && identities.db == if kind == Email
                                    then Mailbox.Chosen(old(identities.db), q.household, choiceOf(selection), now)
                                    else old(identities.db)
    {
      var parsed := Parsed(config, kind, q.household, selection);
      if parsed.None? {
        return Refused(BadRequest);
      }
      var saved, body := db, parsed.value;
      ghost var through := world.(rest := world.rest && MayChoose(identities.db, q.household, kind, selection, now));
      var done := Begin(q, body, world.rollout, now, through);
      if done.Some? {
        return done.value;
      }
      var w := db.workflows[q.household];
      var next := NextStatus(kind, w.steps.Get(kind).status, OnSelect);
      SelectTransits(w, kind, selection, body);
      if w.current != At(kind) || next.None? || !world.rest {
        var why := if w.current != At(kind) || next.None? then WrongTransition else RefusedElsewhere;
        answer := RollBack(q, body, saved, why, through, now);
        return;
      }
      var attempt := w.steps.Get(kind).attempt + 1;
      var ok := QueueSelection(q, kind, body, attempt, now, Transit(w, q.command, body).value);
      if !ok {
        answer := RollBack(q, body, saved, RefusedElsewhere, through, now);
        return;
      }
      Advance(q.household, kind, Step(next.value, Some(body.parsed), attempt));
      answer := Conclude(q, body, saved, through, now);
    }

    // The jobs of a new attempt at what was selected, and for e-mail its identity; or nothing.
    method QueueRetrial(q: Request, kind: StepKind, body: Body, attempt: nat, now: real, ghost w: Workflow)
      returns (ok: bool)
      requires q.command == Command.Retry(kind) && body.SelectionBody? && UserStep(kind) && Consistent()
      requires q.household in db.workflows && Transit(db.workflows[q.household], q.command, body) == Some(w)
      requires attempt == db.workflows[q.household].steps.Get(kind).attempt + 1
      modifies jobs, identities
      ensures ok <==> (kind == Email ==> Mailbox.MayRetry(old(identities.db), q.household))
      ensures !ok ==> jobs.book == old(jobs.book) && identities.db == old(identities.db)
      ensures ok ==>
                && Agrees(jobs.book, identities.db, With(db, q.household, w))
                && RetriesEverything(old(jobs.book), jobs.book, old(identities.db), identities.db, q.household, kind,
                                     config.kindOf(body.parsed), attempt, now)
    {
      ok := true;
      if kind == Email {
        ok := RetryMailbox(q.household);
      }
      if !ok {
        return;
      }
      KeepsCoupled(db, old(identities.db), identities.db, q, body, w);
      TransitGrows(db.workflows[q.household], q.command, body);
      CommitKeepsBound(jobs.book, db, q, w);
      QueueRetry(q.household, kind, config.kindOf(body.parsed), attempt, now, db.workflows[q.household]);
      RetriesKeepsBound(old(jobs.book), jobs.book, With(db, q.household, w), q.household, kind,
                        config.kindOf(body.parsed), attempt, now);
    }

    /** `_retry_selection`: a new attempt at the stored selection, a missing namespace repaired first, and for
        e-mail the identity being provisioned again. */
    method Retry(q: Request, kind: StepKind, world: World, now: real) returns (answer: Answer)
      requires q.command == Command.Retry(kind) && Consistent()
      modifies this`db, jobs, identities
      ensures Consistent()
      ensures var lets := kind == Email ==> Mailbox.MayRetry(old(identities.db), q.household);
              (db, answer) == Execute(config, old(db), q, world.(rest := world.rest && lets), now)
      ensures !TookEffect(answer) ==> jobs.book == old(jobs.book) && identities.db == old(identities.db)
      ensures TookEffect(answer) ==>
                && UserStep(kind) && Scoped(old(db), q)
                && var body := BodyOf(config, old(db), q);
                && body.Some? && body.value.SelectionBody?
                && RetriesEverything(old(jobs.book), jobs.book, old(identities.db), identities.db, q.household, kind,
                                     config.kindOf(body.value.parsed),
                                     old(db).workflows[q.household].steps.Get(kind).attempt + 1, now)
    {
      var body := BodyOf(config, db, q);
      if body.None? {
        return Refused(BadRequest);
      }
      RetryReads(config, db, q, kind);
      var saved := db;
      ghost var through := world.(rest := world.rest
                                  && (kind == Email ==> Mailbox.MayRetry(identities.db, q.household)));
      var done := Begin(q, body.value, world.rollout, now, through);
      if done.Some? {
        return done.value;
      }
      var w := db.workflows[q.household];
      assert w == saved.workflows[q.household];
      var step := w.steps.Get(kind);
      var next := NextStatus(kind, step.status, OnRetry);
      RetryTransits(w, kind, body.value);
      if next.None? || !world.rest {
        var why := if next.None? then WrongTransition else RefusedElsewhere;
        answer := RollBack(q, body.value, saved, why, through, now);
        return;
      }
      ghost var w' := Advanced(w, kind, step.(status := next.value, attempt := step.attempt + 1));
      var ok := QueueRetrial(q, kind, body.value, step.attempt + 1, now, w');
      if !ok {
        answer := RollBack(q, body.value, saved, RefusedElsewhere, through, now);
        return;
      }
      Advance(q.household, kind, step.(status := next.value, attempt := step.attempt + 1));
      assert db.workflows[q.household] == w';
      answer := Conclude(q, body.value, saved, through, now);
    }

    // One inspection for what waits, and for e-mail there has to be an identity; or nothing.
    method QueueInspection(q: Request, kind: StepKind, ghost body: Body, now: real, ghost w: Workflow)
      returns (ok: bool, ghost waiting: nat)
      requires q.command == Command.Check(kind) && UserStep(kind) && Consistent()
      requires q.household in db.workflows && Transit(db.workflows[q.household], q.command, body) == Some(w)
      modifies jobs
      ensures ok <==> && Jobs.Waiting(old(jobs.book), q.household, JobKindOf(kind)) != {}
                      && (kind == Email ==> Mail.HasIdentity(identities.db, q.household, Mail.LIVE))
      ensures !ok ==> jobs.book == old(jobs.book)
      ensures ok ==>
                && Agrees(jobs.book, identities.db, With(db, q.household, w))
                && Jobs.IsNewest(old(jobs.book), Jobs.Waiting(old(jobs.book), q.household, JobKindOf(kind)), waiting)
                && Inspects(old(jobs.book), jobs.book, q.household, kind, db.workflows[q.household], waiting, now)
    {
      var saved := jobs.book;
      ok, waiting := Inspect(q.household, kind, db.workflows[q.household], now);
      var current := identities.CurrentForHousehold(q.household);
      if !ok || (kind == Email && current.None?) {
        jobs.book := saved;
        return false, 0;
      }
      TransitGrows(db.workflows[q.household], q.command, body);
      InspectsKeepsBound(saved, jobs.book, db, q, kind, db.workflows[q.household], w, waiting, now);
      KeepsCoupled(db, identities.db, identities.db, q, body, w);
    }

    /** `check`: the newest waiting job gives way to one that inspects what it waits for; for e-mail there has
        to be an identity. */
    method Check(q: Request, kind: StepKind, world: World, now: real) returns (answer: Answer, ghost waiting: nat)
      requires q.command == Command.Check(kind) && Consistent()
      modifies this`db, jobs
      ensures Consistent()
      ensures var lets := && UserStep(kind) && Jobs.Waiting(old(jobs.book), q.household, JobKindOf(kind)) != {}
                          && (kind == Email ==> Mail.HasIdentity(identities.db, q.household, Mail.LIVE));
              (db, answer) == Execute(config, old(db), q, world.(rest := world.rest && lets), now)
      ensures !TookEffect(answer) ==> jobs.book == old(jobs.book)
      ensures TookEffect(answer) ==>
                && UserStep(kind) && q.household in old(db).workflows
                && Jobs.IsNewest(old(jobs.book), Jobs.Waiting(old(jobs.book), q.household, JobKindOf(kind)), waiting)
                && Inspects(old(jobs.book), jobs.book, q.household, kind, old(db).workflows[q.household], waiting, now)
    {
      if !UserStep(kind) {
        return Refused(BadRequest), 0;
      }
      var saved, body := db, KindBody(kind);
      ghost var lets := && Jobs.Waiting(jobs.book, q.household, JobKindOf(kind)) != {}
                        && (kind == Email ==> Mail.HasIdentity(identities.db, q.household, Mail.LIVE));
      ghost var through := world.(rest := world.rest && lets);
      var done := Begin(q, body, world.rollout, now, through);
      if done.Some? {
        return done.value, 0;
      }
      var w := db.workflows[q.household];
      var next := NextStatus(kind, w.steps.Get(kind).status, OnCheck);
      CheckTransits(w, kind, body);
      if w.current != At(kind) || next.None? || !world.rest {
        var why := if w.current != At(kind) || next.None? then WrongTransition else RefusedElsewhere;
        answer := RollBack(q, body, saved, why, through, now);
        return answer, 0;
      }
      var ok;
      ok, waiting := QueueInspection(q, kind, body, now, Transit(w, q.command, body).value);
      if !ok {
        answer := RollBack(q, body, saved, RefusedElsewhere, through, now);
        return;
      }
      Advance(q.household, kind, w.steps.Get(kind).(status := next.value));
      answer := Conclude(q, body, saved, through, now);
    }

    // A reset's jobs.
    method TearDownForReset(q: Request, kind: StepKind, now: real, ghost w: Workflow)
      returns (ghost order: seq<nat>, ghost ids: seq<nat>, ghost repair: Option<nat>)
      requires q.command == Command.Reset(kind) && jobs.book.Valid() && AllKeysBound(jobs.book, db)
      requires q.household in db.workflows && Follows(db.workflows[q.household], w)
      modifies jobs
      ensures jobs.book.Valid() && AllKeysBound(jobs.book, With(db, q.household, w))
      ensures ResetLeaves(old(jobs.book), jobs.book, q.household, kind, w.version, now, order, ids, repair)
    {
      order, ids, repair := TearDownFrom(q.household, kind, db.workflows[q.household], now);
      ResetKeepsBound(old(jobs.book), jobs.book, db, q, kind, w, now, order, ids, repair);
    }

    lemma ResetSupersedes(before: Jobs.Book, after: Jobs.Book, household: string, kind: StepKind, version: nat,
                          now: real, order: seq<nat>, ids: seq<nat>, repair: Option<nat>)
      requires ResetLeaves(before, after, household, kind, version, now, order, ids, repair)
      ensures Mailbox.Superseded(before, after, Jobs.Sweep(household, "reset", None))
    {
      Mailbox.TearingDownSupersedes(before, after, Jobs.Sweep(household, "reset", None), version, now,
                                    Some(ResetScope(kind)), order, ids, if repair.Some? then {repair.value} else {});
    }

    // Everything of a reset but its workflow.
    method TakeDownForReset(q: Request, kind: StepKind, ghost body: Body, now: real, ghost w: Workflow)
      returns (ghost order: seq<nat>, ghost ids: seq<nat>, ghost repair: Option<nat>)
      requires q.command == Command.Reset(kind) && Consistent()
      requires q.household in db.workflows && Transit(db.workflows[q.household], q.command, body) == Some(w)
      modifies jobs, identities, configs
      ensures Agrees(jobs.book, identities.db, With(db, q.household, w))
      ensures ResetEverything(old(jobs.book), jobs.book, old(identities.db), identities.db, old(configs.tables),
                              configs.tables, q.household, kind, w.version, now, order, ids, repair)
    {
      TransitFollows(db.workflows[q.household], q.command, body);
      order, ids, repair := TearDownForReset(q, kind, now, w);
      if kind == Email {
        ResetSupersedes(old(jobs.book), jobs.book, q.household, kind, w.version, now, order, ids, repair);
        DisconnectMailbox(q.household, old(jobs.book), Jobs.Sweep(q.household, "reset", None));
      }
      KeepsCoupled(db, old(identities.db), identities.db, q, body, w);
      configs.TakeDown(Records.ByReset(q.household));
      ResetTakesBack(old(jobs.book), jobs.book, q.household, kind, w.version, now, order, ids, repair);
    }

    /** `reset_from`: what was provisioned from the step on is torn down, the runtime is taken out of service,
        and the step is open again. A mailbox is disconnected, and gone at once exactly when nothing of it may
        stand at a provider. */
    method ResetFrom(q: Request, kind: StepKind, world: World, now: real)
      returns (answer: Answer, ghost order: seq<nat>, ghost ids: seq<nat>, ghost repair: Option<nat>)
      requires q.command == Command.Reset(kind) && Consistent()
      modifies this`db, jobs, identities, configs
      ensures Consistent()
      ensures (db, answer) == Execute(config, old(db), q, world, now)
      ensures !TookEffect(answer) ==>
                && jobs.book == old(jobs.book) && identities.db == old(identities.db)
                && configs.tables == old(configs.tables)
      ensures TookEffect(answer) ==>
                && UserStep(kind) && q.household in db.workflows
                && ResetEverything(old(jobs.book), jobs.book, old(identities.db), identities.db,
                                   old(configs.tables), configs.tables, q.household, kind,
                                   db.workflows[q.household].version, now, order, ids, repair)
    {
      order, ids, repair := [], [], None;
      if !UserStep(kind) {
        return Refused(BadRequest), [], [], None;
      }
      var saved, body := db, KindBody(kind);
      var done := Begin(q, body, world.rollout, now, world);
      if done.Some? {
        return done.value, [], [], None;
      }
      var w := db.workflows[q.household];
      assert w == saved.workflows[q.household];
      var resettable := Resettable(w, kind);
      ResetTransits(w, kind, body);
      if !resettable || !world.rest {
        var why := if !resettable then WrongTransition else RefusedElsewhere;
        answer := RollBack(q, body, saved, why, world, now);
        return;
      }
      ghost var w' := Workflow(InProgress, At(kind), w.version + 1, ResetSteps(w.steps, kind));
      order, ids, repair := TakeDownForReset(q, kind, body, now, w');
      UpdateSteps(q.household, ResetSteps(w.steps, kind));
      UpdateWorkflow(q.household, InProgress, At(kind), w.version + 1);
      assert db.workflows[q.household] == w';
      answer := Conclude(q, body, saved, world, now);
    }

    // A cancellation's jobs.
    method TearDownForCancel(q: Request, now: real, ghost w: Workflow)
      returns (ghost order: seq<nat>, ghost ids: seq<nat>)
      requires q.command == Command.Cancel && jobs.book.Valid() && AllKeysBound(jobs.book, db)
      requires q.household in db.workflows && Follows(db.workflows[q.household], w)
      modifies jobs
      ensures jobs.book.Valid() && AllKeysBound(jobs.book, With(db, q.household, w))
      ensures Jobs.TornDown(old(jobs.book), jobs.book, Jobs.Sweep(q.household, "cancel", None), w.version, now, None,
                            order, ids, {})
      ensures Mailbox.Superseded(old(jobs.book), jobs.book, Jobs.Sweep(q.household, "cancel", None))
    {
      var cleanups;
      BoundsVersions(jobs.book, q.household, db.workflows[q.household]);
      cleanups, order := jobs.TearDown(q.household, "cancel", db.workflows[q.household].version + 1, now, None);
      ids := cleanups;
      TornDownKeepsBound(old(jobs.book), jobs.book, db, q, w, "cancel", now, None, order, ids, {});
      Mailbox.TearingDownSupersedes(old(jobs.book), jobs.book, Jobs.Sweep(q.household, "cancel", None), w.version, now,
                                    None, order, ids, {});
    }

    // Everything of a cancellation but its workflow.
    method TakeDownForCancel(q: Request, ghost body: Body, now: real, ghost w: Workflow)
      returns (ghost order: seq<nat>, ghost ids: seq<nat>)
      requires q.command == Command.Cancel && Consistent()
      requires q.household in db.workflows && Transit(db.workflows[q.household], q.command, body) == Some(w)
      modifies jobs, identities, configs
      ensures Agrees(jobs.book, identities.db, With(db, q.household, w))
      ensures CancelledEverything(old(jobs.book), jobs.book, old(identities.db), identities.db, old(configs.tables),
                                  configs.tables, q.household, w.version, now, order, ids)
    {
      TransitFollows(db.workflows[q.household], q.command, body);
      order, ids := TearDownForCancel(q, now, w);
      DisconnectMailbox(q.household, old(jobs.book), Jobs.Sweep(q.household, "cancel", None));
      KeepsCoupled(db, old(identities.db), identities.db, q, body, w);
      configs.TakeDown(Records.ByCancel(q.household));
      Jobs.TornDownMeans(old(jobs.book), jobs.book, Jobs.Sweep(q.household, "cancel", None), w.version, now, None,
                         order, ids, {});
    }

    /** `cancel`: everything live is torn down, and every step that was not verified is cancelled; the mailbox
        and the runtime as for a reset, except that a revision in use is not revoked. */
    method Cancel(q: Request, world: World, now: real)
      returns (answer: Answer, ghost order: seq<nat>, ghost ids: seq<nat>)
      requires q.command == Command.Cancel && Consistent()
      modifies this`db, jobs, identities, configs
      ensures Consistent()
      ensures (db, answer) == Execute(config, old(db), q, world, now)
      ensures !TookEffect(answer) ==>
                && jobs.book == old(jobs.book) && identities.db == old(identities.db)
                && configs.tables == old(configs.tables)
      ensures TookEffect(answer) ==>
                && q.household in db.workflows
                && CancelledEverything(old(jobs.book), jobs.book, old(identities.db), identities.db,
                                       old(configs.tables), configs.tables, q.household,
                                       db.workflows[q.household].version, now, order, ids)
    {
      order, ids := [], [];
      var saved, body := db, CancelBody;
      var done := Begin(q, body, world.rollout, now, world);
      if done.Some? {
        return done.value, [], [];
      }
      var w := db.workflows[q.household];
      assert w == saved.workflows[q.household];
      var ended := w.state in {Complete, Cancelled};
      CancelTransits(w, body);
      if ended || !world.rest {
        var why := if ended then WrongTransition else RefusedElsewhere;
        answer := RollBack(q, body, saved, why, world, now);
        return;
      }
      ghost var w' := Workflow(Cancelled, w.current, w.version + 1, CancelSteps(w.steps));
      order, ids := TakeDownForCancel(q, body, now, w');
      UpdateSteps(q.household, CancelSteps(w.steps));
      UpdateWorkflow(q.household, Cancelled, w.current, w.version + 1);
      assert db.workflows[q.household] == w';
      answer := Conclude(q, body, saved, world, now);
    }

    /** `disconnect_for_withdrawal`: what one consent authorised is superseded and torn down, and nothing
        else. Each live mailbox, number or binding it covered ends marked as being deleted, with a new cleanup
        job exactly when none was scheduled for it at this version. Called inside the withdrawal's own
        transaction; the workflow does not move. */
    method DisconnectForWithdrawal(household: string, types: set<Jobs.ResourceType>, now: real)
      returns (ids: seq<nat>, ghost order: seq<nat>, ghost swept: Jobs.Book)
      requires Consistent()
      modifies jobs, identities
      ensures Consistent()
      ensures types == {} || household !in db.workflows ==>
                ids == [] && jobs.book == old(jobs.book) && identities.db == old(identities.db)
      ensures types != {} && household in db.workflows ==>
                Jobs.Withdrawn(old(jobs.book), swept, jobs.book, household, KindsOf(types), types,
                               db.workflows[household].version, now, order, ids)
      ensures types != {} && household in db.workflows ==>
                Jobs.TakesBack(old(jobs.book), jobs.book, Jobs.Sweep(household, "withdrawal", Some(KindsOf(types))),
                               db.workflows[household].version, Some(types))
      ensures types != {} && household in db.workflows ==>
                forall r | r in Jobs.Live(old(jobs.book), household, Some(types)) ::
                  && r in jobs.book.resources && jobs.book.resources[r].status == Jobs.Deleting
                  && var key := Jobs.CleanupKey(household, r, db.workflows[household].version);
                  && (Jobs.QueuedAnew(old(jobs.book), jobs.book, key) <==> !old(jobs.book).HasIntent(key))
      ensures if types != {} && household in db.workflows && Jobs.EmailIdentity in types
              then Mailbox.Disconnects(old(identities.db), identities.db, household,
                                       Mailbox.HandedOver(old(jobs.book), household))
              else identities.db == old(identities.db)
    {
      order, swept := [], jobs.book;
      if types == {} || household !in db.workflows {
        return [], [], swept;
      }
      var version, kinds := db.workflows[household].version, KindsOf(types);
      jobs.SupersedeUnsettledJobs(Jobs.Sweep(household, "withdrawal", Some(kinds)));
      swept := jobs.book;
      ids, order := jobs.ScheduleRegisteredCleanup(household, version, now, Some(types));
      CleanupKeepsBound(old(jobs.book), swept, jobs.book, household, now, order, ids, db);
      EachIsQueued(old(jobs.book), swept, jobs.book, household, types, version, now, order, ids);
      Jobs.WithdrawnMeans(old(jobs.book), swept, jobs.book, household, kinds, types, version, now, order, ids);
      if Jobs.EmailIdentity in types {
        Mailbox.WithdrawingSupersedes(old(jobs.book), swept, jobs.book, household, kinds, types, version, now, order,
                                      ids);
        DisconnectMailbox(household, old(jobs.book), Jobs.Sweep(household, "withdrawal", Some(kinds)));
        KeepsUncoupled(db, old(identities.db), identities.db, household);
      }
    }
  }
}
