/** What a household's mailbox and its provisioning jobs have to do with each other: `select`, `check` and
    `retry` need the identity, and a reset, a cancellation and a withdrawal disconnect it in the
    transaction that supersedes its jobs - `_finish_safe_email_disconnect` of
    control_plane/onboarding/service.py over `finish_disconnect` of control_plane/email/repository.py. */
module OnboardingMailbox {
  import opened Basics
  import Commands = OnboardingCommands
  import Jobs = ProviderJobs
  import Mail = EmailIdentity

  // ---- what is still outstanding for a mailbox ----

  predicate SecretLeft(b: Jobs.Book, household: string) {
    exists id | id in b.jobs ::
      && b.jobs[id].household == household && b.jobs[id].kind == Jobs.BootstrapCleanupJob
      && b.jobs[id].operation == Jobs.DeleteEmailSecret && b.jobs[id].status != Jobs.Succeeded
  }

  predicate JobLeft(b: Jobs.Book, household: string) {
    exists id | id in b.jobs ::
      && b.jobs[id].household == household && b.jobs[id].kind == Jobs.EmailJob
      && b.jobs[id].status in {Jobs.Pending, Jobs.Running, Jobs.WaitingUser, Jobs.OutcomeUnknown}
  }

  predicate ResourceLeft(b: Jobs.Book, household: string) {
    exists r | r in b.resources ::
      && b.resources[r].household == household && b.resources[r].kind == Jobs.EmailIdentity
      && b.resources[r].status != Jobs.Deleted
  }

  // The three questions `finish_disconnect` asks.
  predicate Outstanding(b: Jobs.Book, household: string) {
    SecretLeft(b, household) || JobLeft(b, household) || ResourceLeft(b, household)
  }

  // A call for this mailbox may have reached its provider: one that was handed out and is not settled, or one
  // that no supersession takes back.
  ghost predicate CallLeft(b: Jobs.Book, household: string) {
    exists id | id in b.jobs :: var j := b.jobs[id];
      && j.household == household && j.kind == Jobs.EmailJob
      && (|| j.status == Jobs.Running || j.status == Jobs.WaitingUser || j.status == Jobs.OutcomeUnknown
          || (j.operation == Jobs.RevokeConsent && j.status == Jobs.Pending))
  }

  // A deletion of its secret is not done.
  ghost predicate SecretKept(b: Jobs.Book, household: string) {
    exists id | id in b.jobs :: var j := b.jobs[id];
      && j.household == household && j.kind == Jobs.BootstrapCleanupJob && j.operation == Jobs.DeleteEmailSecret
      && j.status != Jobs.Succeeded
  }

  // Something is recorded of it at a provider and not deleted.
  ghost predicate MailboxStands(b: Jobs.Book, household: string) {
    exists r | r in b.resources :: var x := b.resources[r];
      x.household == household && x.kind == Jobs.EmailIdentity && x.status != Jobs.Deleted
  }

  // Something of this mailbox may stand at its provider.
  ghost predicate HandedOver(b: Jobs.Book, household: string) {
    SecretKept(b, household) || CallLeft(b, household) || MailboxStands(b, household)
  }

  // ---- what a disconnect leaves ----

  // `begin_disconnect`, and then `finish_disconnect` for the identity that disconnects, if it may.
  ghost predicate Disconnects(before: Mail.Tables, after: Mail.Tables, household: string, outstanding: bool) {
    var begun := Mail.DisconnectBegun(before, household);
    if outstanding || !Mail.HasIdentity(begun, household, {Mail.Disconnecting}) then after == begun
    else exists id | id in begun.identities && begun.identities[id].household == household
                     && begun.identities[id].status == Mail.Disconnecting :: after == Mail.DisconnectFinished(begun, id)
  }

  predicate Undeleted(db: Mail.Tables, household: string) {
    exists id | id in db.identities ::
      db.identities[id].household == household && db.identities[id].status != Mail.Deleted
  }

  // ---- superseding and finishing in one transaction ----

  // What a sweep that covers mailbox jobs makes of one.
  lemma SweptMailboxJob(j: Jobs.Job, w: Jobs.Sweep)
    requires j.household == w.household && (w.kinds.Some? ==> Jobs.EmailJob in w.kinds.value)
    ensures var r := Jobs.Swept(j, w);
            && r.household == j.household && r.kind == j.kind && r.operation == j.operation
            && (j.kind == Jobs.EmailJob ==>
                  (r.status in {Jobs.Pending, Jobs.Running, Jobs.WaitingUser, Jobs.OutcomeUnknown}
                   <==> Jobs.Unsettled(j) || (Jobs.Exempt(j) && j.status == Jobs.Pending)))
            && (j.kind == Jobs.BootstrapCleanupJob ==> r == j)
  {
  }

  // The ledgers before and after a supersession with its cleanup, as far as mailboxes go.
  ghost predicate Superseded(before: Jobs.Book, after: Jobs.Book, w: Jobs.Sweep) {
    && (w.kinds.Some? ==> Jobs.EmailJob in w.kinds.value)
    && (forall id | id in before.jobs :: id in after.jobs && after.jobs[id] == Jobs.Swept(before.jobs[id], w))
    && (forall id | id in after.jobs && id !in before.jobs :: after.jobs[id].kind in {Jobs.CleanupJob, Jobs.RuntimeJob})
    && after.resources.Keys == before.resources.Keys
    && (forall r | r in before.resources ::
          || after.resources[r] == before.resources[r]
          || (before.resources[r].status != Jobs.Deleted
              && after.resources[r] == before.resources[r].(status := Jobs.Deleting)))
  }

  lemma CallsLeft(before: Jobs.Book, after: Jobs.Book, w: Jobs.Sweep)
    requires Superseded(before, after, w)
    ensures JobLeft(after, w.household) <==> CallLeft(before, w.household)
  {
    forall id | id in before.jobs && before.jobs[id].household == w.household
      ensures after.jobs[id].household == w.household && after.jobs[id].kind == before.jobs[id].kind
      ensures before.jobs[id].kind == Jobs.EmailJob ==>
                (after.jobs[id].status in {Jobs.Pending, Jobs.Running, Jobs.WaitingUser, Jobs.OutcomeUnknown}
                 <==> || Jobs.Unsettled(before.jobs[id])
                      || (Jobs.Exempt(before.jobs[id]) && before.jobs[id].status == Jobs.Pending))
    {
      SweptMailboxJob(before.jobs[id], w);
    }
    if CallLeft(before, w.household) {
      var id :| id in before.jobs && before.jobs[id].household == w.household && before.jobs[id].kind == Jobs.EmailJob
                && (Jobs.Unsettled(before.jobs[id])
                    || (Jobs.Exempt(before.jobs[id]) && before.jobs[id].status == Jobs.Pending));
      assert id in after.jobs;
    }
    if JobLeft(after, w.household) {
      var id :| id in after.jobs && after.jobs[id].household == w.household && after.jobs[id].kind == Jobs.EmailJob
                && after.jobs[id].status in {Jobs.Pending, Jobs.Running, Jobs.WaitingUser, Jobs.OutcomeUnknown};
      assert id in before.jobs;
      assert before.jobs[id].household == w.household;
    }
  }

  lemma SecretsLeft(before: Jobs.Book, after: Jobs.Book, w: Jobs.Sweep)
    requires Superseded(before, after, w)
    ensures SecretLeft(after, w.household) <==> SecretKept(before, w.household)
  {
    forall id | id in before.jobs
      ensures after.jobs[id].household == before.jobs[id].household && after.jobs[id].kind == before.jobs[id].kind
      ensures before.jobs[id].kind == Jobs.BootstrapCleanupJob ==> after.jobs[id] == before.jobs[id]
    {
    }
    if SecretKept(before, w.household) {
      var id :| id in before.jobs && before.jobs[id].household == w.household
                && before.jobs[id].kind == Jobs.BootstrapCleanupJob
                && before.jobs[id].operation == Jobs.DeleteEmailSecret && before.jobs[id].status != Jobs.Succeeded;
      assert id in after.jobs;
    }
  }

  /** What is outstanding once a household's mailbox jobs are superseded is exactly what may stand at a
      provider already: what was only pending no longer counts, and a cleanup that was scheduled does. */
  lemma OutstandingIsHandedOver(before: Jobs.Book, after: Jobs.Book, w: Jobs.Sweep)
    requires Superseded(before, after, w)
    ensures Outstanding(after, w.household) <==> HandedOver(before, w.household)
  {
    CallsLeft(before, after, w);
    SecretsLeft(before, after, w);
    assert ResourceLeft(after, w.household) <==> MailboxStands(before, w.household) by {
      if MailboxStands(before, w.household) {
        var r :| r in before.resources && before.resources[r].household == w.household
                 && before.resources[r].kind == Jobs.EmailIdentity && before.resources[r].status != Jobs.Deleted;
        assert r in after.resources;
      }
    }
  }

  lemma TearingDownSupersedes(before: Jobs.Book, after: Jobs.Book, w: Jobs.Sweep, version: nat, now: real,
                              types: Option<set<Jobs.ResourceType>>, order: seq<nat>, ids: seq<nat>, others: set<nat>)
    requires Jobs.TornDown(before, after, w, version, now, types, order, ids, others) && w.kinds == None
    requires forall id | id in others && id in after.jobs :: after.jobs[id].kind == Jobs.RuntimeJob
    ensures Superseded(before, after, w)
  {
    forall id | id in after.jobs && id !in before.jobs
      ensures after.jobs[id].kind in {Jobs.CleanupJob, Jobs.RuntimeJob}
    {
      if id in ids {
        var k :| 0 <= k < |ids| && ids[k] == id;
        assert after.jobs[ids[k]].kind == Jobs.CleanupJob;
      }
    }
  }

  lemma WithdrawingSupersedes(before: Jobs.Book, swept: Jobs.Book, after: Jobs.Book, household: string,
                              kinds: set<Jobs.JobKind>, types: set<Jobs.ResourceType>, version: nat, now: real,
                              order: seq<nat>, ids: seq<nat>)
    requires after.Valid() && Jobs.EmailJob in kinds
    requires Jobs.Withdrawn(before, swept, after, household, kinds, types, version, now, order, ids)
    ensures Superseded(before, after, Jobs.Sweep(household, "withdrawal", Some(kinds)))
  {
    forall id | id in after.jobs && id !in before.jobs
      ensures after.jobs[id].kind in {Jobs.CleanupJob, Jobs.RuntimeJob}
    {
      var k :| 0 <= k < |ids| && ids[k] == id;
      assert Jobs.JobFor(swept, after, Jobs.CleanupKey(household, order[k], version),
                         now + k as real * Jobs.MICROSECOND, ids[k]);
      assert after.jobs[id].key.CleanupKey?;
      assert Jobs.Matches(after.jobs[id].key, after.jobs[id].kind);
    }
  }

  // ---- what that means for the mailbox ----

  // The identity a household had now has this status, and every other is as it was.
  ghost predicate Ends(before: Mail.Tables, after: Mail.Tables, household: string, status: Mail.IdentityStatus) {
    && after.identities.Keys == before.identities.Keys && after.next == before.next
    && forall id | id in before.identities ::
         && after.identities[id].household == before.identities[id].household
         && after.identities[id].address == before.identities[id].address
         && (if before.identities[id].household == household && before.identities[id].status != Mail.Deleted
             then after.identities[id].status == status else after.identities[id] == before.identities[id])
  }

  // Nothing is held for the household any more.
  ghost predicate HoldsNothing(db: Mail.Tables, household: string) {
    forall a | a in db.reservations && db.reservations[a].household == household ::
      db.reservations[a].status in {Mail.Released, Mail.Expired}
  }

  lemma BeginningEnds(before: Mail.Tables, household: string)
    requires Mail.Consistent(before)
    ensures Ends(before, Mail.DisconnectBegun(before, household), household, Mail.Disconnecting)
    ensures Mail.Consistent(Mail.DisconnectBegun(before, household))
  {
    Mail.DisconnectKeeps(before, household);
  }

  lemma FinishingEnds(begun: Mail.Tables, household: string, id: nat)
    requires Mail.Consistent(begun) && id in begun.identities
    requires begun.identities[id].household == household && begun.identities[id].status == Mail.Disconnecting
    ensures var after := Mail.DisconnectFinished(begun, id);
            Mail.Consistent(after) && Ends(begun, after, household, Mail.Deleted) && HoldsNothing(after, household)
  {
    Mail.FinishKeeps(begun, id);
    var after := Mail.DisconnectFinished(begun, id);
    forall other | other in begun.identities && begun.identities[other].household == household && other != id
      ensures begun.identities[other].status == Mail.Deleted
    {
      assert Mail.OnePerHousehold(begun);
    }
    assert Mail.ReservedFor(begun);
  }

  lemma NothingToFinish(begun: Mail.Tables, household: string)
    requires Mail.Consistent(begun) && !Mail.HasIdentity(begun, household, {Mail.Disconnecting})
    requires forall id | id in begun.identities && begun.identities[id].household == household ::
               begun.identities[id].status in {Mail.Disconnecting, Mail.Deleted}
    ensures Ends(begun, begun, household, Mail.Deleted) && HoldsNothing(begun, household)
  {
    forall id | id in begun.identities && begun.identities[id].household == household
      ensures begun.identities[id].status == Mail.Deleted
    {
      assert begun.identities[id].status != Mail.Disconnecting;
    }
    assert Mail.ReservedFor(begun);
  }

  lemma EndsTwice(before: Mail.Tables, mid: Mail.Tables, after: Mail.Tables, household: string)
    requires Ends(before, mid, household, Mail.Disconnecting) && Ends(mid, after, household, Mail.Deleted)
    ensures Ends(before, after, household, Mail.Deleted)
  {
  }

  /** Afterwards the household has no live identity. The one it had is gone in the same transaction exactly
      when nothing was outstanding, and then no address is held for the household any more; otherwise it
      disconnects, and every reservation is as it was. Nobody else's identity has changed. */
  lemma DisconnectMeans(before: Mail.Tables, after: Mail.Tables, household: string, outstanding: bool)
    requires Mail.Consistent(before) && Disconnects(before, after, household, outstanding)
    ensures Mail.Consistent(after)
    ensures Ends(before, after, household, if outstanding then Mail.Disconnecting else Mail.Deleted)
    ensures if outstanding then after.reservations == before.reservations else HoldsNothing(after, household)
  {
    var begun := Mail.DisconnectBegun(before, household);
    BeginningEnds(before, household);
    if !outstanding {
      if Mail.HasIdentity(begun, household, {Mail.Disconnecting}) {
        var id :| id in begun.identities && begun.identities[id].household == household
                  && begun.identities[id].status == Mail.Disconnecting && after == Mail.DisconnectFinished(begun, id);
        FinishingEnds(begun, household, id);
      } else {
        assert forall id | id in begun.identities && begun.identities[id].household == household ::
            begun.identities[id].status in {Mail.Disconnecting, Mail.Deleted};
        NothingToFinish(begun, household);
      }
      EndsTwice(before, begun, after, household);
    }
  }

  lemma NoneDisconnecting(after: Mail.Tables, household: string)
    requires forall id | id in after.identities && after.identities[id].household == household ::
               after.identities[id].status == Mail.Deleted
    ensures !Mail.HasIdentity(after, household, {Mail.Disconnecting}) && !Mail.HasIdentity(after, household, Mail.LIVE)
  {
  }

  /** So a household that had a mailbox may choose one again at once exactly when nothing was outstanding,
      and what it chooses is nobody else's; while something is, it may choose none. */
  lemma MayChooseAgainIff(before: Mail.Tables, after: Mail.Tables, household: string, outstanding: bool,
                          option: Mail.EmailOption, address: Option<Mail.Address>, at: real)
    requires Mail.Consistent(before) && Disconnects(before, after, household, outstanding)
             && Undeleted(before, household)
    ensures Mail.MayCreate(after, household, option, address, at)
            <==> && !outstanding
                 && (option == Mail.OwnDomain ==> address.Some? && !Mail.DomainTaken(after, address.value.domain))
                 && (address.Some? ==> Mail.Obtainable(after, address.value, at))
  {
    Mail.MayCreateIffGranted(after, household, option, address, at);
    DisconnectMeans(before, after, household, outstanding);
    if outstanding {
      var id :| id in before.identities && before.identities[id].household == household
                && before.identities[id].status != Mail.Deleted;
      assert id in after.identities && after.identities[id].household == household;
      assert after.identities[id].status == Mail.Disconnecting;
      assert Mail.HasIdentity(after, household, {Mail.Disconnecting});
    } else {
      NoneDisconnecting(after, household);
    }
  }

  // ---- over whole runs ----

  datatype State = State(book: Jobs.Book, mail: Mail.Tables)

  ghost predicate Sweeps(before: Jobs.Book, after: Jobs.Book, w: Jobs.Sweep) {
    forall id | id in before.jobs :: id in after.jobs && after.jobs[id] == Jobs.Swept(before.jobs[id], w)
  }

  // `finish_disconnect` decides by what is outstanding.
  predicate Asks(e: Mail.Event, s: State) {
    e.FinishDisconnect? && e.id in s.mail.identities ==>
      e.unsettled == Outstanding(s.book, s.mail.identities[e.id].household)
  }

  // One step of everything: a supersession, for whomever and whatever reason; any other change of the ledger
  // that does not settle this job; or any statement on the identity tables.
  ghost predicate Step(s: State, s': State, job: nat) {
    || (s'.mail == s.mail && exists w :: Sweeps(s.book, s'.book, w))
    || (s'.mail == s.mail && job in s.book.jobs && job in s'.book.jobs && s'.book.jobs[job] == s.book.jobs[job])
    || (s'.book == s.book && exists e :: Asks(e, s) && s'.mail == Mail.Apply(s.mail, e))
  }

  // A job for this household's mailbox whose call may have reached its provider.
  predicate CallStands(b: Jobs.Book, job: nat, household: string) {
    && job in b.jobs && b.jobs[job].household == household && b.jobs[job].kind == Jobs.EmailJob
    && !Jobs.Exempt(b.jobs[job]) && Jobs.Unsettled(b.jobs[job])
  }

  // The identity disconnects still, unless its household was erased.
  predicate StillDisconnects(db: Mail.Tables, id: nat, household: string, address: Option<Mail.Address>) {
    id in db.identities ==>
      && db.identities[id].household == household && db.identities[id].status == Mail.Disconnecting
      && db.identities[id].address == address
  }

  lemma CallKeepsStanding(s: State, s': State, job: nat, household: string)
    requires Step(s, s', job) && CallStands(s.book, job, household)
    ensures CallStands(s'.book, job, household) && Outstanding(s'.book, household)
  {
  }

  lemma DisconnectsOn(s: State, e: Mail.Event, id: nat, household: string, address: Option<Mail.Address>)
    requires Asks(e, s) && Outstanding(s.book, household)
    requires Mail.Numbered(s.mail) && id < s.mail.next && StillDisconnects(s.mail, id, household, address)
    ensures var after := Mail.Apply(s.mail, e);
            Mail.Numbered(after) && id < after.next && StillDisconnects(after, id, household, address)
  {
  }

  ghost predicate MayChooseNothing(db: Mail.Tables, household: string) {
    forall option, address, at :: !Mail.MayCreate(db, household, option, address, at)
  }

  lemma DisconnectingBlocks(db: Mail.Tables, id: nat, household: string, address: Option<Mail.Address>)
    requires id in db.identities && StillDisconnects(db, id, household, address)
    ensures MayChooseNothing(db, household)
  {
    assert Mail.HasIdentity(db, household, {Mail.Disconnecting});
  }

  // Call, identity and household stand as they did.
  ghost predicate Stuck(s: State, job: nat, id: nat, household: string, address: Option<Mail.Address>) {
    && CallStands(s.book, job, household) && Mail.Numbered(s.mail) && id < s.mail.next
    && StillDisconnects(s.mail, id, household, address)
    && (id in s.mail.identities ==> MayChooseNothing(s.mail, household))
  }

  lemma StepStaysStuck(s: State, s': State, job: nat, id: nat, household: string, address: Option<Mail.Address>)
    requires Step(s, s', job) && Stuck(s, job, id, household, address)
    ensures Stuck(s', job, id, household, address)
  {
    CallKeepsStanding(s, s', job, household);
    if s'.mail != s.mail {
      var e :| Asks(e, s) && s'.mail == Mail.Apply(s.mail, e);
      assert Outstanding(s.book, household);
      DisconnectsOn(s, e, id, household, address);
    }
    if id in s'.mail.identities {
      DisconnectingBlocks(s'.mail, id, household, address);
    }
  }

  /** As long as a call for a mailbox may have reached its provider, no series of resets, cancellations,
      withdrawals and worker steps gives the mailbox back: the job stays unsettled, the identity stays
      disconnecting under its address, and its household may choose no other. */
  lemma {:induction false} CallKeepsMailbox(run: seq<State>, job: nat, id: nat, household: string,
                                            address: Option<Mail.Address>, k: nat)
    requires k < |run| && forall i | 0 < i < |run| :: Step(run[i - 1], run[i], job)
    requires Stuck(run[0], job, id, household, address)
    ensures Stuck(run[k], job, id, household, address)
  {
    if k > 0 {
      CallKeepsMailbox(run, job, id, household, address, k - 1);
      StepStaysStuck(run[k - 1], run[k], job, id, household, address);
    }
  }

  // ---- the step and the identity ----

  /** While a household's e-mail step is locked or open for a choice, it has no live identity. */
  ghost predicate Coupled(db: Commands.Tables, mail: Mail.Tables) {
    forall h | h in db.workflows && db.workflows[h].steps.email.status in {Commands.Locked, Commands.Available} ::
      !Mail.HasIdentity(mail, h, Mail.LIVE)
  }

  lemma OpensNoStep(c: Commands.Config, db: Commands.Tables, mail: Mail.Tables, e: Commands.Event)
    requires Coupled(db, mail) && !e.Issued?
    ensures Coupled(Commands.Apply(c, db, e), mail)
  {
    forall h | h in Commands.Apply(c, db, e).workflows
      ensures h in db.workflows
      ensures Commands.Apply(c, db, e).workflows[h].steps.email.status in {Commands.Locked, Commands.Available}
              ==> db.workflows[h].steps.email.status in {Commands.Locked, Commands.Available}
    {
    }
  }

  lemma RevivesNone(mail: Mail.Tables, f: Mail.Event, household: string)
    requires !f.CreateSelected? && !Mail.HasIdentity(mail, household, Mail.LIVE)
    ensures !Mail.HasIdentity(Mail.Apply(mail, f), household, Mail.LIVE)
  {
    forall id | id in Mail.Apply(mail, f).identities && Mail.Apply(mail, f).identities[id].household == household
      ensures Mail.Apply(mail, f).identities[id].status !in Mail.LIVE
    {
      assert id in mail.identities && mail.identities[id].household == household;
      assert mail.identities[id].status !in Mail.LIVE;
      Mail.LiveIffIn(mail.identities[id].status);
    }
  }

  /** Nothing the worker, the bootstrap, the sweeps or the health monitor do changes that: they open no
      e-mail step, and they bring no identity back to life. */
  lemma EventsKeepCoupled(c: Commands.Config, db: Commands.Tables, mail: Mail.Tables, e: Commands.Event, f: Mail.Event)
    requires Coupled(db, mail) && !e.Issued? && !f.CreateSelected?
    ensures Coupled(Commands.Apply(c, db, e), Mail.Apply(mail, f))
  {
    OpensNoStep(c, db, mail, e);
    forall h | !Mail.HasIdentity(mail, h, Mail.LIVE)
      ensures !Mail.HasIdentity(Mail.Apply(mail, f), h, Mail.LIVE)
    {
      RevivesNone(mail, f, h);
    }
  }

  /** So where the e-mail step is open, a choice is refused for the household's own sake only while an
      earlier mailbox disconnects. */
  lemma OnlyDisconnectingBlocks(db: Commands.Tables, mail: Mail.Tables, household: string,
                                option: Mail.EmailOption, address: Option<Mail.Address>, at: real)
    requires Coupled(db, mail) && household in db.workflows
    requires db.workflows[household].steps.email.status == Commands.Available
    ensures Mail.MayCreate(mail, household, option, address, at)
            <==> && !Mail.HasIdentity(mail, household, {Mail.Disconnecting})
                 && (option == Mail.OwnDomain ==> address.Some? && !Mail.DomainTaken(mail, address.value.domain))
                 && (address.Some? ==> Mail.Obtainable(mail, address.value, at))
  {
    Mail.MayCreateIffGranted(mail, household, option, address, at);
    assert db.workflows[household].steps.email.status in {Commands.Locked, Commands.Available};
  }

  // ---- what the commands do to the identity ----

  // What a parsed e-mail selection asks for.
  datatype Choice = Choice(option: Mail.EmailOption, address: Option<Mail.Address>)

  // `select` of control_plane/email/service.py: created, and being provisioned.
  function Chosen(db: Mail.Tables, household: string, choice: Choice, now: real): (r: Mail.Tables) {
    Mail.Moved(Mail.Created(db, household, choice.option, choice.address, now), db.next, {Mail.Selected},
               Mail.Provisioning)
  }

  // An identity whose provisioning may be tried again.
  ghost predicate Retryable(db: Mail.Tables, household: string, id: nat) {
    && id in db.identities && db.identities[id].household == household
    && var s := db.identities[id].status;
       s == Mail.Provisioning || s == Mail.WaitingUser || s == Mail.NeedsAttention || s == Mail.OutcomeUnknown
  }

  ghost predicate MayRetry(db: Mail.Tables, household: string) {
    exists id :: Retryable(db, household, id)
  }

  // It is being provisioned again, and nothing else changed.
  ghost predicate Retries(before: Mail.Tables, after: Mail.Tables, household: string) {
    exists id :: Retryable(before, household, id)
                 && Mail.OneMoved(before, after, id, {before.identities[id].status}, Mail.Provisioning)
  }

  // The live identity is the only one a retry can be for.
  lemma CurrentDecides(db: Mail.Tables, household: string, current: nat)
    requires Mail.OnePerHousehold(db) && Mail.IsCurrent(db, household, current)
    ensures MayRetry(db, household) <==> db.identities[current].status in Mail.RETRYABLE
  {
    Mail.LiveIffIn(db.identities[current].status);
    if id :| Retryable(db, household, id) {
      assert id == current;
    }
    if db.identities[current].status in Mail.RETRYABLE {
      assert Retryable(db, household, current);
    }
  }

  lemma NoneToRetry(db: Mail.Tables, household: string)
    requires !Mail.HasIdentity(db, household, Mail.LIVE)
    ensures !MayRetry(db, household)
  {
    forall id | id in db.identities && db.identities[id].household == household
      ensures !Retryable(db, household, id)
    {
      Mail.LiveIffIn(db.identities[id].status);
    }
  }

  lemma MovedRetries(before: Mail.Tables, household: string, current: nat)
    requires Mail.IsCurrent(before, household, current) && before.identities[current].status in Mail.RETRYABLE
    ensures Retries(before, Mail.Moved(before, current, Mail.RETRYABLE, Mail.Provisioning), household)
  {
    assert Retryable(before, household, current);
  }

  // Every other household's identities are as they were.
  ghost predicate OthersUntouched(before: Mail.Tables, after: Mail.Tables, household: string) {
    && (forall id | id in before.identities && before.identities[id].household != household ::
          id in after.identities && after.identities[id] == before.identities[id])
    && (forall id | id in after.identities && after.identities[id].household != household ::
          id in before.identities && after.identities[id] == before.identities[id])
  }

  lemma OthersKeepTheirs(before: Mail.Tables, after: Mail.Tables, household: string, other: string)
    requires OthersUntouched(before, after, household) && other != household
    requires !Mail.HasIdentity(before, other, Mail.LIVE)
    ensures !Mail.HasIdentity(after, other, Mail.LIVE)
  {
    forall id | id in after.identities && after.identities[id].household == other
      ensures after.identities[id].status !in Mail.LIVE
    {
      assert id in before.identities;
      assert before.identities[id].household == other ==> before.identities[id].status !in Mail.LIVE;
    }
  }

  lemma ChoosingKeeps(db: Mail.Tables, household: string, choice: Choice, now: real)
    requires Mail.Consistent(db) && Mail.MayCreate(db, household, choice.option, choice.address, now)
    ensures var after := Chosen(db, household, choice, now);
            Mail.Consistent(after) && OthersUntouched(db, after, household)
  {
    Mail.CreateKeeps(db, household, choice.option, choice.address, now);
    Mail.MoveKeeps(Mail.Created(db, household, choice.option, choice.address, now), db.next, {Mail.Selected},
                   Mail.Provisioning);
  }

  lemma RetryingKeeps(before: Mail.Tables, after: Mail.Tables, household: string)
    requires Mail.Consistent(before) && Retries(before, after, household)
    ensures Mail.Consistent(after) && OthersUntouched(before, after, household)
  {
    var id :| Retryable(before, household, id)
              && Mail.OneMoved(before, after, id, {before.identities[id].status}, Mail.Provisioning);
    assert after == Mail.Moved(before, id, Mail.RETRYABLE, Mail.Provisioning);
    Mail.MoveKeeps(before, id, Mail.RETRYABLE, Mail.Provisioning);
  }

  lemma EndingLeavesNone(before: Mail.Tables, after: Mail.Tables, household: string, status: Mail.IdentityStatus)
    requires Ends(before, after, household, status) && status in {Mail.Disconnecting, Mail.Deleted}
    ensures OthersUntouched(before, after, household)
    ensures !Mail.HasIdentity(after, household, Mail.LIVE)
  {
    forall id | id in after.identities && after.identities[id].household == household
      ensures after.identities[id].status !in Mail.LIVE
    {
      assert id in before.identities;
      Mail.LiveIffIn(after.identities[id].status);
    }
  }

  lemma DisconnectingKeeps(before: Mail.Tables, after: Mail.Tables, household: string, outstanding: bool)
    requires Mail.Consistent(before) && Disconnects(before, after, household, outstanding)
    ensures Mail.Consistent(after) && OthersUntouched(before, after, household)
    ensures !Mail.HasIdentity(after, household, Mail.LIVE)
  {
    DisconnectMeans(before, after, household, outstanding);
    EndingLeavesNone(before, after, household, if outstanding then Mail.Disconnecting else Mail.Deleted);
  }

  /** A command on one household's workflow keeps step and identity coupled, if its own are. */
  lemma CommandKeepsCoupled(db: Commands.Tables, before: Mail.Tables, after: Mail.Tables, household: string,
                            w: Commands.Workflow)
    requires Coupled(db, before) && OthersUntouched(before, after, household)
    requires w.steps.email.status in {Commands.Locked, Commands.Available} ==>
               !Mail.HasIdentity(after, household, Mail.LIVE)
    ensures Coupled(db.(workflows := db.workflows[household := w]), after)
  {
    forall h | h in db.workflows && h != household
               && db.workflows[h].steps.email.status in {Commands.Locked, Commands.Available}
      ensures !Mail.HasIdentity(after, h, Mail.LIVE)
    {
      OthersKeepTheirs(before, after, household, h);
    }
  }
}
