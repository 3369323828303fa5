/** What the commands of control_plane/onboarding/service.py do to the workflow and idempotency tables,
    on values: the transition table of control_plane/onboarding/state.py, replay of a repeated command,
    and the runs in which commands, the provisioning worker and membership changes interleave. */
module OnboardingCommands {
  import opened Basics

  datatype StepKind = Profile | Email | WhatsApp | PrimaryChannel

  datatype StepStatus = Locked | Available | Selected | Provisioning | WaitingUser | Verifying | Verified
                      | StepFailed | StepCancelled

  datatype WorkflowState = ProfileRequired | InProgress | RuntimeProvisioning | Activating | Complete | Cancelled

  datatype CurrentStep = At(kind: StepKind) | AtRuntime

  predicate UserStep(kind: StepKind) {
    kind != Profile
  }

  // ---- the transition table ----

  datatype Trigger = OnSaveProfile | OnSelect | OnRetry | OnCheck | OnVerifyResult

  function NextStatus(kind: StepKind, current: StepStatus, trigger: Trigger): (next: Option<StepStatus>) {
    match trigger
    case OnSaveProfile => if kind == Profile && current == Available then Some(Verified) else None
    case OnSelect => if UserStep(kind) && current == Available then Some(Provisioning) else None
    case OnRetry => if UserStep(kind) && current == StepFailed then Some(Provisioning) else None
    case OnCheck => if UserStep(kind) && current == WaitingUser then Some(Verifying) else None
    case OnVerifyResult =>
      if UserStep(kind) && current in {Provisioning, WaitingUser, Verifying} then Some(Verified) else None
  }

  // ---- rows ----

  datatype Step = Step(status: StepStatus, selection: Option<string>, attempt: nat)

  datatype Steps = Steps(profile: Step, email: Step, whatsApp: Step, channel: Step) {
    function Get(kind: StepKind): (s: Step) {
      match kind
      case Profile => profile case Email => email case WhatsApp => whatsApp case PrimaryChannel => channel
    }

    function Set(kind: StepKind, s: Step): (steps: Steps) {
      match kind
      case Profile => this.(profile := s)
      case Email => this.(email := s)
      case WhatsApp => this.(whatsApp := s)
      case PrimaryChannel => this.(channel := s)
    }

    function WithStatus(kind: StepKind, status: StepStatus): (steps: Steps) {
      Set(kind, Get(kind).(status := status))
    }
  }

  datatype Workflow = Workflow(state: WorkflowState, current: CurrentStep, version: nat, steps: Steps)

  const UNTOUCHED := Step(Locked, None, 0)

  const NEW_WORKFLOW := Workflow(ProfileRequired, At(Profile), 0,
                                 Steps(Step(Available, None, 0), UNTOUCHED, UNTOUCHED, UNTOUCHED))

  datatype Command =
    | SaveProfile(profile: string)
    | Select(kind: StepKind, selection: string)
    | Retry(kind: StepKind)
    | Check(kind: StepKind)
    | Reset(kind: StepKind)
    | Cancel

  datatype Request = Request(account: string, household: string, key: string, expected: int, command: Command)

  datatype Route = ProfileRoute | SelectRoute(kind: StepKind) | RetryRoute(kind: StepKind)
                 | CheckRoute(kind: StepKind) | ResetRoute(kind: StepKind) | CancelRoute

  // What a request's digest is taken over. The expected version and the household are not part of it.
  datatype Body = ProfileBody(profile: string) | SelectionBody(parsed: string) | KindBody(kind: StepKind) | CancelBody

  datatype IdemKey = IdemKey(account: string, route: Route, key: string)

  datatype Snapshot = Snapshot(household: string, workflow: Workflow)

  datatype IdemRow = IdemRow(body: Body, snapshot: Snapshot, expiresAt: real)

  // `members` holds the active memberships of households that are not being deleted.
  datatype Tables = Tables(workflows: map<string, Workflow>, members: set<(string, string)>,
                           idem: map<IdemKey, IdemRow>)

  const IDEMPOTENCY_TTL_SECONDS: real := 86400.0

  // The deployment: how a selection is parsed and derived (None: refused), and the kind it names.
  datatype Config = Config(adapter: (StepKind, string, string) -> Option<string>, kindOf: string -> string)

  // Per call: whether the e-mail rollout gate lets it through, and whether the rows outside these tables
  // (consent receipts, the e-mail identity, the waiting job) let the rest of the transaction through.
  datatype World = World(rollout: bool, rest: bool)

  datatype Refusal = BadRequest | KeyReused | NotFound | NotOffered | StaleVersion | WrongTransition | RefusedElsewhere

  datatype Answer = Done(snapshot: Snapshot, replayed: bool) | Refused(why: Refusal)

  // ---- one command ----

  function RouteOf(command: Command): (route: Route) {
    match command
    case SaveProfile(_) => ProfileRoute
    case Select(kind, _) => SelectRoute(kind)
    case Retry(kind) => RetryRoute(kind)
    case Check(kind) => CheckRoute(kind)
    case Reset(kind) => ResetRoute(kind)
    case Cancel => CancelRoute
  }

  function IdemKeyOf(q: Request): (key: IdemKey) {
    IdemKey(q.account, RouteOf(q.command), q.key)
  }

  predicate Scoped(db: Tables, q: Request) {
    q.household in db.workflows && (q.account, q.household) in db.members
  }

  function Parsed(c: Config, kind: StepKind, household: string, selection: string): (body: Option<Body>) {
    if !UserStep(kind) then None else
    match c.adapter(kind, household, selection)
    case None => None
    case Some(parsed) => Some(SelectionBody(parsed))
  }

  // None: refused before anything is looked up. `retry` reads the stored selection here already.
  function BodyOf(c: Config, db: Tables, q: Request): (body: Option<Body>) {
    match q.command
    case SaveProfile(profile) => Some(ProfileBody(profile))
    case Select(kind, selection) => Parsed(c, kind, q.household, selection)
    case Retry(kind) =>
      if !Scoped(db, q) then None else
      (match db.workflows[q.household].steps.Get(kind).selection
       case None => None
       case Some(selection) => Parsed(c, kind, q.household, selection))
    case Check(kind) => if UserStep(kind) then Some(KindBody(kind)) else None
    case Reset(kind) => if UserStep(kind) then Some(KindBody(kind)) else None
    case Cancel => Some(CancelBody)
  }

  function Cleared(s: Step, status: StepStatus): (r: Step) {
    Step(status, None, s.attempt)
  }

  // The step becomes available and what follows it locked, without their selections.
  function ResetSteps(steps: Steps, kind: StepKind): (r: Steps) {
    match kind
    case Profile => steps
    case Email => steps.(email := Cleared(steps.email, Available), whatsApp := Cleared(steps.whatsApp, Locked),
                         channel := Cleared(steps.channel, Locked))
    case WhatsApp => steps.(whatsApp := Cleared(steps.whatsApp, Available), channel := Cleared(steps.channel, Locked))
    case PrimaryChannel => steps.(channel := Cleared(steps.channel, Available))
  }

  predicate Resettable(w: Workflow, kind: StepKind) {
    var status := w.steps.Get(kind).status;
    status == Verified || (kind == Email && status == WaitingUser)
  }

  function CancelStep(s: Step): (r: Step) {
    if s.status == Verified then s else s.(status := StepCancelled)
  }

  function CancelSteps(steps: Steps): (r: Steps) {
    Steps(CancelStep(steps.profile), CancelStep(steps.email), CancelStep(steps.whatsApp), CancelStep(steps.channel))
  }

  // The workflow a command leaves, None where it is refused from this state.
  function Transit(w: Workflow, command: Command, body: Body): (r: Option<Workflow>) {
    match command
    case SaveProfile(_) =>
      if NextStatus(Profile, w.steps.profile.status, OnSaveProfile).None? then None else
      var saved := w.steps.WithStatus(Profile, Verified);
      Some(Workflow(InProgress, At(Email), w.version + 1,
                    if saved.email.status == Locked then saved.WithStatus(Email, Available) else saved))
    case Select(kind, _) =>
      var step := w.steps.Get(kind);
      if w.current != At(kind) || NextStatus(kind, step.status, OnSelect).None? then None else
      var selection := if body.SelectionBody? then Some(body.parsed) else None;
      Some(w.(version := w.version + 1, steps := w.steps.Set(kind, Step(Provisioning, selection, step.attempt + 1))))
    case Retry(kind) =>
      var step := w.steps.Get(kind);
      if NextStatus(kind, step.status, OnRetry).None? then None else
      Some(w.(version := w.version + 1,
              steps := w.steps.Set(kind, step.(status := Provisioning, attempt := step.attempt + 1))))
    case Check(kind) =>
      if w.current != At(kind) || NextStatus(kind, w.steps.Get(kind).status, OnCheck).None? then None else
      Some(w.(version := w.version + 1, steps := w.steps.WithStatus(kind, Verifying)))
    case Reset(kind) =>
      if !UserStep(kind) || !Resettable(w, kind) then None else
      Some(Workflow(InProgress, At(kind), w.version + 1, ResetSteps(w.steps, kind)))
    case Cancel =>
      if w.state in {Complete, Cancelled} then None else
      Some(w.(state := Cancelled, version := w.version + 1, steps := CancelSteps(w.steps)))
  }

  predicate RolloutGated(command: Command) {
    (command.Select? || command.Retry?) && command.kind == Email
  }

  // A row under the same key that is still valid answers for the command.
  predicate Remembered(db: Tables, key: IdemKey, now: real) {
    key in db.idem && now < db.idem[key].expiresAt
  }

  // The outcome of a command: the tables it leaves, and its answer.
  function Execute(c: Config, db: Tables, q: Request, world: World, now: real): (r: (Tables, Answer)) {
    var key := IdemKeyOf(q);
    match BodyOf(c, db, q)
    case None => (db, Refused(BadRequest))
    case Some(body) =>
      if Remembered(db, key, now) then
        (db, if db.idem[key].body == body then Done(db.idem[key].snapshot, true) else Refused(KeyReused))
      else if !Scoped(db, q) then (db, Refused(NotFound))
      else if RolloutGated(q.command) && !world.rollout then (db, Refused(NotOffered))
      else if db.workflows[q.household].version != q.expected then (db, Refused(StaleVersion))
      else match Transit(db.workflows[q.household], q.command, body)
           case None => (db, Refused(WrongTransition))
           case Some(w) =>
             if !world.rest then (db, Refused(RefusedElsewhere)) else
             var snapshot := Snapshot(q.household, w);
             (db.(workflows := db.workflows[q.household := w],
                  idem := db.idem[key := IdemRow(body, snapshot, now + IDEMPOTENCY_TTL_SECONDS)]),
              Done(snapshot, false))
  }

  // The command took effect.
  predicate Accepted(c: Config, db: Tables, q: Request, world: World, now: real) {
    var answer := Execute(c, db, q, world, now).1;
    answer.Done? && !answer.replayed
  }

  // ---- runs ----

  datatype Event =
    | Issued(request: Request, world: World, at: real)
    | StepVerified(household: string, kind: StepKind)
    | StepProblem(household: string, kind: StepKind, status: StepStatus)
    | RuntimePrepared(household: string)
    | RuntimeActivated(household: string)
    | RestrictionRequired(household: string)
    | MembershipChanged(members: set<(string, string)>)
    | ExpiredSwept(at: real)

  function Following(kind: StepKind): (next: StepKind) {
    if kind == Email then WhatsApp else PrimaryChannel
  }

  // What the provisioning worker and the bootstrap do to a workflow; guarded, they may do nothing.
  function WorkerMove(w: Workflow, e: Event): (r: Workflow) {
    match e
    case StepVerified(_, kind) =>
      if w.state == Cancelled || NextStatus(kind, w.steps.Get(kind).status, OnVerifyResult).None? then w else
      var steps := w.steps.WithStatus(kind, Verified);
      if kind == PrimaryChannel then Workflow(RuntimeProvisioning, AtRuntime, w.version + 1, steps) else
      var next := Following(kind);
      w.(current := At(next), version := w.version + 1,
         steps := if steps.Get(next).status == Locked then steps.WithStatus(next, Available) else steps)
    case StepProblem(_, kind, status) =>
      if w.state == Cancelled || w.steps.Get(kind).status !in {Provisioning, WaitingUser, Verifying}
         || status !in {WaitingUser, Verifying, StepFailed} then w
      else w.(steps := w.steps.WithStatus(kind, status))
    case RuntimePrepared(_) =>
      if w.state != RuntimeProvisioning then w else w.(state := Activating, version := w.version + 1)
    case RuntimeActivated(_) =>
      if w.state !in {RuntimeProvisioning, Activating} then w
      else w.(state := Complete, current := AtRuntime, version := w.version + 1)
    case RestrictionRequired(_) =>
      if w.state !in {RuntimeProvisioning, Activating} then w
      else w.(state := InProgress, current := At(Email), version := w.version + 1)
    case _ => w
  }

  function Apply(c: Config, db: Tables, e: Event): (r: Tables) {
    match e
    case Issued(q, world, at) => Execute(c, db, q, world, at).0
    case MembershipChanged(members) => db.(members := members)
    case ExpiredSwept(at) => db.(idem := map k | k in db.idem && db.idem[k].expiresAt >= at :: db.idem[k])
    case _ =>
      if e.household in db.workflows
      then db.(workflows := db.workflows[e.household := WorkerMove(db.workflows[e.household], e)])
      else db
  }

  function Run(c: Config, db: Tables, events: seq<Event>): (r: Tables)
    decreases |events|
  {
    if events == [] then db else Run(c, Apply(c, db, events[0]), events[1..])
  }

  // ---- what a command answers and changes, condition by condition ----

  function Place(kind: StepKind): (n: nat) {
    match kind case Profile => 0 case Email => 1 case WhatsApp => 2 case PrimaryChannel => 3
  }

  lemma StepsAreTheirFields(steps: Steps, s: Step, kind: StepKind, other: StepKind)
    ensures steps.Get(Profile) == steps.profile && steps.Get(Email) == steps.email
            && steps.Get(WhatsApp) == steps.whatsApp && steps.Get(PrimaryChannel) == steps.channel
    ensures steps.Set(kind, s).Get(other) == if other == kind then s else steps.Get(other)
  {
  }

  // The states a command is accepted in.
  ghost predicate Admitted(w: Workflow, command: Command) {
    match command
    case SaveProfile(_) => w.steps.profile.status == Available
    case Select(kind, _) => kind != Profile && w.current == At(kind) && w.steps.Get(kind).status == Available
    case Retry(kind) => kind != Profile && w.steps.Get(kind).status == StepFailed
    case Check(kind) => kind != Profile && w.current == At(kind) && w.steps.Get(kind).status == WaitingUser
    case Reset(kind) =>
      && kind != Profile
      && (w.steps.Get(kind).status == Verified || (kind == Email && w.steps.email.status == WaitingUser))
    case Cancel => w.state != Complete && w.state != Cancelled
  }

  // This step is now such, and every other is as it was.
  ghost predicate OneStep(before: Steps, after: Steps, kind: StepKind, s: Step) {
    after.Get(kind) == s && forall k: StepKind | k != kind :: after.Get(k) == before.Get(k)
  }

  // Of these steps in their order, this one is open again, those after it are locked, and none of them keeps its
  // selection; those before it are as they were.
  ghost predicate OpenAgainFrom(before: Steps, after: Steps, kind: StepKind) {
    forall k: StepKind ::
      var s := before.Get(k);
      after.Get(k) == if Place(k) < Place(kind) then s
                      else Step(if k == kind then Available else Locked, None, s.attempt)
  }

  ghost predicate CalledOff(before: Steps, after: Steps) {
    forall k: StepKind ::
      var s := before.Get(k);
      after.Get(k) == if s.status == Verified then s else Step(StepCancelled, s.selection, s.attempt)
  }

  /** What an accepted command makes of a workflow: its version is one higher, and the step it is about - or those
      from it on, or all - has the state it asks for. */
  ghost predicate Moves(w: Workflow, w': Workflow, command: Command, body: Body) {
    && w'.version == w.version + 1
    && match command
       case SaveProfile(_) =>
         && w'.state == InProgress && w'.current == At(Email)
         && w'.steps.profile == Step(Verified, w.steps.profile.selection, w.steps.profile.attempt)
         && w'.steps.email == Step(if w.steps.email.status == Locked then Available else w.steps.email.status,
                                   w.steps.email.selection, w.steps.email.attempt)
         && w'.steps.whatsApp == w.steps.whatsApp && w'.steps.channel == w.steps.channel
       case Select(kind, _) =>
         && w'.state == w.state && w'.current == w.current
         && OneStep(w.steps, w'.steps, kind,
                    Step(Provisioning, if body.SelectionBody? then Some(body.parsed) else None,
                         w.steps.Get(kind).attempt + 1))
       case Retry(kind) =>
         && w'.state == w.state && w'.current == w.current
         && OneStep(w.steps, w'.steps, kind,
                    Step(Provisioning, w.steps.Get(kind).selection, w.steps.Get(kind).attempt + 1))
       case Check(kind) =>
         && w'.state == w.state && w'.current == w.current
         && OneStep(w.steps, w'.steps, kind,
                    Step(Verifying, w.steps.Get(kind).selection, w.steps.Get(kind).attempt))
       case Reset(kind) =>
         w'.state == InProgress && w'.current == At(kind) && OpenAgainFrom(w.steps, w'.steps, kind)
       case Cancel =>
         w'.state == Cancelled && w'.current == w.current && CalledOff(w.steps, w'.steps)
  }

  lemma ResetOpensAgain(steps: Steps, kind: StepKind)
    requires kind != Profile
    ensures OpenAgainFrom(steps, ResetSteps(steps, kind), kind)
  {
  }

  lemma CancelCallsOff(steps: Steps)
    ensures CalledOff(steps, CancelSteps(steps))
  {
  }

  lemma TransitIsAdmitted(w: Workflow, command: Command, body: Body)
    ensures Transit(w, command, body).Some? <==> Admitted(w, command)
  {
  }

  lemma TransitMoves(w: Workflow, command: Command, body: Body)
    requires Transit(w, command, body).Some?
    ensures Moves(w, Transit(w, command, body).value, command, body)
  {
    match command
    case Reset(kind) => ResetOpensAgain(w.steps, kind);
    case Cancel => CancelCallsOff(w.steps);
    case _ =>
  }

  // What a request says once it is read: its profile, its selection - a retry's is the one stored - or its step.
  ghost predicate Reads(c: Config, db: Tables, q: Request, body: Body) {
    match q.command
    case SaveProfile(profile) => body == ProfileBody(profile)
    case Select(kind, selection) =>
      kind != Profile && body.SelectionBody? && c.adapter(kind, q.household, selection) == Some(body.parsed)
    case Retry(kind) =>
      && kind != Profile && q.household in db.workflows && (q.account, q.household) in db.members
      && db.workflows[q.household].steps.Get(kind).selection.Some? && body.SelectionBody?
      && c.adapter(kind, q.household, db.workflows[q.household].steps.Get(kind).selection.value) == Some(body.parsed)
    case Check(kind) => kind != Profile && body == KindBody(kind)
    case Reset(kind) => kind != Profile && body == KindBody(kind)
    case Cancel => body == CancelBody
  }

  lemma BodyIsRead(c: Config, db: Tables, q: Request, body: Body)
    ensures BodyOf(c, db, q) == Some(body) <==> Reads(c, db, q, body)
  {
  }

  // Two requests go to one address: the same command on the same step.
  ghost predicate SameRoute(a: Command, b: Command) {
    match a
    case SaveProfile(_) => b.SaveProfile?
    case Select(kind, _) => b.Select? && b.kind == kind
    case Retry(kind) => b == Command.Retry(kind)
    case Check(kind) => b == Command.Check(kind)
    case Reset(kind) => b == Command.Reset(kind)
    case Cancel => b == Command.Cancel
  }

  /** A key is one account's, for one command on one step. */
  lemma KeysMatchIff(q: Request, other: Request)
    ensures IdemKeyOf(q) == IdemKeyOf(other)
            <==> q.account == other.account && q.key == other.key && SameRoute(q.command, other.command)
  {
  }

  // The request is one of the household's members, and not refused for what it is or for its version.
  ghost predicate Entitled(db: Tables, q: Request) {
    q.household in db.workflows && (q.account, q.household) in db.members
  }

  ghost predicate Offered(q: Request, world: World) {
    world.rollout || !(q.command == Command.Retry(Email) || (q.command.Select? && q.command.kind == Email))
  }

  ghost predicate Recorded(db: Tables, q: Request, now: real) {
    IdemKeyOf(q) in db.idem && now < db.idem[IdemKeyOf(q)].expiresAt
  }

  // Only this household's workflow is another, and only this key is recorded anew, for a day.
  ghost predicate Committed(db: Tables, after: Tables, q: Request, body: Body, now: real, snapshot: Snapshot) {
    && snapshot.household == q.household && q.household in db.workflows
    && Moves(db.workflows[q.household], snapshot.workflow, q.command, body)
    && after.members == db.members
    && after.workflows == db.workflows[q.household := snapshot.workflow]
    && after.idem == db.idem[IdemKeyOf(q) := IdemRow(body, snapshot, now + 86400.0)]
  }

  /** Every answer, and exactly when it is given: the record first, then membership, the gate and the version, then
      the state of the step, then everything else. Only a command that passes them all changes anything. */
  ghost predicate RightAnswer(db: Tables, q: Request, body: Body, world: World, now: real, after: Tables,
                              answer: Answer)
  {
    if Recorded(db, q, now) then
      && after == db
      && answer == if db.idem[IdemKeyOf(q)].body == body then Done(db.idem[IdemKeyOf(q)].snapshot, true)
                   else Refused(KeyReused)
    else if !Entitled(db, q) then after == db && answer == Refused(NotFound)
    else if !Offered(q, world) then after == db && answer == Refused(NotOffered)
    else if db.workflows[q.household].version != q.expected then after == db && answer == Refused(StaleVersion)
    else if !Admitted(db.workflows[q.household], q.command) then after == db && answer == Refused(WrongTransition)
    else if !world.rest then after == db && answer == Refused(RefusedElsewhere)
    else answer.Done? && !answer.replayed && Committed(db, after, q, body, now, answer.snapshot)
  }

  lemma AnswersExactly(c: Config, db: Tables, q: Request, world: World, now: real)
    ensures var (after, answer) := Execute(c, db, q, world, now);
            && (answer == Refused(BadRequest) <==> forall body :: !Reads(c, db, q, body))
            && (answer == Refused(BadRequest) ==> after == db)
            && forall body | Reads(c, db, q, body) :: RightAnswer(db, q, body, world, now, after, answer)
  {
    forall body
      ensures BodyOf(c, db, q) == Some(body) <==> Reads(c, db, q, body)
    {
      BodyIsRead(c, db, q, body);
    }
    if BodyOf(c, db, q).Some? && q.household in db.workflows {
      var w, body := db.workflows[q.household], BodyOf(c, db, q).value;
      TransitIsAdmitted(w, q.command, body);
      if Transit(w, q.command, body).Some? {
        TransitMoves(w, q.command, body);
      }
    }
  }

  /** What the worker and the bootstrap make of a workflow. A step that succeeds opens the next, or after the last
      the runtime; only a step under way succeeds or fails, and never one of a cancelled workflow. */
  ghost predicate WorkerMoves(w: Workflow, w': Workflow, e: Event) {
    match e
    case StepVerified(_, kind) =>
      var s := w.steps.Get(kind);
      if w.state == Cancelled || kind == Profile
         || !(s.status == Provisioning || s.status == WaitingUser || s.status == Verifying)
      then w' == w
      else
        && w'.version == w.version + 1 && w'.steps.Get(kind) == Step(Verified, s.selection, s.attempt)
        && (forall k: StepKind | k != kind && Place(k) != Place(kind) + 1 :: w'.steps.Get(k) == w.steps.Get(k))
        && (forall k: StepKind | Place(k) == Place(kind) + 1 ::
              && w'.state == w.state && w'.current == At(k)
              && w'.steps.Get(k) == Step(if w.steps.Get(k).status == Locked then Available else w.steps.Get(k).status,
                                         w.steps.Get(k).selection, w.steps.Get(k).attempt))
        && (kind == PrimaryChannel ==> w'.state == RuntimeProvisioning && w'.current == AtRuntime)
    case StepProblem(_, kind, status) =>
      var s := w.steps.Get(kind);
      if w.state != Cancelled && (s.status == Provisioning || s.status == WaitingUser || s.status == Verifying)
         && (status == WaitingUser || status == Verifying || status == StepFailed)
      then
        && w'.state == w.state && w'.current == w.current && w'.version == w.version
        && OneStep(w.steps, w'.steps, kind, Step(status, s.selection, s.attempt))
      else w' == w
    case RuntimePrepared(_) =>
      w' == if w.state == RuntimeProvisioning then Workflow(Activating, w.current, w.version + 1, w.steps) else w
    case RuntimeActivated(_) =>
      w' == if w.state == RuntimeProvisioning || w.state == Activating
            then Workflow(Complete, AtRuntime, w.version + 1, w.steps) else w
    case RestrictionRequired(_) =>
      w' == if w.state == RuntimeProvisioning || w.state == Activating
            then Workflow(InProgress, At(Email), w.version + 1, w.steps) else w
    case _ => w' == w
  }

  lemma WorkerMovesExactly(w: Workflow, e: Event)
    ensures WorkerMoves(w, WorkerMove(w, e), e)
  {
    StepsAreTheirFields(w.steps, w.steps.profile, Email, WhatsApp);
  }

  // ---- replay ----

  // Nothing in the run happens later than this.
  predicate Within(events: seq<Event>, limit: real) {
    forall e | e in events :: (e.Issued? || e.ExpiredSwept?) ==> e.at <= limit
  }

  // A row survives whatever happens before it expires.
  lemma {:induction false} RowSurvives(c: Config, db: Tables, events: seq<Event>, key: IdemKey, limit: real)
    requires Remembered(db, key, limit) && Within(events, limit)
    ensures key in Run(c, db, events).idem && Run(c, db, events).idem[key] == db.idem[key]
    decreases |events|
  {
    if events != [] {
      assert events[0] in events;
      forall e | e in events[1..]
        ensures e in events
      {
      }
      RowSurvives(c, Apply(c, db, events[0]), events[1..], key, limit);
    }
  }

  /** A command that took effect is remembered for a day: whatever happens meanwhile, the same key and
      route answer from the record and change nothing - with the recorded snapshot for the same body,
      whatever version it expects, and with a refusal for another. Sending the same command again is the
      same body, unless it is a retry. */
  lemma ResendReplays(c: Config, db: Tables, q: Request, world: World, at: real, events: seq<Event>,
                      again: Request, world': World, at': real)
    requires Accepted(c, db, q, world, at)
    requires Within(events, at') && at' < at + IDEMPOTENCY_TTL_SECONDS
    requires IdemKeyOf(again) == IdemKeyOf(q)
    ensures var (after, answer) := Execute(c, db, q, world, at);
            var later := Run(c, after, events);
            var r := Execute(c, later, again, world', at');
            && r.0 == later
            && (BodyOf(c, later, again) == BodyOf(c, db, q) ==> r.1 == Done(answer.snapshot, true))
            && (BodyOf(c, later, again) != BodyOf(c, db, q) ==> r.1 in {Refused(KeyReused), Refused(BadRequest)})
            && (again.household == q.household && again.command == q.command && !q.command.Retry?
                ==> BodyOf(c, later, again) == BodyOf(c, db, q))
  {
    RowSurvives(c, Execute(c, db, q, world, at).0, events, IdemKeyOf(q), at');
  }

  const PLAIN := Config((kind, household, selection) => Some(selection), selection => selection)

  // A reset forgets the selections of its step and of what follows it.
  lemma ResetForgets(c: Config, db: Tables, reset: Request, world: World, at: real, q: Request)
    requires Accepted(c, db, reset, world, at) && reset.command.Reset?
    requires q.command == Retry(reset.command.kind) && q.household == reset.household
    ensures BodyOf(c, Execute(c, db, reset, world, at).0, q) == None
  {
  }

  const RETRY_SCENE := Tables(
    map["h" := Workflow(InProgress, At(Email), 3,
                        Steps(Step(Verified, None, 0), Step(StepFailed, Some("managed"), 1), UNTOUCHED, UNTOUCHED))],
    {("a", "h")}, map[])

  const SCENE_RETRY := Request("a", "h", "key", 3, Retry(Email))
  const SCENE_RESET := Request("a", "h", "other", 5, Reset(Email))
  const OPEN := World(true, true)

  lemma SceneRetries() returns (d1: Tables)
    ensures Accepted(PLAIN, RETRY_SCENE, SCENE_RETRY, OPEN, 0.0)
    ensures d1 == Apply(PLAIN, Execute(PLAIN, RETRY_SCENE, SCENE_RETRY, OPEN, 0.0).0, StepVerified("h", Email))
    ensures "h" in d1.workflows && d1.workflows["h"].version == 5 && d1.workflows["h"].steps.email.status == Verified
    ensures d1.idem.Keys == {IdemKeyOf(SCENE_RETRY)} && d1.members == {("a", "h")}
  {
    var d0 := Execute(PLAIN, RETRY_SCENE, SCENE_RETRY, OPEN, 0.0).0;
    assert d0.workflows["h"].version == 4 && d0.workflows["h"].steps.email.status == Provisioning;
    d1 := Apply(PLAIN, d0, StepVerified("h", Email));
  }

  lemma RunTwo(c: Config, db: Tables, e0: Event, e1: Event)
    ensures Run(c, db, [e0, e1]) == Apply(c, Apply(c, db, e0), e1)
  {
    assert [e0, e1][1..] == [e1] && [e1][1..] == [];
    assert Run(c, Apply(c, db, e0), [e1]) == Apply(c, Apply(c, db, e0), e1);
  }

  /** A retry is the exception: it reads the stored selection first. Here an e-mail retry that took
      effect is followed by its success and a reset, and a minute later is refused instead of replayed. */
  lemma RetryIsNotAlwaysReplayed() returns (events: seq<Event>)
    ensures Accepted(PLAIN, RETRY_SCENE, SCENE_RETRY, OPEN, 0.0) && Within(events, 60.0)
    ensures var later := Run(PLAIN, Execute(PLAIN, RETRY_SCENE, SCENE_RETRY, OPEN, 0.0).0, events);
            Execute(PLAIN, later, SCENE_RETRY, OPEN, 60.0).1 == Refused(BadRequest)
  {
    var d1 := SceneRetries();
    var e0, e1 := StepVerified("h", Email), Issued(SCENE_RESET, OPEN, 30.0);
    events := [e0, e1];
    assert Accepted(PLAIN, d1, SCENE_RESET, OPEN, 30.0);
    ResetForgets(PLAIN, d1, SCENE_RESET, OPEN, 30.0, SCENE_RETRY);
    RunTwo(PLAIN, Execute(PLAIN, RETRY_SCENE, SCENE_RETRY, OPEN, 0.0).0, e0, e1);
  }

  // ---- versions ----

  lemma {:induction false} VersionsGrow(c: Config, db: Tables, events: seq<Event>, household: string)
    requires household in db.workflows
    ensures household in Run(c, db, events).workflows
    ensures Run(c, db, events).workflows[household].version >= db.workflows[household].version
    decreases |events|
  {
    if events != [] {
      VersionsGrow(c, Apply(c, db, events[0]), events[1..], household);
    }
  }

  lemma {:induction false} RunSplits(c: Config, db: Tables, events: seq<Event>, i: nat)
    requires i <= |events|
    ensures Run(c, db, events) == Run(c, Run(c, db, events[..i]), events[i..])
    decreases i
  {
    if i == 0 {
      assert events[..0] == [] && events[0..] == events;
    } else {
      RunSplits(c, Apply(c, db, events[0]), events[1..], i - 1);
      assert events[..i][1..] == events[1..][..i - 1] && events[i..] == events[1..][i - 1..];
    }
  }

  // The i-th event is a command for this household that takes effect.
  predicate TakesEffect(c: Config, db: Tables, events: seq<Event>, i: nat, household: string) {
    && i < |events| && events[i].Issued? && events[i].request.household == household
    && Accepted(c, Run(c, db, events[..i]), events[i].request, events[i].world, events[i].at)
  }

  /** Commands linearise: each that takes effect moves the version it expected by exactly one, so of two
      that take effect in one run, anywhere in it, the later expected a later version. */
  lemma CommandsLinearise(c: Config, db: Tables, events: seq<Event>, i: nat, j: nat, household: string)
    requires i < j && TakesEffect(c, db, events, i, household) && TakesEffect(c, db, events, j, household)
    ensures events[i].request.expected < events[j].request.expected
    ensures household in Run(c, db, events[..i + 1]).workflows
    ensures Run(c, db, events[..i + 1]).workflows[household].version == events[i].request.expected + 1
  {
    var before := Run(c, db, events[..i]);
    var after := Apply(c, before, events[i]);
    RunSplits(c, db, events[..i + 1], i);
    assert events[..i + 1][..i] == events[..i] && events[..i + 1][i..] == [events[i]];
    assert Run(c, before, [events[i]]) == Run(c, after, []) == after;
    RunSplits(c, db, events[..j], i + 1);
    assert events[..j][..i + 1] == events[..i + 1];
    VersionsGrow(c, after, events[..j][i + 1..], household);
  }

  // ---- cancellation ----

  // Cancelled, with no step left that anything but a reset could move.
  predicate Settled(w: Workflow) {
    w.state == Cancelled && forall k: StepKind :: w.steps.Get(k).status in {Verified, StepCancelled}
  }

  predicate ResetOf(e: Event, household: string) {
    e.Issued? && e.request.household == household && e.request.command.Reset?
  }

  lemma CancelSettles(c: Config, db: Tables, q: Request, world: World, now: real)
    requires Accepted(c, db, q, world, now) && q.command == Cancel
    ensures Settled(Execute(c, db, q, world, now).0.workflows[q.household])
  {
  }

  // From a settled workflow only a reset is accepted, and nothing else moves it.
  lemma SettledOnlyResets(c: Config, db: Tables, e: Event, household: string)
    requires household in db.workflows && Settled(db.workflows[household])
    ensures e.Issued? && e.request.household == household && Accepted(c, db, e.request, e.world, e.at) ==>
              e.request.command.Reset? && db.workflows[household].steps.Get(e.request.command.kind).status == Verified
    ensures household in Apply(c, db, e).workflows
    ensures Apply(c, db, e).workflows[household] == db.workflows[household]
            || (ResetOf(e, household) && Accepted(c, db, e.request, e.world, e.at))
  {
    var w := db.workflows[household];
    if e.Issued? {
      assert e.request.command.Cancel? || e.request.command.SaveProfile?
             || w.steps.Get(e.request.command.kind).status in {Verified, StepCancelled};
      assert w.steps.Get(Profile).status in {Verified, StepCancelled};
    }
  }

  /** After a cancellation nothing moves the workflow until a reset takes effect: no profile, selection,
      retry, check or second cancellation by anyone, and no late provider result. */
  lemma {:induction false} CancelHolds(c: Config, db: Tables, events: seq<Event>, household: string)
    requires household in db.workflows && Settled(db.workflows[household])
    requires forall i | 0 <= i < |events| && TakesEffect(c, db, events, i, household) :: !ResetOf(events[i], household)
    ensures household in Run(c, db, events).workflows
    ensures Run(c, db, events).workflows[household] == db.workflows[household]
    ensures forall i: nat :: !TakesEffect(c, db, events, i, household)
    decreases |events|
  {
    if events != [] {
      var next := Apply(c, db, events[0]);
      SettledOnlyResets(c, db, events[0], household);
      assert events[..0] == [] && Run(c, db, []) == db;
      assert !TakesEffect(c, db, events, 0, household);
      forall i: nat
        ensures TakesEffect(c, next, events[1..], i, household) <==> TakesEffect(c, db, events, i + 1, household)
      {
        if i + 1 <= |events| {
          assert events[..i + 1][1..] == events[1..][..i];
          assert events[..i + 1][0] == events[0];
        }
      }
      assert forall i | 0 <= i < |events| - 1 :: events[1..][i] == events[i + 1];
      CancelHolds(c, next, events[1..], household);
      forall i: nat
        ensures !TakesEffect(c, db, events, i, household)
      {
        if i > 0 {
          assert TakesEffect(c, next, events[1..], i - 1, household) <==> TakesEffect(c, db, events, i, household);
        }
      }
    }
  }

  /** Cancelled is not absorbing, and this is exactly when: a member's reset of a step brings a cancelled
      workflow back if that user step was verified when it was cancelled ... */
  lemma ResetRevives(c: Config, db: Tables, q: Request, now: real)
    requires Scoped(db, q) && Settled(db.workflows[q.household])
    requires q.command.Reset? && UserStep(q.command.kind) && q.expected == db.workflows[q.household].version
    requires !Remembered(db, IdemKeyOf(q), now)
    ensures Accepted(c, db, q, World(true, true), now)
            <==> db.workflows[q.household].steps.Get(q.command.kind).status == Verified
    ensures Accepted(c, db, q, World(true, true), now) ==>
              Execute(c, db, q, World(true, true), now).0.workflows[q.household].state == InProgress
  {
  }

  /** ... and if no user step was, the workflow never moves again. */
  lemma {:induction false} CancelIsFinal(c: Config, db: Tables, events: seq<Event>, household: string)
    requires household in db.workflows && Settled(db.workflows[household])
    requires forall k: StepKind :: UserStep(k) ==> db.workflows[household].steps.Get(k).status != Verified
    ensures household in Run(c, db, events).workflows
    ensures Run(c, db, events).workflows[household] == db.workflows[household]
    decreases |events|
  {
    if events != [] {
      SettledOnlyResets(c, db, events[0], household);
      CancelIsFinal(c, Apply(c, db, events[0]), events[1..], household);
    }
  }

  // ---- steps are taken in order ----

  // The step a setup stands at: every one before it is verified. AtRuntime when all are.
  function Frontier(steps: Steps): (f: CurrentStep) {
    if steps.profile.status != Verified then At(Profile)
    else if steps.email.status != Verified then At(Email)
    else if steps.whatsApp.status != Verified then At(WhatsApp)
    else if steps.channel.status != Verified then At(PrimaryChannel)
    else AtRuntime
  }

  predicate Beyond(f: CurrentStep, kind: StepKind) {
    f.At? && Place(f.kind) < Place(kind)
  }

  predicate Underway(status: StepStatus) {
    status !in {Locked, Verified, StepCancelled}
  }

  // No step is reached before those it builds on are verified; one at most is under way, and the
  // workflow points at it (or back at e-mail, when the worker asks for a fresh acknowledgement).
  predicate InOrder(w: Workflow) {
    var f := Frontier(w.steps);
    && (w.state == Cancelled ==>
          forall k: StepKind :: w.steps.Get(k).status in {Verified, StepCancelled}
            && (Beyond(f, k) ==> w.steps.Get(k).status == StepCancelled))
    && (w.state != Cancelled ==>
          && (f.At? ==> Underway(w.steps.Get(f.kind).status))
          && (forall k: StepKind :: Beyond(f, k) ==> w.steps.Get(k).status == Locked))
    && (w.state == ProfileRequired ==> f == At(Profile) && w.steps.profile.status == Available && w.current == f)
    && (w.state == InProgress ==> f != At(Profile) && w.current == if f.At? then f else At(Email))
    && (w.state in {RuntimeProvisioning, Activating, Complete} ==> f == AtRuntime && w.current == AtRuntime)
  }

  // In an ordered workflow a step under way is where the setup stands.
  lemma UnderwayIsFrontier(w: Workflow, kind: StepKind)
    requires InOrder(w) && Underway(w.steps.Get(kind).status)
    ensures w.state in {ProfileRequired, InProgress} && Frontier(w.steps) == At(kind) == w.current
    ensures forall k: StepKind :: Beyond(At(kind), k) ==> w.steps.Get(k).status == Locked
    ensures forall k: StepKind :: Beyond(At(k), kind) ==> w.steps.Get(k).status == Verified
  {
  }

  // What lies beyond the step under way, spelled out.
  lemma LockedBeyond(w: Workflow, kind: StepKind)
    requires InOrder(w) && Underway(w.steps.Get(kind).status)
    ensures kind == Profile ==> w.steps.email.status == Locked
    ensures kind in {Profile, Email} ==> w.steps.whatsApp.status == Locked
    ensures kind != PrimaryChannel ==> w.steps.channel.status == Locked
    ensures kind != Profile ==> w.steps.profile.status == Verified
    ensures kind in {WhatsApp, PrimaryChannel} ==> w.steps.email.status == Verified
    ensures kind == PrimaryChannel ==> w.steps.whatsApp.status == Verified
  {
    UnderwayIsFrontier(w, kind);
    assert Beyond(At(kind), Email) ==> w.steps.Get(Email).status == Locked;
    assert Beyond(At(kind), WhatsApp) ==> w.steps.Get(WhatsApp).status == Locked;
    assert Beyond(At(kind), PrimaryChannel) ==> w.steps.Get(PrimaryChannel).status == Locked;
    assert Beyond(At(Profile), kind) ==> w.steps.Get(Profile).status == Verified;
    assert Beyond(At(Email), kind) ==> w.steps.Get(Email).status == Verified;
    assert Beyond(At(WhatsApp), kind) ==> w.steps.Get(WhatsApp).status == Verified;
  }

  lemma ResetKeepsOrder(w: Workflow, kind: StepKind)
    requires InOrder(w) && UserStep(kind) && Resettable(w, kind)
    ensures InOrder(Workflow(InProgress, At(kind), w.version + 1, ResetSteps(w.steps, kind)))
  {
  }

  lemma CancelKeepsOrder(w: Workflow)
    requires InOrder(w) && w.state != Cancelled
    ensures InOrder(w.(state := Cancelled, version := w.version + 1, steps := CancelSteps(w.steps)))
  {
  }

  lemma TransitKeepsOrder(w: Workflow, command: Command, body: Body)
    requires InOrder(w) && Transit(w, command, body).Some?
    ensures InOrder(Transit(w, command, body).value)
  {
    match command
    case SaveProfile(_) =>
      UnderwayIsFrontier(w, Profile);
      LockedBeyond(w, Profile);
    case Select(kind, _) => UnderwayIsFrontier(w, kind);
    case Retry(kind) => UnderwayIsFrontier(w, kind);
    case Check(kind) => UnderwayIsFrontier(w, kind);
    case Reset(kind) => ResetKeepsOrder(w, kind);
    case Cancel => CancelKeepsOrder(w);
  }

  lemma WorkerKeepsOrder(w: Workflow, e: Event)
    requires InOrder(w)
    ensures InOrder(WorkerMove(w, e))
  {
    if (e.StepVerified? || e.StepProblem?) && WorkerMove(w, e) != w {
      UnderwayIsFrontier(w, e.kind);
      LockedBeyond(w, e.kind);
    }
  }

  /** In every run from ordered workflows - a new one is - every workflow stays ordered. */
  lemma {:induction false} RunKeepsOrder(c: Config, db: Tables, events: seq<Event>)
    requires forall h | h in db.workflows :: InOrder(db.workflows[h])
    ensures InOrder(NEW_WORKFLOW)
    ensures forall h | h in Run(c, db, events).workflows :: InOrder(Run(c, db, events).workflows[h])
    decreases |events|
  {
    assert Frontier(NEW_WORKFLOW.steps) == At(Profile);
    if events != [] {
      var e := events[0];
      var next := Apply(c, db, e);
      forall h | h in next.workflows
        ensures InOrder(next.workflows[h])
      {
        if e.Issued? && h == e.request.household && Accepted(c, db, e.request, e.world, e.at) {
          TransitKeepsOrder(db.workflows[h], e.request.command, BodyOf(c, db, e.request).value);
        } else if !e.Issued? {
          WorkerKeepsOrder(db.workflows[h], e);
        }
      }
      RunKeepsOrder(c, next, events[1..]);
      assert Run(c, db, events) == Run(c, next, events[1..]);
    }
  }

  /** Steps cannot be skipped or reordered: a selection, a retry - whose code never looks at the current
      step - or a check takes effect only on the step the workflow stands at, with everything before it
      verified and everything after it locked. */
  lemma StepsAreTakenInOrder(w: Workflow, command: Command, body: Body)
    requires InOrder(w) && (command.Select? || command.Retry? || command.Check?)
    requires Transit(w, command, body).Some?
    ensures w.state == InProgress && w.current == At(command.kind)
    ensures forall k: StepKind :: Beyond(At(k), command.kind) ==> w.steps.Get(k).status == Verified
    ensures forall k: StepKind :: Beyond(At(command.kind), k) ==> w.steps.Get(k).status == Locked
  {
  }
}
