/** Every interleaving of webhooks, redeliver passes, binding changes, key arrivals, switch flips and
    crashes. The pieces of gateway/whatsapp_router.py's `handle_webhook` and `run_once` between which
    other work can run are the steps here; what a step reads around it (bindings, keys, switch, clock)
    is chosen afresh at every step. */
module GatewayRuns {
  import opened Basics
  import opened RelayTrust
  import opened GatewayStore
  import opened GatewayRouter
  import opened GatewayWorker

  // One call to the runtime: whose row, what was sent, what was read to route it and to sign it, whether a
  // webhook made it, and how its row stood then - in the table, or ended by the worker already.
  datatype Call = Call(id: nat, delivery: Delivery, routeWorld: World, routeTime: real, stamp: string, keyWorld: World,
                       byHook: bool, standing: Option<Row>, ended: bool)

  // A webhook between its persist and its answer.
  datatype Hook = Hook(request: Request, phase: Phase, routeWorld: World, routeTime: real, received: real,
                       calling: bool)

  // Everything that ever happened to one row: what it was accepted as, the attempts the worker and its
  // own webhook spent, the calls each made, the calls a crash cut off, whether the worker ever
  // selected it while its webhook was still in flight, and whether the worker ended it.
  datatype Case = Case(origin: Origin, spent: nat, hooked: nat, workerCalls: nat, hookCalls: nat,
                       workerLost: nat, hookLost: nat, overlapped: bool, ended: bool)

  datatype Sys = Sys(table: Ingress, clock: real, cases: map<nat, Case>, hooks: map<nat, Hook>,
                     batch: seq<Selected>, sending: Option<real>, log: seq<Call>)

  datatype Event =
    | Arrive(request: Request, world: World, routed: real, received: real)
    | Judged(id: nat, world: World, now: real)
    | Replied(id: nat, taken: bool, now: real)
    | Select(now: real, limit: nat, batch: seq<Selected>)
    | Work(turn: Turn)
    | Settle(reply: RuntimeReply, after: real)
    | Crash

  const INITIAL := Sys(Ingress(map[], 0), 0.0, map[], map[], [], None, [])

  // Every webhook in flight at this time has been so for at most d.
  predicate Punctual(s: Sys, d: real, now: real) {
    s.clock <= now && forall id | id in s.hooks :: now <= s.hooks[id].received + d
  }

  // The clock never runs backwards, and at most d passes inside the handling of one row.
  predicate Enabled(g: Gateway, d: real, s: Sys, e: Event) {
    match e
    case Arrive(_, _, routed, received) => s.clock <= routed <= received && Punctual(s, d, received)
    case Judged(id, _, now) => id in s.hooks && !s.hooks[id].calling && Punctual(s, d, now)
    case Replied(id, _, now) => id in s.hooks && s.hooks[id].calling && Punctual(s, d, now)
    case Select(now, limit, batch) =>
      s.batch == [] && s.sending == None && Punctual(s, d, now) && IsDueBatch(s.table, now, limit, batch)
    case Work(t) =>
      && s.batch != [] && s.sending == None
      && s.clock <= t.now <= t.routeNow <= t.after <= t.now + d && Punctual(s, d, t.after)
    case Settle(_, after) =>
      && s.batch != [] && s.sending.Some?
      && s.sending.value <= after <= s.sending.value + d && Punctual(s, d, after)
    case Crash => true
  }

  // A webhook spends its row's attempt, or ends it.
  function HookKeeps(s: Sys, id: nat, error: string, now: real): (t: Sys)
    requires id in s.cases
  {
    var c := s.cases[id];
    Sys(Deferred(s.table, id, error, now + BASE_BACKOFF_SECONDS, true), now,
        s.cases[id := if id in s.table.rows then c.(hooked := c.hooked + 1) else c],
        s.hooks - {id}, s.batch, s.sending, s.log)
  }

  function HookDrops(s: Sys, id: nat, now: real): (t: Sys) {
    s.(table := Deleted(s.table, id), clock := now, hooks := s.hooks - {id})
  }

  // The worker is done with the head of its batch.
  function RowDone(s: Sys, now: real, after: (Ingress, Outcome)): (t: Sys)
    requires s.batch != [] && s.batch[0].id in s.cases
  {
    var id := s.batch[0].id;
    var c := s.cases[id];
    var spent := if after.1 == Deferral && id in s.table.rows then c.spent + 1 else c.spent;
    var ended := c.ended || (id in s.table.rows && id !in after.0.rows);
    s.(table := after.0, clock := now, batch := s.batch[1..], sending := None,
       cases := s.cases[id := c.(spent := spent, ended := ended)])
  }

  predicate Known(s: Sys) {
    && (forall id | id in s.hooks :: id in s.cases)
    && (forall i | 0 <= i < |s.batch| :: s.batch[i].id in s.cases)
  }

  // A request is persisted complete, before anything is asked of the runtime.
  function Admitted(s: Sys, q: Request, phase: Phase, w: World, routed: real, received: real): (t: Sys) {
    var origin := OriginOf(q, PhaseHousehold(phase), received);
    s.(table := Inserted(s.table, origin), clock := received,
       cases := s.cases[s.table.nextId := Case(origin, 0, 0, 0, 0, 0, 0, false, false)],
       hooks := s.hooks[s.table.nextId := Hook(q, phase, w, routed, received, false)])
  }

  // The webhook's exception leaves its row as it is.
  function HookLeaves(s: Sys, id: nat, now: real): (t: Sys) {
    s.(clock := now, hooks := s.hooks - {id})
  }

  function RowOf(s: Sys, id: nat): (r: Option<Row>) {
    if id in s.table.rows then Some(s.table.rows[id]) else None
  }

  function HookCalls(s: Sys, id: nat, w: World, now: real, delivery: Delivery): (t: Sys)
    requires id in s.hooks && id in s.cases
  {
    var h := s.hooks[id];
    s.(clock := now, hooks := s.hooks[id := h.(calling := true)],
       cases := s.cases[id := s.cases[id].(hookCalls := s.cases[id].hookCalls + 1)],
       log := s.log + [Call(id, delivery, h.routeWorld, h.routeTime, h.request.timestamp, w,
                            true, RowOf(s, id), s.cases[id].ended)])
  }

  function Selection(s: Sys, now: real, batch: seq<Selected>): (t: Sys) {
    s.(clock := now, batch := batch,
       cases := map id | id in s.cases ::
                  if id in Ids(batch) && id in s.hooks then s.cases[id].(overlapped := true) else s.cases[id])
  }

  function WorkerCalls(s: Sys, t: Turn, delivery: Delivery): (u: Sys)
    requires s.batch != [] && s.batch[0].id in s.cases
  {
    var id := s.batch[0].id;
    s.(clock := t.now, sending := Some(t.now),
       cases := s.cases[id := s.cases[id].(workerCalls := s.cases[id].workerCalls + 1)],
       log := s.log + [Call(id, delivery, t.world, t.routeNow, delivery.timestamp, t.world,
                            false, RowOf(s, id), s.cases[id].ended)])
  }

  predicate SendingNow(s: Sys, id: nat) {
    s.sending.Some? && s.batch != [] && s.batch[0].id == id
  }

  // A restart: everything in flight is forgotten, the table is not.
  function Crashed(s: Sys): (t: Sys) {
    s.(hooks := map[], batch := [], sending := None,
       cases := map id | id in s.cases ::
                  s.cases[id].(workerLost := s.cases[id].workerLost + (if SendingNow(s, id) then 1 else 0),
                               hookLost := s.cases[id].hookLost
                                           + if id in s.hooks && s.hooks[id].calling then 1 else 0))
  }

  // How a delivery comes back; what was sent and read no longer matters.
  const NO_DELIVERY := Delivery("", None, [], "", "")
  const NO_WORLD := World(Unavailable, map[], None, false)

  function Replying(s: Sys, reply: RuntimeReply, after: real): (t: Turn)
    requires s.sending.Some?
  {
    Turn(s.sending.value, s.sending.value, after, NO_WORLD, reply)
  }

  function Step(g: Gateway, d: real, s: Sys, e: Event): (t: Sys)
    requires Enabled(g, d, s, e) && Known(s)
  {
    match e
    case Arrive(q, w, routed, received) =>
      (match Admit(g, w, routed, q)
       case Refused(_) => s.(clock := received)
       case Persisted(phase) => Admitted(s, q, phase, w, routed, received))
    case Judged(id, w, now) =>
      (match Judge(g, w, s.hooks[id].request, s.hooks[id].phase)
       case Keep(error, _) => HookKeeps(s, id, error, now)
       case Drop(_) => HookDrops(s, id, now)
       case Leave => HookLeaves(s, id, now)
       case CallRuntime(delivery) => HookCalls(s, id, w, now, delivery))
    case Replied(id, taken, now) =>
      if taken then HookDrops(s, id, now) else HookKeeps(s, id, "runtime_unavailable", now)
    case Select(now, limit, batch) => Selection(s, now, batch)
    case Work(t) =>
      var decision := Decide(g, s.batch[0].row, t);
      if decision.SendTo? && g.hasDeliverer then WorkerCalls(s, t, decision.delivery)
      else RowDone(s, t.after, Conclude(s.table, s.batch[0], t.(reply := Takes), decision))
    case Settle(reply, after) =>
      RowDone(s, after, Conclude(s.table, s.batch[0], Replying(s, reply, after), SendTo(NO_DELIVERY)))
    case Crash => Crashed(s)
  }

  // ---- what every reachable state keeps ----

  /** I4 and I5, for every call ever made: it goes to the household stored when the row was accepted,
      which the sender resolved to at the routing read; it carries the accepted body; the accepted
      signature verified under the key it is signed with; and what was sent verifies. A webhook makes its
      call while the complete row stands, unless the worker has ended the row already. */
  ghost predicate GoodCall(g: Gateway, origin: Origin, c: Call) {
    && origin.household == Some(c.delivery.household)
    && c.delivery.payload == origin.payload
    && c.delivery.timestamp == c.stamp
    && c.routeWorld.enabled
    && (c.byHook ==> c.standing.Some? || c.ended)
    && (c.standing.Some? ==> c.standing.value.AcceptedAs() == origin)
    && origin.channel.Some? && origin.originTimestamp.Some? && origin.originSignature.Some?
    && Route(g, c.routeWorld, c.routeTime, origin.sender, origin.channel.value, Some(c.stamp))
       == RoutedTo(c.delivery.household, c.delivery.runtimeRef)
    && RelayKey(g, c.keyWorld, c.delivery.household).Some?
    && var key := RelayKey(g, c.keyWorld, c.delivery.household).value;
    && g.crypto.Verify(key, origin.payload, origin.originTimestamp.value, origin.originSignature.value) == Match
    && g.crypto.Verify(key, c.delivery.payload, c.delivery.timestamp, c.delivery.signature) == Match
  }

  // The worker has selected this row and not come to it yet.
  predicate Pending(s: Sys, id: nat) {
    id in Ids(s.batch) && !SendingNow(s, id)
  }

  // The one call a row can have had beyond the attempts spent on it.
  function Slack(s: Sys, id: nat): (n: nat) {
    if Pending(s, id) || (id in s.table.rows && !SendingNow(s, id)) then 0 else 1
  }

  // The time the worker's first k backoffs take: 30 + 60 + ... + 30 * 2^(k-1).
  function Delay(k: nat): (t: real) {
    BASE_BACKOFF_SECONDS * (Pow2(k) - 1) as real
  }

  // Six of them. A webhook that takes less is over before its row can be selected a seventh time.
  const SIX_BACKOFFS: real := 1890.0

  lemma DelayGrows(k: nat, j: nat)
    requires k < j
    ensures Delay(k) + Backoff(j) >= Delay(k + 1)
    ensures 0.0 <= Delay(k) <= Delay(j)
  {
    PowMonotone(k, j - 1);
    PowMonotone(k, j);
  }

  // Either the worker never selected the row while its webhook was in flight, or webhooks are fast.
  predicate Calm(c: Case, d: real) {
    !c.overlapped || d < SIX_BACKOFFS
  }

  // Attempts and due time of one row.
  ghost predicate AttemptsKept(s: Sys, d: real, id: nat)
    requires id in s.cases
  {
    var c := s.cases[id];
    var received := c.origin.receivedAt;
    // attempts
    && c.hooked <= 1 && c.spent <= 7
    && (id in s.hooks ==> c.hooked == 0 && s.clock <= received + d)
    && (id in s.hooks ==> id in s.table.rows || c.ended)
    && (Calm(c, d) ==> c.spent + c.hooked <= 7)
    && (!c.overlapped && id in s.hooks ==> c.spent == 0 && c.workerCalls == 0 && id !in Ids(s.batch))
    && (id in s.table.rows ==>
          && s.table.rows[id].AcceptedAs() == c.origin
          && s.table.rows[id].attempts == c.spent + c.hooked
          && s.table.rows[id].nextAttemptAt <= received + MAX_AGE_SECONDS + LONGEST_BACKOFF + d)
    // the worker's attempts take their time
    && (c.hooked == 0 ==>
          && (id in s.table.rows ==> received + Delay(c.spent) <= s.table.rows[id].nextAttemptAt)
          && (id in Ids(s.batch) ==> received + Delay(c.spent) <= s.clock)
          && (c.spent > 0 ==> received + Delay(c.spent - 1) <= s.clock))
  }

  // The calls made for one row.
  ghost predicate CallsKept(s: Sys, d: real, id: nat)
    requires id in s.cases
  {
    var c := s.cases[id];
    && c.workerCalls <= c.spent + c.workerLost + Slack(s, id)
    && c.hookCalls <= 1 && c.hookLost <= c.hookCalls
    && (id in s.hooks ==> c.hookCalls == (if s.hooks[id].calling then 1 else 0) && c.hookLost == 0)
    && (Calm(c, d) && c.hookCalls == 1 && id !in s.hooks ==>
          c.hooked == 1 || c.hookLost == 1 || (id !in s.table.rows && c.spent <= 6))
  }

  ghost predicate CaseKept(s: Sys, d: real, id: nat)
    requires id in s.cases
  {
    AttemptsKept(s, d, id) && CallsKept(s, d, id)
  }

  // A selected copy against what has happened to its row since.
  predicate EntryKept(r: Row, c: Case, d: real) {
    && r.AcceptedAs() == c.origin
    && c.spent <= r.attempts
    && (Calm(c, d) ==> r.attempts == c.spent + c.hooked || c.spent + c.hooked <= 6)
  }

  ghost predicate BatchKept(s: Sys, d: real) {
    && Distinct(s.batch)
    && (s.sending.Some? ==> s.batch != [] && s.sending.value - s.batch[0].row.receivedAt <= MAX_AGE_SECONDS)
    && forall i | 0 <= i < |s.batch| :: s.batch[i].id in s.cases && EntryKept(s.batch[i].row, s.cases[s.batch[i].id], d)
  }

  ghost predicate HookKept(g: Gateway, origin: Origin, h: Hook) {
    && origin == OriginOf(h.request, PhaseHousehold(h.phase), h.received)
    && h.routeWorld.enabled
    && (h.phase.Accepted? ==>
          Route(g, h.routeWorld, h.routeTime, h.request.sender, h.request.channel, Some(h.request.timestamp))
          == RoutedTo(h.phase.household, h.phase.runtimeRef))
  }

  ghost predicate HooksKept(g: Gateway, s: Sys) {
    forall id {:trigger s.hooks[id]} | id in s.hooks :: id in s.cases && HookKept(g, s.cases[id].origin, s.hooks[id])
  }

  ghost predicate LogKept(g: Gateway, s: Sys) {
    forall i | 0 <= i < |s.log| :: s.log[i].id in s.cases && GoodCall(g, s.cases[s.log[i].id].origin, s.log[i])
  }

  function Calls(c: Case): (n: nat) {
    c.workerCalls + c.hookCalls
  }

  function CallsTo(log: seq<Call>, id: nat): (n: nat) {
    if log == [] then 0 else CallsTo(log[..|log| - 1], id) + if log[|log| - 1].id == id then 1 else 0
  }

  // The calls of the log are those the cases count.
  predicate CallsCounted(s: Sys) {
    forall id {:trigger CallsTo(s.log, id)} | id in s.cases :: CallsTo(s.log, id) == Calls(s.cases[id])
  }

  lemma {:induction false} NoCallsYet(log: seq<Call>, id: nat)
    requires forall i | 0 <= i < |log| :: log[i].id != id
    ensures CallsTo(log, id) == 0
  {
    if log != [] {
      NoCallsYet(log[..|log| - 1], id);
    }
  }

  ghost predicate Allocated(s: Sys) {
    && (forall id: nat :: id in s.cases <==> id < s.table.nextId)
    && (forall id | id in s.table.rows :: id in s.cases)
  }

  ghost predicate CasesKept(s: Sys, d: real) {
    forall id {:trigger CaseKept(s, d, id)} | id in s.cases :: CaseKept(s, d, id)
  }

  ghost predicate Inv(g: Gateway, d: real, s: Sys) {
    Allocated(s) && HooksKept(g, s) && BatchKept(s, d) && CasesKept(s, d) && LogKept(g, s) && CallsCounted(s)
  }

  // ---- the parts a step does not concern ----

  // A step that leaves this row, its webhook and its place in the batch alone.
  predicate Untouched(s: Sys, t: Sys, d: real, id: nat) {
    && s.clock <= t.clock
    && id in s.cases && id in t.cases && t.cases[id] == s.cases[id]
    && (id in s.hooks <==> id in t.hooks) && (id in s.hooks ==> t.hooks[id] == s.hooks[id])
    && (id in s.table.rows <==> id in t.table.rows) && (id in s.table.rows ==> t.table.rows[id] == s.table.rows[id])
    && (id in Ids(t.batch) <==> id in Ids(s.batch))
    && (SendingNow(t, id) <==> SendingNow(s, id))
    && (id in t.hooks ==> t.clock <= t.cases[id].origin.receivedAt + d)
  }

  lemma UntouchedKept(s: Sys, t: Sys, d: real, id: nat)
    requires Untouched(s, t, d, id) && CaseKept(s, d, id)
    ensures CaseKept(t, d, id)
  {
  }

  predicate SameOrigins(s: Sys, t: Sys) {
    forall id | id in s.cases :: id in t.cases && t.cases[id].origin == s.cases[id].origin
  }

  lemma OldLogKept(g: Gateway, s: Sys, t: Sys)
    requires LogKept(g, s) && SameOrigins(s, t) && t.log == s.log
    ensures LogKept(g, t)
  {
  }

  lemma OldCallsCounted(g: Gateway, s: Sys, t: Sys)
    requires CallsCounted(s) && LogKept(g, s) && t.log == s.log
    requires forall id | id in t.cases :: Calls(t.cases[id]) == if id in s.cases then Calls(s.cases[id]) else 0
    ensures CallsCounted(t)
  {
    forall id | id in t.cases
      ensures CallsTo(t.log, id) == Calls(t.cases[id])
    {
      if id !in s.cases {
        NoCallsYet(s.log, id);
      }
    }
  }

  lemma OldHooksKept(g: Gateway, s: Sys, t: Sys)
    requires HooksKept(g, s) && SameOrigins(s, t)
    requires forall id | id in t.hooks ::
               id in s.hooks && t.hooks[id].(calling := false) == s.hooks[id].(calling := false)
    ensures HooksKept(g, t)
  {
  }

  // At this time no webhook in flight is older than d, counted from when its row was accepted.
  predicate InTime(s: Sys, d: real, now: real) {
    s.clock <= now && forall id | id in s.hooks :: id in s.cases && now <= s.cases[id].origin.receivedAt + d
  }

  lemma PunctualIsInTime(g: Gateway, s: Sys, d: real, now: real)
    requires HooksKept(g, s) && Punctual(s, d, now)
    ensures InTime(s, d, now)
  {
  }

  // While a webhook is in flight, its row has not been selected a seventh time - if webhooks are fast.
  lemma HookTiming(s: Sys, d: real, id: nat)
    requires id in s.cases && id in s.hooks && CaseKept(s, d, id)
    ensures Calm(s.cases[id], d) ==> s.cases[id].spent <= 6 && (id in Ids(s.batch) ==> s.cases[id].spent <= 5)
  {
  }

  // Only one row is concerned, and it is kept.
  lemma OneRowKept(s: Sys, t: Sys, d: real, id: nat)
    requires CasesKept(s, d)
    requires forall k | k in t.cases && k != id :: Untouched(s, t, d, k)
    requires id in t.cases ==> CaseKept(t, d, id)
    ensures CasesKept(t, d)
  {
    forall k | k in t.cases
      ensures CaseKept(t, d, k)
    {
      if k != id {
        assert CaseKept(s, d, k);
        UntouchedKept(s, t, d, k);
      }
    }
  }

  // The batch does not change, and what it is compared with hardly does.
  lemma OldBatchKept(s: Sys, t: Sys, d: real)
    requires BatchKept(s, d) && t.batch == s.batch
    requires t.sending == s.sending || (t.sending.Some? && s.batch != []
                                        && t.sending.value - s.batch[0].row.receivedAt <= MAX_AGE_SECONDS)
    requires SameOrigins(s, t)
    requires forall id | id in Ids(s.batch) && id in s.cases ::
               && t.cases[id].spent == s.cases[id].spent
               && t.cases[id].overlapped == s.cases[id].overlapped
               && (t.cases[id].hooked == s.cases[id].hooked
                   || (Calm(s.cases[id], d) ==> t.cases[id].spent + t.cases[id].hooked <= 6))
    ensures BatchKept(t, d)
  {
  }

  // Steps of a webhook that make no call touch nothing but the cases, their own hook and the clock.
  lemma QuietParts(g: Gateway, s: Sys, t: Sys, d: real)
    requires HooksKept(g, s) && BatchKept(s, d) && LogKept(g, s) && CallsCounted(s)
    requires t.batch == s.batch && t.sending == s.sending && t.log == s.log && t.cases.Keys == s.cases.Keys
    requires forall id | id in t.hooks :: id in s.hooks && t.hooks[id] == s.hooks[id]
    requires forall id | id in s.cases ::
               t.cases[id] == s.cases[id]
               || (id in s.hooks && t.cases[id] == s.cases[id].(hooked := s.cases[id].hooked + 1))
    requires CasesKept(s, d)
    ensures HooksKept(g, t) && BatchKept(t, d) && LogKept(g, t) && CallsCounted(t)
  {
    assert SameOrigins(s, t);
    assert HooksKept(g, t) by {
      OldHooksKept(g, s, t);
    }
    assert LogKept(g, t) by {
      OldLogKept(g, s, t);
    }
    assert CallsCounted(t) by {
      OldCallsCounted(g, s, t);
    }
    forall id | id in Ids(s.batch) && id in s.cases
      ensures t.cases[id].hooked == s.cases[id].hooked
              || (Calm(s.cases[id], d) ==> t.cases[id].spent + t.cases[id].hooked <= 6)
    {
      assert CaseKept(s, d, id);
      if id in s.hooks {
        HookTiming(s, d, id);
      }
    }
    OldBatchKept(s, t, d);
  }

  // ---- each step ----

  lemma AdmittedCase(s: Sys, d: real, q: Request, phase: Phase, w: World, routed: real, received: real)
    requires Allocated(s) && BatchKept(s, d) && d >= 0.0 && InTime(s, d, received)
    ensures CaseKept(Admitted(s, q, phase, w, routed, received), d, s.table.nextId)
    ensures forall k | k in s.cases :: Untouched(s, Admitted(s, q, phase, w, routed, received), d, k)
  {
  }

  lemma AdmittedKeeps(g: Gateway, d: real, s: Sys, q: Request, phase: Phase, w: World, routed: real, received: real)
    requires Inv(g, d, s) && d >= 0.0 && Punctual(s, d, received)
    requires Admit(g, w, routed, q) == Persisted(phase)
    ensures Inv(g, d, Admitted(s, q, phase, w, routed, received))
  {
    var t := Admitted(s, q, phase, w, routed, received);
    var id := s.table.nextId;
    assert id !in s.cases;
    PunctualIsInTime(g, s, d, received);
    AdmittedCase(s, d, q, phase, w, routed, received);
    OneRowKept(s, t, d, id);
    OldBatchKept(s, t, d);
    OldLogKept(g, s, t);
    OldCallsCounted(g, s, t);
    forall k | k in t.hooks
      ensures k in t.cases && HookKept(g, t.cases[k].origin, t.hooks[k])
    {
      if k != id {
        assert HookKept(g, s.cases[k].origin, s.hooks[k]);
      }
    }
  }

  lemma HookKeepsCase(s: Sys, d: real, id: nat, error: string, now: real)
    requires id in s.cases && id in s.hooks && CaseKept(s, d, id)
    requires InTime(s, d, now)
    ensures CaseKept(HookKeeps(s, id, error, now), d, id)
    ensures forall k | k in s.cases && k != id :: Untouched(s, HookKeeps(s, id, error, now), d, k)
  {
    HookTiming(s, d, id);
  }

  lemma HookKeepsKeeps(g: Gateway, d: real, s: Sys, id: nat, error: string, now: real)
    requires Inv(g, d, s) && id in s.hooks && Punctual(s, d, now)
    ensures Inv(g, d, HookKeeps(s, id, error, now))
  {
    var t := HookKeeps(s, id, error, now);
    assert CaseKept(s, d, id);
    PunctualIsInTime(g, s, d, now);
    assert HookKept(g, s.cases[id].origin, s.hooks[id]);
    assert CasesKept(t, d) by {
      HookKeepsCase(s, d, id, error, now);
      OneRowKept(s, t, d, id);
    }
    QuietParts(g, s, t, d);
  }

  lemma HookDropsCase(s: Sys, d: real, id: nat, now: real)
    requires id in s.cases && id in s.hooks && CaseKept(s, d, id)
    requires InTime(s, d, now)
    ensures CaseKept(HookDrops(s, id, now), d, id)
    ensures forall k | k in s.cases && k != id :: Untouched(s, HookDrops(s, id, now), d, k)
  {
  }

  lemma HookDropsKeeps(g: Gateway, d: real, s: Sys, id: nat, now: real)
    requires Inv(g, d, s) && id in s.hooks && Punctual(s, d, now)
    ensures Inv(g, d, HookDrops(s, id, now))
  {
    var t := HookDrops(s, id, now);
    assert CaseKept(s, d, id);
    PunctualIsInTime(g, s, d, now);
    assert CasesKept(t, d) by {
      HookDropsCase(s, d, id, now);
      OneRowKept(s, t, d, id);
    }
    QuietParts(g, s, t, d);
  }

  lemma HookLeavesCase(s: Sys, d: real, id: nat, now: real)
    requires id in s.cases && id in s.hooks && !s.hooks[id].calling && CaseKept(s, d, id)
    requires InTime(s, d, now)
    ensures CaseKept(HookLeaves(s, id, now), d, id)
    ensures forall k | k in s.cases && k != id :: Untouched(s, HookLeaves(s, id, now), d, k)
  {
  }

  lemma HookLeavesKeeps(g: Gateway, d: real, s: Sys, id: nat, now: real)
    requires Inv(g, d, s) && id in s.hooks && Punctual(s, d, now) && !s.hooks[id].calling
    ensures Inv(g, d, HookLeaves(s, id, now))
  {
    var t := HookLeaves(s, id, now);
    assert CaseKept(s, d, id);
    PunctualIsInTime(g, s, d, now);
    assert CasesKept(t, d) by {
      HookLeavesCase(s, d, id, now);
      OneRowKept(s, t, d, id);
    }
    QuietParts(g, s, t, d);
  }

  lemma HookCallsCase(s: Sys, d: real, id: nat, w: World, now: real, delivery: Delivery)
    requires id in s.cases && id in s.hooks && !s.hooks[id].calling && CaseKept(s, d, id)
    requires InTime(s, d, now)
    ensures CaseKept(HookCalls(s, id, w, now, delivery), d, id)
    ensures forall k | k in s.cases && k != id :: Untouched(s, HookCalls(s, id, w, now, delivery), d, k)
  {
  }

  lemma HookCallIsGood(g: Gateway, origin: Origin, h: Hook, id: nat, w: World, delivery: Delivery,
                       standing: Option<Row>, ended: bool)
    requires HookKept(g, origin, h) && Judge(g, w, h.request, h.phase) == CallRuntime(delivery)
    requires standing.Some? || ended
    requires standing.Some? ==> standing.value.AcceptedAs() == origin
    ensures GoodCall(g, origin, Call(id, delivery, h.routeWorld, h.routeTime, h.request.timestamp, w, true, standing,
                                     ended))
  {
  }

  // Steps that make one call for one row.
  lemma CallParts(g: Gateway, s: Sys, t: Sys, d: real, id: nat)
    requires BatchKept(s, d) && CallsCounted(s)
    requires t.batch == s.batch && t.cases.Keys == s.cases.Keys && id in s.cases
    requires t.sending == s.sending || (t.sending.Some? && s.batch != []
                                        && t.sending.value - s.batch[0].row.receivedAt <= MAX_AGE_SECONDS)
    requires forall k | k in s.cases && k != id :: t.cases[k] == s.cases[k]
    requires t.cases[id] == s.cases[id].(hookCalls := t.cases[id].hookCalls, workerCalls := t.cases[id].workerCalls)
    requires Calls(t.cases[id]) == Calls(s.cases[id]) + 1
    requires |t.log| == |s.log| + 1 && t.log == s.log + [t.log[|s.log|]] && t.log[|s.log|].id == id
    ensures SameOrigins(s, t) && BatchKept(t, d) && CallsCounted(t)
  {
  }

  lemma LogGrows(g: Gateway, s: Sys, t: Sys)
    requires LogKept(g, s) && SameOrigins(s, t)
    requires |t.log| == |s.log| + 1 && t.log[..|s.log|] == s.log
    requires t.log[|s.log|].id in t.cases && GoodCall(g, t.cases[t.log[|s.log|].id].origin, t.log[|s.log|])
    ensures LogKept(g, t)
  {
    forall i | 0 <= i < |t.log|
      ensures t.log[i].id in t.cases && GoodCall(g, t.cases[t.log[i].id].origin, t.log[i])
    {
      if i < |s.log| {
        assert t.log[i] == s.log[i];
      }
    }
  }

  lemma HookCallsKeeps(g: Gateway, d: real, s: Sys, id: nat, w: World, now: real, delivery: Delivery)
    requires Inv(g, d, s) && id in s.hooks && Punctual(s, d, now) && !s.hooks[id].calling
    requires Judge(g, w, s.hooks[id].request, s.hooks[id].phase) == CallRuntime(delivery)
    ensures Inv(g, d, HookCalls(s, id, w, now, delivery))
  {
    var t := HookCalls(s, id, w, now, delivery);
    assert CaseKept(s, d, id);
    PunctualIsInTime(g, s, d, now);
    assert CasesKept(t, d) by {
      HookCallsCase(s, d, id, w, now, delivery);
      OneRowKept(s, t, d, id);
    }
    CallParts(g, s, t, d, id);
    assert HooksKept(g, t) by {
      OldHooksKept(g, s, t);
    }
    assert LogKept(g, t) by {
      HookCallIsGood(g, s.cases[id].origin, s.hooks[id], id, w, delivery, RowOf(s, id), s.cases[id].ended);
      LogGrows(g, s, t);
    }
  }

  lemma SelectionCase(s: Sys, d: real, now: real, limit: nat, batch: seq<Selected>, id: nat)
    requires id in s.cases && CaseKept(s, d, id)
    requires s.batch == [] && s.sending == None && IsDueBatch(s.table, now, limit, batch) && InTime(s, d, now)
    ensures CaseKept(Selection(s, now, batch), d, id)
  {
  }

  lemma SelectionBatch(s: Sys, d: real, now: real, limit: nat, batch: seq<Selected>)
    requires CasesKept(s, d) && Allocated(s) && s.sending == None && IsDueBatch(s.table, now, limit, batch)
    ensures BatchKept(Selection(s, now, batch), d)
  {
    var t := Selection(s, now, batch);
    forall i | 0 <= i < |batch|
      ensures batch[i].id in t.cases && EntryKept(batch[i].row, t.cases[batch[i].id], d)
    {
      assert batch[i].id in s.table.rows && batch[i].id in Ids(batch);
      assert CaseKept(s, d, batch[i].id);
    }
  }

  lemma SelectionKeeps(g: Gateway, d: real, s: Sys, now: real, limit: nat, batch: seq<Selected>)
    requires Inv(g, d, s) && Punctual(s, d, now)
    requires s.batch == [] && s.sending == None && IsDueBatch(s.table, now, limit, batch)
    ensures Inv(g, d, Selection(s, now, batch))
  {
    var t := Selection(s, now, batch);
    PunctualIsInTime(g, s, d, now);
    assert CasesKept(t, d) by {
      forall id | id in t.cases
        ensures CaseKept(t, d, id)
      {
        assert CaseKept(s, d, id);
        SelectionCase(s, d, now, limit, batch, id);
      }
    }
    SelectionBatch(s, d, now, limit, batch);
    assert LogKept(g, t) by {
      OldLogKept(g, s, t);
    }
    assert CallsCounted(t) by {
      OldCallsCounted(g, s, t);
    }
    assert HooksKept(g, t) by {
      OldHooksKept(g, s, t);
    }
  }

  lemma WorkerCallsCase(s: Sys, d: real, t: Turn, delivery: Delivery)
    requires s.batch != [] && s.sending == None && s.batch[0].id in s.cases && CaseKept(s, d, s.batch[0].id)
    requires InTime(s, d, t.now)
    ensures CaseKept(WorkerCalls(s, t, delivery), d, s.batch[0].id)
    ensures forall k | k in s.cases && k != s.batch[0].id :: Untouched(s, WorkerCalls(s, t, delivery), d, k)
  {
  }

  lemma WorkerCallIsGood(g: Gateway, origin: Origin, row: Selected, t: Turn, standing: Option<Row>, ended: bool)
    requires g.crypto.Lawful() && row.row.AcceptedAs() == origin && Decide(g, row.row, t).SendTo?
    requires standing.Some? ==> standing.value.AcceptedAs() == origin
    ensures
      var delivery := Decide(g, row.row, t).delivery;
      GoodCall(g, origin, Call(row.id, delivery, t.world, t.routeNow, delivery.timestamp, t.world, false, standing,
                               ended))
  {
    DeliveriesAreAuthentic(g, row.row, t);
  }

  lemma KeptRowsAreYoung(g: Gateway, r: Row, t: Turn)
    ensures !Decide(g, r, t).DropAs? ==> t.now - r.receivedAt <= MAX_AGE_SECONDS
  {
  }

  lemma WorkerCallsKeeps(g: Gateway, d: real, s: Sys, t: Turn)
    requires Inv(g, d, s) && g.crypto.Lawful() && Punctual(s, d, t.now)
    requires s.batch != [] && s.sending == None && Decide(g, s.batch[0].row, t).SendTo?
    ensures Inv(g, d, WorkerCalls(s, t, Decide(g, s.batch[0].row, t).delivery))
  {
    var delivery := Decide(g, s.batch[0].row, t).delivery;
    var u := WorkerCalls(s, t, delivery);
    var id := s.batch[0].id;
    assert id in Ids(s.batch);
    assert CaseKept(s, d, id);
    PunctualIsInTime(g, s, d, t.now);
    assert CasesKept(u, d) by {
      WorkerCallsCase(s, d, t, delivery);
      OneRowKept(s, u, d, id);
    }
    KeptRowsAreYoung(g, s.batch[0].row, t);
    CallParts(g, s, u, d, id);
    assert HooksKept(g, u) by {
      OldHooksKept(g, s, u);
    }
    assert LogKept(g, u) by {
      WorkerCallIsGood(g, s.cases[id].origin, s.batch[0], t, RowOf(s, id), s.cases[id].ended);
      LogGrows(g, s, u);
    }
  }

  // What the worker may have decided about the head of its batch: end the row, or keep it with a
  // bounded due time, one attempt older exactly when it deferred it.
  predicate HeadStep(s: Sys, d: real, after: (Ingress, Outcome)) {
    s.batch != [] &&
    var row := s.batch[0];
    && RowStep(s.table, row.id, after.0, after.1)
    && (after.1 == Deferral ==> row.row.attempts + 1 < MAX_ATTEMPTS)
    && (after.1 == Held ==> s.sending == None)
    && (row.id in after.0.rows ==>
          after.0.rows[row.id].nextAttemptAt
          >= s.clock + if after.1 == Deferral then Backoff(row.row.attempts + 1) else 0.0)
    && (row.id in after.0.rows ==>
          after.0.rows[row.id].nextAttemptAt <= row.row.receivedAt + MAX_AGE_SECONDS + LONGEST_BACKOFF + d)
  }

  lemma HeadIsDone(s: Sys, d: real)
    requires BatchKept(s, d) && s.batch != []
    ensures s.batch[0].id in Ids(s.batch) && s.batch[0].id !in Ids(s.batch[1..])
  {
    var id := s.batch[0].id;
    assert forall i | 0 <= i < |s.batch[1..]| :: s.batch[1..][i] == s.batch[i + 1] && s.batch[i + 1].id != id;
  }

  lemma RowDoneAttempts(s: Sys, d: real, now: real, after: (Ingress, Outcome))
    requires BatchKept(s, d) && HeadStep(s, d, after) && s.batch[0].id in s.cases && CaseKept(s, d, s.batch[0].id)
    requires InTime(s, d, now)
    ensures AttemptsKept(RowDone(s, now, after), d, s.batch[0].id)
  {
    var id := s.batch[0].id;
    HeadIsDone(s, d);
    assert EntryKept(s.batch[0].row, s.cases[id], d);
    DelayGrows(s.cases[id].spent, s.batch[0].row.attempts + 1);
  }

  lemma RowDoneCalls(s: Sys, d: real, now: real, after: (Ingress, Outcome))
    requires BatchKept(s, d) && HeadStep(s, d, after) && s.batch[0].id in s.cases && CaseKept(s, d, s.batch[0].id)
    requires InTime(s, d, now)
    ensures CallsKept(RowDone(s, now, after), d, s.batch[0].id)
  {
  }

  lemma RowDoneCase(s: Sys, d: real, now: real, after: (Ingress, Outcome))
    requires BatchKept(s, d) && HeadStep(s, d, after) && s.batch[0].id in s.cases && CaseKept(s, d, s.batch[0].id)
    requires InTime(s, d, now)
    ensures CaseKept(RowDone(s, now, after), d, s.batch[0].id)
  {
    RowDoneAttempts(s, d, now, after);
    RowDoneCalls(s, d, now, after);
  }

  lemma RowDoneOthers(s: Sys, d: real, now: real, after: (Ingress, Outcome), k: nat)
    requires BatchKept(s, d) && HeadStep(s, d, after) && k in s.cases && k != s.batch[0].id && s.batch[0].id in s.cases
    requires InTime(s, d, now)
    ensures Untouched(s, RowDone(s, now, after), d, k)
  {
  }

  lemma RowDoneBatch(s: Sys, d: real, now: real, after: (Ingress, Outcome))
    requires BatchKept(s, d) && s.batch != [] && s.batch[0].id in s.cases
    ensures BatchKept(RowDone(s, now, after), d)
  {
  }

  lemma RowDoneKeeps(g: Gateway, d: real, s: Sys, now: real, after: (Ingress, Outcome))
    requires Inv(g, d, s) && HeadStep(s, d, after) && Punctual(s, d, now)
    ensures s.batch[0].id in s.cases && Inv(g, d, RowDone(s, now, after))
  {
    var id := s.batch[0].id;
    assert id in s.cases && CaseKept(s, d, id);
    var t := RowDone(s, now, after);
    PunctualIsInTime(g, s, d, now);
    assert CasesKept(t, d) by {
      RowDoneCase(s, d, now, after);
      forall k | k in t.cases && k != id
        ensures Untouched(s, t, d, k)
      {
        RowDoneOthers(s, d, now, after, k);
      }
      OneRowKept(s, t, d, id);
    }
    RowDoneBatch(s, d, now, after);
    assert LogKept(g, t) by {
      OldLogKept(g, s, t);
    }
    OldCallsCounted(g, s, t);
    assert HooksKept(g, t) by {
      OldHooksKept(g, s, t);
    }
    assert Allocated(t);
  }

  // A concluded decision is such a step, as long as the row was young enough to be kept.
  lemma ConclusionIsHeadStep(s: Sys, d: real, t: Turn, decision: Decision)
    requires s.batch != [] && t.now <= t.after <= t.now + d
    requires s.clock <= (if decision.SendTo? then t.after else t.now)
    requires decision.HoldRow? ==> s.sending == None
    requires decision.DropAs? ==> decision.outcome in {Expired, Unverifiable, Undeliverable}
    requires !decision.DropAs? ==> t.now - s.batch[0].row.receivedAt <= MAX_AGE_SECONDS
    requires s.batch[0].id in s.table.rows ==> s.table.rows[s.batch[0].id].AcceptedAs() == s.batch[0].row.AcceptedAs()
    ensures HeadStep(s, d, Conclude(s.table, s.batch[0], t, decision))
  {
    ConcludedRow(s.table, s.batch[0], t, decision);
    if s.batch[0].row.attempts + 1 < MAX_ATTEMPTS {
      BackoffBounds(s.batch[0].row.attempts + 1);
    }
  }

  lemma CrashedCase(s: Sys, d: real, id: nat)
    requires id in s.cases && CaseKept(s, d, id)
    ensures CaseKept(Crashed(s), d, id)
  {
  }

  lemma CrashedKeeps(g: Gateway, d: real, s: Sys)
    requires Inv(g, d, s)
    ensures Inv(g, d, Crashed(s))
  {
    var t := Crashed(s);
    forall id | id in t.cases
      ensures CaseKept(t, d, id)
    {
      assert CaseKept(s, d, id);
      CrashedCase(s, d, id);
    }
    OldLogKept(g, s, t);
    OldCallsCounted(g, s, t);
  }

  lemma ClockKeeps(g: Gateway, d: real, s: Sys, now: real)
    requires Inv(g, d, s) && Punctual(s, d, now)
    ensures Inv(g, d, s.(clock := now))
  {
    var t := s.(clock := now);
    PunctualIsInTime(g, s, d, now);
    forall id | id in t.cases
      ensures CaseKept(t, d, id)
    {
      assert CaseKept(s, d, id);
      UntouchedKept(s, t, d, id);
    }
    OldBatchKept(s, t, d);
    OldLogKept(g, s, t);
    OldCallsCounted(g, s, t);
    OldHooksKept(g, s, t);
  }

  lemma HeadIsKnown(s: Sys, d: real)
    requires BatchKept(s, d) && CasesKept(s, d) && s.batch != []
    ensures s.batch[0].id in s.cases
    ensures s.batch[0].id in s.table.rows ==> s.table.rows[s.batch[0].id].AcceptedAs() == s.batch[0].row.AcceptedAs()
  {
    assert CaseKept(s, d, s.batch[0].id);
  }

  lemma WorkKeeps(g: Gateway, d: real, s: Sys, t: Turn)
    requires Inv(g, d, s) && g.crypto.Lawful() && Known(s) && Enabled(g, d, s, Work(t))
    ensures Inv(g, d, Step(g, d, s, Work(t)))
  {
    var decision := Decide(g, s.batch[0].row, t);
    HeadIsKnown(s, d);
    KeptRowsAreYoung(g, s.batch[0].row, t);
    if decision.SendTo? && g.hasDeliverer {
      WorkerCallsKeeps(g, d, s, t);
    } else {
      DropsAreTerminal(g, s.batch[0].row, t);
      ConclusionIsHeadStep(s, d, t.(reply := Takes), decision);
      RowDoneKeeps(g, d, s, t.after, Conclude(s.table, s.batch[0], t.(reply := Takes), decision));
    }
  }

  lemma SettleKeeps(g: Gateway, d: real, s: Sys, reply: RuntimeReply, after: real)
    requires Inv(g, d, s) && Known(s) && Enabled(g, d, s, Settle(reply, after))
    ensures Inv(g, d, Step(g, d, s, Settle(reply, after)))
  {
    HeadIsKnown(s, d);
    ConclusionIsHeadStep(s, d, Replying(s, reply, after), SendTo(NO_DELIVERY));
    RowDoneKeeps(g, d, s, after, Conclude(s.table, s.batch[0], Replying(s, reply, after), SendTo(NO_DELIVERY)));
  }

  /** Every step keeps the invariant. */
  lemma StepKeeps(g: Gateway, d: real, s: Sys, e: Event)
    requires Inv(g, d, s) && d >= 0.0 && g.crypto.Lawful() && Known(s) && Enabled(g, d, s, e)
    ensures Inv(g, d, Step(g, d, s, e))
  {
    match e
    case Arrive(q, w, routed, received) =>
      match Admit(g, w, routed, q) {
        case Refused(_) => ClockKeeps(g, d, s, received);
        case Persisted(phase) => AdmittedKeeps(g, d, s, q, phase, w, routed, received);
      }
    case Judged(id, w, now) =>
      match Judge(g, w, s.hooks[id].request, s.hooks[id].phase) {
        case Keep(error, _) => HookKeepsKeeps(g, d, s, id, error, now);
        case Drop(_) => HookDropsKeeps(g, d, s, id, now);
        case Leave => HookLeavesKeeps(g, d, s, id, now);
        case CallRuntime(delivery) => HookCallsKeeps(g, d, s, id, w, now, delivery);
      }
    case Replied(id, taken, now) =>
      if taken {
        HookDropsKeeps(g, d, s, id, now);
      } else {
        HookKeepsKeeps(g, d, s, id, "runtime_unavailable", now);
      }
    case Select(now, limit, batch) => SelectionKeeps(g, d, s, now, limit, batch);
    case Work(t) => WorkKeeps(g, d, s, t);
    case Settle(reply, after) => SettleKeeps(g, d, s, reply, after);
    case Crash => CrashedKeeps(g, d, s);
  }

  // ---- runs ----

  ghost predicate IsRun(g: Gateway, d: real, states: seq<Sys>, events: seq<Event>) {
    && |states| == |events| + 1
    && states[0] == INITIAL
    && forall i {:trigger events[i]} | 0 <= i < |events| ::
         Known(states[i]) && Enabled(g, d, states[i], events[i]) && states[i + 1] == Step(g, d, states[i], events[i])
  }

  lemma {:induction false} RunKeeps(g: Gateway, d: real, states: seq<Sys>, events: seq<Event>, i: nat)
    requires IsRun(g, d, states, events) && i <= |events| && d >= 0.0 && g.crypto.Lawful()
    ensures Inv(g, d, states[i])
    decreases i
  {
    if i > 0 {
      RunKeeps(g, d, states, events, i - 1);
      assert states[i] == Step(g, d, states[i - 1], events[i - 1]);
      StepKeeps(g, d, states[i - 1], events[i - 1]);
    }
  }

  /** I4 and I5 over every run: all the calls ever made for one row go to the one household stored when
      it was accepted, with the body it was accepted with, under a signature that verifies, and only
      after the accepted signature verified under the same key. */
  lemma EveryCallIsGood(g: Gateway, d: real, states: seq<Sys>, events: seq<Event>, i: nat, c: Call)
    requires IsRun(g, d, states, events) && i <= |events| && d >= 0.0 && g.crypto.Lawful()
    requires c in states[i].log
    ensures c.id in states[i].cases && GoodCall(g, states[i].cases[c.id].origin, c)
    // In the tables' own words: the switch was on, the sender led to that household, and the household's key
    // made both digests.
    ensures
      var origin, sent := states[i].cases[c.id].origin, c.delivery;
      && c.routeWorld.enabled
      && Leads(g, c.routeWorld, c.routeTime, origin.sender, origin.channel.value, c.stamp, sent.household,
               sent.runtimeRef)
      && exists key ::
           && KeyIs(g, c.keyWorld, sent.household, key)
           && Spells(origin.originSignature.value, g.crypto.hmac(key, origin.payload, origin.originTimestamp.value))
           && Spells(sent.signature, g.crypto.hmac(key, sent.payload, sent.timestamp))
  {
    RunKeeps(g, d, states, events, i);
    var k :| 0 <= k < |states[i].log| && states[i].log[k] == c;
    var origin := states[i].cases[c.id].origin;
    assert GoodCall(g, origin, c);
    var sent := c.delivery;
    RoutesWhereItLeads(g, c.routeWorld, c.routeTime, origin.sender, origin.channel.value, c.stamp, sent.household,
                       sent.runtimeRef);
    RoutesWhereItLeads(g, c.keyWorld, c.routeTime, origin.sender, origin.channel.value, c.stamp, sent.household,
                       sent.runtimeRef);
    var key := RelayKey(g, c.keyWorld, sent.household).value;
    MatchesIffSpelt(g.crypto, key, origin.payload, origin.originTimestamp.value, origin.originSignature.value);
    MatchesIffSpelt(g.crypto, key, sent.payload, sent.timestamp, sent.signature);
    assert KeyIs(g, c.keyWorld, sent.household, key);
  }

  /** Bounds over every run. A row is due again within a day, the longest backoff and d of its arrival.
      While webhooks take less than six backoffs - or were never raced by the worker - its attempts stay
      within 7 and the calls made for it within 8, plus those a crash cut off. Otherwise one more of
      each is possible. */
  lemma EveryRowIsBounded(g: Gateway, d: real, states: seq<Sys>, events: seq<Event>, i: nat, id: nat)
    requires IsRun(g, d, states, events) && i <= |events| && d >= 0.0 && g.crypto.Lawful()
    requires id in states[i].cases
    ensures
      var s, c := states[i], states[i].cases[id];
      && (id in s.table.rows ==>
            && s.table.rows[id].AcceptedAs() == c.origin
            && s.table.rows[id].nextAttemptAt <= c.origin.receivedAt + MAX_AGE_SECONDS + LONGEST_BACKOFF + d
            && s.table.rows[id].attempts <= if Calm(c, d) then 7 else 8)
      && CallsTo(s.log, id) <= (if Calm(c, d) then 8 else 9) + c.workerLost + c.hookLost
  {
    RunKeeps(g, d, states, events, i);
    var s, c := states[i], states[i].cases[id];
    assert CaseKept(s, d, id);
    assert CallsTo(s.log, id) == Calls(c);
    if id in s.hooks {
      HookTiming(s, d, id);
    }
  }

  /** Retention over every run: whenever a pass with limit L runs to its end on a reachable table, it
      removes min(L, k) of the k rows that arrived longer ago than a day, the longest backoff and d. */
  lemma ReachablePassDeletesAged(g: Gateway, d: real, states: seq<Sys>, events: seq<Event>, i: nat,
                                 now: real, limit: nat, batch: seq<Selected>, turns: seq<Turn>)
    requires IsRun(g, d, states, events) && i <= |events| && d >= 0.0 && g.crypto.Lawful()
    requires IsDueBatch(states[i].table, now, limit, batch) && |turns| == |batch|
    requires forall j | 0 <= j < |turns| :: now <= turns[j].now
    ensures
      var aged := OlderThan(states[i].table, now - (MAX_AGE_SECONDS + LONGEST_BACKOFF + d));
      |aged - Pass(g, states[i].table, batch, turns, |batch|).0.rows.Keys| == if |aged| <= limit then |aged| else limit
  {
    var s := states[i];
    forall id | id in s.table.rows
      ensures s.table.rows[id].nextAttemptAt <= s.table.rows[id].receivedAt + MAX_AGE_SECONDS + LONGEST_BACKOFF + d
    {
      RunKeeps(g, d, states, events, i);
      assert id in s.cases && CaseKept(s, d, id);
      assert s.table.rows[id].AcceptedAs().receivedAt == s.table.rows[id].receivedAt;
    }
    PassDeletesAged(g, s.table, now, limit, batch, turns, d);
  }
}
