/** `GatewayRedeliverWorker` of gateway/whatsapp_router.py: one outcome for every due row. */
module GatewayWorker {
  import opened Basics
  import opened RelayTrust
  import opened GatewayStore
  import opened GatewayRouter

  const MAX_ATTEMPTS := 8
  const MAX_AGE_SECONDS: real := 86400.0

  // 30 * 2^6: the longest backoff a kept row can be given.
  const LONGEST_BACKOFF: real := 1920.0

  datatype Outcome = Delivered | Deferral | Exhausted | Expired | Undeliverable | Unverifiable | Held

  // How the runtime takes a delivery: it does, it raises `RuntimeError`, or it raises anything else.
  datatype RuntimeReply = Takes | Refuses | Throws

  // What one row meets: the clock at its start, at its route and after its delivery, the world it
  // reads, and the runtime's reply.
  datatype Turn = Turn(now: real, routeNow: real, after: real, world: World, reply: RuntimeReply)

  predicate Provenance(r: Row) {
    r.channel.Some? && r.originTimestamp.Some? && r.originSignature.Some?
  }

  // The outcome of a row up to its delivery, in the order the class promises: everything terminal is
  // decided before the switch is asked.
  datatype Decision =
    | DropAs(outcome: Outcome)
    | HoldRow
    | DeferAs(error: string)
    | SendTo(delivery: Delivery)
    | RowThrows

  function Decide(g: Gateway, r: Row, t: Turn): (d: Decision) {
    if t.now - r.receivedAt > MAX_AGE_SECONDS then DropAs(Expired)
    else if !Provenance(r) then DropAs(Unverifiable)
    else
      var stamp := g.crypto.decimal(Truncate(t.now));
      match Route(g, t.world, t.routeNow, r.sender, r.channel.value, Some(stamp))
      case RouteRaises => RowThrows
      case Denied(_) => DropAs(Undeliverable)
      case RoutedTo(household, ref) =>
        if Some(household) != r.household then DropAs(Undeliverable)
        else
          var key := RelayKey(g, t.world, household);
          var verdict := if key == None then Match
                         else g.crypto.Verify(key.value, r.payload, r.originTimestamp.value, r.originSignature.value);
          if verdict == Raises then RowThrows
          else if verdict == Mismatch then DropAs(Unverifiable)
          else if !t.world.enabled then HoldRow
          else if key == None then DeferAs("relay_key_absent")
          else SendTo(Delivery(household, ref, r.payload, stamp, g.crypto.hmac(key.value, r.payload, stamp)))
  }

  // ---- what a decision rests on, said of the row and the tables themselves ----

  // The row is young enough and carries all it was accepted with.
  ghost predicate Eligible(r: Row, t: Turn) {
    && t.now - r.receivedAt <= 86400.0
    && r.channel != None && r.originTimestamp != None && r.originSignature != None
  }

  // The sender of the row leads, now, to the household it was accepted for.
  ghost predicate StillLeads(g: Gateway, r: Row, t: Turn) {
    && Eligible(r, t) && r.household.Some?
    && exists ref :: Leads(g, t.world, t.routeNow, r.sender, r.channel.value, g.crypto.decimal(Truncate(t.now)),
                           r.household.value, ref)
  }

  ghost predicate LookupBreaks(g: Gateway, r: Row, t: Turn) {
    Eligible(r, t) && OnTime(g, t.routeNow, g.crypto.decimal(Truncate(t.now))) && t.world.lookup.Breaks?
  }

  ghost predicate HasKey(g: Gateway, r: Row, t: Turn) {
    StillLeads(g, r, t) && exists key :: KeyIs(g, t.world, r.household.value, key)
  }

  // The signature the row came with spells its digest under the household's key.
  ghost predicate Genuine(g: Gateway, r: Row, t: Turn) {
    && StillLeads(g, r, t)
    && exists key ::
         && KeyIs(g, t.world, r.household.value, key)
         && Spells(r.originSignature.value, g.crypto.hmac(key, r.payload, r.originTimestamp.value))
  }

  lemma RoutedIffStillLeads(g: Gateway, r: Row, t: Turn)
    requires Eligible(r, t)
    ensures var stamp := Some(g.crypto.decimal(Truncate(t.now)));
            var routed := Route(g, t.world, t.routeNow, r.sender, r.channel.value, stamp);
            && (routed.RoutedTo? && Some(routed.household) == r.household <==> StillLeads(g, r, t))
            && (routed.RouteRaises? <==> LookupBreaks(g, r, t))
  {
    var stamp := g.crypto.decimal(Truncate(t.now));
    RefusedForWhatIsWrong(g, t.world, t.routeNow, r.sender, r.channel.value, stamp);
    forall household, ref
      ensures Route(g, t.world, t.routeNow, r.sender, r.channel.value, Some(stamp)) == RoutedTo(household, ref)
              <==> Leads(g, t.world, t.routeNow, r.sender, r.channel.value, stamp, household, ref)
    {
      RoutesWhereItLeads(g, t.world, t.routeNow, r.sender, r.channel.value, stamp, household, ref);
    }
  }

  lemma KeyTells(g: Gateway, r: Row, t: Turn)
    requires g.crypto.Lawful() && StillLeads(g, r, t)
    ensures var key := RelayKey(g, t.world, r.household.value);
            && (HasKey(g, r, t) <==> key.Some?)
            && (key.Some? ==>
                  var v := g.crypto.Verify(key.value, r.payload, r.originTimestamp.value, r.originSignature.value);
                  && (v == Match <==> Genuine(g, r, t))
                  && (v == Raises <==> Unreadable(r.originSignature.value)))
            && (Genuine(g, r, t) ==> HasKey(g, r, t))
  {
    var household := r.household.value;
    var key := RelayKey(g, t.world, household);
    RoutesWhereItLeads(g, t.world, t.routeNow, r.sender, r.channel.value, "", household, None);
    if key.Some? {
      assert KeyIs(g, t.world, household, key.value);
      MatchesIffSpelt(g.crypto, key.value, r.payload, r.originTimestamp.value, r.originSignature.value);
      VerifyRaisesIff(g.crypto, key.value, r.payload, r.originTimestamp.value, r.originSignature.value);
    }
  }

  // A digest is plain text: what spells one can be compared.
  lemma NeverBoth(g: Gateway, r: Row, t: Turn)
    requires g.crypto.Lawful() && StillLeads(g, r, t)
    ensures Genuine(g, r, t) ==> !Unreadable(r.originSignature.value)
  {
    KeyTells(g, r, t);
  }

  /** Each decision is made exactly for its reason: too old; not all there, or a key that rejects it; nobody's
      now, or somebody else's; an exception on the way; the switch; a key still missing; and otherwise it is
      sent. */
  lemma DecidesExactly(g: Gateway, r: Row, t: Turn)
    requires g.crypto.Lawful()
    ensures var d := Decide(g, r, t);
            && (d == DropAs(Expired) <==> t.now - r.receivedAt > 86400.0)
            && (d == DropAs(Undeliverable) <==> Eligible(r, t) && !StillLeads(g, r, t) && !LookupBreaks(g, r, t))
            && (d == DropAs(Unverifiable)
                <==> || (t.now - r.receivedAt <= 86400.0 && !Eligible(r, t))
                     || (HasKey(g, r, t) && !Genuine(g, r, t) && !Unreadable(r.originSignature.value)))
            && (d == RowThrows
                <==> LookupBreaks(g, r, t) || (HasKey(g, r, t) && Unreadable(r.originSignature.value)))
            && (d == HoldRow
                <==> StillLeads(g, r, t) && (HasKey(g, r, t) ==> Genuine(g, r, t)) && !t.world.enabled)
            && (d == DeferAs("relay_key_absent") <==> StillLeads(g, r, t) && !HasKey(g, r, t) && t.world.enabled)
            && (d.SendTo? <==> Genuine(g, r, t) && t.world.enabled)
  {
    if Eligible(r, t) {
      RoutedIffStillLeads(g, r, t);
      if StillLeads(g, r, t) {
        KeyTells(g, r, t);
        NeverBoth(g, r, t);
      }
    }
  }

  function Pow2(n: nat): (p: int)
    ensures p >= 1
  {
    if n == 0 then 1 else 2 * Pow2(n - 1)
  }

  function Backoff(attempts: nat): (b: real)
    requires attempts >= 1
  {
    BASE_BACKOFF_SECONDS * Pow2(attempts - 1) as real
  }

  lemma {:induction false} PowMonotone(a: nat, b: nat)
    requires a <= b
    ensures Pow2(a) <= Pow2(b)
  {
    if a < b {
      PowMonotone(a, b - 1);
    }
  }

  /** Every further attempt doubles the wait. */
  lemma BackoffDoubles(attempts: nat)
    requires attempts >= 1
    ensures Backoff(1) == 30.0 && Backoff(attempts + 1) == 2.0 * Backoff(attempts)
  {
    assert Pow2(attempts) == 2 * Pow2(attempts - 1);
  }

  /** A kept row backs off between 30 seconds and 1920. */
  lemma BackoffBounds(attempts: nat)
    requires 1 <= attempts < MAX_ATTEMPTS
    ensures BASE_BACKOFF_SECONDS <= Backoff(attempts) <= LONGEST_BACKOFF
  {
    PowMonotone(attempts - 1, 6);
    assert Pow2(6) == 64 by {
      assert Pow2(2) == 4;
      assert Pow2(4) == 16;
    }
  }

  // `_defer`: spend an attempt of the selected copy, or drop the row once they run out.
  function DeferOrExhaust(s: Ingress, row: Selected, now: real, error: string): (r: (Ingress, Outcome)) {
    var attempts := row.row.attempts + 1;
    if attempts >= MAX_ATTEMPTS then (Deleted(s, row.id), Exhausted)
    else (Deferred(s, row.id, error, now + Backoff(attempts), true), Deferral)
  }

  // What a decision and, where one was made, a delivery come to.
  function Conclude(s: Ingress, row: Selected, t: Turn, d: Decision): (r: (Ingress, Outcome)) {
    match d
    case DropAs(outcome) => (Deleted(s, row.id), outcome)
    case HoldRow => (Deferred(s, row.id, "flag_disabled", t.now + BASE_BACKOFF_SECONDS, false), Held)
    case DeferAs(error) => DeferOrExhaust(s, row, t.now, error)
    case RowThrows => DeferOrExhaust(s, row, t.after, "worker_error")
    case SendTo(_) =>
      match t.reply
      case Takes => (Deleted(s, row.id), Delivered)
      case Refuses => DeferOrExhaust(s, row, t.after, "runtime_unavailable")
      case Throws => DeferOrExhaust(s, row, t.after, "worker_error")
  }

  // With no deliverer configured a delivery succeeds without a call.
  function Reached(g: Gateway, t: Turn): (u: Turn) {
    if g.hasDeliverer then t else t.(reply := Takes)
  }

  function ProcessRow(g: Gateway, s: Ingress, row: Selected, t: Turn): (r: (Ingress, Outcome)) {
    Conclude(s, row, Reached(g, t), Decide(g, row.row, t))
  }

  // What each outcome says of the decision, the runtime's reply and the attempts there were.
  ghost predicate Fits(g: Gateway, row: Selected, t: Turn, o: Outcome) {
    var d := Decide(g, row.row, t);
    var sent := d.SendTo? && (g.hasDeliverer ==> t.reply == Takes);
    && (o == Delivered <==> sent)
    && (o == Held <==> d == HoldRow)
    && (o == Exhausted <==> (d.DeferAs? || d.RowThrows? || (d.SendTo? && !sent)) && row.row.attempts >= 7)
    && (o == Deferral <==> (d.DeferAs? || d.RowThrows? || (d.SendTo? && !sent)) && row.row.attempts < 7)
    && (o in {Expired, Undeliverable, Unverifiable} <==> d == DropAs(o))
  }

  // A decision to drop is never reported as a row that stays.
  lemma DropsAreTerminal(g: Gateway, r: Row, t: Turn)
    ensures Decide(g, r, t).DropAs? ==> Decide(g, r, t).outcome in {Expired, Unverifiable, Undeliverable}
  {
  }

  lemma OutcomeFits(g: Gateway, s: Ingress, row: Selected, t: Turn)
    ensures Fits(g, row, t, ProcessRow(g, s, row, t).1)
  {
    DropsAreTerminal(g, row.row, t);
  }

  // ---- what one row's processing promises ----

  /** I4 and I5: a delivery goes to the household stored at acceptance, which the sender currently
      resolves to; it carries the accepted body, whose original signature verified under the key that
      now signs it; and what is sent verifies. It is sent only while the switch is on and the row is
      young enough. */
  lemma DeliveriesAreAuthentic(g: Gateway, r: Row, t: Turn)
    requires g.crypto.Lawful() && Decide(g, r, t).SendTo?
    ensures
      var d := Decide(g, r, t).delivery;
      && r.household == Some(d.household)
      && Provenance(r)
      && d.payload == r.payload
      && t.world.enabled
      && t.now - r.receivedAt <= MAX_AGE_SECONDS
      && RelayKey(g, t.world, d.household).Some?
      && var key := RelayKey(g, t.world, d.household).value;
      && g.crypto.Verify(key, r.payload, r.originTimestamp.value, r.originSignature.value) == Match
      && g.crypto.Verify(key, d.payload, d.timestamp, d.signature) == Match
      && d.timestamp == g.crypto.decimal(Truncate(t.now))
      && t.world.lookup.Answers?
      && exists i: nat :: SoleHolder(t.world.lookup.directory, r.channel.value, SenderQuery(g, r.sender), i)
                          && t.world.lookup.directory.bindings[i].household == d.household
  {
    var d := Decide(g, r, t).delivery;
    g.crypto.OwnSignatureVerifies(RelayKey(g, t.world, d.household).value, r.payload, d.timestamp);
    ResolvesToSoleHolder(t.world.lookup.directory, r.channel.value, SenderQuery(g, r.sender));
    var i: nat :| SoleHolder(t.world.lookup.directory, r.channel.value, SenderQuery(g, r.sender), i);
    assert t.world.lookup.directory.bindings[i].household == d.household;
  }

  /** A row that was kept because the lookup failed carries no household, and is never delivered. */
  lemma NoHouseholdNoDelivery(g: Gateway, r: Row, t: Turn)
    requires r.household == None
    ensures !Decide(g, r, t).SendTo?
    ensures t.world.lookup.Answers? && Decide(g, r, t) != RowThrows ==> Decide(g, r, t).DropAs?
  {
  }

  /** I1: the switch changes nothing above it. Every terminal drop and every exception is the same
      with it on and off, and with it off a row is held exactly where with it on it would have been
      delivered, deferred or exhausted by a genuine try. */
  lemma SwitchNeutral(g: Gateway, s: Ingress, row: Selected, t: Turn)
    ensures
      var on, off := t.(world := t.world.(enabled := true)), t.(world := t.world.(enabled := false));
      var whenOn, whenOff := Decide(g, row.row, on), Decide(g, row.row, off);
      && (whenOff == HoldRow <==> whenOn.SendTo? || whenOn.DeferAs?)
      && (whenOff != HoldRow ==> whenOff == whenOn && ProcessRow(g, s, row, off) == ProcessRow(g, s, row, on))
      && !whenOff.SendTo?
      && (ProcessRow(g, s, row, off).1 == Held <==> whenOn.SendTo? || whenOn.DeferAs?)
  {
    var on, off := t.(world := t.world.(enabled := true)), t.(world := t.world.(enabled := false));
    assert RelayKey(g, on.world, "") == RelayKey(g, off.world, "");
  }

  // What a row's processing may do to the table: remove this row, or keep it as it was accepted, one
  // attempt older exactly when it was a genuine try (I3).
  predicate RowStep(s: Ingress, id: nat, after: Ingress, outcome: Outcome) {
    && after.nextId == s.nextId
    && after.rows.Keys == (if outcome in {Deferral, Held} then s.rows.Keys else s.rows.Keys - {id})
    && (forall k | k in after.rows ::
          && after.rows[k].AcceptedAs() == s.rows[k].AcceptedAs()
          && (k != id ==> after.rows[k] == s.rows[k])
          && (k == id ==> after.rows[k].attempts == s.rows[k].attempts + if outcome == Deferral then 1 else 0))
  }

  lemma DeferStep(s: Ingress, row: Selected, now: real, error: string)
    ensures RowStep(s, row.id, DeferOrExhaust(s, row, now, error).0, DeferOrExhaust(s, row, now, error).1)
  {
  }

  lemma ConcludedRow(s: Ingress, row: Selected, t: Turn, d: Decision)
    requires d.DropAs? ==> d.outcome in {Expired, Unverifiable, Undeliverable}
    ensures RowStep(s, row.id, Conclude(s, row, t, d).0, Conclude(s, row, t, d).1)
  {
    DeferStep(s, row, t.now, if d.DeferAs? then d.error else "");
    DeferStep(s, row, t.after, "worker_error");
    DeferStep(s, row, t.after, "runtime_unavailable");
  }

  lemma ProcessedRow(g: Gateway, s: Ingress, row: Selected, t: Turn)
    ensures RowStep(s, row.id, ProcessRow(g, s, row, t).0, ProcessRow(g, s, row, t).1)
  {
    DropsAreTerminal(g, row.row, t);
    ConcludedRow(s, row, Reached(g, t), Decide(g, row.row, t));
  }

  lemma RowStepCounts(s: Ingress, id: nat, after: Ingress, outcome: Outcome)
    requires RowStep(s, id, after, outcome) && id in s.rows
    ensures |s.rows| == |after.rows| + if outcome in {Deferral, Held} then 0 else 1
  {
  }

  /** The retention bound of one step: a row kept by a worker is due again within a day, the longest
      backoff and the time its own processing took. */
  lemma KeptRowIsBounded(g: Gateway, s: Ingress, row: Selected, t: Turn, d: real)
    requires row.id in s.rows && s.rows[row.id].receivedAt == row.row.receivedAt
    requires t.now <= t.after <= t.now + d
    requires row.id in ProcessRow(g, s, row, t).0.rows
    ensures ProcessRow(g, s, row, t).0.rows[row.id].nextAttemptAt
            <= row.row.receivedAt + MAX_AGE_SECONDS + LONGEST_BACKOFF + d
  {
    var attempts := row.row.attempts + 1;
    if attempts < MAX_ATTEMPTS {
      BackoffBounds(attempts);
    }
  }

  /** A stored signature that cannot be compared makes a row's processing throw, whenever its key is there:
      this is all it takes beside what a delivery takes. */
  lemma UnreadableThrows(g: Gateway, r: Row, t: Turn)
    requires g.crypto.Lawful() && Provenance(r) && r.household.Some? && Unreadable(r.originSignature.value)
    requires t.now - r.receivedAt <= MAX_AGE_SECONDS && RelayKey(g, t.world, r.household.value).Some?
    requires exists ref :: Route(g, t.world, t.routeNow, r.sender, r.channel.value,
                                 Some(g.crypto.decimal(Truncate(t.now))))
                           == RoutedTo(r.household.value, ref)
    ensures Decide(g, r, t) == RowThrows
  {
    VerifyRaisesIff(g.crypto, RelayKey(g, t.world, r.household.value).value, r.payload, r.originTimestamp.value,
                    r.originSignature.value);
  }

  // One row, selected and processed again and again.
  function Retried(g: Gateway, s: Ingress, id: nat, turns: seq<Turn>): (after: Ingress)
    decreases |turns|
  {
    if turns == [] || id !in s.rows then s
    else Retried(g, ProcessRow(g, s, Selected(id, s.rows[id]), turns[0]).0, id, turns[1..])
  }

  // The decision about a row is one about what it was accepted as.
  lemma DecisionIsAboutTheOrigin(g: Gateway, r: Row, r': Row, t: Turn)
    requires r.AcceptedAs() == r'.AcceptedAs()
    ensures Decide(g, r, t) == Decide(g, r', t)
  {
  }

  /** A row whose processing keeps throwing is kept as it was accepted, an attempt older each time, and is
      gone at exactly the turn at which its attempts run out. */
  lemma {:induction false} ThrowsRunOut(g: Gateway, s: Ingress, id: nat, turns: seq<Turn>)
    requires id in s.rows && s.rows[id].attempts < MAX_ATTEMPTS
    requires forall t | t in turns :: Decide(g, s.rows[id], t) == RowThrows
    ensures var after := Retried(g, s, id, turns);
            && (id in after.rows <==> s.rows[id].attempts + |turns| < MAX_ATTEMPTS)
            && (id in after.rows ==>
                  && after.rows[id].attempts == s.rows[id].attempts + |turns|
                  && after.rows[id].AcceptedAs() == s.rows[id].AcceptedAs())
            && after.rows - {id} == s.rows - {id}
    decreases |turns|
  {
    if turns != [] {
      assert turns[0] in turns;
      var next := ProcessRow(g, s, Selected(id, s.rows[id]), turns[0]).0;
      assert next.rows - {id} == s.rows - {id};
      if id in next.rows {
        forall t | t in turns[1..]
          ensures Decide(g, next.rows[id], t) == RowThrows
        {
          DecisionIsAboutTheOrigin(g, s.rows[id], next.rows[id], t);
        }
        ThrowsRunOut(g, next, id, turns[1..]);
      } else {
        assert Retried(g, next, id, turns[1..]) == next;
      }
    }
  }

  // ---- one pass ----

  // The seven counters of a report.
  datatype Report = Report(delivered: nat, deferred: nat, exhausted: nat, expired: nat,
                           undeliverable: nat, unverifiable: nat, held: nat)
  {
    function Total(): (n: nat) {
      delivered + deferred + exhausted + expired + undeliverable + unverifiable + held
    }

    function Removed(): (n: nat) {
      delivered + exhausted + expired + undeliverable + unverifiable
    }
  }

  const EMPTY_REPORT := Report(0, 0, 0, 0, 0, 0, 0)

  function Count(r: Report, o: Outcome): (c: Report)
    ensures c.Total() == r.Total() + 1
    ensures c.Removed() == r.Removed() + if o in {Deferral, Held} then 0 else 1
  {
    match o
    case Delivered => r.(delivered := r.delivered + 1)
    case Deferral => r.(deferred := r.deferred + 1)
    case Exhausted => r.(exhausted := r.exhausted + 1)
    case Expired => r.(expired := r.expired + 1)
    case Undeliverable => r.(undeliverable := r.undeliverable + 1)
    case Unverifiable => r.(unverifiable := r.unverifiable + 1)
    case Held => r.(held := r.held + 1)
  }

  // The table and the report after the first i rows of a batch.
  function Pass(g: Gateway, s: Ingress, batch: seq<Selected>, turns: seq<Turn>, i: nat): (r: (Ingress, Report))
    requires i <= |batch| <= |turns|
  {
    if i == 0 then (s, EMPTY_REPORT)
    else
      var (before, report) := Pass(g, s, batch, turns, i - 1);
      var (after, outcome) := ProcessRow(g, before, batch[i - 1], turns[i - 1]);
      (after, Count(report, outcome))
  }

  // The trace of a pass: tables linked by one processed row each, and the report as it grew.
  datatype Trace = Trace(tables: seq<Ingress>, outcomes: seq<Outcome>, reports: seq<Report>)

  predicate Chain(c: Trace, batch: seq<Selected>) {
    && |c.tables| == |c.reports| == |c.outcomes| + 1 && |c.outcomes| <= |batch|
    && c.reports[0] == EMPTY_REPORT
    && forall i {:trigger c.outcomes[i]} | 0 <= i < |c.outcomes| ::
         && RowStep(c.tables[i], batch[i].id, c.tables[i + 1], c.outcomes[i])
         && c.reports[i + 1] == Count(c.reports[i], c.outcomes[i])
  }

  // The report is the tally of the outcomes.
  ghost predicate Tallies(r: Report, outcomes: seq<Outcome>) {
    var m := multiset(outcomes);
    && r.delivered == m[Delivered] && r.deferred == m[Deferral] && r.exhausted == m[Exhausted]
    && r.expired == m[Expired] && r.undeliverable == m[Undeliverable] && r.unverifiable == m[Unverifiable]
    && r.held == m[Held]
  }

  lemma CountTallies(r: Report, outcomes: seq<Outcome>, o: Outcome)
    requires Tallies(r, outcomes)
    ensures Tallies(Count(r, o), outcomes + [o])
  {
    assert multiset(outcomes + [o]) == multiset(outcomes) + multiset{o};
    match o
    case Delivered => case Deferral => case Exhausted => case Expired =>
    case Undeliverable => case Unverifiable => case Held =>
  }

  // The report of these outcomes, counted one by one.
  ghost function Counted(outcomes: seq<Outcome>): (r: Report)
    decreases |outcomes|
  {
    if outcomes == [] then EMPTY_REPORT
    else Count(Counted(outcomes[..|outcomes| - 1]), outcomes[|outcomes| - 1])
  }

  lemma {:induction false} CountedTallies(outcomes: seq<Outcome>)
    ensures Tallies(Counted(outcomes), outcomes)
    decreases |outcomes|
  {
    if outcomes != [] {
      var n := |outcomes| - 1;
      CountedTallies(outcomes[..n]);
      CountTallies(Counted(outcomes[..n]), outcomes[..n], outcomes[n]);
      assert outcomes == outcomes[..n] + [outcomes[n]];
    }
  }

  // Rows past their age at their turn are expired.
  predicate AgedExpire(c: Trace, batch: seq<Selected>, turns: seq<Turn>) {
    && |c.outcomes| <= |batch| <= |turns|
    && forall a | 0 <= a < |c.outcomes| && turns[a].now - batch[a].row.receivedAt > MAX_AGE_SECONDS ::
         c.outcomes[a] == Expired
  }

  function Extended(c: Trace, after: Ingress, outcome: Outcome): (longer: Trace)
    requires c.reports != []
  {
    Trace(c.tables + [after], c.outcomes + [outcome], c.reports + [Count(c.reports[|c.reports| - 1], outcome)])
  }

  lemma ChainExtends(c: Trace, batch: seq<Selected>, after: Ingress, outcome: Outcome)
    requires Chain(c, batch) && |c.outcomes| < |batch|
    requires RowStep(c.tables[|c.outcomes|], batch[|c.outcomes|].id, after, outcome)
    ensures Chain(Extended(c, after, outcome), batch)
  {
  }

  // The last turn of a pass.
  lemma PassTurn(g: Gateway, s: Ingress, batch: seq<Selected>, turns: seq<Turn>, i: nat)
    returns (after: Ingress, outcome: Outcome)
    requires 0 < i <= |batch| <= |turns|
    ensures Pass(g, s, batch, turns, i) == (after, Count(Pass(g, s, batch, turns, i - 1).1, outcome))
    ensures RowStep(Pass(g, s, batch, turns, i - 1).0, batch[i - 1].id, after, outcome)
    ensures turns[i - 1].now - batch[i - 1].row.receivedAt > MAX_AGE_SECONDS ==> outcome == Expired
    ensures Fits(g, batch[i - 1], turns[i - 1], outcome)
  {
    var before, row, t := Pass(g, s, batch, turns, i - 1).0, batch[i - 1], turns[i - 1];
    ProcessedRow(g, before, row, t);
    OutcomeFits(g, before, row, t);
    after, outcome := ProcessRow(g, before, row, t).0, ProcessRow(g, before, row, t).1;
  }

  lemma PassStep(g: Gateway, s: Ingress, batch: seq<Selected>, turns: seq<Turn>, i: nat, front: Trace)
    returns (c: Trace)
    requires 0 < i <= |batch| <= |turns|
    requires Chain(front, batch) && |front.outcomes| == i - 1 && front.tables[0] == s
    requires Pass(g, s, batch, turns, i - 1) == (front.tables[i - 1], front.reports[i - 1])
    requires AgedExpire(front, batch, turns)
    ensures Chain(c, batch) && |c.outcomes| == i && c.tables[0] == s
    ensures Pass(g, s, batch, turns, i) == (c.tables[i], c.reports[i])
    ensures AgedExpire(c, batch, turns)
  {
    var after, outcome := PassTurn(g, s, batch, turns, i);
    c := Extended(front, after, outcome);
    ChainExtends(front, batch, after, outcome);
  }

  /** Every row of a pass gets exactly one outcome, and the report counts it. */
  lemma {:induction false} PassIsAChain(g: Gateway, s: Ingress, batch: seq<Selected>, turns: seq<Turn>, i: nat)
    returns (c: Trace)
    requires i <= |batch| <= |turns|
    ensures Chain(c, batch) && |c.outcomes| == i && c.tables[0] == s
    ensures Pass(g, s, batch, turns, i) == (c.tables[i], c.reports[i])
    ensures AgedExpire(c, batch, turns)
    decreases i
  {
    if i == 0 {
      c := Trace([s], [], [EMPTY_REPORT]);
    } else {
      var front := PassIsAChain(g, s, batch, turns, i - 1);
      c := PassStep(g, s, batch, turns, i, front);
    }
  }

  // Surviving rows keep what they were accepted as.
  predicate KeptAsAccepted(s: Ingress, after: Ingress) {
    && after.nextId == s.nextId
    && forall k | k in after.rows :: k in s.rows && after.rows[k].AcceptedAs() == s.rows[k].AcceptedAs()
  }

  // Rows only ever leave a chain, and keep what they were accepted as.
  lemma {:induction false} ChainKeepsOrigins(c: Trace, batch: seq<Selected>, i: nat)
    requires Chain(c, batch) && i <= |c.outcomes|
    ensures KeptAsAccepted(c.tables[0], c.tables[i])
    decreases i
  {
    if i > 0 {
      ChainKeepsOrigins(c, batch, i - 1);
      assert RowStep(c.tables[i - 1], batch[i - 1].id, c.tables[i], c.outcomes[i - 1]);
    }
  }

  // A row is touched only at its own turn.
  lemma {:induction false} ChainTouches(c: Trace, batch: seq<Selected>, i: nat, k: nat)
    requires Chain(c, batch) && i <= |c.outcomes|
    requires k in c.tables[0].rows && forall a | 0 <= a < i :: batch[a].id != k
    ensures k in c.tables[i].rows && c.tables[i].rows[k] == c.tables[0].rows[k]
    decreases i
  {
    if i > 0 {
      ChainTouches(c, batch, i - 1, k);
      assert RowStep(c.tables[i - 1], batch[i - 1].id, c.tables[i], c.outcomes[i - 1]);
    }
  }

  // A row that is removed stays removed.
  lemma {:induction false} ChainRemoves(c: Trace, batch: seq<Selected>, i: nat, a: nat)
    requires Chain(c, batch) && a < i <= |c.outcomes| && c.outcomes[a] !in {Deferral, Held}
    ensures batch[a].id !in c.tables[i].rows
    decreases i
  {
    assert RowStep(c.tables[i - 1], batch[i - 1].id, c.tables[i], c.outcomes[i - 1]);
    if a < i - 1 {
      ChainRemoves(c, batch, i - 1, a);
    }
  }

  /** A held row spends no attempt, however often it is held. */
  lemma {:induction false} HoldsSpendNothing(c: Trace, batch: seq<Selected>, i: nat, k: nat)
    requires Chain(c, batch) && i <= |c.outcomes| && k in c.tables[0].rows
    requires forall a | 0 <= a < i && batch[a].id == k :: c.outcomes[a] == Held
    ensures k in c.tables[i].rows && c.tables[i].rows[k].attempts == c.tables[0].rows[k].attempts
    decreases i
  {
    if i > 0 {
      HoldsSpendNothing(c, batch, i - 1, k);
      assert RowStep(c.tables[i - 1], batch[i - 1].id, c.tables[i], c.outcomes[i - 1]);
    }
  }

  lemma ChainKeeps(c: Trace, batch: seq<Selected>, i: nat)
    requires Chain(c, batch) && i <= |c.outcomes|
    ensures KeptAsAccepted(c.tables[0], c.tables[i])
    ensures forall k | k in c.tables[0].rows && (forall a | 0 <= a < i :: batch[a].id != k) ::
              k in c.tables[i].rows && c.tables[i].rows[k] == c.tables[0].rows[k]
    ensures forall a | 0 <= a < i && c.outcomes[a] !in {Deferral, Held} :: batch[a].id !in c.tables[i].rows
  {
    ChainKeepsOrigins(c, batch, i);
    forall k | k in c.tables[0].rows && (forall a | 0 <= a < i :: batch[a].id != k)
      ensures k in c.tables[i].rows && c.tables[i].rows[k] == c.tables[0].rows[k]
    {
      ChainTouches(c, batch, i, k);
    }
    forall a | 0 <= a < i && c.outcomes[a] !in {Deferral, Held}
      ensures batch[a].id !in c.tables[i].rows
    {
      ChainRemoves(c, batch, i, a);
    }
  }

  predicate Distinct(batch: seq<Selected>) {
    forall a, b | 0 <= a < b < |batch| :: batch[a].id != batch[b].id
  }

  predicate Selects(batch: seq<Selected>, s: Ingress) {
    forall a | 0 <= a < |batch| :: batch[a].id in s.rows
  }

  // One turn: the row is still there, and goes exactly when it is counted as removed.
  lemma TurnOf(c: Trace, batch: seq<Selected>, i: nat)
    requires Chain(c, batch) && i < |c.outcomes|
    requires Distinct(batch) && batch[i].id in c.tables[0].rows
    ensures |c.tables[i].rows| + c.reports[i].Removed() == |c.tables[i + 1].rows| + c.reports[i + 1].Removed()
    ensures c.reports[i + 1].Total() == c.reports[i].Total() + 1
  {
    ChainKeeps(c, batch, i);
    assert RowStep(c.tables[i], batch[i].id, c.tables[i + 1], c.outcomes[i]);
    RowStepCounts(c.tables[i], batch[i].id, c.tables[i + 1], c.outcomes[i]);
  }

  // The report up to turn i accounts for the rows.
  predicate Accounted(c: Trace, i: nat)
    requires 0 < |c.tables| && i < |c.tables| && i < |c.reports|
  {
    && c.reports[i].Total() == i
    && |c.tables[0].rows| == |c.tables[i].rows| + c.reports[i].Removed()
  }

  lemma NothingToAccountFor(c: Trace, batch: seq<Selected>)
    requires Chain(c, batch)
    ensures Accounted(c, 0)
  {
  }

  lemma TurnAccounts(c: Trace, batch: seq<Selected>, i: nat)
    requires Chain(c, batch) && i < |c.outcomes|
    requires Distinct(batch) && Selects(batch, c.tables[0])
    requires Accounted(c, i)
    ensures Accounted(c, i + 1)
  {
    TurnOf(c, batch, i);
  }

  lemma {:induction false} ChainCounts(c: Trace, batch: seq<Selected>, i: nat)
    requires Chain(c, batch) && i <= |c.outcomes|
    requires Distinct(batch) && Selects(batch, c.tables[0])
    ensures Accounted(c, i)
    decreases i
  {
    if i == 0 {
      NothingToAccountFor(c, batch);
    } else {
      ChainCounts(c, batch, i - 1);
      TurnAccounts(c, batch, i - 1);
    }
  }

  /** Accounting: the report counts every selected row exactly once, the rows that are gone are exactly
      those it counts as removed, and a row past its age at its turn is among them. */
  lemma PassAccounts(g: Gateway, s: Ingress, batch: seq<Selected>, turns: seq<Turn>)
    requires |batch| <= |turns|
    requires Distinct(batch)
    requires forall a | 0 <= a < |batch| :: batch[a].id in s.rows
    ensures Pass(g, s, batch, turns, |batch|).1.Total() == |batch|
    ensures |s.rows| == |Pass(g, s, batch, turns, |batch|).0.rows| + Pass(g, s, batch, turns, |batch|).1.Removed()
    ensures KeptAsAccepted(s, Pass(g, s, batch, turns, |batch|).0)
    ensures forall k | k in s.rows && k !in Ids(batch) ::
              k in Pass(g, s, batch, turns, |batch|).0.rows && Pass(g, s, batch, turns, |batch|).0.rows[k] == s.rows[k]
    ensures forall a | 0 <= a < |batch| && turns[a].now - batch[a].row.receivedAt > MAX_AGE_SECONDS ::
              batch[a].id !in Pass(g, s, batch, turns, |batch|).0.rows
  {
    var c := PassIsAChain(g, s, batch, turns, |batch|);
    ChainCounts(c, batch, |batch|);
    ChainKeeps(c, batch, |batch|);
    forall k | k in s.rows && k !in Ids(batch)
      ensures k in c.tables[|batch|].rows && c.tables[|batch|].rows[k] == s.rows[k]
    {
      assert forall a | 0 <= a < |batch| :: batch[a].id in Ids(batch);
    }
  }

  lemma AgedAreTaken(s: Ingress, now: real, batch: seq<Selected>, turns: seq<Turn>, c: Trace, aged: set<nat>)
    requires |turns| == |batch| == |c.outcomes| == |c.tables| - 1
    requires forall i | 0 <= i < |batch| ::
               batch[i].id in s.rows && batch[i].row == s.rows[batch[i].id] && now <= turns[i].now
    requires aged <= s.rows.Keys && forall id | id in aged :: now - s.rows[id].receivedAt > MAX_AGE_SECONDS
    requires AgedExpire(c, batch, turns)
    requires forall a | 0 <= a < |batch| && c.outcomes[a] !in {Deferral, Held} :: batch[a].id !in c.tables[|batch|].rows
    requires forall k | k in s.rows && (forall a | 0 <= a < |batch| :: batch[a].id != k) :: k in c.tables[|batch|].rows
    ensures aged - c.tables[|batch|].rows.Keys == aged * Ids(batch)
  {
  }

  lemma AgedGo(s: Ingress, now: real, limit: nat, batch: seq<Selected>, turns: seq<Turn>, c: Trace, cutoff: real)
    requires IsDueBatch(s, now, limit, batch) && |turns| == |batch| == |c.outcomes|
    requires Chain(c, batch) && c.tables[0] == s
    requires AgedExpire(c, batch, turns)
    requires forall i | 0 <= i < |turns| :: now <= turns[i].now
    requires forall id | id in OlderThan(s, cutoff) ::
               s.rows[id].nextAttemptAt <= now && now - s.rows[id].receivedAt > MAX_AGE_SECONDS
    ensures |OlderThan(s, cutoff) - c.tables[|batch|].rows.Keys|
            == if |OlderThan(s, cutoff)| <= limit then |OlderThan(s, cutoff)| else limit
  {
    ChainKeeps(c, batch, |batch|);
    AgedAreTaken(s, now, batch, turns, c, OlderThan(s, cutoff));
    OldestFirst(s, now, limit, batch, cutoff);
  }

  lemma AgedAreDue(s: Ingress, now: real, d: real, cutoff: real)
    requires d >= 0.0 && cutoff == now - (MAX_AGE_SECONDS + LONGEST_BACKOFF + d)
    requires forall k | k in s.rows ::
               s.rows[k].nextAttemptAt <= s.rows[k].receivedAt + MAX_AGE_SECONDS + LONGEST_BACKOFF + d
    ensures forall id | id in OlderThan(s, cutoff) ::
              s.rows[id].nextAttemptAt <= now && now - s.rows[id].receivedAt > MAX_AGE_SECONDS
  {
  }

  /** Retention: when every row is due within a day, the longest backoff and D of its arrival, a pass
      with limit L removes min(L, k) of the k rows older than that bound. */
  lemma PassDeletesAged(g: Gateway, s: Ingress, now: real, limit: nat, batch: seq<Selected>, turns: seq<Turn>, d: real)
    requires d >= 0.0
    requires forall k | k in s.rows ::
               s.rows[k].nextAttemptAt <= s.rows[k].receivedAt + MAX_AGE_SECONDS + LONGEST_BACKOFF + d
    requires IsDueBatch(s, now, limit, batch) && |turns| == |batch|
    requires forall i | 0 <= i < |turns| :: now <= turns[i].now
    ensures
      var aged := OlderThan(s, now - (MAX_AGE_SECONDS + LONGEST_BACKOFF + d));
      |aged - Pass(g, s, batch, turns, |batch|).0.rows.Keys| == if |aged| <= limit then |aged| else limit
  {
    var cutoff := now - (MAX_AGE_SECONDS + LONGEST_BACKOFF + d);
    AgedAreDue(s, now, d, cutoff);
    var c := PassIsAChain(g, s, batch, turns, |batch|);
    AgedGo(s, now, limit, batch, turns, c, cutoff);
    assert Pass(g, s, batch, turns, |batch|).0 == c.tables[|batch|];
    assert OlderThan(s, cutoff) == OlderThan(s, now - (MAX_AGE_SECONDS + LONGEST_BACKOFF + d));
  }

  // What became of each row, at the table the rows before it left.
  lemma {:induction false} PassOutcomes(g: Gateway, s: Ingress, batch: seq<Selected>, turns: seq<Turn>, i: nat)
    returns (outcomes: seq<Outcome>)
    requires i <= |batch| <= |turns|
    ensures |outcomes| == i && Pass(g, s, batch, turns, i).1 == Counted(outcomes)
    ensures forall a | 0 <= a < i ::
              outcomes[a] == ProcessRow(g, Pass(g, s, batch, turns, a).0, batch[a], turns[a]).1
    decreases i
  {
    outcomes := [];
    if i > 0 {
      var front := PassOutcomes(g, s, batch, turns, i - 1);
      var outcome := ProcessRow(g, Pass(g, s, batch, turns, i - 1).0, batch[i - 1], turns[i - 1]).1;
      outcomes := front + [outcome];
      assert outcomes[..i - 1] == front;
    }
  }

  /** The report of a pass tallies outcomes that fit their rows, one for each. */
  lemma PassReports(g: Gateway, s: Ingress, batch: seq<Selected>, turns: seq<Turn>) returns (outcomes: seq<Outcome>)
    requires |batch| <= |turns|
    ensures |outcomes| == |batch| && Tallies(Pass(g, s, batch, turns, |batch|).1, outcomes)
    ensures forall a | 0 <= a < |batch| :: Fits(g, batch[a], turns[a], outcomes[a])
  {
    outcomes := PassOutcomes(g, s, batch, turns, |batch|);
    CountedTallies(outcomes);
    forall a | 0 <= a < |batch|
      ensures Fits(g, batch[a], turns[a], outcomes[a])
    {
      OutcomeFits(g, Pass(g, s, batch, turns, a).0, batch[a], turns[a]);
    }
  }

  class Worker {
    const gateway: Gateway
    const store: Store

    constructor (gateway: Gateway, store: Store)
      ensures this.gateway == gateway && this.store == store
    {
      this.gateway := gateway;
      this.store := store;
    }

    method Defer(row: Selected, now: real, error: string) returns (outcome: Outcome)
      modifies store
      ensures (store.table, outcome) == DeferOrExhaust(old(store.table), row, now, error)
    {
      var attempts := row.row.attempts + 1;
      if attempts >= MAX_ATTEMPTS {
        store.MarkDelivered(row.id);
        return Exhausted;
      }
      store.Defer(row.id, error, now + Backoff(attempts), true);
      outcome := Deferral;
    }

    // `_process`, up to the exception: None is a row whose processing threw.
    method Process(row: Selected, t: Turn) returns (outcome: Option<Outcome>, calls: seq<Delivery>)
      modifies store
      ensures outcome.Some? ==> (store.table, outcome.value) == ProcessRow(gateway, old(store.table), row, t)
      ensures outcome == None ==>
                && store.table == old(store.table)
                && ProcessRow(gateway, old(store.table), row, t)
                   == DeferOrExhaust(old(store.table), row, t.after, "worker_error")
      ensures calls == if gateway.hasDeliverer && Decide(gateway, row.row, t).SendTo?
                       then [Decide(gateway, row.row, t).delivery] else []
    {
      calls := [];
      if t.now - row.row.receivedAt > MAX_AGE_SECONDS {
        store.MarkDelivered(row.id);
        return Some(Expired), calls;
      }
      if !Provenance(row.row) {
        store.MarkDelivered(row.id);
        return Some(Unverifiable), calls;
      }
      var stamp := gateway.crypto.decimal(Truncate(t.now));
      var routed := Route(gateway, t.world, t.routeNow, row.row.sender, row.row.channel.value, Some(stamp));
      if routed.RouteRaises? {
        return None, calls;
      }
      if routed.Denied? || Some(routed.household) != row.row.household {
        store.MarkDelivered(row.id);
        return Some(Undeliverable), calls;
      }
      var key := RelayKey(gateway, t.world, routed.household);
      if key.Some? {
        var verdict := gateway.crypto.Verify(key.value, row.row.payload, row.row.originTimestamp.value,
                                             row.row.originSignature.value);
        if verdict == Raises {
          return None, calls;
        }
        if verdict == Mismatch {
          store.MarkDelivered(row.id);
          return Some(Unverifiable), calls;
        }
      }
      if !t.world.enabled {
        store.Defer(row.id, "flag_disabled", t.now + BASE_BACKOFF_SECONDS, false);
        return Some(Held), calls;
      }
      if key == None {
        var kept := Defer(row, t.now, "relay_key_absent");
        return Some(kept), calls;
      }
      if gateway.hasDeliverer {
        calls := [Delivery(routed.household, routed.runtimeRef, row.row.payload, stamp,
                           gateway.crypto.hmac(key.value, row.row.payload, stamp))];
        if t.reply == Throws {
          return None, calls;
        }
        if t.reply == Refuses {
          var kept := Defer(row, t.after, "runtime_unavailable");
          return Some(kept), calls;
        }
      }
      store.MarkDelivered(row.id);
      outcome := Some(Delivered);
    }

    /** `run_once`: every selected row gets exactly one outcome, even where its processing throws, and
        the report adds up against the table. */
    method RunOnce(now: real, limit: nat, turns: seq<Turn>)
      returns (report: Report, ghost batch: seq<Selected>, ghost outcomes: seq<Outcome>)
      requires |turns| >= limit
      modifies store
      ensures IsDueBatch(old(store.table), now, limit, batch)
      ensures (store.table, report) == Pass(gateway, old(store.table), batch, turns, |batch|)
      ensures |outcomes| == |batch| && forall a | 0 <= a < |batch| :: Fits(gateway, batch[a], turns[a], outcomes[a])
      ensures Tallies(report, outcomes) && report.Total() == |batch|
      ensures |old(store.table).rows| == |store.table.rows| + report.Removed()
    {
      var due := store.Due(now, limit);
      batch := due;
      report := EMPTY_REPORT;
      for i := 0 to |due|
        invariant (store.table, report) == Pass(gateway, old(store.table), batch, turns, i)
      {
        var outcome, _ := Process(due[i], turns[i]);
        var counted;
        if outcome == None {
          counted := Defer(due[i], turns[i].after, "worker_error");
        } else {
          counted := outcome.value;
        }
        report := Count(report, counted);
      }
      PassAccounts(gateway, old(store.table), batch, turns);
      outcomes := PassReports(gateway, old(store.table), batch, turns);
    }
  }
}
