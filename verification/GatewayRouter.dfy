/** `WhatsAppGatewayRouter` of gateway/whatsapp_router.py and `_status_for` of gateway/app.py: who a
    message is for, and what answering a webhook leaves in the ingress table. */
module GatewayRouter {
  import opened Basics
  import opened RelayTrust
  import opened GatewayStore

  const REPLAY_WINDOW_SECONDS := 300
  const BASE_BACKOFF_SECONDS: real := 30.0

  // How the resolver answers at one instant: from a directory, not at all
  // (`BindingLookupUnavailable`), or with an exception nobody declared.
  datatype LookupState = Answers(directory: Directory) | Unavailable | Breaks

  // What a request or a redelivery reads around it at one instant.
  datatype World = World(lookup: LookupState, keys: map<string, Bytes>, root: Option<Bytes>, enabled: bool)

  // What does not change while the gateway runs.
  datatype Gateway = Gateway(crypto: Crypto, senderKey: Option<Bytes>, hasDeliverer: bool)

  datatype Code =
    | Ok | NoRoute(refusal: Refusal) | TimestampReplay | FlagDisabled | HmacRejected
    | RelayKeyAbsent | RuntimeUnavailable | LookupUnavailable

  datatype Routed = RoutedTo(household: string, runtimeRef: Option<string>) | Denied(code: Code) | RouteRaises

  datatype Delivery = Delivery(household: string, runtimeRef: Option<string>, payload: Bytes,
                               timestamp: string, signature: string)

  // ---- routing ----

  // `int()` of a clock reading.
  function Truncate(t: real): (n: int) {
    if t >= 0.0 then t.Floor else -((-t).Floor)
  }

  // Towards zero.
  lemma TruncatesTowardsZero(t: real)
    ensures t >= 0.0 ==> Truncate(t) as real <= t < Truncate(t) as real + 1.0
    ensures t < 0.0 ==> Truncate(t) as real - 1.0 < t <= Truncate(t) as real
  {
  }

  predicate Fresh(g: Gateway, now: real, timestamp: string) {
    match g.crypto.parseInt(timestamp)
    case None => false
    case Some(ts) => -REPLAY_WINDOW_SECONDS <= Truncate(now) - ts <= REPLAY_WINDOW_SECONDS
  }

  function SenderQuery(g: Gateway, sender: string): (q: Query) {
    match g.senderKey
    case Some(key) => ByDigest(g.crypto.senderHmac(key, sender))
    case None => ByExternalId(sender)
  }

  /** `route`: freshness first, then the lookup. Only a strict gateway insists on a timestamp. */
  function Route(g: Gateway, w: World, now: real, sender: string, channel: string, timestamp: Option<string>)
    : (r: Routed)
  {
    if (if timestamp.Some? then !Fresh(g, now, timestamp.value) else g.senderKey.Some?) then Denied(TimestampReplay)
    else match w.lookup
      case Unavailable => Denied(LookupUnavailable)
      case Breaks => RouteRaises
      case Answers(d) =>
        match Resolve(d, channel, SenderQuery(g, sender))
        case NotRoutable(refusal) => Denied(NoRoute(refusal))
        case Resolved(household, ref) => RoutedTo(household, ref)
  }

  // `relay_key`: the injected key wins, else one is derived from the root, else there is none.
  function RelayKey(g: Gateway, w: World, household: string): (key: Option<Bytes>) {
    if household in w.keys then Some(w.keys[household])
    else match w.root
      case None => None
      case Some(root) => Some(g.crypto.deriveSecret(root, household))
  }

  // ---- what routing and trust rest on, said of the tables themselves ----

  // A stamp is on time: a number no more than five minutes away from the clock, either way.
  ghost predicate OnTime(g: Gateway, now: real, stamp: string) {
    g.crypto.parseInt(stamp).Some? && -300 <= Truncate(now) - g.crypto.parseInt(stamp).value <= 300
  }

  // This binding of the directory is published, on this channel, of a household there is, and bears the sender:
  // by its digest where the gateway has a key for those, and by name where it has none.
  ghost predicate Knows(g: Gateway, d: Directory, b: Binding, channel: string, sender: string) {
    && b.publishedRevision != None && b.channel == channel && b.household in d.households
    && if g.senderKey == None then b.externalId == sender
       else b.externalIdHmac == Some(g.crypto.senderHmac(g.senderKey.value, sender))
  }

  ghost predicate OnlyKnown(g: Gateway, d: Directory, i: nat, channel: string, sender: string) {
    i < |d.bindings| && forall j | 0 <= j < |d.bindings| :: Knows(g, d, d.bindings[j], channel, sender) <==> j == i
  }

  /** A sender leads to a household: the stamp is on time, the directory answers, and exactly one of its
      bindings knows the sender. */
  ghost predicate Leads(g: Gateway, w: World, now: real, sender: string, channel: string, stamp: string,
                        household: string, ref: Option<string>)
  {
    && OnTime(g, now, stamp) && w.lookup.Answers?
    && var d := w.lookup.directory;
    && household in d.households && d.households[household] == ref
    && exists i: nat :: OnlyKnown(g, d, i, channel, sender) && d.bindings[i].household == household
  }

  // The household's relay key: the one that was installed, or else the one the root derives.
  ghost predicate KeyIs(g: Gateway, w: World, household: string, key: Bytes) {
    if household in w.keys then key == w.keys[household]
    else w.root.Some? && key == g.crypto.deriveSecret(w.root.value, household)
  }

  lemma KnowsIsHolds(g: Gateway, d: Directory, b: Binding, channel: string, sender: string)
    ensures Knows(g, d, b, channel, sender) <==> Holds(d, b, channel, SenderQuery(g, sender))
  {
  }

  lemma OnlyKnownIsSole(g: Gateway, d: Directory, i: nat, channel: string, sender: string)
    ensures OnlyKnown(g, d, i, channel, sender) <==> SoleHolder(d, channel, SenderQuery(g, sender), i)
  {
    forall j | 0 <= j < |d.bindings|
      ensures Knows(g, d, d.bindings[j], channel, sender) <==> Holds(d, d.bindings[j], channel, SenderQuery(g, sender))
    {
      KnowsIsHolds(g, d, d.bindings[j], channel, sender);
    }
  }

  /** A message is routed exactly where its sender leads, and the key it is checked with is the household's. */
  lemma RoutesWhereItLeads(g: Gateway, w: World, now: real, sender: string, channel: string, stamp: string,
                           household: string, ref: Option<string>)
    ensures Route(g, w, now, sender, channel, Some(stamp)) == RoutedTo(household, ref)
            <==> Leads(g, w, now, sender, channel, stamp, household, ref)
    ensures forall key :: RelayKey(g, w, household) == Some(key) <==> KeyIs(g, w, household, key)
  {
    if w.lookup.Answers? {
      var d := w.lookup.directory;
      forall i: nat
        ensures OnlyKnown(g, d, i, channel, sender) <==> SoleHolder(d, channel, SenderQuery(g, sender), i)
      {
        OnlyKnownIsSole(g, d, i, channel, sender);
      }
      ResolvesToSoleHolder(d, channel, SenderQuery(g, sender));
    }
  }

  ghost predicate KnownTwice(g: Gateway, d: Directory, channel: string, sender: string) {
    exists i, j | 0 <= i < j < |d.bindings| ::
      Knows(g, d, d.bindings[i], channel, sender) && Knows(g, d, d.bindings[j], channel, sender)
  }

  /** A message that is not routed is refused for what is wrong with it. */
  lemma RefusedForWhatIsWrong(g: Gateway, w: World, now: real, sender: string, channel: string, stamp: string)
    ensures var r := Route(g, w, now, sender, channel, Some(stamp));
            && (r == Denied(TimestampReplay) <==> !OnTime(g, now, stamp))
            && (r == Denied(LookupUnavailable) <==> OnTime(g, now, stamp) && w.lookup.Unavailable?)
            && (r == RouteRaises <==> OnTime(g, now, stamp) && w.lookup.Breaks?)
            && (r == Denied(NoRoute(UnknownSender))
                <==> OnTime(g, now, stamp) && w.lookup.Answers?
                     && forall b | b in w.lookup.directory.bindings ::
                          !Knows(g, w.lookup.directory, b, channel, sender))
            && (r == Denied(NoRoute(AmbiguousSender))
                <==> OnTime(g, now, stamp) && w.lookup.Answers? && KnownTwice(g, w.lookup.directory, channel, sender))
            && (r.Denied? ==> r.code.NoRoute? || r.code in {TimestampReplay, LookupUnavailable})
  {
    if w.lookup.Answers? {
      var d, q := w.lookup.directory, SenderQuery(g, sender);
      forall b
        ensures Knows(g, d, b, channel, sender) <==> Holds(d, b, channel, q)
      {
        KnowsIsHolds(g, d, b, channel, sender);
      }
      RefusedExactly(d, channel, q);
      assert (forall b | b in d.bindings :: !Holds(d, b, channel, q))
             <==> forall i | 0 <= i < |d.bindings| :: !Holds(d, d.bindings[i], channel, q);
      assert KnownTwice(g, d, channel, sender) <==> Shared(d, channel, q);
    }
  }

  // ---- the webhook, in the three pieces between which other work may run ----

  datatype Request = Request(payload: Bytes, sender: string, channel: string, timestamp: string, signature: string)

  // How `handle_webhook` came back; `Raised` is an exception that reaches the WSGI server.
  datatype Answer = Answered(code: Code) | Raised

  // What a persisted request still has to do.
  datatype Phase = LookupFailed | Accepted(household: string, runtimeRef: Option<string>)

  datatype Admission = Refused(answer: Answer) | Persisted(phase: Phase)

  function OriginOf(q: Request, household: Option<string>, received: real): (o: Origin) {
    Origin(q.payload, q.sender, received, Some(q.channel), household, Some(q.timestamp), Some(q.signature))
  }

  // Switch, credentials, route: everything before a row exists.
  function Admit(g: Gateway, w: World, now: real, q: Request): (a: Admission) {
    if !w.enabled then Refused(Answered(FlagDisabled))
    else if q.timestamp == "" || q.signature == "" then Refused(Answered(HmacRejected))
    else match Route(g, w, now, q.sender, q.channel, Some(q.timestamp))
      case RouteRaises => Refused(Raised)
      case Denied(code) => if code == LookupUnavailable then Persisted(LookupFailed) else Refused(Answered(code))
      case RoutedTo(household, ref) => Persisted(Accepted(household, ref))
  }

  function PhaseHousehold(p: Phase): (h: Option<string>) {
    match p case LookupFailed => None case Accepted(h, _) => Some(h)
  }

  // What a persisted request does next.
  datatype NextStep = Keep(error: string, code: Code) | Drop(code: Code) | Leave | CallRuntime(delivery: Delivery)

  function Judge(g: Gateway, w: World, q: Request, p: Phase): (v: NextStep) {
    match p
    case LookupFailed => Keep("lookup_unavailable", LookupUnavailable)
    case Accepted(household, ref) =>
      var key := if household == "" then None else RelayKey(g, w, household);
      if key == None || key == Some([]) then Keep("relay_key_absent", RelayKeyAbsent)
      else match g.crypto.Verify(key.value, q.payload, q.timestamp, q.signature)
        case Mismatch => Drop(HmacRejected)
        case Raises => Leave
        case Match =>
          if g.hasDeliverer then CallRuntime(Delivery(household, ref, q.payload, q.timestamp, q.signature))
          else Drop(Ok)
  }

  // A signature no digest can be compared with: of a digest's length, but not ASCII.
  predicate Unreadable(signature: string) {
    |Normalise(signature)| == 64 && exists c | c in Normalise(signature) :: c >= '\U{80}'
  }

  lemma VerifyRaisesIff(c: Crypto, key: Bytes, body: Bytes, timestamp: string, signature: string)
    requires c.Lawful()
    ensures c.Verify(key, body, timestamp, signature) == Raises <==> Unreadable(signature)
  {
    assert IsHexDigest(c.hmac(key, body, timestamp));
  }

  // Everything before the row exists goes well, the household has a key, and the comparison cannot be made.
  predicate Incomparable(g: Gateway, w1: World, w2: World, now: real, q: Request) {
    && Admit(g, w1, now, q).Persisted? && Admit(g, w1, now, q).phase.Accepted?
    && var household := Admit(g, w1, now, q).phase.household;
    && household != "" && RelayKey(g, w2, household) !in {None, Some([])}
    && Unreadable(q.signature)
  }

  lemma LeavesIff(g: Gateway, w1: World, w2: World, now: real, q: Request)
    requires g.crypto.Lawful() && Admit(g, w1, now, q).Persisted?
    ensures Judge(g, w2, q, Admit(g, w1, now, q).phase) == Leave <==> Incomparable(g, w1, w2, now, q)
  {
    var phase := Admit(g, w1, now, q).phase;
    if phase.Accepted? && RelayKey(g, w2, phase.household).Some? {
      VerifyRaisesIff(g.crypto, RelayKey(g, w2, phase.household).value, q.payload, q.timestamp, q.signature);
    }
  }

  // A world in which this sender resolves to one household, whose key is installed.
  function Bound(g: Gateway, sender: string, channel: string, household: string, ref: string, key: Bytes): (w: World) {
    var digest := match g.senderKey case Some(k) => Some(g.crypto.senderHmac(k, sender)) case None => None;
    World(Answers(Directory([Binding(household, channel, sender, digest, Some(1))], map[household := Some(ref)])),
          map[household := key], None, true)
  }

  lemma BoundRoutes(g: Gateway, sender: string, channel: string, household: string, ref: string, key: Bytes,
                    now: real, stamp: string)
    requires Fresh(g, now, stamp)
    ensures Route(g, Bound(g, sender, channel, household, ref, key), now, sender, channel, Some(stamp))
            == RoutedTo(household, Some(ref))
  {
    var w := Bound(g, sender, channel, household, ref, key);
    var d := w.lookup.directory;
    OneHolderOneRow(d, d.bindings, channel, SenderQuery(g, sender), 0);
  }

  // What a gateway stamps at a clock reading is fresh at it.
  lemma OwnStampIsFresh(g: Gateway, now: real)
    requires g.crypto.Lawful()
    ensures Fresh(g, now, g.crypto.decimal(Truncate(now))) && g.crypto.decimal(Truncate(now)) != ""
  {
  }

  /** At every lawful gateway such a request exists: 64 times U+00E9 for a signature. */
  lemma SomeRequestIsIncomparable(g: Gateway) returns (w: World, q: Request)
    requires g.crypto.Lawful()
    ensures Incomparable(g, w, w, 0.0, q) && w.lookup.Answers?
  {
    var signature := seq(64, i => '\U{e9}');
    w := Bound(g, "s", "whatsapp", "h", "ref", [1]);
    q := Request([], "s", "whatsapp", g.crypto.decimal(Truncate(0.0)), signature);
    OwnStampIsFresh(g, 0.0);
    BoundRoutes(g, "s", "whatsapp", "h", "ref", [1], 0.0, q.timestamp);
    assert signature[0] == '\U{e9}' && !("sha256=" <= signature) by {
      assert "sha256="[0] == 's';
    }
    assert forall c | c in signature :: c == '\U{e9}';
    LowerIdentity(signature);
    assert Normalise(signature) == signature;
    assert signature[0] in signature;
  }

  // The clock readings of one webhook.
  datatype Clocks = Clocks(routed: real, received: real, settled: real)

  // What one webhook leaves: the table, its answer, the deliveries it made, and the table as each of
  // them left for the runtime.
  datatype Served = Served(table: Ingress, answer: Answer, calls: seq<Delivery>, asked: seq<Ingress>)

  // From the stored row to the answer.
  function Settled(g: Gateway, s: Ingress, id: nat, q: Request, phase: Phase, w: World, now: real, taken: bool)
    : (r: Served)
  {
    match Judge(g, w, q, phase)
    case Keep(error, code) =>
      Served(Deferred(s, id, error, now + BASE_BACKOFF_SECONDS, true), Answered(code), [], [])
    case Drop(code) => Served(Deleted(s, id), Answered(code), [], [])
    case Leave => Served(s, Raised, [], [])
    case CallRuntime(delivery) =>
      if taken then Served(Deleted(s, id), Answered(Ok), [delivery], [s])
      else Served(Deferred(s, id, "runtime_unavailable", now + BASE_BACKOFF_SECONDS, true),
                  Answered(RuntimeUnavailable), [delivery], [s])
  }

  // `w1` is what the route sees and `w2` what the key lookup sees; `taken` is whether the runtime takes
  // the delivery.
  function Webhook(g: Gateway, s: Ingress, q: Request, w1: World, w2: World, clocks: Clocks, taken: bool): (r: Served) {
    match Admit(g, w1, clocks.routed, q)
    case Refused(answer) => Served(s, answer, [], [])
    case Persisted(phase) =>
      Settled(g, Inserted(s, OriginOf(q, PhaseHousehold(phase), clocks.received)), s.nextId, q, phase, w2,
              clocks.settled, taken)
  }

  predicate Retryable(answer: Answer) {
    answer in {Answered(RelayKeyAbsent), Answered(RuntimeUnavailable), Answered(LookupUnavailable)}
  }

  // The row of this request stands, complete, among the rows there were.
  ghost predicate RowStands(g: Gateway, before: Ingress, after: Ingress, q: Request, w: World, clocks: Clocks,
                      household: Option<string>)
  {
    var id := before.nextId;
    && after.rows.Keys == before.rows.Keys + {id}
    && (forall k | k in before.rows :: after.rows[k] == before.rows[k])
    && after.rows[id].AcceptedAs() == OriginOf(q, household, clocks.received)
    && (household.Some? ==> exists ref ::
          Route(g, w, clocks.routed, q.sender, q.channel, Some(q.timestamp)) == RoutedTo(household.value, ref))
  }

  // A delivery of the request, unchanged, to the household its sender resolved to, under a signature that
  // verified under that household's key.
  predicate Authorised(g: Gateway, q: Request, w1: World, w2: World, clocks: Clocks, d: Delivery) {
    && Route(g, w1, clocks.routed, q.sender, q.channel, Some(q.timestamp)) == RoutedTo(d.household, d.runtimeRef)
    && d.payload == q.payload && d.timestamp == q.timestamp && d.signature == q.signature
    && RelayKey(g, w2, d.household).Some?
    && g.crypto.Verify(RelayKey(g, w2, d.household).value, d.payload, d.timestamp, d.signature) == Match
  }

  lemma StandsAfter(g: Gateway, before: Ingress, after: Ingress, q: Request, w: World, clocks: Clocks)
    requires before.Valid() && Admit(g, w, clocks.routed, q).Persisted?
    requires var household := PhaseHousehold(Admit(g, w, clocks.routed, q).phase);
             var stored := Inserted(before, OriginOf(q, household, clocks.received));
             after == stored || exists error, at :: after == Deferred(stored, before.nextId, error, at, true)
    ensures RowStands(g, before, after, q, w, clocks, PhaseHousehold(Admit(g, w, clocks.routed, q).phase))
  {
    var phase := Admit(g, w, clocks.routed, q).phase;
    if phase.Accepted? {
      assert Route(g, w, clocks.routed, q.sender, q.channel, Some(q.timestamp))
             == RoutedTo(phase.household, phase.runtimeRef);
    }
  }

  /** The answer tells what became of the row. It stands - complete, with the household it was routed to,
      or with none where the lookup failed - after a retryable answer, and after an exception over a stored
      signature; after every other answer, all refusals among them, the table is as it was. */
  lemma AnswerTellsTheRow(g: Gateway, s: Ingress, q: Request, w1: World, w2: World, clocks: Clocks, taken: bool)
    requires s.Valid()
    ensures var r := Webhook(g, s, q, w1, w2, clocks, taken);
            && r.table.Valid()
            && (r.table.rows == s.rows || exists household ::
                  && RowStands(g, s, r.table, q, w1, clocks, household)
                  && (household == None <==> r.answer == Answered(LookupUnavailable)))
            && (r.answer != Raised ==> (r.table.rows != s.rows <==> Retryable(r.answer)))
            && (Retryable(r.answer) && s.nextId in r.table.rows ==>
                  && r.table.rows[s.nextId].attempts == 1
                  && r.table.rows[s.nextId].nextAttemptAt == clocks.settled + 30.0)
            && (r.answer == Raised && s.nextId in r.table.rows ==>
                  && r.table.rows[s.nextId].attempts == 0
                  && r.table.rows[s.nextId].nextAttemptAt == clocks.received)
  {
    var admission := Admit(g, w1, clocks.routed, q);
    if admission.Persisted? {
      var household, id := PhaseHousehold(admission.phase), s.nextId;
      var stored := Inserted(s, OriginOf(q, household, clocks.received));
      var r := Webhook(g, s, q, w1, w2, clocks, taken);
      assert Deleted(stored, id).rows == s.rows;
      if id in r.table.rows {
        StandsAfter(g, s, r.table, q, w1, clocks);
      }
    }
  }

  /** It raises exactly when the lookup does, before there is a row, or when a stored signature cannot be
      compared - and of the two only the latter leaves a row behind. */
  lemma RaisesExactly(g: Gateway, s: Ingress, q: Request, w1: World, w2: World, clocks: Clocks, taken: bool)
    requires s.Valid() && g.crypto.Lawful()
    ensures var r := Webhook(g, s, q, w1, w2, clocks, taken);
            && (r.answer == Raised <==> Admit(g, w1, clocks.routed, q) == Refused(Raised)
                                        || Incomparable(g, w1, w2, clocks.routed, q))
            && (r.answer == Raised && r.table.rows != s.rows <==> Incomparable(g, w1, w2, clocks.routed, q))
  {
    if Admit(g, w1, clocks.routed, q).Persisted? {
      LeavesIff(g, w1, w2, clocks.routed, q);
      assert s.nextId !in s.rows;
    }
  }

  /** At most one call: to the household the sender resolved to, carrying the request unchanged, only after
      its signature verified under that household's key - and made from a table in which the complete row,
      household included, already stands. */
  lemma CallIsAuthorised(g: Gateway, s: Ingress, q: Request, w1: World, w2: World, clocks: Clocks, taken: bool)
    requires s.Valid()
    ensures var r := Webhook(g, s, q, w1, w2, clocks, taken);
            && |r.calls| == |r.asked| <= 1
            && (r.calls != [] <==> r.answer == Answered(if taken then Ok else RuntimeUnavailable) && g.hasDeliverer)
            && forall i | 0 <= i < |r.calls| ::
                 Authorised(g, q, w1, w2, clocks, r.calls[i])
                 && RowStands(g, s, r.asked[i], q, w1, clocks, Some(r.calls[i].household))
  {
    if Admit(g, w1, clocks.routed, q).Persisted? {
      var household := PhaseHousehold(Admit(g, w1, clocks.routed, q).phase);
      StandsAfter(g, s, Inserted(s, OriginOf(q, household, clocks.received)), q, w1, clocks);
    }
  }

  // ---- the answer, and what the request and the tables have to do with it ----

  // The switch is on and both credentials are there.
  ghost predicate Admissible(w: World, q: Request) {
    w.enabled && q.timestamp != "" && q.signature != ""
  }

  ghost predicate Routes(g: Gateway, w: World, now: real, q: Request, household: string, ref: Option<string>) {
    Admissible(w, q) && Leads(g, w, now, q.sender, q.channel, q.timestamp, household, ref)
  }

  ghost predicate Keyed(g: Gateway, w1: World, w2: World, now: real, q: Request, household: string, ref: Option<string>,
                        key: Bytes)
  {
    Routes(g, w1, now, q, household, ref) && household != "" && KeyIs(g, w2, household, key) && key != []
  }

  // The signature spells the digest of this request under the key of the household it leads to.
  ghost predicate Signed(g: Gateway, w1: World, w2: World, now: real, q: Request, household: string,
                         ref: Option<string>)
  {
    exists key :: Keyed(g, w1, w2, now, q, household, ref, key)
                  && Spells(q.signature, g.crypto.hmac(key, q.payload, q.timestamp))
  }

  ghost predicate Forged(g: Gateway, w1: World, w2: World, now: real, q: Request) {
    exists household, ref, key :: Keyed(g, w1, w2, now, q, household, ref, key)
      && !Spells(q.signature, g.crypto.hmac(key, q.payload, q.timestamp)) && !Unreadable(q.signature)
  }

  ghost predicate Unkeyed(g: Gateway, w1: World, w2: World, now: real, q: Request) {
    exists household, ref :: Routes(g, w1, now, q, household, ref)
      && (household == "" || KeyIs(g, w2, household, []) || forall key :: !KeyIs(g, w2, household, key))
  }

  // What each answer says of the request, the switch, the directory and the keys - and of nothing else.
  ghost predicate RightAnswer(g: Gateway, q: Request, w1: World, w2: World, now: real, taken: bool, answer: Answer) {
    && (answer == Answered(FlagDisabled) <==> !w1.enabled)
    && (answer == Answered(HmacRejected)
        <==> (w1.enabled && (q.timestamp == "" || q.signature == "")) || Forged(g, w1, w2, now, q))
    && (answer == Answered(TimestampReplay) <==> Admissible(w1, q) && !OnTime(g, now, q.timestamp))
    && (answer == Answered(LookupUnavailable)
        <==> Admissible(w1, q) && OnTime(g, now, q.timestamp) && w1.lookup.Unavailable?)
    && (answer == Answered(NoRoute(UnknownSender))
        <==> && Admissible(w1, q) && OnTime(g, now, q.timestamp) && w1.lookup.Answers?
             && forall b | b in w1.lookup.directory.bindings :: !Knows(g, w1.lookup.directory, b, q.channel, q.sender))
    && (answer == Answered(NoRoute(AmbiguousSender))
        <==> && Admissible(w1, q) && OnTime(g, now, q.timestamp) && w1.lookup.Answers?
             && KnownTwice(g, w1.lookup.directory, q.channel, q.sender))
    && (answer == Answered(RelayKeyAbsent) <==> Unkeyed(g, w1, w2, now, q))
    && (answer == Answered(RuntimeUnavailable)
        <==> g.hasDeliverer && !taken && exists household, ref :: Signed(g, w1, w2, now, q, household, ref))
    && (answer == Answered(Ok)
        <==> (taken || !g.hasDeliverer) && exists household, ref :: Signed(g, w1, w2, now, q, household, ref))
  }

  lemma OneRoute(g: Gateway, w: World, now: real, q: Request, h: string, r: Option<string>,
                 household: string, ref: Option<string>)
    requires Routes(g, w, now, q, h, r) && Routes(g, w, now, q, household, ref)
    ensures h == household && r == ref
  {
    RoutesWhereItLeads(g, w, now, q.sender, q.channel, q.timestamp, h, r);
    RoutesWhereItLeads(g, w, now, q.sender, q.channel, q.timestamp, household, ref);
  }

  lemma OneKey(g: Gateway, w1: World, w2: World, now: real, q: Request, household: string, ref: Option<string>)
    requires Routes(g, w1, now, q, household, ref)
    ensures forall h, r, key :: Keyed(g, w1, w2, now, q, h, r, key)
              <==> h == household && r == ref && household != "" && key != [] && RelayKey(g, w2, household) == Some(key)
  {
    RoutesWhereItLeads(g, w2, now, q.sender, q.channel, q.timestamp, household, ref);
    forall h, r, key | Keyed(g, w1, w2, now, q, h, r, key)
      ensures h == household && r == ref
    {
      OneRoute(g, w1, now, q, h, r, household, ref);
    }
  }

  lemma UnkeyedIff(g: Gateway, w1: World, w2: World, now: real, q: Request, household: string, ref: Option<string>)
    requires Routes(g, w1, now, q, household, ref)
    ensures Unkeyed(g, w1, w2, now, q) <==> household == "" || RelayKey(g, w2, household) in {None, Some([])}
  {
    RoutesWhereItLeads(g, w2, now, q.sender, q.channel, q.timestamp, household, ref);
    forall h, r | Routes(g, w1, now, q, h, r)
      ensures h == household && r == ref
    {
      OneRoute(g, w1, now, q, h, r, household, ref);
    }
    assert KeyIs(g, w2, household, []) <==> RelayKey(g, w2, household) == Some([]);
    if RelayKey(g, w2, household).Some? {
      assert KeyIs(g, w2, household, RelayKey(g, w2, household).value);
    }
  }

  // What a routed request turns on, said through its own household and key.
  lemma RoutedTurnsOn(g: Gateway, w1: World, w2: World, now: real, q: Request, household: string, ref: Option<string>)
    requires g.crypto.Lawful() && Routes(g, w1, now, q, household, ref)
    ensures var key := RelayKey(g, w2, household);
            var there := household != "" && key.Some? && key != Some([]);
            && (Unkeyed(g, w1, w2, now, q) <==> !there)
            && (Forged(g, w1, w2, now, q)
                <==> there && g.crypto.Verify(key.value, q.payload, q.timestamp, q.signature) == Mismatch)
            && ((exists h, r :: Signed(g, w1, w2, now, q, h, r))
                <==> there && g.crypto.Verify(key.value, q.payload, q.timestamp, q.signature) == Match)
  {
    var key := RelayKey(g, w2, household);
    OneKey(g, w1, w2, now, q, household, ref);
    RoutesWhereItLeads(g, w2, now, q.sender, q.channel, q.timestamp, household, ref);
    if household != "" && key.Some? && key != Some([]) {
      assert Keyed(g, w1, w2, now, q, household, ref, key.value);
      MatchesIffSpelt(g.crypto, key.value, q.payload, q.timestamp, q.signature);
      VerifyRaisesIff(g.crypto, key.value, q.payload, q.timestamp, q.signature);
      if g.crypto.Verify(key.value, q.payload, q.timestamp, q.signature) == Match {
        assert Signed(g, w1, w2, now, q, household, ref);
      }
    }
    UnkeyedIff(g, w1, w2, now, q, household, ref);
  }

  lemma RoutedAnswer(g: Gateway, q: Request, w1: World, w2: World, now: real, taken: bool, answer: Answer,
                     household: string, ref: Option<string>)
    requires g.crypto.Lawful() && Routes(g, w1, now, q, household, ref)
    requires answer == Settled(g, Ingress(map[], 0), 0, q, Accepted(household, ref), w2, now, taken).answer
    ensures RightAnswer(g, q, w1, w2, now, taken, answer)
  {
    RoutesWhereItLeads(g, w1, now, q.sender, q.channel, q.timestamp, household, ref);
    RefusedForWhatIsWrong(g, w1, now, q.sender, q.channel, q.timestamp);
    RoutedTurnsOn(g, w1, w2, now, q, household, ref);
  }

  lemma UnroutedAnswer(g: Gateway, q: Request, w1: World, w2: World, now: real, taken: bool, answer: Answer)
    requires g.crypto.Lawful() && forall household, ref :: !Routes(g, w1, now, q, household, ref)
    requires match Admit(g, w1, now, q)
             case Refused(refusal) => answer == refusal
             case Persisted(phase) => phase == LookupFailed && answer == Answered(LookupUnavailable)
    ensures RightAnswer(g, q, w1, w2, now, taken, answer)
  {
    RefusedForWhatIsWrong(g, w1, now, q.sender, q.channel, q.timestamp);
    assert forall household, ref, key :: !Keyed(g, w1, w2, now, q, household, ref, key);
  }

  /** Every answer is given exactly for its reason: the switch, the credentials, the stamp, the directory, the
      key, the signature and the runtime, in that order. */
  lemma AnswersExactly(g: Gateway, s: Ingress, q: Request, w1: World, w2: World, clocks: Clocks, taken: bool)
    requires g.crypto.Lawful()
    ensures RightAnswer(g, q, w1, w2, clocks.routed, taken, Webhook(g, s, q, w1, w2, clocks, taken).answer)
  {
    forall household, ref
      ensures Routes(g, w1, clocks.routed, q, household, ref)
              <==> Admit(g, w1, clocks.routed, q) == Persisted(Accepted(household, ref))
    {
      RoutesWhereItLeads(g, w1, clocks.routed, q.sender, q.channel, q.timestamp, household, ref);
    }
    match Admit(g, w1, clocks.routed, q)
    case Persisted(Accepted(household, ref)) =>
      RoutedAnswer(g, q, w1, w2, clocks.routed, taken, Webhook(g, s, q, w1, w2, clocks, taken).answer, household, ref);
    case _ =>
      UnroutedAnswer(g, q, w1, w2, clocks.routed, taken, Webhook(g, s, q, w1, w2, clocks, taken).answer);
  }

  datatype Status = Success | Forbidden | ServiceUnavailable | InternalError

  /** `_status_for`; an exception is the server's own 500. */
  function StatusOf(a: Answer): (s: Status) {
    match a
    case Raised => InternalError
    case Answered(code) =>
      match code
      case HmacRejected => Forbidden
      case TimestampReplay => Forbidden
      case FlagDisabled => ServiceUnavailable
      case _ => Success
  }

  lemma NeverForgedWhenLate(g: Gateway, q: Request, w1: World, w2: World, now: real)
    ensures Forged(g, w1, w2, now, q) ==> w1.enabled && OnTime(g, now, q.timestamp)
  {
  }

  /** The status tells the relay which it was: 503 exactly while the switch is off, 500 exactly for an
      exception, 403 exactly for credentials that are missing, late or wrong, and 200 for everything that is
      delivered, kept for the worker, or nobody's. */
  lemma StatusTellsWhich(g: Gateway, s: Ingress, q: Request, w1: World, w2: World, clocks: Clocks, taken: bool)
    requires s.Valid() && g.crypto.Lawful()
    ensures var r := Webhook(g, s, q, w1, w2, clocks, taken);
            && (StatusOf(r.answer) == ServiceUnavailable <==> !w1.enabled)
            && (StatusOf(r.answer) == InternalError <==> r.answer == Raised)
            && (StatusOf(r.answer) == Forbidden
                <==> w1.enabled && (|| q.timestamp == "" || q.signature == "" || !OnTime(g, clocks.routed, q.timestamp)
                                    || Forged(g, w1, w2, clocks.routed, q)))
            && (StatusOf(r.answer) == Success
                <==> r.answer == Answered(Ok) || Retryable(r.answer) || (r.answer.Answered? && r.answer.code.NoRoute?))
            && (StatusOf(r.answer) in {Forbidden, ServiceUnavailable} ==> r.table.rows == s.rows)
  {
    AnswersExactly(g, s, q, w1, w2, clocks, taken);
    AnswerTellsTheRow(g, s, q, w1, w2, clocks, taken);
    NeverForgedWhenLate(g, q, w1, w2, clocks.routed);
  }

  class Router {
    const gateway: Gateway
    const store: Store

    constructor (gateway: Gateway, store: Store)
      ensures this.gateway == gateway && this.store == store
    {
      this.gateway := gateway;
      this.store := store;
    }

    // From the stored row to the answer: its key, its signature, its delivery.
    method Settle(id: nat, q: Request, household: string, ref: Option<string>, w: World, now: real, taken: bool)
      returns (answer: Answer, calls: seq<Delivery>, ghost asked: seq<Ingress>)
      modifies store
      ensures Served(store.table, answer, calls, asked)
              == Settled(gateway, old(store.table), id, q, Accepted(household, ref), w, now, taken)
    {
      calls, asked := [], [];
      var key := None;
      if household != "" {
        key := RelayKey(gateway, w, household);
      }
      if key == None || key == Some([]) {
        store.Defer(id, "relay_key_absent", now + BASE_BACKOFF_SECONDS, true);
        return Answered(RelayKeyAbsent), [], [];
      }
      var verdict := gateway.crypto.Verify(key.value, q.payload, q.timestamp, q.signature);
      if verdict == Raises {
        return Raised, [], [];
      }
      if verdict == Mismatch {
        store.MarkDelivered(id);
        return Answered(HmacRejected), [], [];
      }
      if gateway.hasDeliverer {
        calls := [Delivery(household, ref, q.payload, q.timestamp, q.signature)];
        asked := [store.table];
        if !taken {
          store.Defer(id, "runtime_unavailable", now + BASE_BACKOFF_SECONDS, true);
          return Answered(RuntimeUnavailable), calls, asked;
        }
      }
      store.MarkDelivered(id);
      answer := Answered(Ok);
    }

    /** `handle_webhook`. `asked` is the table as each call left for the runtime. */
    method HandleWebhook(q: Request, w1: World, w2: World, clocks: Clocks, taken: bool)
      returns (answer: Answer, calls: seq<Delivery>, ghost asked: seq<Ingress>)
      requires store.table.Valid()
      modifies store
      ensures Served(store.table, answer, calls, asked) == Webhook(gateway, old(store.table), q, w1, w2, clocks, taken)
      ensures store.table.Valid()
      // Every answer has its reason, and only that.
      ensures gateway.crypto.Lawful() ==> RightAnswer(gateway, q, w1, w2, clocks.routed, taken, answer)
      // With the switch off nothing is read, kept or sent.
      ensures !w1.enabled ==> answer == Answered(FlagDisabled) && calls == [] && store.table == old(store.table)
      // A row remains for the retryable answers, and where a stored signature cannot be compared.
      ensures answer != Raised ==> (store.table.rows != old(store.table).rows <==> Retryable(answer))
      ensures gateway.crypto.Lawful() ==>
                (answer == Raised && store.table.rows != old(store.table).rows
                 <==> Incomparable(gateway, w1, w2, clocks.routed, q))
      ensures store.table.rows == old(store.table).rows || exists household ::
                && RowStands(gateway, old(store.table), store.table, q, w1, clocks, household)
                && (household == None <==> answer == Answered(LookupUnavailable))
      // At most one call, authorised, and made while the complete row, household included, is stored.
      ensures |calls| == |asked| <= 1
      ensures calls != [] <==> answer == Answered(if taken then Ok else RuntimeUnavailable) && gateway.hasDeliverer
      ensures forall i | 0 <= i < |calls| ::
                && Authorised(gateway, q, w1, w2, clocks, calls[i])
                && RowStands(gateway, old(store.table), asked[i], q, w1, clocks, Some(calls[i].household))
    {
      calls, asked := [], [];
      AnswerTellsTheRow(gateway, store.table, q, w1, w2, clocks, taken);
      CallIsAuthorised(gateway, store.table, q, w1, w2, clocks, taken);
      if gateway.crypto.Lawful() {
        RaisesExactly(gateway, store.table, q, w1, w2, clocks, taken);
        AnswersExactly(gateway, store.table, q, w1, w2, clocks, taken);
      }
      if !w1.enabled {
        return Answered(FlagDisabled), [], [];
      }
      if q.timestamp == "" || q.signature == "" {
        return Answered(HmacRejected), [], [];
      }
      var routed := Route(gateway, w1, clocks.routed, q.sender, q.channel, Some(q.timestamp));
      if routed.RouteRaises? {
        return Raised, [], [];
      }
      if routed.Denied? {
        if routed.code == LookupUnavailable {
          var lost := store.PersistBeforeAck(OriginOf(q, None, clocks.received));
          store.Defer(lost, "lookup_unavailable", clocks.settled + BASE_BACKOFF_SECONDS, true);
        }
        return Answered(routed.code), [], [];
      }
      var id := store.PersistBeforeAck(OriginOf(q, Some(routed.household), clocks.received));
      answer, calls, asked := Settle(id, q, routed.household, routed.runtimeRef, w2, clocks.settled, taken);
    }
  }
}
