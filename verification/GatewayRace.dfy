/** When the worker overtakes a webhook: the bounds of `GatewayRuns` on attempts and calls are exact. */
module GatewayRace {
  import opened Basics
  import opened RelayTrust
  import opened GatewayStore
  import opened GatewayRouter
  import opened GatewayWorker
  import opened GatewayRuns

  ghost predicate RunTo(g: Gateway, d: real, states: seq<Sys>, events: seq<Event>, s: Sys) {
    IsRun(g, d, states, events) && Crash !in events && states[|events|] == s
  }

  // States of runs in which nothing crashes.
  ghost predicate Reachable(g: Gateway, d: real, s: Sys) {
    exists states, events :: RunTo(g, d, states, events, s)
  }

  lemma InitialIsReachable(g: Gateway, d: real)
    ensures Reachable(g, d, INITIAL)
  {
    assert RunTo(g, d, [INITIAL], [], INITIAL);
  }

  lemma StepIsReachable(g: Gateway, d: real, s: Sys, e: Event)
    requires Reachable(g, d, s) && Known(s) && Enabled(g, d, s, e) && e != Crash
    ensures Reachable(g, d, Step(g, d, s, e))
  {
    var states, events :| RunTo(g, d, states, events, s);
    var longer, more := states + [Step(g, d, s, e)], events + [e];
    forall i | 0 <= i < |more|
      ensures Known(longer[i]) && Enabled(g, d, longer[i], more[i]) && longer[i + 1] == Step(g, d, longer[i], more[i])
    {
      assert i < |events| ==> more[i] == events[i] && longer[i] == states[i] && longer[i + 1] == states[i + 1];
    }
    assert RunTo(g, d, longer, more, longer[|more|]);
  }

  // ---- one message, whose webhook waits for the runtime while the worker tries it ----

  const KEY: Bytes := [1]

  function Around(g: Gateway): (w: World) {
    Bound(g, "s", "whatsapp", "h", "ref", KEY)
  }

  function Message(g: Gateway): (q: Request) {
    var stamp := g.crypto.decimal(Truncate(0.0));
    Request([], "s", "whatsapp", stamp, g.crypto.hmac(KEY, [], stamp))
  }

  function Accepted0(g: Gateway): (o: Origin) {
    OriginOf(Message(g), Some("h"), 0.0)
  }

  // The webhook has asked the runtime; the worker has tried k times; the row is due once more.
  predicate Racing(g: Gateway, s: Sys, k: nat) {
    && s.table.rows.Keys == {0} && s.hooks.Keys == {0} && s.cases.Keys == {0}
    && s.table.rows[0].AcceptedAs() == Accepted0(g)
    && s.table.rows[0].attempts == k && s.table.rows[0].nextAttemptAt == Delay(k)
    && s.hooks[0].calling && s.hooks[0].received == 0.0
    && s.batch == [] && s.sending == None && 0.0 <= s.clock <= Delay(k)
    && CallsTo(s.log, 0) == k + 1
  }

  lemma OneMoreInLog(log: seq<Call>, c: Call)
    ensures CallsTo(log + [c], c.id) == CallsTo(log, c.id) + 1
  {
    assert (log + [c])[..|log|] == log;
  }

  // The message is stored, and its webhook knows where it goes.
  predicate Stored(g: Gateway, s: Sys) {
    && s.table.rows.Keys == {0} && s.hooks.Keys == {0} && s.cases.Keys == {0}
    && s.table.rows[0].AcceptedAs() == Accepted0(g)
    && s.table.rows[0].attempts == 0 && s.table.rows[0].nextAttemptAt == 0.0
    && s.hooks[0] == Hook(Message(g), Accepted("h", Some("ref")), Around(g), 0.0, 0.0, false)
    && s.batch == [] && s.sending == None && s.clock == 0.0 && s.log == []
  }

  lemma MessageArrives(g: Gateway, d: real) returns (s: Sys)
    requires g.crypto.Lawful() && d >= 0.0
    ensures Reachable(g, d, s) && Stored(g, s)
  {
    var q, w := Message(g), Around(g);
    InitialIsReachable(g, d);
    OwnStampIsFresh(g, 0.0);
    BoundRoutes(g, "s", "whatsapp", "h", "ref", KEY, 0.0, q.timestamp);
    assert IsHexDigest(q.signature);
    assert Admit(g, w, 0.0, q) == Persisted(Accepted("h", Some("ref")));
    StepIsReachable(g, d, INITIAL, Arrive(q, w, 0.0, 0.0));
    s := Step(g, d, INITIAL, Arrive(q, w, 0.0, 0.0));
  }

  lemma MessageIsSent(g: Gateway)
    requires g.crypto.Lawful() && g.hasDeliverer
    ensures Judge(g, Around(g), Message(g), Accepted("h", Some("ref"))).CallRuntime?
  {
    g.crypto.OwnSignatureVerifies(KEY, [], Message(g).timestamp);
  }

  /** The race begins: the request is stored, and its webhook is waiting for the runtime. */
  lemma RaceBegins(g: Gateway, d: real) returns (s: Sys)
    requires g.crypto.Lawful() && g.hasDeliverer && d >= 0.0
    ensures Reachable(g, d, s) && Racing(g, s, 0)
  {
    var s0 := MessageArrives(g, d);
    MessageIsSent(g);
    StepIsReachable(g, d, s0, Judged(0, Around(g), 0.0));
    s := Step(g, d, s0, Judged(0, Around(g), 0.0));
    assert s.log == [] + [s.log[0]];
    OneMoreInLog([], s.log[0]);
  }

  // The worker's decision about the row is to send it, at any time within its age.
  lemma RowIsSent(g: Gateway, r: Row, now: real)
    requires g.crypto.Lawful() && r.AcceptedAs() == Accepted0(g) && now <= MAX_AGE_SECONDS
    ensures Decide(g, r, Turn(now, now, now, Around(g), Refuses)).SendTo?
  {
    OwnStampIsFresh(g, now);
    BoundRoutes(g, "s", "whatsapp", "h", "ref", KEY, now, g.crypto.decimal(Truncate(now)));
    g.crypto.OwnSignatureVerifies(KEY, [], Message(g).timestamp);
  }

  lemma DelayBounds(k: nat)
    requires k <= 6
    ensures 0.0 <= Delay(k) <= SIX_BACKOFFS
    ensures Delay(k) + Backoff(k + 1) == Delay(k + 1)
    ensures Delay(6) == SIX_BACKOFFS
  {
    PowMonotone(0, k);
    PowMonotone(k, 6);
    assert Pow2(2) == 4;
    assert Pow2(4) == 16;
    assert Pow2(6) == 64;
  }

  // The one row is due, and whoever is in flight may still be so at this time.
  predicate RowDue(g: Gateway, s: Sys, d: real, now: real) {
    && s.table.rows.Keys == {0} && s.cases.Keys == {0} && s.hooks.Keys <= {0} && s.batch == [] && s.sending == None
    && s.table.rows[0].AcceptedAs() == Accepted0(g) && s.table.rows[0].nextAttemptAt <= now
    && 0.0 <= s.clock <= now <= MAX_AGE_SECONDS
    && (0 in s.hooks ==> now <= s.hooks[0].received + d)
  }

  lemma WorkerSelects(g: Gateway, d: real, s: Sys, now: real) returns (t: Sys)
    requires Reachable(g, d, s) && RowDue(g, s, d, now)
    ensures Reachable(g, d, t) && t == Selection(s, now, [Selected(0, s.table.rows[0])])
  {
    var batch := [Selected(0, s.table.rows[0])];
    assert Ids(batch) == {0} by {
      assert batch[0].id == 0;
    }
    assert IsDueBatch(s.table, now, 1, batch);
    t := Selection(s, now, batch);
    StepIsReachable(g, d, s, Select(now, 1, batch));
  }

  // The worker selects the row and is about to hear from the runtime.
  lemma WorkerTries(g: Gateway, d: real, s: Sys, now: real) returns (t: Sys)
    requires g.crypto.Lawful() && g.hasDeliverer && Reachable(g, d, s) && RowDue(g, s, d, now) && d >= 0.0
    ensures Reachable(g, d, t)
    ensures t == s.(clock := now, batch := t.batch, sending := Some(now), cases := t.cases, log := t.log)
    ensures t.batch == [Selected(0, s.table.rows[0])] && t.cases.Keys == {0}
    ensures CallsTo(t.log, 0) == CallsTo(s.log, 0) + 1
  {
    var selected := WorkerSelects(g, d, s, now);
    var turn := Turn(now, now, now, Around(g), Refuses);
    RowIsSent(g, s.table.rows[0], now);
    StepIsReachable(g, d, selected, Work(turn));
    t := WorkerCalls(selected, turn, Decide(g, s.table.rows[0], turn).delivery);
    assert t.log == s.log + [t.log[|s.log|]];
    OneMoreInLog(s.log, t.log[|s.log|]);
  }

  /** One round: the worker tries the row and is refused, while the webhook still waits. */
  lemma OneRound(g: Gateway, d: real, s: Sys, k: nat) returns (t: Sys)
    requires g.crypto.Lawful() && g.hasDeliverer && Reachable(g, d, s) && Racing(g, s, k) && k <= 6 && d >= SIX_BACKOFFS
    ensures Reachable(g, d, t) && Racing(g, t, k + 1) && t.clock == Delay(k)
  {
    DelayBounds(k);
    var now := Delay(k);
    var sent := WorkerTries(g, d, s, now);
    StepIsReachable(g, d, sent, Settle(Refuses, now));
    t := Step(g, d, sent, Settle(Refuses, now));
    assert t.batch == [];
  }

  lemma {:induction false} Rounds(g: Gateway, d: real, k: nat) returns (s: Sys)
    requires g.crypto.Lawful() && g.hasDeliverer && k <= 7 && d >= SIX_BACKOFFS
    ensures Reachable(g, d, s) && Racing(g, s, k) && (k > 0 ==> s.clock == Delay(k - 1))
    decreases k
  {
    if k == 0 {
      s := RaceBegins(g, d);
    } else {
      s := Rounds(g, d, k - 1);
      s := OneRound(g, d, s, k - 1);
    }
  }

  /** At every gateway with a deliverer, a webhook that takes six backoffs or more can be overtaken: the
      worker spends seven attempts on its row, the webhook then the eighth, and the worker makes the ninth
      call. (The deployed deliverer gives up after 10 seconds, gateway/app.py:179-203.) */
  lemma OvertakenWebhook(g: Gateway, d: real) returns (eighth: Sys, ninth: Sys)
    requires g.crypto.Lawful() && g.hasDeliverer && d >= SIX_BACKOFFS
    ensures Reachable(g, d, eighth) && 0 in eighth.table.rows && eighth.table.rows[0].attempts == 8
    ensures Reachable(g, d, ninth) && 0 in ninth.cases && CallsTo(ninth.log, 0) == 9
  {
    var s := Rounds(g, d, 7);
    DelayBounds(6);
    StepIsReachable(g, d, s, Replied(0, false, SIX_BACKOFFS));
    eighth := Step(g, d, s, Replied(0, false, SIX_BACKOFFS));
    ninth := WorkerTries(g, d, eighth, SIX_BACKOFFS + BASE_BACKOFF_SECONDS);
  }

  // ---- the bound, exactly ----

  predicate WithinBounds(s: Sys, id: nat) {
    && (id in s.table.rows ==> s.table.rows[id].attempts <= 7)
    && CallsTo(s.log, id) <= 8
  }

  lemma {:induction false} NothingLost(g: Gateway, d: real, states: seq<Sys>, events: seq<Event>, i: nat)
    requires IsRun(g, d, states, events) && Crash !in events && i <= |events|
    ensures forall id | id in states[i].cases :: states[i].cases[id].workerLost == states[i].cases[id].hookLost == 0
    decreases i
  {
    if i > 0 {
      NothingLost(g, d, states, events, i - 1);
      assert events[i - 1] in events;
      assert states[i] == Step(g, d, states[i - 1], events[i - 1]);
    }
  }

  lemma RunKeepsReachable(g: Gateway, d: real, s: Sys)
    requires g.crypto.Lawful() && d >= 0.0 && Reachable(g, d, s)
    ensures forall id | id in s.table.rows :: id in s.cases
  {
    var states, events :| RunTo(g, d, states, events, s);
    RunKeeps(g, d, states, events, |events|);
  }

  /** Seven attempts and eight calls are the bound for every row in every run without a crash, if and only
      if no webhook may take as long as six backoffs. */
  lemma BoundIsExact(g: Gateway, d: real)
    requires g.crypto.Lawful() && g.hasDeliverer && d >= 0.0
    ensures (forall s, id | Reachable(g, d, s) && id in s.cases :: WithinBounds(s, id)) <==> d < SIX_BACKOFFS
  {
    if d < SIX_BACKOFFS {
      forall s, id | Reachable(g, d, s) && id in s.cases
        ensures WithinBounds(s, id)
      {
        var states, events :| RunTo(g, d, states, events, s);
        EveryRowIsBounded(g, d, states, events, |events|, id);
        NothingLost(g, d, states, events, |events|);
      }
    } else {
      var eighth, ninth := OvertakenWebhook(g, d);
      RunKeepsReachable(g, d, eighth);
      assert !WithinBounds(eighth, 0);
    }
  }

  // ---- such gateways exist ----

  // A number as so many strokes, odd for those from zero up.
  function Counting(n: int): (text: string) {
    if n >= 0 then seq(2 * n + 1, i => '|') else seq(-2 * n, i => '|')
  }

  function Counted(text: string): (n: int) {
    if |text| % 2 == 1 then |text| / 2 else -(|text| / 2)
  }

  lemma CountedIsInverse(n: int)
    ensures Counted(Counting(n)) == n && Counting(n) != ""
  {
  }

  /** What is assumed of a gateway's cryptography can be met. */
  lemma LawfulCryptoExists() returns (c: Crypto)
    ensures c.Lawful()
  {
    c := Crypto((key, body, stamp) => seq(64, i => '0'), (key, sender) => "", (root, household) => root,
                text => Some(Counted(text)), n => Counting(n));
    forall n: int
      ensures c.parseInt(c.decimal(n)) == Some(n) && c.decimal(n) != ""
    {
      CountedIsInverse(n);
    }
  }
}
