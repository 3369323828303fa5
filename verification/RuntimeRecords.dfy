/** The configuration revisions, bootstrap tokens and household rows of control_plane/repositories/configs.py
    and control_plane/provisioning/bootstrap.py, and what the last statements of a reset and a cancellation
    (control_plane/onboarding/service.py) do to them. */
module RuntimeRecords {
  import opened Basics

  datatype RevisionStatus = Planned | Issued | Claimed | Active | Superseded | Revoked

  datatype HouseholdStatus = Draft | Onboarding | Provisioning | Live | Deleting | Deleted

  datatype Token = Token(household: string, revision: nat, runtime: string, expiresAt: real,
                         claimed: bool, used: bool, revoked: bool)

  datatype Household = Household(status: HouseholdStatus, runtime: Option<string>, revision: nat)

  // Revisions are numbered within their household.
  datatype Tables = Tables(revisions: map<(string, nat), RevisionStatus>, tokens: map<nat, Token>,
                           households: map<string, Household>)

  // ---- taking out of service ----

  // What a teardown revokes, and what it calls the household afterwards.
  datatype Teardown = Teardown(household: string, revokes: set<RevisionStatus>, status: HouseholdStatus)

  // Nothing that could still become live is spared.
  predicate Thorough(d: Teardown) {
    Planned in d.revokes && Issued in d.revokes && Claimed in d.revokes
  }

  function ByReset(household: string): (d: Teardown)
    ensures Thorough(d)
  {
    Teardown(household, {Planned, Issued, Claimed, Active}, Onboarding)
  }

  function ByCancel(household: string): (d: Teardown)
    ensures Thorough(d)
  {
    Teardown(household, {Planned, Issued, Claimed}, Draft)
  }

  lemma SparesNoneToCome(d: Teardown, status: RevisionStatus)
    requires Thorough(d)
    ensures status in d.revokes || status in {Active, Superseded, Revoked}
  {
    match status
    case Planned | Issued | Claimed =>
    case _ =>
  }

  function RevisionsRevoked(t: Tables, d: Teardown): (r: Tables) {
    t.(revisions := map k | k in t.revisions ::
         if k.0 == d.household && t.revisions[k] in d.revokes then Revoked else t.revisions[k])
  }

  function TokensRevoked(t: Tables, household: string): (r: Tables) {
    t.(tokens := map k | k in t.tokens ::
         if t.tokens[k].household == household && !t.tokens[k].used then t.tokens[k].(revoked := true) else t.tokens[k])
  }

  function RuntimeForgotten(t: Tables, d: Teardown): (r: Tables) {
    if d.household in t.households then t.(households := t.households[d.household := Household(d.status, None, 0)])
    else t
  }

  function TakenDown(t: Tables, d: Teardown): (r: Tables) {
    RuntimeForgotten(TokensRevoked(RevisionsRevoked(t, d), d.household), d)
  }

  // No runtime, no revision that could become one, no token that could claim one.
  ghost predicate OutOfService(t: Tables, household: string) {
    && (household in t.households ==> t.households[household].runtime == None)
    && (forall k | k in t.revisions && k.0 == household :: t.revisions[k] in {Active, Superseded, Revoked})
    && (forall k | k in t.tokens && t.tokens[k].household == household :: t.tokens[k].used || t.tokens[k].revoked)
  }

  // What a teardown changes, row by row.
  ghost predicate TookDown(before: Tables, after: Tables, household: string, revokes: set<RevisionStatus>,
                           status: HouseholdStatus)
  {
    && after.revisions.Keys == before.revisions.Keys && after.tokens.Keys == before.tokens.Keys
    && after.households.Keys == before.households.Keys
    && (forall k | k in before.revisions ::
          after.revisions[k] == if k.0 == household && before.revisions[k] in revokes then Revoked
                                else before.revisions[k])
    && (forall k | k in before.tokens ::
          after.tokens[k] == if before.tokens[k].household == household && !before.tokens[k].used
                             then before.tokens[k].(revoked := true) else before.tokens[k])
    && (forall h | h in before.households ::
          after.households[h] == if h == household then Household(status, None, 0) else before.households[h])
  }

  /** A reset revokes all but what was superseded or revoked before, and the household is being set up; a
      cancellation spares what is active, and the household is a draft again. */
  lemma ResetAndCancellation(t: Tables, household: string)
    ensures TookDown(t, TakenDown(t, ByReset(household)), household, {Planned, Issued, Claimed, Active}, Onboarding)
    ensures TookDown(t, TakenDown(t, ByCancel(household)), household, {Planned, Issued, Claimed}, Draft)
  {
  }

  class ConfigsRepository {
    var tables: Tables

    constructor ()
      ensures tables == Tables(map[], map[], map[])
    {
      tables := Tables(map[], map[], map[]);
    }

    /** The three statements. Of the household's rows every revision in scope is revoked, every token not yet used
        is, and the household has no runtime; nothing else changes. So no revision that could still be claimed
        or activated and no token that could be used is left. */
    method TakeDown(d: Teardown)
      requires Thorough(d)
      modifies this
      ensures tables == TakenDown(old(tables), d)
      ensures OutOfService(tables, d.household)
      ensures TookDown(old(tables), tables, d.household, d.revokes, d.status)
    {
      forall k | k in tables.revisions
        ensures tables.revisions[k] in d.revokes || tables.revisions[k] in {Active, Superseded, Revoked}
      {
        SparesNoneToCome(d, tables.revisions[k]);
      }
      tables := RevisionsRevoked(tables, d);
      tables := TokensRevoked(tables, d.household);
      tables := RuntimeForgotten(tables, d);
    }
  }

  // ---- what a runtime may do with a token ----

  predicate Bound(t: Tables, token: nat) {
    && token in t.tokens && t.tokens[token].household in t.households
    && t.households[t.tokens[token].household].status !in {Deleting, Deleted}
    && t.households[t.tokens[token].household].runtime == Some(t.tokens[token].runtime)
    && (t.tokens[token].household, t.tokens[token].revision) in t.revisions
  }

  predicate MayClaim(t: Tables, token: nat, at: real) {
    && Bound(t, token) && !t.tokens[token].used && !t.tokens[token].revoked && at < t.tokens[token].expiresAt
    && t.revisions[(t.tokens[token].household, t.tokens[token].revision)] in {Issued, Claimed}
  }

  predicate MayActivate(t: Tables, token: nat, at: real) {
    && Bound(t, token) && !t.tokens[token].used && !t.tokens[token].revoked && at < t.tokens[token].expiresAt
    && t.tokens[token].claimed && t.revisions[(t.tokens[token].household, t.tokens[token].revision)] == Claimed
  }

  datatype Event =
    | RevisionPlanned(household: string, number: nat)
    | BootstrapIssued(id: nat, household: string, revision: nat, runtime: string, expiresAt: real)
    | TokenClaimed(token: nat, at: real)
    | RevisionActivated(token: nat, at: real)
    | HouseholdUpdated(household: string, row: Household)
    | ToreDown(d: Teardown)
    | TokensPurged(kept: set<nat>)

  // `issue_bootstrap`: earlier tokens of the revision are revoked, and a new one is there - whatever became
  // of the revision meanwhile.
  function IssuedTo(t: Tables, id: nat, household: string, revision: nat, runtime: string, expiresAt: real)
    : (r: Tables)
  {
    var key := (household, revision);
    if key !in t.revisions || id in t.tokens then t else
    var tokens := map k | k in t.tokens ::
      if t.tokens[k].household == household && t.tokens[k].revision == revision && !t.tokens[k].used
      then t.tokens[k].(revoked := true) else t.tokens[k];
    t.(tokens := tokens[id := Token(household, revision, runtime, expiresAt, false, false, false)],
       revisions := if t.revisions[key] in {Planned, Issued, Claimed} then t.revisions[key := Issued] else t.revisions)
  }

  function ClaimedBy(t: Tables, token: nat): (r: Tables)
    requires Bound(t, token)
  {
    var row := t.tokens[token];
    var key := (row.household, row.revision);
    if row.claimed then t else
    t.(tokens := t.tokens[token := row.(claimed := true)],
       revisions := if t.revisions[key] == Issued then t.revisions[key := Claimed] else t.revisions)
  }

  function ActivatedBy(t: Tables, token: nat): (r: Tables)
    requires Bound(t, token)
  {
    var row := t.tokens[token];
    var key := (row.household, row.revision);
    Tables(map k | k in t.revisions ::
             if k == key then Active
             else if k.0 == row.household && t.revisions[k] == Active then Superseded else t.revisions[k],
           t.tokens[token := row.(used := true)],
           t.households[row.household := t.households[row.household].(status := Live, revision := row.revision)])
  }

  function Apply(t: Tables, e: Event): (r: Tables) {
    match e
    case RevisionPlanned(household, number) =>
      if (household, number) in t.revisions then t else t.(revisions := t.revisions[(household, number) := Planned])
    case BootstrapIssued(id, household, revision, runtime, expiresAt) =>
      IssuedTo(t, id, household, revision, runtime, expiresAt)
    case TokenClaimed(token, at) => if MayClaim(t, token, at) then ClaimedBy(t, token) else t
    case RevisionActivated(token, at) => if MayActivate(t, token, at) then ActivatedBy(t, token) else t
    case HouseholdUpdated(household, row) => t.(households := t.households[household := row])
    case ToreDown(d) => TakenDown(t, d)
    case TokensPurged(kept) => t.(tokens := map k | k in t.tokens && k in kept :: t.tokens[k])
  }

  function Run(t: Tables, events: seq<Event>): (r: Tables)
    decreases |events|
  {
    if events == [] then t else Run(Apply(t, events[0]), events[1..])
  }

  // A revision that may not become live any more, or is live.
  predicate Settled(t: Tables, household: string, number: nat) {
    (household, number) in t.revisions && t.revisions[(household, number)] in {Active, Superseded, Revoked}
  }

  lemma StaysSettled(t: Tables, e: Event, household: string, number: nat)
    requires Settled(t, household, number)
    ensures Settled(Apply(t, e), household, number)
  {
  }

  lemma {:induction false} SettledForGood(t: Tables, events: seq<Event>, household: string, number: nat)
    requires Settled(t, household, number)
    ensures Settled(Run(t, events), household, number)
    decreases |events|
  {
    if events != [] {
      StaysSettled(t, events[0], household, number);
      SettledForGood(Apply(t, events[0]), events[1..], household, number);
    }
  }

  /** After a reset or a cancellation nothing of what the household was getting ever comes back: whatever
      happens later - a worker that was late issuing a token for one of its revisions, a runtime that kept an
      old one, the same runtime name again - no token for a revision there was is claimed or activates it. */
  lemma NothingOldComesBack(t: Tables, d: Teardown, events: seq<Event>, number: nat)
    requires Thorough(d) && (d.household, number) in t.revisions
    ensures var later := Run(TakenDown(t, d), events);
            forall token, at | token in later.tokens && later.tokens[token].household == d.household
                               && later.tokens[token].revision == number ::
              !MayClaim(later, token, at) && !MayActivate(later, token, at)
  {
    SparesNoneToCome(d, t.revisions[(d.household, number)]);
    SettledForGood(TakenDown(t, d), events, d.household, number);
  }

  // The whole way of a revision: planned, issued to this runtime, claimed and activated.
  function Bootstrap(household: string, number: nat, runtime: string, token: nat, expiresAt: real, at: real)
    : (events: seq<Event>)
  {
    [RevisionPlanned(household, number), HouseholdUpdated(household, Household(Provisioning, Some(runtime), 0)),
     BootstrapIssued(token, household, number, runtime, expiresAt), TokenClaimed(token, at),
     RevisionActivated(token, at)]
  }

  lemma RunFive(t: Tables, events: seq<Event>)
    requires |events| == 5
    ensures Run(t, events)
            == Apply(Apply(Apply(Apply(Apply(t, events[0]), events[1]), events[2]), events[3]), events[4])
  {
    var (a, b, c, d) := (events[1..], events[2..], events[3..], events[4..]);
    assert a[1..] == b && b[1..] == c && c[1..] == d && d[1..] == [];
    assert a[0] == events[1] && b[0] == events[2] && c[0] == events[3] && d[0] == events[4];
    var t1 := Apply(t, events[0]);
    var t2 := Apply(t1, events[1]);
    var t3 := Apply(t2, events[2]);
    assert Run(t, events) == Run(t1, a) == Run(t2, b) == Run(t3, c);
    assert Run(t3, c) == Run(Apply(t3, events[3]), d);
    assert Run(Apply(t3, events[3]), d) == Run(Apply(Apply(t3, events[3]), events[4]), []);
  }

  lemma BootstrapRuns(t: Tables, household: string, number: nat, runtime: string, token: nat, expiresAt: real, at: real)
    ensures var issued := Apply(Apply(Apply(t, RevisionPlanned(household, number)),
                                      HouseholdUpdated(household, Household(Provisioning, Some(runtime), 0))),
                                BootstrapIssued(token, household, number, runtime, expiresAt));
            Run(t, Bootstrap(household, number, runtime, token, expiresAt, at))
            == Apply(Apply(issued, TokenClaimed(token, at)), RevisionActivated(token, at))
  {
    RunFive(t, Bootstrap(household, number, runtime, token, expiresAt, at));
  }

  lemma Issuing(t: Tables, household: string, number: nat, runtime: string, token: nat, expiresAt: real)
    returns (next: Tables)
    requires (household, number) !in t.revisions && token !in t.tokens
    ensures next == Apply(Apply(Apply(t, RevisionPlanned(household, number)),
                                HouseholdUpdated(household, Household(Provisioning, Some(runtime), 0))),
                          BootstrapIssued(token, household, number, runtime, expiresAt))
    ensures next.revisions == t.revisions[(household, number) := Issued]
    ensures next.households == t.households[household := Household(Provisioning, Some(runtime), 0)]
    ensures token in next.tokens
            && next.tokens[token] == Token(household, number, runtime, expiresAt, false, false, false)
  {
    var planned := Apply(t, RevisionPlanned(household, number));
    var named := Apply(planned, HouseholdUpdated(household, Household(Provisioning, Some(runtime), 0)));
    next := Apply(named, BootstrapIssued(token, household, number, runtime, expiresAt));
    assert (household, number) in named.revisions && token !in named.tokens;
  }

  lemma Claiming(t: Tables, household: string, number: nat, runtime: string, token: nat, expiresAt: real, at: real)
    returns (next: Tables)
    requires at < expiresAt && (household, number) in t.revisions && t.revisions[(household, number)] == Issued
    requires household in t.households && t.households[household] == Household(Provisioning, Some(runtime), 0)
    requires token in t.tokens && t.tokens[token] == Token(household, number, runtime, expiresAt, false, false, false)
    ensures next == Apply(t, TokenClaimed(token, at))
    ensures next.revisions == t.revisions[(household, number) := Claimed] && next.households == t.households
    ensures token in next.tokens && next.tokens[token] == t.tokens[token].(claimed := true)
  {
    assert MayClaim(t, token, at);
    next := Apply(t, TokenClaimed(token, at));
  }

  lemma Activating(t: Tables, household: string, number: nat, runtime: string, token: nat, expiresAt: real, at: real)
    returns (next: Tables)
    requires at < expiresAt && (household, number) in t.revisions && t.revisions[(household, number)] == Claimed
    requires household in t.households && t.households[household] == Household(Provisioning, Some(runtime), 0)
    requires token in t.tokens && t.tokens[token] == Token(household, number, runtime, expiresAt, true, false, false)
    ensures next == Apply(t, RevisionActivated(token, at))
    ensures next.households == t.households[household := Household(Live, Some(runtime), number)]
    ensures next.revisions.Keys == t.revisions.Keys
    ensures forall k | k in t.revisions && k.0 != household :: next.revisions[k] == t.revisions[k]
    ensures forall k | k in t.revisions && k.0 == household ::
              next.revisions[k] == if k.1 == number then Active
                                   else if t.revisions[k] == Active then Superseded else t.revisions[k]
    ensures token in next.tokens && next.tokens[token].used
  {
    assert MayActivate(t, token, at);
    next := Apply(t, RevisionActivated(token, at));
    forall k | k in t.revisions && k.0 == household && k.1 == number
      ensures k == (household, number)
    {
    }
  }

  // A household's new revision is its only active one, on its runtime, and the token is spent.
  ghost predicate Alive(t: Tables, later: Tables, household: string, number: nat, runtime: string, token: nat) {
    && later.households == t.households[household := Household(Live, Some(runtime), number)]
    && later.revisions.Keys == t.revisions.Keys + {(household, number)}
    && (forall k | k in t.revisions && k.0 != household :: later.revisions[k] == t.revisions[k])
    && later.revisions[(household, number)] == Active
    && (forall k | k in t.revisions && k.0 == household ::
          later.revisions[k] == if t.revisions[k] == Active then Superseded else t.revisions[k])
    && token in later.tokens && later.tokens[token].used
  }

  lemma ComesAlive(t: Tables, household: string, number: nat, runtime: string, token: nat, expiresAt: real, at: real)
    requires (household, number) !in t.revisions && token !in t.tokens && at < expiresAt
    ensures Alive(t, Run(t, Bootstrap(household, number, runtime, token, expiresAt, at)), household, number, runtime,
                  token)
  {
    var issued := Issuing(t, household, number, runtime, token, expiresAt);
    var claimed := Claiming(issued, household, number, runtime, token, expiresAt, at);
    var active := Activating(claimed, household, number, runtime, token, expiresAt, at);
    assert active == Run(t, Bootstrap(household, number, runtime, token, expiresAt, at)) by {
      BootstrapRuns(t, household, number, runtime, token, expiresAt, at);
    }
    assert claimed.revisions.Keys == t.revisions.Keys + {(household, number)};
  }

  /** What a household gets afterwards does come to life: a new revision, with a new token that is used before it
      expires, ends active on its runtime - the only active one, and its token spent. */
  lemma SomethingNewComesAlive(t: Tables, d: Teardown, number: nat, runtime: string, token: nat, expiresAt: real,
                               at: real)
    requires (d.household, number) !in t.revisions && token !in t.tokens && at < expiresAt
    ensures Alive(TakenDown(t, d), Run(TakenDown(t, d), Bootstrap(d.household, number, runtime, token, expiresAt, at)),
                  d.household, number, runtime, token)
  {
    ComesAlive(TakenDown(t, d), d.household, number, runtime, token, expiresAt, at);
  }

  /** And only so: a token opens nothing once it is used, revoked or expired, for another runtime than the
      household's, or for a household that is being deleted; and it activates only what it claimed. */
  lemma TokensOpenNothingElse(t: Tables, token: nat, at: real)
    requires MayClaim(t, token, at) || MayActivate(t, token, at)
    ensures token in t.tokens
    ensures var row := t.tokens[token];
            && !row.used && !row.revoked && at < row.expiresAt
            && row.household in t.households
            && t.households[row.household].runtime == Some(row.runtime)
            && t.households[row.household].status != Deleting && t.households[row.household].status != Deleted
            && (row.household, row.revision) in t.revisions
            && (MayActivate(t, token, at) ==>
                  row.claimed && t.revisions[(row.household, row.revision)] == Claimed)
  {
  }

  // A token that could still be used.
  ghost predicate Usable(t: Tables, token: nat) {
    token in t.tokens && !t.tokens[token].used && !t.tokens[token].revoked
  }

  ghost predicate OneUsable(t: Tables) {
    forall a, b | Usable(t, a) && Usable(t, b) && t.tokens[a].household == t.tokens[b].household
                  && t.tokens[a].revision == t.tokens[b].revision :: a == b
  }

  lemma StaysOneUsable(t: Tables, e: Event)
    requires OneUsable(t)
    ensures OneUsable(Apply(t, e))
  {
    var after := Apply(t, e);
    forall a | Usable(after, a) && a in t.tokens
      ensures Usable(t, a)
      ensures after.tokens[a].household == t.tokens[a].household && after.tokens[a].revision == t.tokens[a].revision
    {
    }
  }

  /** In every run a revision has at most one token that could still be used: issuing one revokes the others. */
  lemma {:induction false} OneTokenAtATime(t: Tables, events: seq<Event>)
    requires OneUsable(t)
    ensures OneUsable(Run(t, events))
    decreases |events|
  {
    if events != [] {
      StaysOneUsable(t, events[0]);
      OneTokenAtATime(Apply(t, events[0]), events[1..]);
    }
  }
}
