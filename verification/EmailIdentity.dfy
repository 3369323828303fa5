/** The identity and reservation tables of control_plane/email/repository.py: who may hold a mailbox
    address, for how long, and when it may pass to somebody else. */
module EmailIdentity {
  import opened Basics

  datatype EmailOption = ManagedAbrolia | Gmail | OwnDomain

  datatype IdentityStatus = Selected | Provisioning | WaitingUser | Verified | Activating | Active | NeedsAttention
                          | Disconnecting | Deleted | OutcomeUnknown

  // Normalised, with a canonical domain.
  datatype Address = Address(domain: string, local: string)

  // `chosen`: the address was chosen at selection, not learned from the provider later.
  datatype Identity = Identity(household: string, option: EmailOption, status: IdentityStatus, address: Option<Address>,
                               chosen: bool, version: nat)

  datatype ReservationStatus = Held | Consumed | Released | Expired

  datatype Reservation = Reservation(household: string, identity: nat, status: ReservationStatus, expiresAt: real)

  datatype Tables = Tables(identities: map<nat, Identity>, next: nat, reservations: map<Address, Reservation>)

  const RESERVATION_TTL_SECONDS: real := 900.0

  predicate Live(status: IdentityStatus) {
    status !in {Disconnecting, Deleted}
  }

  predicate HasIdentity(db: Tables, household: string, statuses: set<IdentityStatus>) {
    exists id | id in db.identities :: db.identities[id].household == household && db.identities[id].status in statuses
  }

  const LIVE: set<IdentityStatus> := {Selected, Provisioning, WaitingUser, Verified, Activating, Active, NeedsAttention,
                                      OutcomeUnknown}

  predicate IsCurrent(db: Tables, household: string, id: nat) {
    id in db.identities && db.identities[id].household == household && db.identities[id].status in LIVE
  }

  predicate Bears(db: Tables, address: Address, statuses: set<IdentityStatus>) {
    exists id | id in db.identities ::
      db.identities[id].address == Some(address) && db.identities[id].status in statuses
  }

  // An owned domain belongs to one identity until that is deleted.
  predicate DomainClaimed(db: Tables, domain: string) {
    exists id | id in db.identities ::
      && db.identities[id].option == OwnDomain && db.identities[id].status != Deleted
      && db.identities[id].address.Some? && db.identities[id].address.value.domain == domain
  }

  predicate Free(db: Tables, address: Address, now: real) {
    address !in db.reservations ||
    (var r := db.reservations[address]; r.status in {Released, Expired} || (r.status == Held && r.expiresAt <= now))
  }

  // ---- the statements ----

  predicate MayCreate(db: Tables, household: string, option: EmailOption, address: Option<Address>, now: real) {
    && (option == OwnDomain ==> address.Some? && !DomainClaimed(db, address.value.domain))
    && !HasIdentity(db, household, {Disconnecting})
    && !HasIdentity(db, household, LIVE)
    && (address.Some? ==> !Bears(db, address.value, LIVE) && Free(db, address.value, now))
  }

  function Created(db: Tables, household: string, option: EmailOption, address: Option<Address>, now: real)
    : (r: Tables)
  {
    Tables(db.identities[db.next := Identity(household, option, Selected, address, address.Some?, 1)], db.next + 1,
           if address.None? then db.reservations
           else db.reservations[address.value := Reservation(household, db.next, Held, now + RESERVATION_TTL_SECONDS)])
  }

  // A status-guarded update of one identity.
  function Moved(db: Tables, id: nat, from: set<IdentityStatus>, to: IdentityStatus): (r: Tables) {
    if id in db.identities && db.identities[id].status in from
    then
      var i := db.identities[id];
      db.(identities := db.identities[id := i.(status := to, version := i.version + 1)])
    else db
  }

  const UNVERIFIED: set<IdentityStatus> := {Selected, Provisioning, WaitingUser, OutcomeUnknown}

  const RETRYABLE: set<IdentityStatus> := {Provisioning, WaitingUser, NeedsAttention, OutcomeUnknown}

  predicate MayVerify(db: Tables, id: nat, address: Address) {
    && id in db.identities && db.identities[id].status in UNVERIFIED
    && (db.identities[id].address.Some? ==> db.identities[id].address.value == address)
    && forall other | other in db.identities && other != id ::
         !(Live(db.identities[other].status) && db.identities[other].address == Some(address))
  }

  function WithStatus(reservations: map<Address, Reservation>, id: nat, from: set<ReservationStatus>,
                      to: ReservationStatus)
    : (r: map<Address, Reservation>)
  {
    map a | a in reservations ::
      if reservations[a].identity == id && reservations[a].status in from then reservations[a].(status := to)
      else reservations[a]
  }

  function MarkedVerified(db: Tables, id: nat, address: Address): (r: Tables)
    requires id in db.identities
  {
    var i := db.identities[id];
    Tables(db.identities[id := i.(status := Verified, address := Some(address), version := i.version + 1)], db.next,
           WithStatus(db.reservations, id, {Held}, Consumed))
  }

  function DisconnectBegun(db: Tables, household: string): (r: Tables) {
    db.(identities := map id | id in db.identities ::
          var i := db.identities[id];
          if i.household == household && Live(i.status) then i.(status := Disconnecting, version := i.version + 1)
          else i)
  }

  function DisconnectFinished(db: Tables, id: nat): (r: Tables)
    requires id in db.identities
  {
    var i := db.identities[id];
    db.(identities := db.identities[id := i.(status := Deleted, version := i.version + 1)],
        reservations := WithStatus(db.reservations, id, {Held, Consumed}, Released))
  }

  function ExpiredAt(reservations: map<Address, Reservation>, now: real): (r: map<Address, Reservation>) {
    map a | a in reservations ::
      if reservations[a].status == Held && reservations[a].expiresAt <= now then reservations[a].(status := Expired)
      else reservations[a]
  }

  // A household's rows go with it: its identities, and the reservations that name it or one of them.
  function Erased(db: Tables, household: string): (r: Tables) {
    Tables(map id | id in db.identities && db.identities[id].household != household :: db.identities[id], db.next,
           map a | a in db.reservations && db.reservations[a].household != household
                   && !(db.reservations[a].identity in db.identities
                        && db.identities[db.reservations[a].identity].household == household) ::
             db.reservations[a])
  }

  predicate Available(db: Tables, address: Address, now: real) {
    !Bears(db, address, LIVE + {Disconnecting}) && Free(db, address, now)
  }

  // ---- what the statements look for, row by row ----

  // Nobody's live identity bears the address, and nothing keeps it reserved.
  ghost predicate Obtainable(db: Tables, address: Address, now: real) {
    && (forall id | id in db.identities && db.identities[id].address == Some(address) ::
          db.identities[id].status == Disconnecting || db.identities[id].status == Deleted)
    && (address in db.reservations ==>
          var r := db.reservations[address];
          r.status == Released || r.status == Expired || (r.status == Held && r.expiresAt <= now))
  }

  // An owned domain belongs to one identity until that is deleted.
  ghost predicate DomainTaken(db: Tables, domain: string) {
    exists id | id in db.identities ::
      && db.identities[id].option == OwnDomain && db.identities[id].status != Deleted
      && db.identities[id].address.Some? && db.identities[id].address.value.domain == domain
  }

  /** A household gets the mailbox it asks for exactly when all it ever had is deleted, its address can be had,
      and the domain, if it brings its own, is nobody's. */
  ghost predicate Granted(db: Tables, household: string, option: EmailOption, address: Option<Address>, now: real) {
    && (forall id | id in db.identities && db.identities[id].household == household ::
          db.identities[id].status == Deleted)
    && (address.Some? ==> Obtainable(db, address.value, now))
    && (option == OwnDomain ==> address.Some? && !DomainTaken(db, address.value.domain))
  }

  lemma LiveIffIn(status: IdentityStatus)
    ensures Live(status) <==> status in LIVE
    ensures status in LIVE <==> status != Disconnecting && status != Deleted
  {
  }

  lemma BearsIff(db: Tables, address: Address)
    ensures Bears(db, address, LIVE) <==>
            exists id | id in db.identities && db.identities[id].address == Some(address) ::
              db.identities[id].status != Disconnecting && db.identities[id].status != Deleted
    ensures Bears(db, address, LIVE + {Disconnecting}) <==>
            exists id | id in db.identities && db.identities[id].address == Some(address) ::
              db.identities[id].status != Deleted
  {
  }

  lemma HasIdentityIff(db: Tables, household: string)
    ensures HasIdentity(db, household, {Disconnecting}) || HasIdentity(db, household, LIVE) <==>
            exists id | id in db.identities && db.identities[id].household == household ::
              db.identities[id].status != Deleted
  {
    if id :| id in db.identities && db.identities[id].household == household && db.identities[id].status != Deleted {
      LiveIffIn(db.identities[id].status);
    }
  }

  lemma MayCreateIffGranted(db: Tables, household: string, option: EmailOption, address: Option<Address>, now: real)
    ensures MayCreate(db, household, option, address, now) <==> Granted(db, household, option, address, now)
  {
    HasIdentityIff(db, household);
    if address.Some? {
      BearsIff(db, address.value);
      assert DomainClaimed(db, address.value.domain) <==> DomainTaken(db, address.value.domain);
    }
  }

  lemma AvailableIff(db: Tables, address: Address, now: real)
    ensures Available(db, address, now) <==>
            && Obtainable(db, address, now)
            && forall id | id in db.identities && db.identities[id].address == Some(address) ::
                 db.identities[id].status == Deleted
  {
    BearsIff(db, address);
  }

  /** An identity is marked verified under an address exactly when it still waits for that, it has no other
      address, and no other live identity has this one. */
  ghost predicate Verifiable(db: Tables, id: nat, address: Address) {
    && id in db.identities
    && (var s := db.identities[id].status;
        s == Selected || s == Provisioning || s == WaitingUser || s == OutcomeUnknown)
    && db.identities[id].address in {None, Some(address)}
    && forall other | other in db.identities && other != id && db.identities[other].address == Some(address) ::
         db.identities[other].status == Disconnecting || db.identities[other].status == Deleted
  }

  // One identity goes from one of these statuses to another, and nothing else changes.
  ghost predicate OneMoved(db: Tables, after: Tables, id: nat, from: set<IdentityStatus>, to: IdentityStatus) {
    && after.next == db.next && after.reservations == db.reservations && after.identities.Keys == db.identities.Keys
    && forall other | other in db.identities ::
         after.identities[other]
         == if other == id && db.identities[id].status in from
            then db.identities[id].(status := to, version := db.identities[id].version + 1) else db.identities[other]
  }

  // What an identity keeps of addresses goes from one of these statuses to another, and no other reservation changes.
  ghost predicate KeptMoved(before: map<Address, Reservation>, after: map<Address, Reservation>, id: nat,
                            from: set<ReservationStatus>, to: ReservationStatus)
  {
    && after.Keys == before.Keys
    && forall a | a in before ::
         after[a] == if before[a].identity == id && before[a].status in from then before[a].(status := to)
                     else before[a]
  }

  // Who holds what: one identity of a household that is not deleted; one live identity per address; a
  // live identity's own reservation, expired or not; and nothing held for a deleted one.
  ghost predicate OnePerHousehold(db: Tables) {
    forall a, b | a in db.identities && b in db.identities && db.identities[a].household == db.identities[b].household
                  && db.identities[a].status != Deleted && db.identities[b].status != Deleted :: a == b
  }

  ghost predicate OnePerAddress(db: Tables) {
    forall a, b | a in db.identities && b in db.identities
                  && Live(db.identities[a].status) && Live(db.identities[b].status)
                  && db.identities[a].address.Some? && db.identities[a].address == db.identities[b].address :: a == b
  }

  ghost predicate OwnReservation(db: Tables) {
    forall id | id in db.identities && Live(db.identities[id].status) && db.identities[id].chosen ::
      && db.identities[id].address.Some? && db.identities[id].address.value in db.reservations
      && db.reservations[db.identities[id].address.value].identity == id
  }

  ghost predicate ReservedFor(db: Tables) {
    forall a | a in db.reservations ::
      && db.reservations[a].identity in db.identities
      && db.identities[db.reservations[a].identity].address == Some(a)
      && db.identities[db.reservations[a].identity].household == db.reservations[a].household
      && (db.reservations[a].status in {Held, Consumed} ==>
            db.identities[db.reservations[a].identity].status != Deleted)
      && (db.reservations[a].status == Released ==> db.identities[db.reservations[a].identity].status == Deleted)
  }

  ghost predicate Consistent(db: Tables) {
    && (forall id | id in db.identities :: id < db.next)
    && OnePerHousehold(db) && OnePerAddress(db) && OwnReservation(db) && ReservedFor(db)
  }

  // Every statement as an event, and what it makes of the tables.
  datatype Event =
    | CreateSelected(household: string, option: EmailOption, address: Option<Address>, at: real)
    | MarkProvisioning(id: nat)
    | RetryProvisioning(id: nat)
    | MarkProblem(id: nat, status: IdentityStatus)
    | MarkVerified(id: nat, verifiedAs: Address)
    | BeginActivation(id: nat)
    | RecordReceipt(id: nat, status: IdentityStatus)
    | BeginDisconnect(household: string)
    | FinishDisconnect(id: nat, unsettled: bool)
    | ExpireReservations(at: real)
    | HealthObserved(id: nat, status: IdentityStatus)
    | HouseholdErased(household: string)

  function Apply(db: Tables, e: Event): (r: Tables) {
    match e
    case CreateSelected(household, option, address, at) =>
      if MayCreate(db, household, option, address, at) then Created(db, household, option, address, at) else db
    case MarkProvisioning(id) => Moved(db, id, {Selected}, Provisioning)
    case RetryProvisioning(id) => Moved(db, id, RETRYABLE, Provisioning)
    case MarkProblem(id, status) =>
      if status in {WaitingUser, NeedsAttention, OutcomeUnknown} then Moved(db, id, LIVE, status) else db
    case MarkVerified(id, address) => if MayVerify(db, id, address) then MarkedVerified(db, id, address) else db
    case BeginActivation(id) => Moved(db, id, {Verified}, Activating)
    case RecordReceipt(id, status) =>
      if status in {NeedsAttention, Active, Activating}
      then Moved(db, id, {Verified, Activating, Active, NeedsAttention}, status) else db
    case BeginDisconnect(household) => DisconnectBegun(db, household)
    case FinishDisconnect(id, unsettled) =>
      if id in db.identities && db.identities[id].status == Disconnecting && !unsettled then DisconnectFinished(db, id)
      else db
    case ExpireReservations(at) => db.(reservations := ExpiredAt(db.reservations, at))
    case HealthObserved(id, status) =>
      if status in {NeedsAttention, Active} then Moved(db, id, {Active, NeedsAttention}, status) else db
    case HouseholdErased(household) => Erased(db, household)
  }

  class EmailIdentityRepository {
    var db: Tables

    constructor ()
      ensures db == Tables(map[], 0, map[]) && Consistent(db)
    {
      db := Tables(map[], 0, map[]);
    }

    /** `create_selected`: the identity row, then the reservation; refused, neither is there. */
    method CreateSelected(household: string, option: EmailOption, address: Option<Address>, now: real)
      returns (id: Option<nat>)
      modifies this
      ensures id.Some? <==> MayCreate(old(db), household, option, address, now)
      ensures id.Some? <==> Granted(old(db), household, option, address, now)
      ensures id.None? ==> db == old(db)
      ensures id.Some? ==> id.value == old(db).next && db == Created(old(db), household, option, address, now)
      ensures db == Apply(old(db), Event.CreateSelected(household, option, address, now))
    {
      MayCreateIffGranted(db, household, option, address, now);
      if option == OwnDomain && address.None? {
        return None;
      }
      if HasIdentity(db, household, {Disconnecting}) {
        return None;
      }
      if option == OwnDomain && DomainClaimed(db, address.value.domain) {
        return None;
      }
      // The two unique indexes of the identity table.
      if HasIdentity(db, household, LIVE) || (address.Some? && Bears(db, address.value, LIVE)) {
        return None;
      }
      var saved, created := db, db.next;
      var identity := Identity(household, option, Selected, address, address.Some?, 1);
      db := db.(identities := db.identities[created := identity], next := created + 1);
      if address.Some? {
        if !Free(db, address.value, now) {
          db := saved;
          return None;
        }
        db := db.(reservations := db.reservations[address.value :=
                    Reservation(household, created, Held, now + RESERVATION_TTL_SECONDS)]);
      }
      id := Some(created);
    }

    /** `current_for_household`: the live identity, of which the index allows one. */
    method CurrentForHousehold(household: string) returns (id: Option<nat>)
      ensures id.Some? <==> HasIdentity(db, household, LIVE)
      ensures id.Some? ==> IsCurrent(db, household, id.value)
      ensures id.None? ==>
                forall i | i in db.identities && db.identities[i].household == household ::
                  db.identities[i].status == Disconnecting || db.identities[i].status == Deleted
      ensures id.Some? ==>
                && id.value in db.identities && db.identities[id.value].household == household
                && db.identities[id.value].status != Disconnecting && db.identities[id.value].status != Deleted
    {
      if !HasIdentity(db, household, LIVE) {
        return None;
      }
      var current :| current in db.identities && db.identities[current].household == household
                     && db.identities[current].status in LIVE;
      return Some(current);
    }

    /** `mark_provisioning`. */
    method MarkProvisioning(id: nat)
      modifies this
      ensures db == Moved(old(db), id, {Selected}, Provisioning)
      ensures OneMoved(old(db), db, id, {Selected}, Provisioning)
      ensures db == Apply(old(db), Event.MarkProvisioning(id))
    {
      db := Moved(db, id, {Selected}, Provisioning);
    }

    /** `retry_provisioning`: refused unless the update finds its row. */
    method RetryProvisioning(id: nat) returns (ok: bool)
      modifies this
      ensures ok <==> id in old(db).identities && old(db).identities[id].status in RETRYABLE
      ensures db == Moved(old(db), id, RETRYABLE, Provisioning)
      ensures OneMoved(old(db), db, id, {Provisioning, WaitingUser, NeedsAttention, OutcomeUnknown}, Provisioning)
      ensures db == Apply(old(db), Event.RetryProvisioning(id))
    {
      ok := id in db.identities && db.identities[id].status in RETRYABLE;
      db := Moved(db, id, RETRYABLE, Provisioning);
    }

    /** `address_available`. */
    method AddressAvailable(address: Address, now: real) returns (available: bool)
      ensures available <==> Available(db, address, now)
      ensures available <==>
              && Obtainable(db, address, now)
              && forall id | id in db.identities && db.identities[id].address == Some(address) ::
                   db.identities[id].status == Deleted
    {
      AvailableIff(db, address, now);
      if Bears(db, address, LIVE + {Disconnecting}) {
        return false;
      }
      if address !in db.reservations {
        return true;
      }
      var row := db.reservations[address];
      return row.status == Released || row.status == Expired || (row.status == Held && row.expiresAt <= now);
    }

    /** `mark_verified`: its own reservation is consumed, if it still holds it. */
    method MarkVerified(id: nat, address: Address) returns (ok: bool)
      modifies this
      ensures ok <==> MayVerify(old(db), id, address)
      ensures db == if ok then MarkedVerified(old(db), id, address) else old(db)
      ensures ok <==> Verifiable(old(db), id, address)
      ensures ok ==> KeptMoved(old(db).reservations, db.reservations, id, {Held}, Consumed)
      ensures db == Apply(old(db), Event.MarkVerified(id, address))
    {
      if id !in db.identities {
        return false;
      }
      var i := db.identities[id];
      if i.address.Some? && i.address.value != address {
        return false;
      }
      if i.status !in UNVERIFIED {
        return false;
      }
      if exists other | other in db.identities ::
           other != id && Live(db.identities[other].status) && db.identities[other].address == Some(address) {
        return false;
      }
      var verified := i.(status := Verified, address := Some(address), version := i.version + 1);
      db := db.(identities := db.identities[id := verified]);
      db := db.(reservations := WithStatus(db.reservations, id, {Held}, Consumed));
      ok := true;
    }

    /** `begin_disconnect`: every live identity of the household. */
    method BeginDisconnect(household: string)
      modifies this
      ensures db == DisconnectBegun(old(db), household)
      ensures db.next == old(db).next && db.reservations == old(db).reservations
      ensures db.identities.Keys == old(db).identities.Keys
      ensures forall id | id in db.identities ::
                var i := old(db).identities[id];
                db.identities[id]
                == if i.household == household && i.status != Disconnecting && i.status != Deleted
                   then i.(status := Disconnecting, version := i.version + 1) else i
      ensures db == Apply(old(db), Event.BeginDisconnect(household))
    {
      db := DisconnectBegun(db, household);
    }

    /** `finish_disconnect`: only once nothing of the household's is unsettled at a provider. */
    method FinishDisconnect(id: nat, unsettled: bool) returns (finished: bool)
      modifies this
      ensures finished <==> id in old(db).identities && old(db).identities[id].status == Disconnecting && !unsettled
      ensures db == if finished then DisconnectFinished(old(db), id) else old(db)
      ensures finished ==> KeptMoved(old(db).reservations, db.reservations, id, {Held, Consumed}, Released)
      ensures db == Apply(old(db), Event.FinishDisconnect(id, unsettled))
    {
      if id !in db.identities || db.identities[id].status != Disconnecting {
        return false;
      }
      if unsettled {
        return false;
      }
      var i := db.identities[id];
      db := db.(identities := db.identities[id := i.(status := Deleted, version := i.version + 1)]);
      db := db.(reservations := WithStatus(db.reservations, id, {Held, Consumed}, Released));
      finished := true;
    }

    /** `expire_reservations`: the holds that have run out, and they were free to be taken already - the
        sweep changes what is said of an address, never who may have it, now or later. */
    method ExpireReservations(now: real) returns (count: nat)
      modifies this
      ensures db == old(db).(reservations := ExpiredAt(old(db).reservations, now))
      ensures count == |set a | a in old(db).reservations && db.reservations[a] != old(db).reservations[a]|
      ensures forall a, t | t >= now :: Free(db, a, t) <==> Free(old(db), a, t)
      ensures forall a | a in db.reservations ::
                && a in old(db).reservations
                && var (r, r') := (old(db).reservations[a], db.reservations[a]);
                   r' == if r.status == Held && r.expiresAt <= now then r.(status := Expired) else r
      ensures db.reservations.Keys == old(db).reservations.Keys
      ensures db == Apply(old(db), Event.ExpireReservations(now))
    {
      var lapsed := set a | a in db.reservations
                            && db.reservations[a].status == Held && db.reservations[a].expiresAt <= now;
      count := |lapsed|;
      db := db.(reservations := ExpiredAt(db.reservations, now));
      assert lapsed == set a | a in old(db).reservations && db.reservations[a] != old(db).reservations[a];
    }
  }

  // ---- availability ----

  /** An address said to be available can be had: at the same instant a managed identity is created for
      any household that has none, or only deleted ones - and for no other. */
  lemma AvailableMeansCreatable(db: Tables, household: string, address: Address, now: real)
    requires Available(db, address, now)
    ensures MayCreate(db, household, ManagedAbrolia, Some(address), now)
            <==> forall id | id in db.identities && db.identities[id].household == household ::
                   db.identities[id].status == Deleted
  {
  }

  /** The converse fails in exactly one case: an address that could be had is said to be taken if and
      only if an identity that is still disconnecting bears it. */
  lemma CreatableButNotAvailable(db: Tables, household: string, address: Address, now: real)
    requires MayCreate(db, household, ManagedAbrolia, Some(address), now)
    ensures !Available(db, address, now) <==> Bears(db, address, {Disconnecting})
  {
  }

  // ---- runs ----

  /** What the worker and the health monitor record of an identity: a problem, of any live one; that its activation
      begins, of a verified one; what a receipt says, from then on; and what is observed, once it is active. */
  lemma RecordedMoves(db: Tables, e: Event)
    ensures e.MarkProblem? && (e.status == WaitingUser || e.status == NeedsAttention || e.status == OutcomeUnknown) ==>
              OneMoved(db, Apply(db, e), e.id,
                       {Selected, Provisioning, WaitingUser, Verified, Activating, Active, NeedsAttention,
                        OutcomeUnknown}, e.status)
    ensures e.BeginActivation? ==> OneMoved(db, Apply(db, e), e.id, {Verified}, Activating)
    ensures e.RecordReceipt? && (e.status == NeedsAttention || e.status == Active || e.status == Activating) ==>
              OneMoved(db, Apply(db, e), e.id, {Verified, Activating, Active, NeedsAttention}, e.status)
    ensures e.HealthObserved? && (e.status == NeedsAttention || e.status == Active) ==>
              OneMoved(db, Apply(db, e), e.id, {Active, NeedsAttention}, e.status)
    ensures e.HouseholdErased? ==>
              forall id :: id in Apply(db, e).identities <==>
                id in db.identities && db.identities[id].household != e.household
  {
  }

  function Run(db: Tables, events: seq<Event>): (r: Tables)
    decreases |events|
  {
    if events == [] then db else Run(Apply(db, events[0]), events[1..])
  }

  // What the guard of a creation says of every identity there is.
  lemma GuardedCreate(db: Tables, household: string, option: EmailOption, address: Option<Address>, at: real, id: nat)
    requires MayCreate(db, household, option, address, at) && id in db.identities
    ensures db.identities[id].household == household ==> db.identities[id].status == Deleted
    ensures address.Some? && db.identities[id].address == address ==> !Live(db.identities[id].status)
  {
  }

  lemma CreatedOnePerAddress(db: Tables, after: Tables, household: string, option: EmailOption,
                             address: Option<Address>, at: real)
    requires OnePerAddress(db) && after == Created(db, household, option, address, at) && db.next !in db.identities
    requires forall id | id in db.identities ::
               address.Some? && db.identities[id].address == address ==> !Live(db.identities[id].status)
    ensures OnePerAddress(after)
  {
  }

  lemma CreatedReservations(db: Tables, after: Tables, household: string, option: EmailOption, address: Option<Address>,
                            at: real)
    requires OwnReservation(db) && ReservedFor(db) && after == Created(db, household, option, address, at)
    requires db.next !in db.identities
    requires forall id | id in db.identities ::
               address.Some? && db.identities[id].address == address ==> !Live(db.identities[id].status)
    ensures OwnReservation(after) && ReservedFor(after)
  {
  }

  lemma CreateKeeps(db: Tables, household: string, option: EmailOption, address: Option<Address>, at: real)
    requires Consistent(db) && MayCreate(db, household, option, address, at)
    ensures Consistent(Created(db, household, option, address, at))
  {
    var after := Created(db, household, option, address, at);
    forall id | id in db.identities
      ensures db.identities[id].household == household ==> db.identities[id].status == Deleted
      ensures address.Some? && db.identities[id].address == address ==> !Live(db.identities[id].status)
    {
      GuardedCreate(db, household, option, address, at, id);
    }
    assert OnePerHousehold(after);
    CreatedOnePerAddress(db, after, household, option, address, at);
    CreatedReservations(db, after, household, option, address, at);
  }

  lemma MoveKeeps(db: Tables, id: nat, from: set<IdentityStatus>, to: IdentityStatus)
    requires Consistent(db) && from <= LIVE && Live(to)
    ensures Consistent(Moved(db, id, from, to))
  {
    if id in db.identities {
      LiveIffIn(db.identities[id].status);
    }
  }

  lemma VerifiedReservations(db: Tables, id: nat, address: Address)
    requires OwnReservation(db) && ReservedFor(db) && MayVerify(db, id, address) && Live(db.identities[id].status)
    ensures OwnReservation(MarkedVerified(db, id, address)) && ReservedFor(MarkedVerified(db, id, address))
  {
  }

  lemma VerifyKeeps(db: Tables, id: nat, address: Address)
    requires Consistent(db) && MayVerify(db, id, address)
    ensures Consistent(MarkedVerified(db, id, address))
  {
    assert Live(db.identities[id].status);
    var after := MarkedVerified(db, id, address);
    assert OnePerHousehold(after);
    assert OnePerAddress(after);
    VerifiedReservations(db, id, address);
  }

  lemma DisconnectKeeps(db: Tables, household: string)
    requires Consistent(db)
    ensures Consistent(DisconnectBegun(db, household))
  {
  }

  lemma FinishKeeps(db: Tables, id: nat)
    requires Consistent(db) && id in db.identities && db.identities[id].status == Disconnecting
    ensures Consistent(DisconnectFinished(db, id))
  {
    var after := DisconnectFinished(db, id);
    assert OwnReservation(after);
    assert ReservedFor(after);
  }

  lemma ErasedReservations(db: Tables, household: string)
    requires Consistent(db)
    ensures OwnReservation(Erased(db, household)) && ReservedFor(Erased(db, household))
  {
  }

  lemma ErasureKeeps(db: Tables, household: string)
    requires Consistent(db)
    ensures Consistent(Erased(db, household))
  {
    var after := Erased(db, household);
    assert OnePerHousehold(after) && OnePerAddress(after);
    ErasedReservations(db, household);
  }

  // The events that move an identity from one live status to another.
  lemma MovingKeeps(db: Tables, e: Event)
    requires Consistent(db)
    requires e.MarkProvisioning? || e.RetryProvisioning? || e.MarkProblem? || e.BeginActivation? || e.RecordReceipt?
             || e.HealthObserved?
    ensures Consistent(Apply(db, e))
  {
    match e
    case MarkProvisioning(id) => MoveKeeps(db, id, {Selected}, Provisioning);
    case RetryProvisioning(id) => MoveKeeps(db, id, RETRYABLE, Provisioning);
    case MarkProblem(id, status) =>
      if status in {WaitingUser, NeedsAttention, OutcomeUnknown} { MoveKeeps(db, id, LIVE, status); }
    case BeginActivation(id) => MoveKeeps(db, id, {Verified}, Activating);
    case RecordReceipt(id, status) =>
      if status in {NeedsAttention, Active, Activating} {
        MoveKeeps(db, id, {Verified, Activating, Active, NeedsAttention}, status);
      }
    case HealthObserved(id, status) =>
      if status in {NeedsAttention, Active} { MoveKeeps(db, id, {Active, NeedsAttention}, status); }
  }

  lemma ExpiryKeeps(db: Tables, at: real)
    requires Consistent(db)
    ensures Consistent(db.(reservations := ExpiredAt(db.reservations, at)))
  {
  }

  lemma StepKeeps(db: Tables, e: Event)
    requires Consistent(db)
    ensures Consistent(Apply(db, e))
  {
    match e
    case CreateSelected(household, option, address, at) =>
      if MayCreate(db, household, option, address, at) { CreateKeeps(db, household, option, address, at); }
    case MarkVerified(id, address) => if MayVerify(db, id, address) { VerifyKeeps(db, id, address); }
    case BeginDisconnect(household) => DisconnectKeeps(db, household);
    case FinishDisconnect(id, unsettled) =>
      if id in db.identities && db.identities[id].status == Disconnecting && !unsettled { FinishKeeps(db, id); }
    case ExpireReservations(at) => ExpiryKeeps(db, at);
    case HouseholdErased(household) => ErasureKeeps(db, household);
    case _ => MovingKeeps(db, e);
  }

  /** In every run: one identity a household, one live identity an address, and a live identity whose
      address was chosen still owns that address's reservation, expired or not. */
  lemma {:induction false} RunKeeps(db: Tables, events: seq<Event>)
    requires Consistent(db)
    ensures Consistent(Run(db, events))
    decreases |events|
  {
    if events != [] {
      StepKeeps(db, events[0]);
      RunKeeps(Apply(db, events[0]), events[1..]);
    }
  }

  // An identity that is deleted, or whose household is.
  predicate Gone(db: Tables, id: nat) {
    id !in db.identities || db.identities[id].status == Deleted
  }

  // Identifiers are handed out once.
  ghost predicate Numbered(db: Tables) {
    forall id | id in db.identities :: id < db.next
  }

  lemma OneWayStep(db: Tables, e: Event, id: nat)
    requires Numbered(db) && id < db.next
    ensures var after := Apply(db, e);
            && Numbered(after) && id < after.next
            && (id !in db.identities ==> id !in after.identities)
            && (id in db.identities && id in after.identities ==>
                  && (db.identities[id].status == Disconnecting ==>
                        after.identities[id].status in {Disconnecting, Deleted})
                  && (db.identities[id].status == Deleted ==> after.identities[id] == db.identities[id]))
  {
  }

  /** Disconnecting is left only to deleted, and what is deleted never changes again; what went with its
      household never comes back. */
  lemma {:induction false} DisconnectingIsOneWay(db: Tables, events: seq<Event>, id: nat)
    requires Numbered(db) && id < db.next
    ensures var after := Run(db, events);
            && (id !in db.identities ==> id !in after.identities)
            && (id in db.identities && id in after.identities ==>
                  && (db.identities[id].status == Disconnecting ==>
                        after.identities[id].status in {Disconnecting, Deleted})
                  && (db.identities[id].status == Deleted ==> after.identities[id] == db.identities[id]))
    decreases |events|
  {
    if events != [] {
      OneWayStep(db, events[0], id);
      DisconnectingIsOneWay(Apply(db, events[0]), events[1..], id);
    }
  }

  /** Such a state is reached: a household chooses an address and gives it up unverified, its hold runs out
      while it is still disconnecting, and another could have the address that is said to be taken. */
  lemma CreatableThoughTaken() returns (events: seq<Event>)
    ensures var (db, a) := (Run(Tables(map[], 0, map[]), events), Address("d", "l"));
            && MayCreate(db, "other", ManagedAbrolia, Some(a), 900.0)
            && !Available(db, a, 900.0) && Bears(db, a, {Disconnecting})
  {
    var a, empty := Address("d", "l"), Tables(map[], 0, map[]);
    var e0, e1 := CreateSelected("h", ManagedAbrolia, Some(a), 0.0), BeginDisconnect("h");
    events := [e0, e1];
    var d0 := Apply(empty, e0);
    assert d0 == Tables(map[0 := Identity("h", ManagedAbrolia, Selected, Some(a), true, 1)], 1,
                        map[a := Reservation("h", 0, Held, 900.0)]);
    var d1 := Apply(d0, e1);
    assert d1.identities == map[0 := Identity("h", ManagedAbrolia, Disconnecting, Some(a), true, 2)];
    assert events[1..] == [e1] && [e1][1..] == [];
    assert Run(d0, [e1]) == Run(d1, []) == d1;
    assert Run(empty, events) == d1;
    assert d1.identities[0].status in {Disconnecting};
    CreatableButNotAvailable(d1, "other", a, 900.0);
  }

  // ---- reservations ----

  // When an event reads the clock.
  predicate ClockBelow(e: Event, limit: real) {
    e.CreateSelected? || e.ExpireReservations? ==> e.at < limit
  }

  /** A reservation passes to another identity only from one that is deleted, or from one that is
      disconnecting and whose hold ran out unconsumed - never from a live one - and it disappears only with
      its household. What an event says of one identity never touches a reservation that belongs to another. */
  lemma PassesOnlyFromTheGone(db: Tables, e: Event, a: Address)
    requires Consistent(db) && a in db.reservations
    ensures a in Apply(db, e).reservations <==> e != HouseholdErased(db.reservations[a].household)
    ensures a in Apply(db, e).reservations ==>
              var (r, r') := (db.reservations[a], Apply(db, e).reservations[a]);
              && (r'.identity != r.identity ==>
                    && r.identity in db.identities
                    && r' == Reservation(e.household, db.next, Held, e.at + RESERVATION_TTL_SECONDS)
                    && (|| db.identities[r.identity].status == Deleted
                        || (&& db.identities[r.identity].status == Disconnecting
                            && (r.status == Expired || (r.status == Held && r.expiresAt <= e.at)))))
              && ((e.MarkVerified? || e.FinishDisconnect?) && e.id != r.identity ==> r' == r)
  {
    var r := db.reservations[a];
    assert r.identity in db.identities;
    if a in Apply(db, e).reservations && Apply(db, e).reservations[a].identity != r.identity {
      assert e.CreateSelected? && e.address == Some(a);
      LiveIffIn(db.identities[r.identity].status);
      assert !Bears(db, a, LIVE);
    }
  }

  lemma KeptOneStep(db: Tables, e: Event, a: Address)
    requires Consistent(db) && a in db.reservations && db.reservations[a].status in {Held, Consumed}
    requires db.reservations[a].status == Held ==> ClockBelow(e, db.reservations[a].expiresAt)
    ensures var (r, next) := (db.reservations[a], Apply(db, e));
            || Gone(next, r.identity)
            || (a in next.reservations && next.reservations[a] in {r, r.(status := Consumed)})
  {
    PassesOnlyFromTheGone(db, e, a);
    assert db.reservations[a].identity in db.identities;
  }

  /** A consumed reservation stays with its identity, and an unexpired hold as long as no clock reaches its
      end, until that identity has finished disconnecting or its household is erased. */
  lemma {:induction false} ReservationIsKept(db: Tables, events: seq<Event>, a: Address)
    requires Consistent(db) && a in db.reservations && db.reservations[a].status in {Held, Consumed}
    requires db.reservations[a].status == Held ==> forall e | e in events :: ClockBelow(e, db.reservations[a].expiresAt)
    ensures var (r, after) := (db.reservations[a], Run(db, events));
            || Gone(after, r.identity)
            || (a in after.reservations && after.reservations[a] in {r, r.(status := Consumed)})
    decreases |events|
  {
    if events != [] {
      var e, next, r := events[0], Apply(db, events[0]), db.reservations[a];
      assert e in events;
      assert r.identity in db.identities;
      StepKeeps(db, e);
      KeptOneStep(db, e, a);
      if Gone(next, r.identity) {
        OneWayStep(db, e, r.identity);
        DisconnectingIsOneWay(next, events[1..], r.identity);
      } else {
        assert forall f | f in events[1..] :: f in events;
        ReservationIsKept(next, events[1..], a);
      }
    }
  }

  /** Verified does not imply consumed. It is consumed exactly if it was still held: the sweep may have
      come first. */
  lemma ConsumedIffStillHeld(db: Tables, id: nat, a: Address)
    requires Consistent(db) && MayVerify(db, id, a) && db.identities[id].chosen
    ensures var after := MarkedVerified(db, id, a);
            && a in db.reservations && a in after.reservations && after.reservations[a].identity == id
            && (after.reservations[a].status == Consumed <==> db.reservations[a].status in {Held, Consumed})
            && (after.reservations[a].status != Consumed <==> after.reservations[a].status == Expired)
  {
  }

  lemma VerifiedButExpired() returns (events: seq<Event>)
    ensures var after := Run(Tables(map[], 0, map[]), events);
            && 0 in after.identities && after.identities[0].status == Verified
            && Address("d", "l") in after.reservations && after.reservations[Address("d", "l")].status == Expired
  {
    var a, empty := Address("d", "l"), Tables(map[], 0, map[]);
    var e0, e1, e2 := CreateSelected("h", ManagedAbrolia, Some(a), 0.0), ExpireReservations(900.0), MarkVerified(0, a);
    events := [e0, e1, e2];
    var d0 := Apply(empty, e0);
    assert d0 == Tables(map[0 := Identity("h", ManagedAbrolia, Selected, Some(a), true, 1)], 1,
                        map[a := Reservation("h", 0, Held, 900.0)]);
    var d1 := Apply(d0, e1);
    assert d1.identities == d0.identities && d1.reservations[a].status == Expired;
    var d2 := Apply(d1, e2);
    assert MayVerify(d1, 0, a);
    assert events[1..] == [e1, e2] && [e1, e2][1..] == [e2] && [e2][1..] == [];
    assert Run(d1, [e2]) == Run(d2, []) == d2;
    assert Run(d0, [e1, e2]) == d2;
    assert Run(empty, events) == d2;
  }
}
