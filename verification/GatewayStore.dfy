/** `GatewayStore` of gateway/whatsapp_router.py: the table of accepted messages that are not delivered
    yet, and the statements on it. */
module GatewayStore {
  import opened Basics
  import opened RelayTrust

  datatype Origin = Origin(
    payload: Bytes, sender: string, receivedAt: real, channel: Option<string>, household: Option<string>,
    originTimestamp: Option<string>, originSignature: Option<string>)

  datatype Row = Row(
    payload: Bytes, sender: string, receivedAt: real, attempts: nat, nextAttemptAt: real,
    lastError: Option<string>, channel: Option<string>, household: Option<string>,
    originTimestamp: Option<string>, originSignature: Option<string>)
  {
    // What the row was accepted as, which nothing may change afterwards.
    function AcceptedAs(): (o: Origin) {
      Origin(payload, sender, receivedAt, channel, household, originTimestamp, originSignature)
    }
  }

  // The table, with the identifiers handed out so far; `uuid4` never repeats one.
  datatype Ingress = Ingress(rows: map<nat, Row>, nextId: nat) {
    predicate Valid() {
      forall id | id in rows :: id < nextId
    }
  }

  // ---- the statements ----

  function Inserted(s: Ingress, o: Origin): (t: Ingress) {
    Ingress(s.rows[s.nextId := Row(o.payload, o.sender, o.receivedAt, 0, o.receivedAt, None, o.channel,
                                   o.household, o.originTimestamp, o.originSignature)],
            s.nextId + 1)
  }

  function Deleted(s: Ingress, id: nat): (t: Ingress) {
    s.(rows := s.rows - {id})
  }

  function Deferred(s: Ingress, id: nat, error: string, notBefore: real, spend: bool): (t: Ingress) {
    if id !in s.rows then s
    else
      var r := s.rows[id];
      s.(rows := s.rows[id := r.(attempts := r.attempts + (if spend then 1 else 0),
                                 nextAttemptAt := notBefore, lastError := Some(error))])
  }

  // A row as `due` hands it out: a copy, which may be stale by the time it is used.
  datatype Selected = Selected(id: nat, row: Row)

  function Ids(batch: seq<Selected>): (ids: set<nat>) {
    set i | 0 <= i < |batch| :: batch[i].id
  }

  /** What a selection of due rows is: due rows of the table, each once, the oldest first, and as many
      of them as the limit allows; a due row left out is no older than any taken. */
  predicate IsDueBatch(s: Ingress, now: real, limit: nat, batch: seq<Selected>) {
    && (forall i | 0 <= i < |batch| :: batch[i].id in s.rows && batch[i].row == s.rows[batch[i].id]
                                      && batch[i].row.nextAttemptAt <= now)
    && (forall i, j | 0 <= i < j < |batch| :: batch[i].id != batch[j].id
                                             && batch[i].row.receivedAt <= batch[j].row.receivedAt)
    && |batch| <= limit
    && (forall id | id in s.rows && s.rows[id].nextAttemptAt <= now && id !in Ids(batch) ::
          |batch| == limit && forall i | 0 <= i < |batch| :: batch[i].row.receivedAt <= s.rows[id].receivedAt)
  }

  lemma IdsSnoc(batch: seq<Selected>, last: Selected)
    ensures Ids(batch + [last]) == Ids(batch) + {last.id}
  {
    var longer := batch + [last];
    forall id | id in Ids(longer)
      ensures id in Ids(batch) + {last.id}
    {
      var i :| 0 <= i < |longer| && longer[i].id == id;
      assert i < |batch| ==> batch[i].id == id;
    }
    forall id | id in Ids(batch)
      ensures id in Ids(longer)
    {
      var i :| 0 <= i < |batch| && batch[i].id == id;
      assert longer[i].id == id;
    }
    assert longer[|batch|].id == last.id;
  }

  class Store {
    var table: Ingress

    constructor ()
      ensures table == Ingress(map[], 0)
    {
      table := Ingress(map[], 0);
    }

    method PersistBeforeAck(o: Origin) returns (id: nat)
      requires table.Valid()
      modifies this
      ensures id == old(table).nextId && id !in old(table).rows
      ensures table == Inserted(old(table), o) && table.Valid()
      ensures table.rows.Keys == old(table).rows.Keys + {id}
      ensures forall k | k in old(table).rows :: table.rows[k] == old(table).rows[k]
      ensures var r := table.rows[id];
              && r.payload == o.payload && r.sender == o.sender && r.channel == o.channel && r.household == o.household
              && r.originTimestamp == o.originTimestamp && r.originSignature == o.originSignature
              && r.receivedAt == r.nextAttemptAt == o.receivedAt && r.attempts == 0
    {
      id := table.nextId;
      table := Inserted(table, o);
    }

    method MarkDelivered(id: nat)
      modifies this
      ensures table == Deleted(old(table), id)
      ensures table.rows.Keys == old(table).rows.Keys - {id}
      ensures forall k | k in table.rows :: table.rows[k] == old(table).rows[k]
    {
      table := Deleted(table, id);
    }

    /** `UPDATE .. WHERE id = ?`: one row waits longer, an attempt older exactly when one is spent, and is
        otherwise what it was accepted as. Of a row that is gone nothing comes back. */
    method Defer(id: nat, error: string, notBefore: real, spend: bool)
      modifies this
      ensures table == Deferred(old(table), id, error, notBefore, spend)
      ensures table.rows.Keys == old(table).rows.Keys && table.nextId == old(table).nextId
      ensures id !in old(table).rows ==> table == old(table)
      ensures forall k | k in table.rows && k != id :: table.rows[k] == old(table).rows[k]
      ensures id in table.rows ==>
                && table.rows[id].AcceptedAs() == old(table).rows[id].AcceptedAs()
                && table.rows[id].attempts == old(table).rows[id].attempts + (if spend then 1 else 0)
                && table.rows[id].nextAttemptAt == notBefore && table.rows[id].lastError == Some(error)
    {
      table := Deferred(table, id, error, notBefore, spend);
    }

    method Oldest(ids: set<nat>) returns (id: nat)
      requires ids != {} && ids <= table.rows.Keys
      ensures id in ids && forall other | other in ids :: table.rows[id].receivedAt <= table.rows[other].receivedAt
    {
      id :| id in ids;
      var left := ids - {id};
      while left != {}
        invariant id in ids && left <= ids
        invariant forall other | other in ids - left :: table.rows[id].receivedAt <= table.rows[other].receivedAt
        decreases left
      {
        var next :| next in left;
        if table.rows[next].receivedAt < table.rows[id].receivedAt {
          id := next;
        }
        left := left - {next};
      }
    }

    /** `SELECT .. WHERE next_attempt_at <= ? ORDER BY received_at LIMIT ?`. */
    method Due(now: real, limit: nat) returns (batch: seq<Selected>)
      ensures IsDueBatch(table, now, limit, batch)
    {
      batch := [];
      var left := set id | id in table.rows && table.rows[id].nextAttemptAt <= now;
      ghost var all := left;
      while |batch| < limit && left != {}
        invariant left <= all <= table.rows.Keys
        invariant forall i | 0 <= i < |batch| :: batch[i].id in all - left && batch[i].row == table.rows[batch[i].id]
        invariant Ids(batch) == all - left
        invariant forall i, j | 0 <= i < j < |batch| :: batch[i].id != batch[j].id
                                                       && batch[i].row.receivedAt <= batch[j].row.receivedAt
        invariant forall i, id | 0 <= i < |batch| && id in left :: batch[i].row.receivedAt <= table.rows[id].receivedAt
        invariant |batch| <= limit
        decreases left
      {
        var id := Oldest(left);
        IdsSnoc(batch, Selected(id, table.rows[id]));
        batch := batch + [Selected(id, table.rows[id])];
        left := left - {id};
      }
    }
  }

  // The rows of the table received before a cutoff.
  function OlderThan(s: Ingress, cutoff: real): (ids: set<nat>) {
    set id | id in s.rows && s.rows[id].receivedAt < cutoff
  }

  lemma {:induction false} IdsCount(batch: seq<Selected>)
    requires forall i, j | 0 <= i < j < |batch| :: batch[i].id != batch[j].id
    ensures |Ids(batch)| == |batch|
  {
    if batch != [] {
      var front, last := batch[..|batch| - 1], batch[|batch| - 1];
      IdsCount(front);
      assert batch == front + [last];
      IdsSnoc(front, last);
    }
  }

  /** Whatever is older than a cutoff and due goes first: of k such rows, a batch of at most L rows
      takes min(L, k). */
  lemma OldestFirst(s: Ingress, now: real, limit: nat, batch: seq<Selected>, cutoff: real)
    requires IsDueBatch(s, now, limit, batch)
    requires forall id | id in OlderThan(s, cutoff) :: s.rows[id].nextAttemptAt <= now
    ensures |OlderThan(s, cutoff) * Ids(batch)|
            == if |OlderThan(s, cutoff)| <= limit then |OlderThan(s, cutoff)| else limit
  {
    var aged, taken := OlderThan(s, cutoff), Ids(batch);
    IdsCount(batch);
    if aged <= taken {
      assert aged * taken == aged;
      SubsetCount(aged, taken);
    } else {
      var id :| id in aged && id !in taken;
      assert forall i | 0 <= i < |batch| :: batch[i].id in taken;
      assert taken <= aged by {
        forall t | t in taken
          ensures t in aged
        {
          var i :| 0 <= i < |batch| && batch[i].id == t;
          assert batch[i].row.receivedAt <= s.rows[id].receivedAt;
        }
      }
      assert aged * taken == taken;
      SubsetCount(taken + {id}, aged);
    }
  }
}
