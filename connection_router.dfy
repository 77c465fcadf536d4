/** The connection router: one equality query and a mutation that inserts a mirrored pair of rows. */
module ConnectionRouter {
  import opened Entities
  import Seqs

  /** The test "this row starts at user `id`". */
  function FromUser(id: string): Connection -> bool
  {
    (c: Connection) => c.fromUserId == id
  }

  /** getConnectionsByUserId: the rows whose `fromUserId` is `id`. */
  function GetConnectionsByUserId(rows: seq<Connection>, id: string): (r: seq<Connection>)
    ensures forall c :: c in r <==> c in rows && c.fromUserId == id
  {
    Seqs.Filter(rows, FromUser(id))
  }

  /** The connection table. Identifiers come from a counter, so they are distinct database ids. */
  class ConnectionTable {
    var rows: seq<Connection>
    var nextId: nat

    ghost predicate Valid()
      reads this
    {
      && (forall i :: 0 <= i < |rows| ==> rows[i].id.Db? && rows[i].id.n < nextId)
      && (forall i, j :: 0 <= i < j < |rows| ==> rows[i].id != rows[j].id)
    }

    constructor ()
      ensures Valid() && rows == []
    {
      rows, nextId := [], 0;
    }

    /** createConnection: two inserts, first (from, to) and then (to, from), returned in that order.
        Nothing checks for an existing connection between the two users. The chat id of each row is
        the database's default for that column (`chatIdTo`, `chatIdFrom`); `now` is the creation time. */
    method CreateConnection(input: CreateConnectionInput, chatIdTo: string, chatIdFrom: string, now: int)
      returns (created: seq<Connection>)
      requires Valid()
      modifies this
      ensures Valid()
      ensures |created| == 2
      ensures created[0].fromUserId == input.fromUserId && created[0].toUserId == input.toUserId
      ensures created[1].fromUserId == input.toUserId && created[1].toUserId == input.fromUserId
      ensures created[0].chatId == chatIdTo && created[1].chatId == chatIdFrom
      ensures created[0].createdAt == now && created[1].createdAt == now
      ensures created[0].id != created[1].id
      ensures forall i :: 0 <= i < |old(rows)| ==> old(rows)[i].id != created[0].id && old(rows)[i].id != created[1].id
      ensures rows == old(rows) + created
    {
      var connectionTo := Connection(Db(nextId), input.fromUserId, input.toUserId, chatIdTo, now);
      rows, nextId := rows + [connectionTo], nextId + 1;
      var connectionFrom := Connection(Db(nextId), input.toUserId, input.fromUserId, chatIdFrom, now);
      rows, nextId := rows + [connectionFrom], nextId + 1;
      created := [connectionTo, connectionFrom];
    }
  }

  /** After a pair (a, b), (b, a) is appended, a user's answer is the old answer followed by the
      new rows that start at that user, in insertion order; everyone else's answer is unchanged. */
  lemma PairExtendsQueries(rows: seq<Connection>, c1: Connection, c2: Connection, a: string, b: string, id: string)
    requires c1.fromUserId == a && c1.toUserId == b
    requires c2.fromUserId == b && c2.toUserId == a
    ensures GetConnectionsByUserId(rows + [c1, c2], id) == GetConnectionsByUserId(rows, id)
      + (if id == a then [c1] else []) + (if id == b then [c2] else [])
  {
    Seqs.FilterAppendPair(rows, c1, c2, FromUser(id));
  }

  /** Both users see the new connection: `a`'s answer holds a row to `b`, and `b`'s a row to `a`. */
  lemma BothDirectionsVisible(rows: seq<Connection>, c1: Connection, c2: Connection, a: string, b: string)
    requires c1.fromUserId == a && c1.toUserId == b
    requires c2.fromUserId == b && c2.toUserId == a
    ensures exists c :: c in GetConnectionsByUserId(rows + [c1, c2], a) && c.toUserId == b
    ensures exists c :: c in GetConnectionsByUserId(rows + [c1, c2], b) && c.toUserId == a
  {
    assert c1 in rows + [c1, c2] && c2 in rows + [c1, c2];
  }
}
