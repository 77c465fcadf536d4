/** The persisted records shared by the server routers and the client pages, and the inputs
    the routers' procedures accept. Timestamps are opaque integers. */
module Entities {
  import Seqs

  /** The status an invite can have. */
  datatype InviteStatus = Pending | Accepted | Rejected

  /** A row identifier: `Temp` is the placeholder id "temp" the client gives an optimistic row,
      `Db(n)` an identifier the database generated. */
  datatype RowId = Temp | Db(n: nat)

  datatype Invite = Invite(id: RowId, fromUserId: string, toUserId: string, status: InviteStatus, createdAt: int)

  /** One direction of a relationship between two users; `chatId` names their chat. */
  datatype Connection = Connection(id: RowId, fromUserId: string, toUserId: string, chatId: string, createdAt: int)

  /** A message row; its chat is the `chatId` of the connection it belongs to. */
  datatype Message = Message(id: RowId, connectionId: RowId, fromUserId: string, toUserId: string, text: string, createdAt: int)

  // Inputs of the router procedures, as their validators declare them.
  datatype CreateInviteInput = CreateInviteInput(fromUserId: string, toUserId: string)
  datatype UpdateInviteInput = UpdateInviteInput(fromUserId: string, inviteId: RowId, status: InviteStatus)
  datatype DeleteInviteInput = DeleteInviteInput(fromUserId: string, inviteId: RowId)
  datatype CreateConnectionInput = CreateConnectionInput(fromUserId: string, toUserId: string)
  datatype CreateMessageInput = CreateMessageInput(chatId: string, connectionId: RowId, fromUserId: string, toUserId: string, text: string)

  /** The test "this row's id is not `id`". */
  function IdIsNot(id: RowId): Invite -> bool
  {
    (x: Invite) => x.id != id
  }

  /** The invites whose id is not `id`, in their original order: a delete by id, on the server
      table and in the client's optimistic copy. */
  function Without(rows: seq<Invite>, id: RowId): (r: seq<Invite>)
    ensures forall x :: x in r <==> x in rows && x.id != id
  {
    Seqs.Filter(rows, IdIsNot(id))
  }

  /** With distinct ids, removing the id found at `i` removes exactly position `i`. */
  lemma WithoutAt(rows: seq<Invite>, i: nat)
    requires i < |rows|
    requires forall a, b :: 0 <= a < b < |rows| ==> rows[a].id != rows[b].id
    ensures Without(rows, rows[i].id) == rows[..i] + rows[i + 1..]
  {
    var id := rows[i].id;
    var keep := IdIsNot(id);
    var before, after := rows[..i], rows[i + 1..];
    assert rows == before + [rows[i]] + after;
    assert forall j :: 0 <= j < |before| ==> keep(before[j]) by {
      forall j | 0 <= j < |before| ensures keep(before[j]) {
        assert before[j] == rows[j];
      }
    }
    assert forall j :: 0 <= j < |after| ==> keep(after[j]) by {
      forall j | 0 <= j < |after| ensures keep(after[j]) {
        assert after[j] == rows[i + 1 + j];
      }
    }
    Seqs.FilterKeepsAll(before, keep);
    Seqs.FilterKeepsAll(after, keep);
    Seqs.FilterSkipsOne(before, rows[i], after, keep);
  }

  /** Removing an id no row carries changes nothing. */
  lemma WithoutAbsent(rows: seq<Invite>, id: RowId)
    requires forall j :: 0 <= j < |rows| ==> rows[j].id != id
    ensures Without(rows, id) == rows
  {
    Seqs.FilterKeepsAll(rows, IdIsNot(id));
  }
}
