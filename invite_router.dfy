/** The invite router: two equality queries and three mutations over the invite table. */
module InviteRouter {
  import opened Wrappers
  import opened Entities
  import Seqs

  /** getInvitesSentByUserId: the invites whose sender is `id`. */
  function GetInvitesSentByUserId(rows: seq<Invite>, id: string): (r: seq<Invite>)
    ensures forall x :: x in r <==> x in rows && x.fromUserId == id
  {
    Seqs.Filter(rows, (x: Invite) => x.fromUserId == id)
  }

  /** getInvitesReceivedByUserId: the invites whose recipient is `id`. */
  function GetInvitesReceivedByUserId(rows: seq<Invite>, id: string): (r: seq<Invite>)
    ensures forall x :: x in r <==> x in rows && x.toUserId == id
  {
    Seqs.Filter(rows, (x: Invite) => x.toUserId == id)
  }

  /** The position of the row with identifier `id`, if there is one. */
  function IndexOfId(rows: seq<Invite>, id: RowId): (r: Option<nat>)
    ensures r.Some? ==> r.value < |rows| && rows[r.value].id == id
    ensures r.None? ==> forall j :: 0 <= j < |rows| ==> rows[j].id != id
  {
    Seqs.FirstIndex(rows, (x: Invite) => x.id == id)
  }

  /** The invite table. Identifiers come from a counter, so they are distinct database ids. */
  class InviteTable {
    var rows: seq<Invite>
    var nextId: nat

    ghost predicate Valid()
      reads this
    {
      && (forall i :: 0 <= i < |rows| ==> rows[i].id.Db? && rows[i].id.n < nextId)
      && (forall i, j :: 0 <= i < j < |rows| ==> rows[i].id != rows[j].id)
    }

    constructor ()
      ensures Valid() && rows == []
    {
      rows, nextId := [], 0;
    }

    /** createInvite: inserts one row from `fromUserId` to `toUserId`. The status it gets is the
        table's default, which the database supplies (`defaultStatus`); `now` is the creation time. */
    method CreateInvite(input: CreateInviteInput, defaultStatus: InviteStatus, now: int) returns (created: Invite)
      requires Valid()
      modifies this
      ensures Valid()
      ensures created.fromUserId == input.fromUserId && created.toUserId == input.toUserId
      ensures created.status == defaultStatus && created.id.Db? && created.createdAt == now
      ensures forall i :: 0 <= i < |old(rows)| ==> old(rows)[i].id != created.id
      ensures rows == old(rows) + [created]
    {
      created := Invite(Db(nextId), input.fromUserId, input.toUserId, defaultStatus, now);
      rows := rows + [created];
      nextId := nextId + 1;
    }

    /** updateInvite: sets the status of the row whose id is `input.inviteId`; any status may replace
        any other. `input.fromUserId` is not consulted. A missing id makes the database call fail:
        the result is then `None` and the table is unchanged. */
    method UpdateInvite(input: UpdateInviteInput) returns (updated: Option<Invite>)
      requires Valid()
      modifies this
      ensures Valid() && nextId == old(nextId)
      ensures updated.Some? <==> exists i :: 0 <= i < |old(rows)| && old(rows)[i].id == input.inviteId
      ensures |rows| == |old(rows)|
      ensures forall i :: 0 <= i < |rows| ==>
        rows[i] == if old(rows)[i].id == input.inviteId then old(rows)[i].(status := input.status) else old(rows)[i]
      ensures updated.Some? ==> updated.value.id == input.inviteId && updated.value in rows && updated.value.status == input.status
    {
      match IndexOfId(rows, input.inviteId)
      case None =>
        updated := None;
      case Some(i) =>
        var row := rows[i].(status := input.status);
        rows := rows[i := row];
        updated := Some(row);
    }

    /** deleteInvite: removes the row whose id is `input.inviteId`; `input.fromUserId` is not
        consulted, so nothing checks that the caller sent the invite. A missing id makes the
        database call fail: the result is then `None` and the table is unchanged. */
    method DeleteInvite(input: DeleteInviteInput) returns (deleted: Option<Invite>)
      requires Valid()
      modifies this
      ensures Valid() && nextId == old(nextId)
      ensures deleted.Some? <==> exists i :: 0 <= i < |old(rows)| && old(rows)[i].id == input.inviteId
      ensures deleted.Some? ==> deleted.value in old(rows) && deleted.value.id == input.inviteId && |rows| == |old(rows)| - 1
      ensures deleted.None? ==> rows == old(rows)
      ensures rows == Without(old(rows), input.inviteId)
    {
      match IndexOfId(rows, input.inviteId)
      case None =>
        deleted := None;
        WithoutAbsent(rows, input.inviteId);
      case Some(i) =>
        deleted := Some(rows[i]);
        WithoutAt(rows, i);
        rows := rows[..i] + rows[i + 1..];
    }
  }
}
