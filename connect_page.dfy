/** The connect page: optimistic cache handlers for the four invite/connection mutations, the three
    lookup maps built from the cached lists, and the choice of the action a user row offers. */
module ConnectPage {
  import opened Wrappers
  import opened Entities
  import opened QueryCache

  /** The keys of the invite queries the page caches, each for one user id. */
  datatype InviteQuery = InvitesSentBy(userId: string) | InvitesReceivedBy(userId: string)

  // The page's cache, split by the type of data: invite queries, and connection queries keyed by
  // the user id they were asked for.
  type InviteCache = Cache<InviteQuery, Invite>
  type ConnectionCache = Cache<string, Connection>

  // ---------------------------------------------------------------------------------------------
  // Optimistic list transforms

  /** The sent-invites list with the placeholder invite appended: id "temp", status PENDING. */
  function WithTempInvite(invites: seq<Invite>, fromUserId: string, toUserId: string, now: int): (r: seq<Invite>)
    ensures |r| == |invites| + 1 && r[..|invites|] == invites
    ensures r[|invites|] == Invite(Temp, fromUserId, toUserId, Pending, now)
  {
    invites + [Invite(Temp, fromUserId, toUserId, Pending, now)]
  }

  /** The received-invites list with the new status mapped onto the invites whose id is `inviteId`. */
  function WithStatus(invites: seq<Invite>, inviteId: RowId, status: InviteStatus): (r: seq<Invite>)
    ensures |r| == |invites|
    ensures forall i :: 0 <= i < |r| ==>
      r[i] == if invites[i].id == inviteId then invites[i].(status := status) else invites[i]
  {
    if invites == [] then []
    else
      var head := if invites[0].id == inviteId then invites[0].(status := status) else invites[0];
      [head] + WithStatus(invites[1..], inviteId, status)
  }

  /** The connections list with the placeholder connection appended: id and chat id "temp". */
  function WithTempConnection(connections: seq<Connection>, fromUserId: string, toUserId: string, now: int): (r: seq<Connection>)
    ensures |r| == |connections| + 1 && r[..|connections|] == connections
    ensures r[|connections|] == Connection(Temp, fromUserId, toUserId, "temp", now)
  {
    connections + [Connection(Temp, fromUserId, toUserId, "temp", now)]
  }

  /** Applying the same status change a second time changes nothing more. */
  lemma {:induction false} WithStatusIdempotent(invites: seq<Invite>, inviteId: RowId, status: InviteStatus)
    ensures WithStatus(WithStatus(invites, inviteId, status), inviteId, status) == WithStatus(invites, inviteId, status)
  {
    if invites != [] {
      WithStatusIdempotent(invites[1..], inviteId, status);
    }
  }

  /** Mapping a status no invite carries the id of changes nothing. */
  lemma {:induction false} WithStatusAbsent(invites: seq<Invite>, inviteId: RowId, status: InviteStatus)
    requires forall i :: 0 <= i < |invites| ==> invites[i].id != inviteId
    ensures WithStatus(invites, inviteId, status) == invites
  {
    if invites != [] {
      WithStatusAbsent(invites[1..], inviteId, status);
    }
  }

  // ---------------------------------------------------------------------------------------------
  // createInvite handlers

  /** onMutate: snapshot the sender's sent-invites entry and, when it exists, append a placeholder. */
  method CreateInviteOnMutate(cache: InviteCache, variables: CreateInviteInput, now: int) returns (prevInvites: Option<seq<Invite>>)
    modifies cache
    ensures prevInvites == Lookup(old(cache.entries), InvitesSentBy(variables.fromUserId))
    ensures cache.entries == match prevInvites
      case None => old(cache.entries)
      case Some(prev) => Write(old(cache.entries), InvitesSentBy(variables.fromUserId),
                               Some(WithTempInvite(prev, variables.fromUserId, variables.toUserId, now)))
    ensures cache.stale == old(cache.stale)
  {
    var key := InvitesSentBy(variables.fromUserId);
    prevInvites := cache.GetQueryData(key);
    if prevInvites.Some? {
      cache.SetQueryData(key, Some(WithTempInvite(prevInvites.value, variables.fromUserId, variables.toUserId, now)));
    }
  }

  /** onError: put the snapshot back into the sender's sent-invites entry. */
  method CreateInviteOnError(cache: InviteCache, newInvite: CreateInviteInput, prevInvites: Option<seq<Invite>>)
    modifies cache
    ensures cache.entries == Write(old(cache.entries), InvitesSentBy(newInvite.fromUserId), prevInvites)
    ensures cache.stale == old(cache.stale)
  {
    cache.SetQueryData(InvitesSentBy(newInvite.fromUserId), prevInvites);
  }

  /** onSettled: invalidate the sender's sent-invites entry. */
  method CreateInviteOnSettled(cache: InviteCache, newInvite: CreateInviteInput)
    modifies cache
    ensures cache.entries == old(cache.entries) && cache.stale == old(cache.stale) + {InvitesSentBy(newInvite.fromUserId)}
  {
    cache.InvalidateQueries(InvitesSentBy(newInvite.fromUserId));
  }

  // ---------------------------------------------------------------------------------------------
  // updateInvite handlers

  /** onMutate: snapshot the caller's received-invites entry and, when it exists, map the new status
      onto the invite with id `inviteId`. */
  method UpdateInviteOnMutate(cache: InviteCache, variables: UpdateInviteInput) returns (prevInvites: Option<seq<Invite>>)
    modifies cache
    ensures prevInvites == Lookup(old(cache.entries), InvitesReceivedBy(variables.fromUserId))
    ensures cache.entries == match prevInvites
      case None => old(cache.entries)
      case Some(prev) => Write(old(cache.entries), InvitesReceivedBy(variables.fromUserId),
                               Some(WithStatus(prev, variables.inviteId, variables.status)))
    ensures cache.stale == old(cache.stale)
  {
    var key := InvitesReceivedBy(variables.fromUserId);
    prevInvites := cache.GetQueryData(key);
    if prevInvites.Some? {
      cache.SetQueryData(key, Some(WithStatus(prevInvites.value, variables.inviteId, variables.status)));
    }
  }

  /** onError as written: the received-invites snapshot is written into the SENT-invites entry. */
  method UpdateInviteOnError(cache: InviteCache, newInvite: UpdateInviteInput, prevInvites: Option<seq<Invite>>)
    modifies cache
    ensures cache.entries == Write(old(cache.entries), InvitesSentBy(newInvite.fromUserId), prevInvites)
    ensures cache.stale == old(cache.stale)
  {
    cache.SetQueryData(InvitesSentBy(newInvite.fromUserId), prevInvites);
  }

  /** onError as evidently intended: the snapshot goes back where it was taken from. */
  method UpdateInviteOnErrorCorrected(cache: InviteCache, newInvite: UpdateInviteInput, prevInvites: Option<seq<Invite>>)
    modifies cache
    ensures cache.entries == Write(old(cache.entries), InvitesReceivedBy(newInvite.fromUserId), prevInvites)
    ensures cache.stale == old(cache.stale)
  {
    cache.SetQueryData(InvitesReceivedBy(newInvite.fromUserId), prevInvites);
  }

  /** onSettled: invalidates the caller's sent-invites entry (not the received one it changed). */
  method UpdateInviteOnSettled(cache: InviteCache, newInvite: UpdateInviteInput)
    modifies cache
    ensures cache.entries == old(cache.entries) && cache.stale == old(cache.stale) + {InvitesSentBy(newInvite.fromUserId)}
  {
    cache.InvalidateQueries(InvitesSentBy(newInvite.fromUserId));
  }

  // ---------------------------------------------------------------------------------------------
  // createConnection handlers

  /** onMutate: snapshot the caller's connections entry and, when it exists, append a placeholder. */
  method CreateConnectionOnMutate(cache: ConnectionCache, variables: CreateConnectionInput, now: int)
    returns (prevConnections: Option<seq<Connection>>)
    modifies cache
    ensures prevConnections == Lookup(old(cache.entries), variables.fromUserId)
    ensures cache.entries == match prevConnections
      case None => old(cache.entries)
      case Some(prev) => Write(old(cache.entries), variables.fromUserId,
                               Some(WithTempConnection(prev, variables.fromUserId, variables.toUserId, now)))
    ensures cache.stale == old(cache.stale)
  {
    prevConnections := cache.GetQueryData(variables.fromUserId);
    if prevConnections.Some? {
      cache.SetQueryData(variables.fromUserId, Some(WithTempConnection(prevConnections.value, variables.fromUserId, variables.toUserId, now)));
    }
  }

  /** onError: put the snapshot back into the caller's connections entry. */
  method CreateConnectionOnError(cache: ConnectionCache, newConnection: CreateConnectionInput, prevConnections: Option<seq<Connection>>)
    modifies cache
    ensures cache.entries == Write(old(cache.entries), newConnection.fromUserId, prevConnections)
    ensures cache.stale == old(cache.stale)
  {
    cache.SetQueryData(newConnection.fromUserId, prevConnections);
  }

  /** onSettled: invalidate the caller's connections entry. */
  method CreateConnectionOnSettled(cache: ConnectionCache, newConnection: CreateConnectionInput)
    modifies cache
    ensures cache.entries == old(cache.entries) && cache.stale == old(cache.stale) + {newConnection.fromUserId}
  {
    cache.InvalidateQueries(newConnection.fromUserId);
  }

  // ---------------------------------------------------------------------------------------------
  // deleteInvite handlers

  /** onMutate: snapshot the caller's sent-invites entry and, when it exists, filter out every invite
      with id `inviteId`. */
  method DeleteInviteOnMutate(cache: InviteCache, variables: DeleteInviteInput) returns (prevInvites: Option<seq<Invite>>)
    modifies cache
    ensures prevInvites == Lookup(old(cache.entries), InvitesSentBy(variables.fromUserId))
    ensures cache.entries == match prevInvites
      case None => old(cache.entries)
      case Some(prev) => Write(old(cache.entries), InvitesSentBy(variables.fromUserId),
                               Some(Without(prev, variables.inviteId)))
    ensures cache.stale == old(cache.stale)
  {
    var key := InvitesSentBy(variables.fromUserId);
    prevInvites := cache.GetQueryData(key);
    if prevInvites.Some? {
      cache.SetQueryData(key, Some(Without(prevInvites.value, variables.inviteId)));
    }
  }

  /** onError: put the snapshot back into the caller's sent-invites entry. */
  method DeleteInviteOnError(cache: InviteCache, deletedInvite: DeleteInviteInput, prevInvites: Option<seq<Invite>>)
    modifies cache
    ensures cache.entries == Write(old(cache.entries), InvitesSentBy(deletedInvite.fromUserId), prevInvites)
    ensures cache.stale == old(cache.stale)
  {
    cache.SetQueryData(InvitesSentBy(deletedInvite.fromUserId), prevInvites);
  }

  /** onSettled: invalidate the caller's sent-invites entry. */
  method DeleteInviteOnSettled(cache: InviteCache, deletedInvite: DeleteInviteInput)
    modifies cache
    ensures cache.entries == old(cache.entries) && cache.stale == old(cache.stale) + {InvitesSentBy(deletedInvite.fromUserId)}
  {
    cache.InvalidateQueries(InvitesSentBy(deletedInvite.fromUserId));
  }

  // ---------------------------------------------------------------------------------------------
  // Whole mutations: onMutate, then the server call (whose failure is the parameter `fails`),
  // onError when it failed, and onSettled in either case.

  /** A failed createInvite leaves the cache exactly as it was; a successful one keeps the
      optimistic entry. Either way the sent-invites entry ends stale. */
  method RunCreateInvite(cache: InviteCache, variables: CreateInviteInput, now: int, fails: bool)
    modifies cache
    ensures fails ==> cache.entries == old(cache.entries)
    ensures !fails ==> (Lookup(cache.entries, InvitesSentBy(variables.fromUserId)) ==
      match Lookup(old(cache.entries), InvitesSentBy(variables.fromUserId))
      case None => None
      case Some(prev) => Some(WithTempInvite(prev, variables.fromUserId, variables.toUserId, now)))
    ensures forall k :: k != InvitesSentBy(variables.fromUserId) ==> Lookup(cache.entries, k) == Lookup(old(cache.entries), k)
    ensures cache.stale == old(cache.stale) + {InvitesSentBy(variables.fromUserId)}
  {
    var ctx := CreateInviteOnMutate(cache, variables, now);
    if fails {
      CreateInviteOnError(cache, variables, ctx);
      // The optimistic write onMutate made, undone by writing the snapshot back.
      WriteBackRestores(old(cache.entries), InvitesSentBy(variables.fromUserId),
                        if ctx.Some? then Some(WithTempInvite(ctx.value, variables.fromUserId, variables.toUserId, now)) else None);
    }
    CreateInviteOnSettled(cache, variables);
  }

  /** A failed updateInvite, as written, does not undo its optimistic write: the received-invites
      entry keeps the new status, and the sent-invites entry is overwritten with the received
      snapshot. */
  method RunUpdateInvite(cache: InviteCache, variables: UpdateInviteInput, fails: bool)
    modifies cache
    ensures var received := Lookup(old(cache.entries), InvitesReceivedBy(variables.fromUserId));
      Lookup(cache.entries, InvitesReceivedBy(variables.fromUserId)) ==
        match received
        case None => None
        case Some(prev) => Some(WithStatus(prev, variables.inviteId, variables.status))
    ensures fails ==> Lookup(cache.entries, InvitesSentBy(variables.fromUserId)) == Lookup(old(cache.entries), InvitesReceivedBy(variables.fromUserId))
    ensures !fails ==> Lookup(cache.entries, InvitesSentBy(variables.fromUserId)) == Lookup(old(cache.entries), InvitesSentBy(variables.fromUserId))
    ensures forall k :: k != InvitesSentBy(variables.fromUserId) && k != InvitesReceivedBy(variables.fromUserId) ==>
      Lookup(cache.entries, k) == Lookup(old(cache.entries), k)
    ensures cache.stale == old(cache.stale) + {InvitesSentBy(variables.fromUserId)}
  {
    var ctx := UpdateInviteOnMutate(cache, variables);
    if fails {
      UpdateInviteOnError(cache, variables, ctx);
    }
    UpdateInviteOnSettled(cache, variables);
  }

  /** With the corrected onError, a failed updateInvite leaves the cache exactly as it was. */
  method RunUpdateInviteCorrected(cache: InviteCache, variables: UpdateInviteInput, fails: bool)
    modifies cache
    ensures fails ==> cache.entries == old(cache.entries)
    ensures !fails ==> (Lookup(cache.entries, InvitesReceivedBy(variables.fromUserId)) ==
      match Lookup(old(cache.entries), InvitesReceivedBy(variables.fromUserId))
      case None => None
      case Some(prev) => Some(WithStatus(prev, variables.inviteId, variables.status)))
    ensures forall k :: k != InvitesReceivedBy(variables.fromUserId) ==> Lookup(cache.entries, k) == Lookup(old(cache.entries), k)
    ensures cache.stale == old(cache.stale) + {InvitesSentBy(variables.fromUserId)}
  {
    var ctx := UpdateInviteOnMutate(cache, variables);
    if fails {
      UpdateInviteOnErrorCorrected(cache, variables, ctx);
      WriteBackRestores(old(cache.entries), InvitesReceivedBy(variables.fromUserId),
                        if ctx.Some? then Some(WithStatus(ctx.value, variables.inviteId, variables.status)) else None);
    }
    UpdateInviteOnSettled(cache, variables);
  }

  /** A failed createConnection leaves the cache exactly as it was; a successful one keeps the
      placeholder, after the existing connections. */
  method RunCreateConnection(cache: ConnectionCache, variables: CreateConnectionInput, now: int, fails: bool)
    modifies cache
    ensures fails ==> cache.entries == old(cache.entries)
    ensures !fails ==> (Lookup(cache.entries, variables.fromUserId) ==
      match Lookup(old(cache.entries), variables.fromUserId)
      case None => None
      case Some(prev) => Some(WithTempConnection(prev, variables.fromUserId, variables.toUserId, now)))
    ensures forall k :: k != variables.fromUserId ==> Lookup(cache.entries, k) == Lookup(old(cache.entries), k)
    ensures cache.stale == old(cache.stale) + {variables.fromUserId}
  {
    var ctx := CreateConnectionOnMutate(cache, variables, now);
    if fails {
      CreateConnectionOnError(cache, variables, ctx);
      WriteBackRestores(old(cache.entries), variables.fromUserId,
                        if ctx.Some? then Some(WithTempConnection(ctx.value, variables.fromUserId, variables.toUserId, now)) else None);
    }
    CreateConnectionOnSettled(cache, variables);
  }

  /** A failed deleteInvite leaves the cache exactly as it was; a successful one keeps the list
      without the deleted invite. */
  method RunDeleteInvite(cache: InviteCache, variables: DeleteInviteInput, fails: bool)
    modifies cache
    ensures fails ==> cache.entries == old(cache.entries)
    ensures !fails ==> (Lookup(cache.entries, InvitesSentBy(variables.fromUserId)) ==
      match Lookup(old(cache.entries), InvitesSentBy(variables.fromUserId))
      case None => None
      case Some(prev) => Some(Without(prev, variables.inviteId)))
    ensures forall k :: k != InvitesSentBy(variables.fromUserId) ==> Lookup(cache.entries, k) == Lookup(old(cache.entries), k)
    ensures cache.stale == old(cache.stale) + {InvitesSentBy(variables.fromUserId)}
  {
    var ctx := DeleteInviteOnMutate(cache, variables);
    if fails {
      DeleteInviteOnError(cache, variables, ctx);
      WriteBackRestores(old(cache.entries), InvitesSentBy(variables.fromUserId),
                        if ctx.Some? then Some(Without(ctx.value, variables.inviteId)) else None);
    }
    DeleteInviteOnSettled(cache, variables);
  }

  /** The rollback of updateInvite as written does not restore the cache. In this cache, user "b"
      has one pending invite received and no invite sent; after accepting it fails, the received
      entry still shows it accepted and the sent entry shows the received invite. */
  lemma UpdateInviteRollbackMisses()
    ensures var inv := Invite(Db(0), "a", "b", Pending, 0);
      var before := map[InvitesReceivedBy("b") := [inv], InvitesSentBy("b") := []];
      var optimistic := Write(before, InvitesReceivedBy("b"), Some(WithStatus([inv], Db(0), Accepted)));
      var rolledBack := Write(optimistic, InvitesSentBy("b"), Lookup(before, InvitesReceivedBy("b")));
      && Lookup(rolledBack, InvitesReceivedBy("b")) == Some([inv.(status := Accepted)])
      && Lookup(rolledBack, InvitesSentBy("b")) == Some([inv])
      && rolledBack != before
  {
    var inv := Invite(Db(0), "a", "b", Pending, 0);
    var before := map[InvitesReceivedBy("b") := [inv], InvitesSentBy("b") := []];
    var optimistic := Write(before, InvitesReceivedBy("b"), Some(WithStatus([inv], Db(0), Accepted)));
    var rolledBack := Write(optimistic, InvitesSentBy("b"), Lookup(before, InvitesReceivedBy("b")));
    assert WithStatus([inv], Db(0), Accepted) == [inv.(status := Accepted)];
    assert Lookup(rolledBack, InvitesSentBy("b")) == Some([inv]);
    assert Lookup(before, InvitesSentBy("b")) == Some([]);
  }

  // ---------------------------------------------------------------------------------------------
  // Lookup maps

  /** The map `forEach(x => map.set(key(x), x))` builds: each key goes to the last element carrying it. */
  function LastByKey<T>(xs: seq<T>, key: T -> string): (r: map<string, T>)
    ensures forall k :: k in r ==> key(r[k]) == k
  {
    if xs == [] then map[] else LastByKey(xs[..|xs| - 1], key)[key(xs[|xs| - 1]) := xs[|xs| - 1]]
  }

  /** Builds a lookup map from cached data, inserting the elements in list order; no data gives
      an empty map. */
  method IndexBy<T>(data: Option<seq<T>>, key: T -> string) returns (m: map<string, T>)
    ensures data.None? ==> m == map[]
    ensures data.Some? ==> m == LastByKey(data.value, key)
  {
    m := map[];
    if data.Some? {
      var xs := data.value;
      var i := 0;
      while i < |xs|
        invariant 0 <= i <= |xs|
        invariant m == LastByKey(xs[..i], key)
      {
        assert xs[..i + 1][..i] == xs[..i];
        m := m[key(xs[i]) := xs[i]];
        i := i + 1;
      }
      assert xs[..|xs|] == xs;
    }
  }

  /** A key is in the map exactly when some element carries it, and it maps to the last such element. */
  lemma {:induction false} LastByKeyIsLast<T>(xs: seq<T>, key: T -> string, k: string)
    ensures k in LastByKey(xs, key) <==> exists i :: 0 <= i < |xs| && key(xs[i]) == k
    ensures k in LastByKey(xs, key) ==> exists i :: (0 <= i < |xs| && xs[i] == LastByKey(xs, key)[k] &&
      key(xs[i]) == k && forall j :: i < j < |xs| ==> key(xs[j]) != k)
  {
    if xs != [] {
      var n := |xs| - 1;
      var init := xs[..n];
      LastByKeyIsLast(init, key, k);
      if key(xs[n]) != k {
        if k in LastByKey(xs, key) {
          var i :| 0 <= i < |init| && init[i] == LastByKey(init, key)[k] && key(init[i]) == k &&
            forall j :: i < j < |init| ==> key(init[j]) != k;
          assert xs[i] == init[i];
          assert forall j :: i < j < |xs| ==> key(xs[j]) != k by {
            forall j | i < j < |xs| ensures key(xs[j]) != k {
              if j < n { assert xs[j] == init[j]; }
            }
          }
        }
        if exists i :: 0 <= i < |xs| && key(xs[i]) == k {
          var i :| 0 <= i < |xs| && key(xs[i]) == k;
          assert i < n && init[i] == xs[i];
        }
      }
    }
  }

  function InviteTo(invite: Invite): string { invite.toUserId }
  function InviteFrom(invite: Invite): string { invite.fromUserId }
  function ConnectionTo(connection: Connection): string { connection.toUserId }

  /** The page's three maps: sent invites by recipient, received invites by sender, connections by
      the other user. */
  method BuildMaps(invitesSent: Option<seq<Invite>>, invitesReceived: Option<seq<Invite>>, connections: Option<seq<Connection>>)
    returns (invitesSentMap: map<string, Invite>, invitesReceivedMap: map<string, Invite>, connectionsMap: map<string, Connection>)
    ensures invitesSentMap == (if invitesSent.Some? then LastByKey(invitesSent.value, InviteTo) else map[])
    ensures invitesReceivedMap == (if invitesReceived.Some? then LastByKey(invitesReceived.value, InviteFrom) else map[])
    ensures connectionsMap == (if connections.Some? then LastByKey(connections.value, ConnectionTo) else map[])
  {
    invitesSentMap := IndexBy(invitesSent, InviteTo);
    invitesReceivedMap := IndexBy(invitesReceived, InviteFrom);
    connectionsMap := IndexBy(connections, ConnectionTo);
  }

  // ---------------------------------------------------------------------------------------------
  // The action a user row offers

  /** What a user row shows, with the mutations its buttons fire. */
  datatype Action =
    | OpenChat(chatId: string)
    | AcceptOrReject(accept: UpdateInviteInput, connect: CreateConnectionInput, reject: UpdateInviteInput)
    | AcceptOnly(accept: UpdateInviteInput, connect: CreateConnectionInput)
    | SendInvite(invite: CreateInviteInput)
    | CancelInvite(cancel: DeleteInviteInput)
    | Closed
    | NoAction

  /** True when the row's received invite has the given status. */
  predicate ReceivedWith(invitesReceivedMap: map<string, Invite>, toUserId: string, status: InviteStatus)
  {
    toUserId in invitesReceivedMap && invitesReceivedMap[toUserId].status == status
  }

  /** getConnectionStatus for the row of user `toUserId`, seen by the signed-in user `sessionUserId`. */
  function GetConnectionStatus(sessionUserId: string, toUserId: string, invitesSentMap: map<string, Invite>,
                               invitesReceivedMap: map<string, Invite>, connectionsMap: map<string, Connection>): (a: Action)
    // a connection comes first
    ensures a.OpenChat? <==> toUserId in connectionsMap
    ensures a.OpenChat? ==> a.chatId == connectionsMap[toUserId].chatId
    // then an invite received, pending or rejected
    ensures a.AcceptOrReject? <==> toUserId !in connectionsMap && ReceivedWith(invitesReceivedMap, toUserId, Pending)
    ensures a.AcceptOnly? <==> toUserId !in connectionsMap && ReceivedWith(invitesReceivedMap, toUserId, Rejected)
    // then the invite sent, if any
    ensures a.SendInvite? <==> (toUserId !in connectionsMap && !ReceivedWith(invitesReceivedMap, toUserId, Pending)
      && !ReceivedWith(invitesReceivedMap, toUserId, Rejected) && toUserId !in invitesSentMap)
    ensures a.CancelInvite? <==> (toUserId !in connectionsMap && !ReceivedWith(invitesReceivedMap, toUserId, Pending)
      && !ReceivedWith(invitesReceivedMap, toUserId, Rejected) && toUserId in invitesSentMap && invitesSentMap[toUserId].status == Pending)
    ensures a.Closed? <==> (toUserId !in connectionsMap && !ReceivedWith(invitesReceivedMap, toUserId, Pending)
      && !ReceivedWith(invitesReceivedMap, toUserId, Rejected) && toUserId in invitesSentMap && invitesSentMap[toUserId].status == Rejected)
    ensures a.NoAction? <==> (toUserId !in connectionsMap && !ReceivedWith(invitesReceivedMap, toUserId, Pending)
      && !ReceivedWith(invitesReceivedMap, toUserId, Rejected) && toUserId in invitesSentMap && invitesSentMap[toUserId].status == Accepted)
    // accepting sets ACCEPTED and connects the caller to the inviter; rejecting sets REJECTED
    ensures (a.AcceptOrReject? || a.AcceptOnly?) ==>
      && a.accept == UpdateInviteInput(sessionUserId, invitesReceivedMap[toUserId].id, Accepted)
      && a.connect == CreateConnectionInput(sessionUserId, invitesReceivedMap[toUserId].fromUserId)
    ensures a.AcceptOrReject? ==> a.reject == UpdateInviteInput(sessionUserId, invitesReceivedMap[toUserId].id, Rejected)
    ensures a.SendInvite? ==> a.invite == CreateInviteInput(sessionUserId, toUserId)
    ensures a.CancelInvite? ==> a.cancel == DeleteInviteInput(sessionUserId, invitesSentMap[toUserId].id)
  {
    if toUserId in connectionsMap then
      OpenChat(connectionsMap[toUserId].chatId)
    else if toUserId in invitesReceivedMap && invitesReceivedMap[toUserId].status == Pending then
      var inviteReceived := invitesReceivedMap[toUserId];
      AcceptOrReject(UpdateInviteInput(sessionUserId, inviteReceived.id, Accepted),
                     CreateConnectionInput(sessionUserId, inviteReceived.fromUserId),
                     UpdateInviteInput(sessionUserId, inviteReceived.id, Rejected))
    else if toUserId in invitesReceivedMap && invitesReceivedMap[toUserId].status == Rejected then
      var inviteReceived := invitesReceivedMap[toUserId];
      AcceptOnly(UpdateInviteInput(sessionUserId, inviteReceived.id, Accepted),
                 CreateConnectionInput(sessionUserId, inviteReceived.fromUserId))
    else if toUserId !in invitesSentMap then
      SendInvite(CreateInviteInput(sessionUserId, toUserId))
    else
      match invitesSentMap[toUserId].status
      case Pending => CancelInvite(DeleteInviteInput(sessionUserId, invitesSentMap[toUserId].id))
      case Rejected => Closed
      case Accepted => NoAction
  }

  /** On maps built from the cached lists, the buttons act on the row's own user: accepting
      connects the caller to that user, and cancelling deletes an invite sent to that user. */
  lemma ActionsTargetRowUser(sessionUserId: string, toUserId: string, invitesSent: seq<Invite>,
                             invitesReceived: seq<Invite>, connections: seq<Connection>)
    ensures var a := GetConnectionStatus(sessionUserId, toUserId, LastByKey(invitesSent, InviteTo),
                                         LastByKey(invitesReceived, InviteFrom), LastByKey(connections, ConnectionTo));
      && ((a.AcceptOrReject? || a.AcceptOnly?) ==> a.connect.toUserId == toUserId && a.accept.inviteId in set x | x in invitesReceived :: x.id)
      && (a.CancelInvite? ==> exists x :: x in invitesSent && x.id == a.cancel.inviteId && x.toUserId == toUserId && x.status == Pending)
  {
    var sentMap, receivedMap := LastByKey(invitesSent, InviteTo), LastByKey(invitesReceived, InviteFrom);
    if toUserId in receivedMap {
      LastByKeyIsLast(invitesReceived, InviteFrom, toUserId);
    }
    if toUserId in sentMap {
      LastByKeyIsLast(invitesSent, InviteTo, toUserId);
    }
  }
}
