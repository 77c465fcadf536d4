/** The message router: a query joining messages to their connection's chat, newest first, and an insert. */
module MessageRouter {
  import opened Wrappers
  import opened Entities
  import Seqs

  /** The chat id of the connection whose id is `connectionId`, if the table has one. */
  function ChatOf(connections: seq<Connection>, connectionId: RowId): (r: Option<string>)
    ensures r.None? ==> forall i :: 0 <= i < |connections| ==> connections[i].id != connectionId
    ensures r.Some? ==> exists i :: 0 <= i < |connections| && connections[i].id == connectionId && connections[i].chatId == r.value
  {
    match Seqs.FirstIndex(connections, (c: Connection) => c.id == connectionId)
    case None => None
    case Some(i) => Some(connections[i].chatId)
  }

  /** The test "this message's connection belongs to chat `chatId`". */
  function InChat(connections: seq<Connection>, chatId: string): Message -> bool
  {
    (m: Message) => ChatOf(connections, m.connectionId) == Some(chatId)
  }

  /** Newest first: creation times never increase along the sequence. */
  ghost predicate NewestFirst(ms: seq<Message>)
  {
    forall i, j :: 0 <= i < j < |ms| ==> ms[i].createdAt >= ms[j].createdAt
  }

  /** A message no older than every message of a newest-first sequence can go in front of it. */
  lemma PrependNewest(h: Message, rest: seq<Message>)
    requires NewestFirst(rest)
    requires forall x :: x in rest ==> x.createdAt <= h.createdAt
    ensures NewestFirst([h] + rest)
  {
    var r := [h] + rest;
    forall i, j | 0 <= i < j < |r| ensures r[i].createdAt >= r[j].createdAt {
      assert r[j] == rest[j - 1];
      if i > 0 {
        assert r[i] == rest[i - 1];
      } else {
        assert rest[j - 1] in rest;
      }
    }
  }

  /** The head of a newest-first sequence is no older than anything in its tail. */
  lemma HeadIsNewest(sorted: seq<Message>)
    requires NewestFirst(sorted) && sorted != []
    ensures forall x :: x in sorted[1..] ==> x.createdAt <= sorted[0].createdAt
  {
    forall x | x in sorted[1..] ensures x.createdAt <= sorted[0].createdAt {
      var j :| 0 <= j < |sorted[1..]| && sorted[1..][j] == x;
      assert sorted[j + 1] == x;
    }
  }

  /** Putting the head of a newest-first sequence in front of the insertion into its tail gives
      a newest-first sequence holding the message as well. */
  lemma InsertBehindHead(m: Message, sorted: seq<Message>, rest: seq<Message>)
    requires NewestFirst(sorted) && sorted != [] && m.createdAt < sorted[0].createdAt
    requires NewestFirst(rest) && multiset(rest) == multiset(sorted[1..]) + multiset{m}
    ensures NewestFirst([sorted[0]] + rest)
    ensures multiset([sorted[0]] + rest) == multiset(sorted) + multiset{m}
  {
    HeadIsNewest(sorted);
    forall x | x in rest ensures x.createdAt <= sorted[0].createdAt {
      assert x in multiset(rest);
      assert x == m || x in sorted[1..];
    }
    PrependNewest(sorted[0], rest);
    assert sorted == [sorted[0]] + sorted[1..];
  }

  /** Inserts `m` into a newest-first sequence, keeping it newest first. */
  function InsertNewestFirst(m: Message, sorted: seq<Message>): (r: seq<Message>)
    requires NewestFirst(sorted)
    ensures NewestFirst(r)
    ensures multiset(r) == multiset(sorted) + multiset{m}
  {
    if sorted == [] || m.createdAt >= sorted[0].createdAt then
      HeadIsNewestOrEmpty(m, sorted);
      [m] + sorted
    else
      var rest := InsertNewestFirst(m, sorted[1..]);
      InsertBehindHead(m, sorted, rest);
      [sorted[0]] + rest
  }

  /** A message no older than the head of a newest-first sequence can go in front of it. */
  lemma HeadIsNewestOrEmpty(m: Message, sorted: seq<Message>)
    requires NewestFirst(sorted)
    requires sorted == [] || m.createdAt >= sorted[0].createdAt
    ensures NewestFirst([m] + sorted)
  {
    if sorted != [] {
      HeadIsNewest(sorted);
      assert sorted == [sorted[0]] + sorted[1..];
    }
    forall x | x in sorted ensures x.createdAt <= m.createdAt {
      if x != sorted[0] {
        assert x in sorted[1..];
      }
    }
    PrependNewest(m, sorted);
  }

  /** The ordering a `createdAt: "desc"` clause asks for: a newest-first arrangement of the same rows. */
  function SortNewestFirst(ms: seq<Message>): (r: seq<Message>)
    ensures NewestFirst(r)
    ensures multiset(r) == multiset(ms)
  {
    if ms == [] then []
    else
      assert ms == [ms[0]] + ms[1..];
      InsertNewestFirst(ms[0], SortNewestFirst(ms[1..]))
  }

  /** getMessagesByConnectionChatId: the messages whose connection has chat id `chatId`, newest first. */
  function GetMessagesByConnectionChatId(messages: seq<Message>, connections: seq<Connection>, chatId: string): (r: seq<Message>)
    ensures NewestFirst(r)
    ensures forall m :: m in r <==> m in messages && ChatOf(connections, m.connectionId) == Some(chatId)
    ensures multiset(r) == multiset(Seqs.Filter(messages, InChat(connections, chatId)))
  {
    var f := Seqs.Filter(messages, InChat(connections, chatId));
    var r := SortNewestFirst(f);
    assert forall m :: m in r <==> m in f by {
      forall m ensures m in r <==> m in f {
        assert m in r <==> m in multiset(r);
        assert m in f <==> m in multiset(f);
      }
    }
    r
  }

  /** The message table. Identifiers come from a counter, so they are distinct database ids. */
  class MessageTable {
    var rows: seq<Message>
    var nextId: nat

    ghost predicate Valid()
      reads this
    {
      && (forall i :: 0 <= i < |rows| ==> rows[i].id.Db? && rows[i].id.n < nextId)
      && (forall i, j :: 0 <= i < j < |rows| ==> rows[i].id != rows[j].id)
    }

    constructor ()
      ensures Valid() && rows == []
    {
      rows, nextId := [], 0;
    }

    /** createMessage: inserts one row carrying the given connection, sender, recipient and text.
        The text may be any string, the empty one included; `input.chatId` is not stored or checked.
        Linking the row to a connection id that `connections` does not hold makes the database call
        fail: the result is then `None` and the table is unchanged. `now` is the creation time the
        database assigns. */
    method CreateMessage(input: CreateMessageInput, connections: seq<Connection>, now: int) returns (created: Option<Message>)
      requires Valid()
      modifies this
      ensures Valid()
      ensures created.None? <==> ChatOf(connections, input.connectionId).None?
      ensures created.None? ==> rows == old(rows)
      ensures created.Some? ==> && created.value.connectionId == input.connectionId && created.value.text == input.text
                                && created.value.fromUserId == input.fromUserId && created.value.toUserId == input.toUserId
                                && created.value.createdAt == now && created.value.id.Db? && (forall i :: 0 <= i < |old(rows)| ==> old(rows)[i].id != created.value.id)
                                && rows == old(rows) + [created.value]
    {
      if ChatOf(connections, input.connectionId).None? {
        return None;
      }
      var row := Message(Db(nextId), input.connectionId, input.fromUserId, input.toUserId, input.text, now);
      rows, nextId := rows + [row], nextId + 1;
      created := Some(row);
    }
  }

  /** Appending a message whose connection belongs to chat `chatId` grows that chat's answer by
      exactly that message. */
  lemma AppendGrowsItsChat(messages: seq<Message>, connections: seq<Connection>, m: Message, chatId: string)
    requires ChatOf(connections, m.connectionId) == Some(chatId)
    ensures multiset(GetMessagesByConnectionChatId(messages + [m], connections, chatId))
      == multiset(GetMessagesByConnectionChatId(messages, connections, chatId)) + multiset{m}
  {
    var p := InChat(connections, chatId);
    Seqs.FilterConcat(messages, [m], p);
    Seqs.FilterSingleton(m, p);
  }

  /** Appending a message leaves the answer of every chat other than its connection's unchanged;
      a message whose connection is missing joins no chat at all. */
  lemma AppendKeepsOtherChats(messages: seq<Message>, connections: seq<Connection>, m: Message, chatId: string)
    requires ChatOf(connections, m.connectionId) != Some(chatId)
    ensures GetMessagesByConnectionChatId(messages + [m], connections, chatId)
      == GetMessagesByConnectionChatId(messages, connections, chatId)
  {
    var p := InChat(connections, chatId);
    Seqs.FilterConcat(messages, [m], p);
    Seqs.FilterSingleton(m, p);
    assert Seqs.Filter(messages, p) + [] == Seqs.Filter(messages, p);
  }
}
