/** The online-users endpoint: from the names of the messaging service's open channels it builds a
    map from user id to "online", one entry per private user channel. */
module UserChannels {
  /** `s.split("-").pop()`: the text after the last hyphen, or all of `s` when it has none. */
  function LastSegment(s: string): (r: string)
    ensures '-' !in r
    ensures |r| <= |s| && r == s[|s| - |r|..]
    ensures |r| < |s| ==> s[|s| - |r| - 1] == '-'
  {
    if s == [] || s[|s| - 1] == '-' then [] else LastSegment(s[..|s| - 1]) + [s[|s| - 1]]
  }

  /** `channel.startsWith("private-user")`; note that there is no hyphen after "user". */
  predicate IsUserChannel(c: string): (b: bool)
    ensures b <==> |c| >= 12 && c[..12] == "private-user"
  {
    "private-user" <= c
  }

  /** The one key a write into a plain `{}` drops: `obj["__proto__"] = "online"` goes to the
      `Object.prototype.__proto__` setter, which ignores a value that is not an object, so no own
      property is created and the key never reaches the JSON answer. */
  const ProtoKey: string := "__proto__"

  /** A channel whose name leads to an entry in the answer. */
  predicate Stored(c: string)
  {
    IsUserChannel(c) && LastSegment(c) != ProtoKey
  }

  /** The map the endpoint answers with, for the channel names in the order they are visited:
      each user channel maps the segment after its last hyphen to "online", a repeated key is
      simply written again, and the key "__proto__" is dropped. */
  function OnlineSpec(channels: seq<string>): (r: map<string, string>)
    ensures forall k :: k in r ==> r[k] == "online" && '-' !in k
    ensures ProtoKey !in r
  {
    if channels == [] then map[]
    else
      var m, c := OnlineSpec(channels[..|channels| - 1]), channels[|channels| - 1];
      if Stored(c) then m[LastSegment(c) := "online"] else m
  }

  /** The loop over the channel names, writing one entry per user channel. */
  method OnlineUsers(channels: seq<string>) returns (m: map<string, string>)
    ensures m == OnlineSpec(channels)
  {
    m := map[];
    for i := 0 to |channels|
      invariant m == OnlineSpec(channels[..i])
    {
      var channel := channels[i];
      assert channels[..i + 1][..i] == channels[..i];
      if IsUserChannel(channel) {
        var user := LastSegment(channel);
        if user != ProtoKey {
          m := m[user := "online"];
        }
      }
    }
    assert channels[..|channels|] == channels;
  }

  /** A key is in the answer exactly when some user channel ends in it and it is not "__proto__". */
  lemma {:induction false} OnlineKeysComeFromUserChannels(channels: seq<string>, k: string)
    ensures k in OnlineSpec(channels) <==> exists c :: c in channels && Stored(c) && LastSegment(c) == k
  {
    if channels != [] {
      var init, last := channels[..|channels| - 1], channels[|channels| - 1];
      OnlineKeysComeFromUserChannels(init, k);
      assert channels == init + [last];
      if k in OnlineSpec(channels) {
        if Stored(last) && LastSegment(last) == k {
          assert last in channels;
        } else {
          var c :| c in init && Stored(c) && LastSegment(c) == k;
          assert c in channels;
        }
      }
      if exists c :: c in channels && Stored(c) && LastSegment(c) == k {
        var c :| c in channels && Stored(c) && LastSegment(c) == k;
        if c != last {
          assert c in init;
        }
      }
    }
  }

  /** Channels that are not user channels contribute nothing: adding one leaves the answer as it was. */
  lemma OtherChannelIgnored(channels: seq<string>, c: string)
    requires !IsUserChannel(c)
    ensures OnlineSpec(channels + [c]) == OnlineSpec(channels)
  {
    assert (channels + [c])[..|channels|] == channels;
  }

  /** The answer depends only on which names are listed: not on their order, nor on repeats. */
  lemma OrderAndRepeatsIrrelevant(a: seq<string>, b: seq<string>)
    requires forall c :: c in a <==> c in b
    ensures OnlineSpec(a) == OnlineSpec(b)
  {
    forall k ensures k in OnlineSpec(a) <==> k in OnlineSpec(b) {
      OnlineKeysComeFromUserChannels(a, k);
      OnlineKeysComeFromUserChannels(b, k);
    }
  }

  /** The key of a name is whatever follows its last hyphen. */
  lemma {:induction false} LastSegmentAfterHyphen(p: string, id: string)
    requires '-' !in id
    ensures LastSegment(p + "-" + id) == id
  {
    if id != [] {
      var front := id[..|id| - 1];
      assert (p + "-" + id)[..|p + "-" + id| - 1] == p + "-" + front;
      LastSegmentAfterHyphen(p, front);
      assert id == front + [id[|id| - 1]];
    } else {
      assert p + "-" + id == p + "-";
    }
  }

  /** Because the prefix test has no trailing hyphen, a channel named "private-users-x" counts as
      the channel of user "x" (unless "x" is "__proto__"). */
  lemma UsersPrefixQualifies(id: string)
    requires '-' !in id
    ensures OnlineSpec(["private-users-" + id]) == if id == ProtoKey then map[] else map[id := "online"]
  {
    var c := "private-users-" + id;
    assert c == "private-users" + "-" + id;
    LastSegmentAfterHyphen("private-users", id);
    assert IsUserChannel(c) by {
      assert c[..|"private-user"|] == "private-user";
    }
    var cs: seq<string> := [c];
    assert cs[..0] == [];
  }

  /** A user id containing a hyphen is cut down to the part after its last hyphen. */
  lemma HyphenatedIdTruncated(front: string, id: string)
    requires '-' !in id
    ensures OnlineSpec(["private-user-" + front + "-" + id]) == if id == ProtoKey then map[] else map[id := "online"]
  {
    var c := "private-user-" + front + "-" + id;
    LastSegmentAfterHyphen("private-user-" + front, id);
    assert IsUserChannel(c) by {
      assert c[..|"private-user"|] == "private-user";
    }
    var cs: seq<string> := [c];
    assert cs[..0] == [];
  }

  /** The user channel "private-user-__proto__" is listed, yet the answer stays empty. */
  lemma ProtoUserChannelDropped()
    ensures OnlineSpec(["private-user-" + ProtoKey]) == map[]
  {
    var c := "private-user-" + ProtoKey;
    assert c == "private-user" + "-" + ProtoKey;
    LastSegmentAfterHyphen("private-user", ProtoKey);
    var cs: seq<string> := [c];
    assert cs[..0] == [];
  }

  /** What the messaging service's channel listing returned. */
  datatype ChannelsFetch = Fetched(status: int, channels: seq<string>) | Failed

  /** The endpoint's answer: JSON with a status, the error answer, or none at all. */
  datatype Reply = Online(status: int, users: map<string, string>) | ServerError | NoReply

  /** The handler: a 200 listing is answered with 200 and the map; any other status leaves the
      request unanswered; a failed listing is answered with 500. */
  method HandleUserChannels(fetch: ChannelsFetch) returns (reply: Reply)
    ensures fetch.Failed? <==> reply == ServerError
    ensures fetch.Fetched? && fetch.status == 200 <==> reply.Online?
    ensures reply.Online? ==> reply.status == 200 && reply.users == OnlineSpec(fetch.channels)
  {
    match fetch
    case Failed =>
      reply := ServerError;
    case Fetched(status, channels) =>
      if status == 200 {
        var users := OnlineUsers(channels);
        reply := Online(200, users);
      } else {
        reply := NoReply;
      }
  }
}
