/** The two chat pages' state: the message list that inbound "message-event"s extend, and the draft
    that a submit posts and clears. Posting is an outbound call whose failure is only logged, so it
    is represented by the payload the page hands over. */
module ChatPages {
  import opened Wrappers
  import opened ChatBubbles

  /** The characters String.prototype.trim removes: ECMAScript white space and line terminators. */
  predicate IsTrimmed(c: char)
  {
    var n := c as int;
    || n == 0x09 || n == 0x0A || n == 0x0B || n == 0x0C || n == 0x0D || n == 0x20
    || n == 0xA0 || n == 0x1680 || (0x2000 <= n <= 0x200A) || n == 0x2028 || n == 0x2029
    || n == 0x202F || n == 0x205F || n == 0x3000 || n == 0xFEFF
  }

  /** Every character of `s` is white space (the empty text included). */
  predicate Blank(s: string)
  {
    forall k :: 0 <= k < |s| ==> IsTrimmed(s[k])
  }

  /** `s` without its leading white space. */
  function TrimStart(s: string): (r: string)
    ensures |r| <= |s| && r == s[|s| - |r|..]
    ensures Blank(s[..|s| - |r|])
    ensures r != [] ==> !IsTrimmed(r[0])
  {
    if s != [] && IsTrimmed(s[0]) then
      var r := TrimStart(s[1..]);
      assert s[..|s| - |r|] == [s[0]] + s[1..][..|s| - 1 - |r|];
      r
    else
      s
  }

  /** `s` without its trailing white space. */
  function TrimEnd(s: string): (r: string)
    ensures |r| <= |s| && r == s[..|r|]
    ensures Blank(s[|r|..])
    ensures r != [] ==> !IsTrimmed(r[|r| - 1])
  {
    if s != [] && IsTrimmed(s[|s| - 1]) then
      var r := TrimEnd(s[..|s| - 1]);
      assert s[|r|..] == s[..|s| - 1][|r|..] + [s[|s| - 1]];
      r
    else
      s
  }

  /** String.prototype.trim: no longer than `s`, and neither end is white space. */
  function Trim(s: string): (r: string)
    ensures |r| <= |s|
    ensures r != [] ==> !IsTrimmed(r[0]) && !IsTrimmed(r[|r| - 1])
  {
    TrimEnd(TrimStart(s))
  }

  /** Where the trimmed text starts in `s`: after the leading white space. */
  function TrimOffset(s: string): (i: nat)
    ensures i <= |s|
  {
    |s| - |TrimStart(s)|
  }

  /** A prefix of the suffix of `s` from `i` is the slice of `s` starting at `i`. */
  lemma PrefixOfSuffix(s: string, i: nat, t: string, r: string)
    requires i <= |s| && t == s[i..] && |r| <= |t| && r == t[..|r|]
    ensures i + |r| <= |s| && r == s[i..i + |r|]
  {
  }

  /** The trimmed text sits in `s` at its offset. */
  lemma TrimIsSlice(s: string)
    ensures var r, i := Trim(s), TrimOffset(s);
      i + |r| <= |s| && r == s[i..i + |r|]
  {
    var t, i := TrimStart(s), TrimOffset(s);
    var r := TrimEnd(t);
    PrefixOfSuffix(s, i, t, r);
  }

  /** Only white space follows the trimmed text. */
  lemma TrimTrailingBlank(s: string)
    ensures var r, i := Trim(s), TrimOffset(s);
      i + |r| <= |s| && Blank(s[i + |r|..])
  {
    var t, i := TrimStart(s), TrimOffset(s);
    var r := TrimEnd(t);
    assert s[i + |r|..] == t[|r|..];
  }

  /** Trim keeps a contiguous middle part of the text: everything before and after it is white
      space, and it neither starts nor ends with white space. */
  lemma TrimIsMiddle(s: string)
    ensures var r, i := Trim(s), TrimOffset(s);
      && i + |r| <= |s| && r == s[i..i + |r|]
      && Blank(s[..i]) && Blank(s[i + |r|..])
      && (r != [] ==> !IsTrimmed(r[0]) && !IsTrimmed(r[|r| - 1]))
  {
    TrimIsSlice(s);
    TrimTrailingBlank(s);
    var t := TrimStart(s);
    var r := TrimEnd(t);
    if r != [] {
      assert r[0] == t[0];
    }
  }

  /** Text made only of white space loses all of it at the front. */
  lemma {:induction false} TrimStartBlank(s: string)
    requires Blank(s)
    ensures TrimStart(s) == []
  {
    if s != [] {
      assert Blank(s[1..]) by {
        forall k | 0 <= k < |s| - 1 ensures IsTrimmed(s[1..][k]) {
          assert s[1..][k] == s[k + 1];
        }
      }
      TrimStartBlank(s[1..]);
    }
  }

  /** The text trims to nothing exactly when every character of it is white space. */
  lemma TrimEmptyIffBlank(s: string)
    ensures Trim(s) == [] <==> Blank(s)
  {
    TrimIsMiddle(s);
    if Trim(s) == [] {
      var t := TrimStart(s);
      assert t[0..] == t;
      assert t == [];
      forall k | 0 <= k < |s| ensures IsTrimmed(s[k]) {
        assert s[k] == s[..|s|][k];
      }
    }
    if Blank(s) {
      TrimStartBlank(s);
    }
  }

  /** Trimming twice changes nothing more. */
  lemma TrimIdempotent(s: string)
    ensures Trim(Trim(s)) == Trim(s)
  {
    var r := Trim(s);
    TrimIsMiddle(s);
    assert TrimStart(r) == r;
    assert TrimEnd(r) == r;
  }

  /** The payload of a "message-event": the text, who sent it and when. */
  datatype MessageEvent = MessageEvent(sender: Sender, message: string, createdAt: string)

  /** What the public page posts for broadcasting. */
  datatype PublicPost = PublicPost(message: string, createdAt: string, sender: Option<Sender>, chatId: string)

  /** What the first chat page posts for broadcasting. */
  datatype LegacyPost = LegacyPost(message: string, sender: Option<Sender>)

  /** The public chat page: newest message first. */
  class PublicChat {
    var chats: seq<ChatMessage>
    var messageToSend: string

    constructor ()
      ensures chats == [] && messageToSend == ""
    {
      chats, messageToSend := [], "";
    }

    /** The text area's change handler. */
    method OnChange(value: string)
      modifies this
      ensures messageToSend == value && chats == old(chats)
    {
      messageToSend := value;
    }

    /** An inbound "message-event": the new message goes in front of the unchanged old list. */
    method OnMessageEvent(data: MessageEvent)
      modifies this
      ensures |chats| == |old(chats)| + 1 && chats[1..] == old(chats)
      ensures chats[0] == ChatMessage(data.sender, data.message, Some(data.createdAt))
      ensures messageToSend == old(messageToSend)
    {
      chats := [ChatMessage(data.sender, data.message, Some(data.createdAt))] + chats;
    }

    /** handleSubmit: a draft that trims to nothing posts nothing and stays as it was; otherwise the
        trimmed text is posted to "chat-public" with the current time `now` and the session's user,
        and the draft is cleared whether or not the post succeeded. */
    method HandleSubmit(sessionUser: Option<Sender>, now: string) returns (post: Option<PublicPost>)
      modifies this
      ensures chats == old(chats)
      ensures Blank(old(messageToSend)) ==> post == None && messageToSend == old(messageToSend)
      ensures !Blank(old(messageToSend)) ==>
        post == Some(PublicPost(Trim(old(messageToSend)), now, sessionUser, "chat-public")) && messageToSend == ""
    {
      var message := Trim(messageToSend);
      TrimEmptyIffBlank(messageToSend);
      if message == "" {
        post := None;
        return;
      }
      post := Some(PublicPost(message, now, sessionUser, "chat-public"));
      messageToSend := "";
    }
  }

  /** The first chat page: oldest message first, no trimming. */
  class LegacyChat {
    var chats: seq<ChatMessage>
    var messageToSend: string

    constructor ()
      ensures chats == [] && messageToSend == ""
    {
      chats, messageToSend := [], "";
    }

    /** The input's change handler. */
    method OnChange(value: string)
      modifies this
      ensures messageToSend == value && chats == old(chats)
    {
      messageToSend := value;
    }

    /** An inbound "message-event": the new message goes after the unchanged old list. */
    method OnMessageEvent(data: MessageEvent)
      modifies this
      ensures |chats| == |old(chats)| + 1 && chats[..|old(chats)|] == old(chats)
      ensures chats[|old(chats)|] == ChatMessage(data.sender, data.message, None)
      ensures messageToSend == old(messageToSend)
    {
      chats := chats + [ChatMessage(data.sender, data.message, None)];
    }

    /** handleSubmit: the draft is posted as it is, even when empty or blank, and then cleared. */
    method HandleSubmit(sessionUser: Option<Sender>) returns (post: LegacyPost)
      modifies this
      ensures post == LegacyPost(old(messageToSend), sessionUser)
      ensures messageToSend == "" && chats == old(chats)
    {
      post := LegacyPost(messageToSend, sessionUser);
      messageToSend := "";
    }
  }
}
