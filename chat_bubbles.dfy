/** How the two chat pages lay out their message lists: which side a bubble goes on and which
    bubbles carry the sender's avatar, decided by comparing a message with its neighbours. */
module ChatBubbles {
  import opened Wrappers

  /** The sender of a chat message, as the session describes a user. */
  datatype Sender = Sender(id: string, name: Option<string>, image: Option<string>)

  /** An entry of a page's message list; only the public page records a creation time. */
  datatype ChatMessage = ChatMessage(sender: Sender, message: string, createdAt: Option<string>)

  datatype Side = Left | Right

  /** The public page's bubble: its side, whether it shows the avatar, and whether it opens a group. */
  datatype Bubble = Bubble(side: Side, isImage: bool, isFirst: bool)

  /** The first page's bubble: its side and whether it shows the avatar. */
  datatype LegacyBubble = LegacyBubble(side: Side, isImage: bool)

  /** A bubble is on the right when its sender's name equals the signed-in user's name; ids are
      not compared. A missing name is `None` on both sides, so a sender without a name lands on
      the right for a session without one. */
  function SideOf(m: ChatMessage, sessionName: Option<string>): (r: Side)
    ensures r == Right <==> m.sender.name == sessionName
  {
    if m.sender.name == sessionName then Right else Left
  }

  /** `array[j]?.sender.id !== array[i].sender.id`: an index outside the list reads `undefined`,
      which differs from every id. */
  predicate NeighbourDiffers(chats: seq<ChatMessage>, i: nat, j: int)
    requires i < |chats|
  {
    !(0 <= j < |chats|) || chats[j].sender.id != chats[i].sender.id
  }

  /** The public page's bubbles (the list is newest first): the avatar when the previous entry is
      from someone else, `isFirst` when the next entry is. */
  function PublicBubbles(chats: seq<ChatMessage>, sessionName: Option<string>): (r: seq<Bubble>)
    ensures |r| == |chats|
    ensures forall i :: 0 <= i < |r| ==> r[i].side == SideOf(chats[i], sessionName)
    ensures forall i :: 0 <= i < |r| ==> (r[i].isImage <==> i == 0 || chats[i - 1].sender.id != chats[i].sender.id)
    ensures forall i :: 0 <= i < |r| ==> (r[i].isFirst <==> i == |chats| - 1 || chats[i + 1].sender.id != chats[i].sender.id)
  {
    seq(|chats|, i requires 0 <= i < |chats| =>
      Bubble(SideOf(chats[i], sessionName), NeighbourDiffers(chats, i, i - 1), NeighbourDiffers(chats, i, i + 1)))
  }

  /** The first page's bubbles (the list is oldest first): the avatar when the next entry is from
      someone else. */
  function LegacyBubbles(chats: seq<ChatMessage>, sessionName: Option<string>): (r: seq<LegacyBubble>)
    ensures |r| == |chats|
    ensures forall i :: 0 <= i < |r| ==> r[i].side == SideOf(chats[i], sessionName)
    ensures forall i :: 0 <= i < |r| ==> (r[i].isImage <==> i == |chats| - 1 || chats[i + 1].sender.id != chats[i].sender.id)
  {
    seq(|chats|, i requires 0 <= i < |chats| =>
      LegacyBubble(SideOf(chats[i], sessionName), NeighbourDiffers(chats, i, i + 1)))
  }

  /** The list reversed. */
  function Reverse<T>(s: seq<T>): (r: seq<T>)
    ensures |r| == |s|
    ensures forall i :: 0 <= i < |s| ==> r[i] == s[|s| - 1 - i]
  {
    if s == [] then [] else Reverse(s[1..]) + [s[0]]
  }

  /** The public page keeps the newest message first and the first page keeps it last. Given the
      same messages, both put the avatar on the same ones: the newest message of each run from one
      sender, which is the one drawn lowest on screen. */
  lemma AvatarOnSameMessages(chats: seq<ChatMessage>, sessionName: Option<string>, j: nat)
    requires j < |chats|
    ensures PublicBubbles(Reverse(chats), sessionName)[|chats| - 1 - j].isImage == LegacyBubbles(chats, sessionName)[j].isImage
  {
  }

  /** A message prepended by an inbound event changes no older bubble, except that the bubble right
      after it may gain or lose its avatar. */
  lemma PrependKeepsOlderBubbles(chats: seq<ChatMessage>, m: ChatMessage, sessionName: Option<string>)
    requires chats != []
    ensures var before, after := PublicBubbles(chats, sessionName), PublicBubbles([m] + chats, sessionName);
      && (forall i :: 1 <= i < |chats| ==> after[i + 1] == before[i])
      && after[1].side == before[0].side && after[1].isFirst == before[0].isFirst
      && after[1].isImage == (m.sender.id != chats[0].sender.id)
  {
    var before, after := PublicBubbles(chats, sessionName), PublicBubbles([m] + chats, sessionName);
    var longer := [m] + chats;
    forall i | 1 <= i < |chats| ensures after[i + 1] == before[i] {
      assert longer[i + 1] == chats[i] && longer[i] == chats[i - 1];
      assert i + 2 < |longer| ==> longer[i + 2] == chats[i + 1];
    }
    assert longer[1] == chats[0] && longer[0] == m;
    assert |chats| > 1 ==> longer[2] == chats[1];
  }

  /** A message appended by an inbound event on the first page changes no bubble except the
      previously last one, which may lose its avatar. */
  lemma AppendKeepsEarlierBubbles(chats: seq<ChatMessage>, m: ChatMessage, sessionName: Option<string>)
    requires chats != []
    ensures var before, after := LegacyBubbles(chats, sessionName), LegacyBubbles(chats + [m], sessionName);
      && after[..|chats| - 1] == before[..|chats| - 1]
      && after[|chats| - 1].side == before[|chats| - 1].side
      && after[|chats| - 1].isImage == (m.sender.id != chats[|chats| - 1].sender.id)
      && after[|chats|].isImage
  {
    var after := chats + [m];
    assert forall i :: 0 <= i < |chats| ==> after[i] == chats[i];
  }

  /** How many bubbles carry the avatar, and how many open a group. */
  function CountImages(bs: seq<Bubble>): nat
  {
    if bs == [] then 0 else (if bs[0].isImage then 1 else 0) + CountImages(bs[1..])
  }

  function CountFirsts(bs: seq<Bubble>): nat
  {
    if bs == [] then 0 else (if bs[0].isFirst then 1 else 0) + CountFirsts(bs[1..])
  }

  /** Past its first bubble, a list's bubbles are those of its tail, except for the tail's first
      avatar, which the list keeps only when its first two messages come from different senders. */
  lemma BubblesOfTail(chats: seq<ChatMessage>, sessionName: Option<string>)
    requires |chats| > 1
    ensures var whole, rest := PublicBubbles(chats, sessionName), PublicBubbles(chats[1..], sessionName);
      && whole[1..][1..] == rest[1..]
      && whole[1].isFirst == rest[0].isFirst && rest[0].isImage
      && whole[1].isImage == (chats[0].sender.id != chats[1].sender.id)
  {
    var tail := chats[1..];
    var whole, rest := PublicBubbles(chats, sessionName), PublicBubbles(tail, sessionName);
    forall i | 0 <= i < |rest| - 1 ensures whole[1..][1..][i] == rest[1..][i] {
      assert chats[i + 2] == tail[i + 1] && chats[i + 1] == tail[i];
      assert i + 3 < |chats| ==> chats[i + 3] == tail[i + 2];
    }
    assert |chats| > 2 ==> chats[2] == tail[1];
  }

  /** On the public page every run of consecutive messages from one sender has exactly one avatar
      and exactly one group-opening bubble, so the two counts agree. */
  lemma {:induction false} ImagesMatchFirsts(chats: seq<ChatMessage>, sessionName: Option<string>)
    ensures CountImages(PublicBubbles(chats, sessionName)) == CountFirsts(PublicBubbles(chats, sessionName))
  {
    if |chats| > 1 {
      var whole, rest := PublicBubbles(chats, sessionName), PublicBubbles(chats[1..], sessionName);
      ImagesMatchFirsts(chats[1..], sessionName);
      BubblesOfTail(chats, sessionName);
      var differs := chats[0].sender.id != chats[1].sender.id;
      assert CountFirsts(whole[1..]) == CountFirsts(rest);
      assert CountImages(whole[1..]) == CountImages(rest) - 1 + (if differs then 1 else 0);
    }
  }
}
