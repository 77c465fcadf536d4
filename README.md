# wcard-mvp connections and chat, modelled in Dafny

This project models the part of wcard-mvp that handles invites, connections and chat:

- **Server routers.** The invite, connection and message routers are modelled as in-memory tables.
  - Each table is a class over a sequence of rows, with a counter that hands out fresh ids.
  - Each query is an equality filter. The message query also sorts newest first by creation time.
  - Each mutation inserts, updates or deletes by id.
- **Connect page.** The page's optimistic cache handlers run around each of its four mutations:
  - createInvite, updateInvite, createConnection and deleteInvite;
  - each has onMutate, onError and onSettled;
  - the React Query cache is a class holding a map from query key to list, plus the set of keys marked stale.

  The page also has the three lookup maps it builds from the cached lists. Finally, `getConnectionStatus` chooses the action each user row offers.
- **Chat pages.** There are two chat pages:
  - the public chat keeps the newest message first and trims the draft;
  - the first chat page keeps the oldest message first and posts the draft as it is.

  For each, the model covers how inbound "message-event"s extend the message list, what a submit posts, and how the draft is cleared. It also covers the avatar (`isImage`) and group (`isFirst`) flags each bubble gets from its neighbours.
- **Pusher endpoints.** The channel authorization endpoint has two 403 guards and builds presence data. The online-users endpoint turns the open channel names into a map from user id to "online".

Modules, one per file:

- `Wrappers` holds `Option`.
- `Seqs` holds filter and first-index.
- `Entities` holds the rows, the mutation inputs and delete-by-id.
- `InviteRouter`, `ConnectionRouter` and `MessageRouter` are the server.
- `QueryCache` and `ConnectPage` are the connect page.
- `ChatBubbles` and `ChatPages` are the two chat pages.
- `PusherAuth` and `UserChannels` are the two API handlers.

## Model

| member | source | states |
|---|---|---|
| InviteRouter.GetInvitesSentByUserId | src/server/router/invite.ts:7-14 | an invite is in the answer exactly when it is in the table and its sender is the id |
| InviteRouter.GetInvitesReceivedByUserId | src/server/router/invite.ts:15-22 | an invite is in the answer exactly when it is in the table and its recipient is the id |
| InviteRouter.IndexOfId | src/server/router/invite.ts:44-46 | the position found holds the requested id; no position means no row has it |
| InviteRouter.InviteTable.CreateInvite | src/server/router/invite.ts:23-36 | exactly one row is appended, with the given sender and recipient, the table's default status, the creation time given, and an id no existing row has; ids stay distinct |
| InviteRouter.InviteTable.UpdateInvite | src/server/router/invite.ts:37-51 | the row with the id gets the new status and every other row is unchanged; the result is present exactly when the id exists; `fromUserId` is not checked |
| InviteRouter.InviteTable.DeleteInvite | src/server/router/invite.ts:52-62 | the table becomes the old table without the row of that id, one row shorter; a missing id gives no result and changes nothing; `fromUserId` is not checked |
| Entities.Without | src/server/router/invite.ts:57-61 | a row survives a delete by id exactly when its id differs |
| Entities.WithoutAt | src/server/router/invite.ts:57-61 | with distinct ids, deleting the id found at one position removes exactly that position and keeps the order of the rest |
| Entities.WithoutAbsent | src/server/router/invite.ts:57-61 | deleting an id no row carries leaves the rows unchanged |
| ConnectionRouter.GetConnectionsByUserId | src/server/router/connection.ts:6-13 | a connection is in the answer exactly when it is in the table and starts at the id |
| ConnectionRouter.ConnectionTable.CreateConnection | src/server/router/connection.ts:14-35 | two rows are appended in order, from→to then to→from, with fresh distinct ids, the column defaults as chat ids and the creation time given; the result is those two rows |
| ConnectionRouter.PairExtendsQueries | src/server/router/connection.ts:6-35 | after the pair is inserted, each user's query answer is the old answer followed by the new row that starts at that user, and every other user's answer is unchanged |
| ConnectionRouter.BothDirectionsVisible | src/server/router/connection.ts:20-31 | after the pair is inserted, each of the two users sees a connection to the other |
| MessageRouter.ChatOf | src/server/router/message.ts:10-14 | the chat id returned belongs to a connection with that id; no answer means no connection has the id |
| MessageRouter.InsertNewestFirst | src/server/router/message.ts:29-31 | inserting into a newest-first list keeps it newest first and adds exactly that message |
| MessageRouter.SortNewestFirst | src/server/router/message.ts:29-31 | the result is newest first and is a permutation of the input |
| MessageRouter.GetMessagesByConnectionChatId | src/server/router/message.ts:6-34 | the result is newest first; a message is in it exactly when its connection's chat id is the one asked for; as a multiset it is exactly the filtered table |
| MessageRouter.MessageTable.CreateMessage | src/server/router/message.ts:35-65 | with an existing connection id, one row is appended carrying the given connection, users and text (even empty), the creation time given and a fresh id; with an unknown connection id nothing changes |
| MessageRouter.AppendGrowsItsChat | src/server/router/message.ts:6-65 | a new message in a chat adds exactly itself to that chat's answer |
| MessageRouter.AppendKeepsOtherChats | src/server/router/message.ts:6-65 | a new message leaves the answer of every other chat unchanged |
| QueryCache.Lookup | src/pages/connect.tsx:69-72 | `getQueryData` on the entries: present exactly when the key is cached, and then the cached list |
| QueryCache.Cache.GetQueryData | src/pages/connect.tsx:137-140 | present exactly when the key is cached, and then the cached list |
| QueryCache.Write | src/pages/connect.tsx:104-114 | after setQueryData the key reads the data written, or is absent when no data was given; every other key reads as before |
| QueryCache.WriteBackRestores | src/pages/connect.tsx:104-114 | writing back a key's snapshot after any write to that key restores the whole cache |
| QueryCache.Cache.SetQueryData | src/pages/connect.tsx:78-96 | the entries become the old entries with that one key written |
| QueryCache.Cache.InvalidateQueries | src/pages/connect.tsx:115-122 | no entry changes; the key is marked stale |
| ConnectPage.WithTempInvite | src/pages/connect.tsx:85-95 | the old list is kept as a prefix, followed by one placeholder invite with id "temp", status PENDING and the given users |
| ConnectPage.WithStatus | src/pages/connect.tsx:153-161 | same length; exactly the invites with the id get the new status and the others are unchanged |
| ConnectPage.WithTempConnection | src/pages/connect.tsx:212-221 | the old list is kept as a prefix, followed by one placeholder connection whose id and chat id are "temp" |
| ConnectPage.WithStatusIdempotent | src/pages/connect.tsx:153-161 | applying the same status change twice is the same as applying it once |
| ConnectPage.WithStatusAbsent | src/pages/connect.tsx:153-161 | a status change for an id no invite carries changes nothing |
| ConnectPage.CreateInviteOnMutate | src/pages/connect.tsx:62-103 | returns the snapshot of the sender's sent-invites entry; that entry gets the placeholder appended when it exists; nothing else changes |
| ConnectPage.CreateInviteOnError | src/pages/connect.tsx:104-114 | the sender's sent-invites entry is overwritten with the snapshot |
| ConnectPage.CreateInviteOnSettled | src/pages/connect.tsx:115-122 | only the sender's sent-invites key is marked stale |
| ConnectPage.UpdateInviteOnMutate | src/pages/connect.tsx:127-169 | returns the snapshot of the received-invites entry; when it exists it gets the status change; nothing else changes |
| ConnectPage.UpdateInviteOnError | src/pages/connect.tsx:170-175 | as written: the received snapshot is written into the sent-invites key |
| ConnectPage.UpdateInviteOnErrorCorrected | src/pages/connect.tsx:137-142 | the received snapshot is written back into the received-invites key it came from |
| ConnectPage.UpdateInviteOnSettled | src/pages/connect.tsx:176-181 | only the sent-invites key is marked stale |
| ConnectPage.CreateConnectionOnMutate | src/pages/connect.tsx:186-229 | returns the snapshot of the caller's connections entry; when it exists the placeholder is appended; nothing else changes |
| ConnectPage.CreateConnectionOnError | src/pages/connect.tsx:230-235 | the caller's connections entry is overwritten with the snapshot |
| ConnectPage.CreateConnectionOnSettled | src/pages/connect.tsx:236-241 | only the caller's connections key is marked stale |
| ConnectPage.DeleteInviteOnMutate | src/pages/connect.tsx:246-277 | returns the snapshot of the sender's sent-invites entry; when it exists the invite with the id is filtered out; nothing else changes |
| ConnectPage.DeleteInviteOnError | src/pages/connect.tsx:278-288 | the sender's sent-invites entry is overwritten with the snapshot |
| ConnectPage.DeleteInviteOnSettled | src/pages/connect.tsx:289-296 | only the sender's sent-invites key is marked stale |
| ConnectPage.RunCreateInvite | src/pages/connect.tsx:61-123 | on failure the cache entries are exactly restored; on success the entry holds the optimistic list; the key ends stale |
| ConnectPage.RunUpdateInvite | src/pages/connect.tsx:126-182 | as written, a failure leaves the optimistic status in place and puts the received snapshot into the sent key |
| ConnectPage.RunUpdateInviteCorrected | src/pages/connect.tsx:126-182 | with the corrected rollback, a failure restores the cache entries exactly |
| ConnectPage.RunCreateConnection | src/pages/connect.tsx:185-242 | on failure the cache entries are exactly restored; on success the placeholder connection follows the existing ones |
| ConnectPage.RunDeleteInvite | src/pages/connect.tsx:245-297 | on failure the cache entries are exactly restored; on success the entry lacks the deleted invite |
| ConnectPage.UpdateInviteRollbackMisses | src/pages/connect.tsx:137-174 | concrete cache in which a failed accept leaves the cache different from before: the received entry stays accepted and the sent entry holds the received invite |
| ConnectPage.LastByKey | src/pages/connect.tsx:299-320 | the map `forEach` with `map.set` builds: every stored element carries the key it is stored under |
| ConnectPage.IndexBy | src/pages/connect.tsx:300-320 | the loop builds the map in which each key goes to the last element carrying it; missing data gives the empty map |
| ConnectPage.LastByKeyIsLast | src/pages/connect.tsx:300-320 | a key is in the map exactly when some element carries it, and it maps to the last such element |
| ConnectPage.BuildMaps | src/pages/connect.tsx:299-320 | the three maps index sent invites by recipient, received invites by sender, and connections by the other user |
| ConnectPage.GetConnectionStatus | src/pages/connect.tsx:323-446 | precedence: a connection opens its chat; else a pending received invite offers accept and reject; else a rejected one offers accept; else no sent invite offers connect; else PENDING offers cancel, REJECTED shows closed, ACCEPTED shows nothing; the buttons' mutation inputs are exact |
| ConnectPage.ActionsTargetRowUser | src/pages/connect.tsx:339-436 | on maps built from the lists, accepting connects to the row's user with a received invite's id, and cancelling deletes a pending invite sent to that user |
| ChatBubbles.SideOf | src/pages/chat/index.tsx:116 | a bubble is on the right exactly when its sender's name equals the session user's name |
| ChatBubbles.PublicBubbles | src/pages/chat/index.tsx:113-131 | side by name equality; avatar when the previous entry is from another sender or there is none; group start when the next entry is from another sender or there is none |
| ChatBubbles.LegacyBubbles | src/pages/chat.tsx:124-140 | side by name equality; avatar when the next entry is from another sender or there is none |
| ChatBubbles.AvatarOnSameMessages | src/pages/chat.tsx:130-137 | the two pages, one newest first and one oldest first, put the avatar on the same messages |
| ChatBubbles.PrependKeepsOlderBubbles | src/pages/chat/index.tsx:42-45 | prepending a message changes no older bubble except the avatar of the one right after it |
| ChatBubbles.AppendKeepsEarlierBubbles | src/pages/chat.tsx:73-78 | appending a message changes no earlier bubble except the avatar of the previously last one, whose side is kept; the new one has the avatar |
| ChatBubbles.ImagesMatchFirsts | src/pages/chat/index.tsx:119-126 | the number of avatars equals the number of group starts |
| ChatPages.Trim | src/pages/chat/index.tsx:61 | `trim()`: no longer than the draft, and neither end of the result is white space |
| ChatPages.TrimStart | src/pages/chat/index.tsx:61 | a suffix of the text; everything dropped is white space; it does not start with white space |
| ChatPages.TrimEnd | src/pages/chat/index.tsx:61 | a prefix of the text; everything dropped is white space; it does not end with white space |
| ChatPages.TrimIsMiddle | src/pages/chat/index.tsx:61 | the trimmed text is a contiguous part of the draft, with only white space around it, and it neither starts nor ends with white space |
| ChatPages.TrimEmptyIffBlank | src/pages/chat/index.tsx:61-63 | the draft trims to nothing exactly when it is all white space |
| ChatPages.TrimIdempotent | src/pages/chat/index.tsx:61 | trimming twice gives what trimming once does |
| ChatPages.PublicChat.OnChange | src/pages/chat/index.tsx:143 | the draft becomes the value; the list is unchanged |
| ChatPages.PublicChat.OnMessageEvent | src/pages/chat/index.tsx:42-45 | the event's message goes in front of the unchanged list |
| ChatPages.PublicChat.HandleSubmit | src/pages/chat/index.tsx:57-83 | a blank draft posts nothing and is kept; otherwise the trimmed text is posted with the time, the session user and "chat-public", and the draft is cleared |
| ChatPages.LegacyChat.OnChange | src/pages/chat.tsx:151 | the draft becomes the value; the list is unchanged |
| ChatPages.LegacyChat.OnMessageEvent | src/pages/chat.tsx:73-78 | the event's message goes after the unchanged list, without a time |
| ChatPages.LegacyChat.HandleSubmit | src/pages/chat.tsx:89-101 | the raw draft, even empty, is posted with the session user, and the draft is cleared |
| PusherAuth.SessionUserId | src/pages/api/pusher/auth.ts:26 | `session.user?.id`: with a user, that user's id; without one, no id |
| PusherAuth.Authorize | src/pages/api/pusher/auth.ts:16-46 | refused exactly when there is no session or the session's user id differs from the body's; it throws exactly when both are absent and the session has no user; a grant forwards socket and channel and carries the session's id (equal to the requested one), name, email and image |
| PusherAuth.StatusCode | src/pages/api/pusher/auth.ts:22-28 | 403 exactly on refusal, 200 exactly on a grant |
| PusherAuth.DecisionIgnoresChannel | src/pages/api/pusher/auth.ts:17-43 | changing the channel changes only the channel the grant names, never the decision |
| PusherAuth.GrantOnlyForOwnId | src/pages/api/pusher/auth.ts:26-31 | a request under an id other than the session user's is refused; a grant's presence id is the requested id |
| UserChannels.LastSegment | src/pages/api/pusher/user-channels.ts:26 | the result has no hyphen, is a suffix of the name, and is preceded by a hyphen when shorter than the name |
| UserChannels.IsUserChannel | src/pages/api/pusher/user-channels.ts:25 | `startsWith("private-user")`: the name is at least twelve characters long and its first twelve are "private-user" |
| UserChannels.OnlineSpec | src/pages/api/pusher/user-channels.ts:20-28 | every value of the answer is "online", no key contains a hyphen, and "__proto__" is never a key, because writing it into the plain `{}` hits the prototype setter |
| UserChannels.OnlineUsers | src/pages/api/pusher/user-channels.ts:20-28 | the loop builds exactly the map of the announced user ids, skipping the write of "__proto__" that the plain object drops |
| UserChannels.OnlineKeysComeFromUserChannels | src/pages/api/pusher/user-channels.ts:20-28 | a key is present exactly when some "private-user" channel ends in it and the key is not "__proto__" |
| UserChannels.ProtoUserChannelDropped | src/pages/api/pusher/user-channels.ts:20-31 | the listing "private-user-__proto__" is answered with the empty map |
| UserChannels.OtherChannelIgnored | src/pages/api/pusher/user-channels.ts:25 | a channel without the prefix adds nothing to the answer |
| UserChannels.OrderAndRepeatsIrrelevant | src/pages/api/pusher/user-channels.ts:24-28 | lists with the same names, in any order and with any repeats, give the same map |
| UserChannels.LastSegmentAfterHyphen | src/pages/api/pusher/user-channels.ts:26 | whatever follows the last hyphen is the key |
| UserChannels.UsersPrefixQualifies | src/pages/api/pusher/user-channels.ts:25-27 | a channel "private-users-" followed by a hyphen-free id, such as "private-users-x", yields that id as a key (the empty map when the id is "__proto__"), because the prefix has no trailing hyphen |
| UserChannels.HyphenatedIdTruncated | src/pages/api/pusher/user-channels.ts:26 | "private-user-" + front + "-" + id yields only the part after the last hyphen, as in "private-user-ab-cd" giving "cd" (the empty map when that part is "__proto__") |
| UserChannels.HandleUserChannels | src/pages/api/pusher/user-channels.ts:15-37 | a 200 listing is answered with 200 and the map; another status gets no answer; a thrown listing gets 500 |

## Left out

- Pusher networking is not modelled: subscribing, binding and unbinding, `trigger`, `pusher.get`, and the signature `authorizeChannel` computes.
  - Inbound events enter the model as method calls.
  - Outbound posts are the payloads the pages return.
  - src/pages/api/pusher/index.ts triggers "chat-event" on "chat". That does not match the "message-event" the pages bind, so the two are not connected in the model.
- React Query timing is not modelled: `cancelQuery`, the refetch that invalidation starts, `initialData` and hook re-rendering. Invalidation only marks the key stale.
- Ids, timestamps, the invite status default and the connection chat id default come from the database. They are parameters or counters here.
  - The two rows of a new connection each take their column's default (`chatIdTo`, `chatIdFrom`).
  - The router sets no chat id on either row, so the model does not assume the two rows share one.
- InviteRouter.InviteTable.CreateInvite: linking to users that do not exist makes the database call fail. The user table is not part of this model, so this failure is not modelled. The same holds for the users that `createMessage` links.
- ConnectionRouter.ConnectionTable.CreateConnection: the two inserts are separate awaits with no transaction (src/server/router/connection.ts:20-31), and either can fail on a missing user. When the second fails, the first row stays in the table. The model has no failure path, so this partial insert is not represented.
- MessageRouter.MessageTable.CreateMessage: the router has no empty-text check and does not compare `input.chatId` with the connection's chat id, so the model accepts the empty text and ignores `input.chatId` too.
- MessageRouter.GetMessagesByConnectionChatId: the `include` of sender and recipient names and images is a join with the user table. It is not modelled. The ordering among messages with equal creation times is not pinned down; the result is stated up to that.
- QueryCache.Write: `setQueryData` with no data, which is the rollback when no snapshot was taken, is represented as the key becoming absent.
- `getServerSideProps`, scrolling and focus, page routing and rendering are left out. So are the presence-channel member tracking and the src/pages/chat/[chatId].tsx page, which are not part of this model.
- PusherAuth.Authorize:
  - the body's `userId` is a string or absent; a non-string JSON value is not modelled;
  - a throw is represented as `Crashed` with status 500, which is the framework's default for an uncaught error.
- ChatBubbles.SideOf: in JavaScript, `chat.sender` being undefined throws while rendering. Senders are always present in the model.
  - A missing name is `None` in the model whether JavaScript has `null` or `undefined`. Where one side is `null` and the other `undefined`, `===` is false but the model puts the bubble on the right.
- Entities.Invite has no `locationId`. The optimistic placeholder sets it to `null` (src/pages/connect.tsx:92), and nothing in this model reads it. The placeholder's `new Date()` (src/pages/connect.tsx:93) is the opaque integer `now`.
- ChatPages.PublicChat.HandleSubmit: the post's failure is only logged, so the draft is cleared either way. The model does not distinguish the two outcomes.
- ChatPages.PublicChat.HandleSubmit and ChatPages.LegacyChat.HandleSubmit: each is one step that posts and clears. The source awaits the post and only then calls `setMessageToSend("")` (src/pages/chat/index.tsx:71-82, src/pages/chat.tsx:91-100). Text typed while the post is pending is therefore wiped by the clear. The model has no interleaving of `OnChange` inside a submit, so it does not show this.
- UserChannels.HandleUserChannels: the listing body is given as its channel names, in `Object.keys` order.
- Strings are sequences of Dafny `char`s, which are Unicode scalar values, whereas a JavaScript string is a sequence of UTF-16 code units.
  - A string holding a lone surrogate cannot be represented in the model.
  - A character outside the Basic Multilingual Plane is one `char` here but two code units in JavaScript.
  - Every character that `trim` removes, and the '-' that the channel names are split on, lies in the Basic Multilingual Plane. So trimming and splitting agree with JavaScript on every string the model can hold.

## Findings

| source | as written | input that shows it | evidently intended | confidence | as-written member | corrected member |
|---|---|---|---|---|---|---|
| src/pages/connect.tsx:170-175 | the updateInvite rollback writes the received-invites snapshot into the `invite.getInvitesSentByUserId` key | user "b" holds one pending received invite and an empty sent list; accepting it fails; afterwards the received list still shows it ACCEPTED and the sent list shows the received invite | write the snapshot back into `invite.getInvitesReceivedByUserId` (where lines 137-142 took it), which restores the cache | not executed | ConnectPage.UpdateInviteRollbackMisses | ConnectPage.RunUpdateInviteCorrected |
