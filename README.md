# FlowChat core, modelled in Dafny

FlowChat is a team chat application: workspaces hold channels, channels hold
messages with threads and emoji reactions, and users also talk in direct-message
conversations. This project models its core and proves properties of the model:

- the backend's REST handlers (`authController`, `workspaceController`,
  `channelController`, `messageController`, `dmController`, `searchController`,
  `userController`, `uploadController`) and the upload middleware, each handler
  as a method over a `Store.Db` class whose fields are the database tables.
  Entity tables are sequences of rows in table order; join tables are maps keyed
  by their composite primary key; reactions are a set of
  `(user, message, emoji)` triples. `Db.Valid()` is the set of unique
  constraints and foreign keys the handlers rely on, and every handler keeps
  it. Each handler returns a `Response` (status code with body, status code
  with error text, or the validation error list). Its contract states the
  reply each guard of the handler gives and the new state of the tables
  through `Db.Snapshot()`; where the outcome depends only on the request and
  the tables, it also states when the handler succeeds;
- the realtime gateway (`socket/index.ts`) as a `Gateway.Server` class holding
  the live connections, their rooms and the per-user socket keys. Each event
  handler returns the deliveries it makes: who receives which event;
- the web client's stores (`channelStore`, `workspaceStore`, `messageStore`,
  `dmStore`) as classes whose methods reassign their fields, with the keyed-list
  updates as functions and the laws between them as lemmas;
- the web client's components (`Sidebar`, `DMList`, `MessageReactions`), the
  `@mention` tokenizer, and the mobile client's channel screen. The reaction
  `reduce` and the mention `exec` loop are methods with loop invariants, proved
  equal to the functions that specify them; the mobile screen reverses the
  fetched page in place on an array.

Request bodies and query strings come in as `Option`, `Field` (a key left out
versus present) and `Param` (missing, given once, or given several times, which
Express delivers as an array) so that every guard of the source is modelled with
its error reply. Fresh ids, the clock and random numbers are parameters of the
operations that use them.

## Model

| member | source | states |
|---|---|---|
| Common.LastIndexOf | backend/src/controllers/authController.ts:9 | `lastIndexOf` of one character, used for the '@' of an e-mail and the '.' of a file name: the position of the character's last occurrence, after which it does not occur, or none when it does not occur |
| AuthController.Split | backend/src/controllers/authController.ts:9 | at least one part, and no part holds the separator |
| AuthController.SplitJoin | backend/src/controllers/authController.ts:9 | joining the parts with the separator gives the string back |
| AuthController.ShortTopLabelRefused | backend/src/controllers/authController.ts:9 | `isEmail` refuses a one-letter top-level domain: "a@b.c" is not an e-mail |
| AuthController.EmptyAtomRefused | backend/src/controllers/authController.ts:9 | `isEmail` refuses an empty part between dots of the local part: "a..b@x.com" is not an e-mail |
| AuthController.PlainAddressAccepted | backend/src/controllers/authController.ts:9 | `isEmail` accepts a plain address: "j.d@x.io" is an e-mail |
| AuthController.RegisterErrors | backend/src/controllers/authController.ts:8-17 | no errors exactly when `IsEmail` (validator's `isEmail` with its default options: length limits, a dot-separated local part, a domain of at least two labels with a top-level label of two or more letters) accepts the e-mail, the user name is 3 to 30 characters from `[a-zA-Z0-9_]` and the password has a `ValidatorLength` of at least 6; a bad e-mail reports "Invalid email address" first |
| AuthController.LoginErrors | backend/src/controllers/authController.ts:85-88 | no errors exactly when `IsEmail` accepts the e-mail and the password is non-empty |
| AuthController.ProfileName | backend/src/controllers/authController.ts:18-19 | a first or last name is stored trimmed, and an absent or blank one is stored as null (`firstName \|\| null`) |
| AuthController.Clash | backend/src/controllers/authController.ts:32-36 | the `findFirst` with `OR` finds a user exactly when some user has the e-mail or the user name, and what it finds is such a user |
| AuthController.ClashMessage | backend/src/controllers/authController.ts:38-44 | "Email already registered" exactly when the found user's e-mail is the one given, "Username already taken" otherwise |
| AuthController.Register | backend/src/controllers/authController.ts:22-83 | validation errors give 400 with the error list and no change; a clash gives 400 with its message and no change; success stores exactly one new user, with the hashed password and null empty names, returns 201 with a token for the new id; valid input without a clash succeeds exactly when the new id is not stored yet, and fails with 500 "Registration failed" and no change otherwise; the store invariant is kept |
| AuthController.CreateAccount | backend/src/controllers/authController.ts:31-78 | after validation: the clash case; without a clash, success exactly when the new id is free, writing exactly the one new user row, and otherwise the failed insert (500 "Registration failed", no change) |
| AuthController.Login | backend/src/controllers/authController.ts:90-141 | validation errors give 400 and no change; an unknown e-mail, a user without a password and a wrong password all give the same 401 "Invalid credentials" and no change; success returns 200 with a token for the user and changes only that user's status to ONLINE and `lastSeenAt` |
| AuthController.Authenticate | backend/src/controllers/authController.ts:99-136 | the part after validation, with the three 401 cases and the one success case as above |
| AuthController.GetMe | backend/src/controllers/authController.ts:143-171 | 404 "User not found" exactly when the caller's row is missing, otherwise that row |
| AuthController.UpdateProfile | backend/src/controllers/authController.ts:173-203 | a missing user gives 500 and no change; otherwise 200 with the patched user, and the users table changes only in the caller's four profile fields |
| AuthController.ProfileUpdated | backend/src/controllers/authController.ts:178-185 | the users table keeps its length and order; the caller's row is patched and every other row is unchanged |
| AuthController.ProfileUpdatedValid | backend/src/controllers/authController.ts:178-185 | a profile update keeps ids, e-mails and user names unique |
| AuthController.Patched | backend/src/controllers/authController.ts:181-184 | only firstName, lastName, avatar and customStatus can differ; each field sent as undefined keeps its old value and each field sent takes the value sent |
| ChannelController.CreateChannelErrors | backend/src/controllers/channelController.ts:6-11 | no errors exactly when the name has a `ValidatorLength` of 1 to 80 and all its characters are from `[a-z0-9-_]` |
| ChannelController.CreateChannel | backend/src/controllers/channelController.ts:16-89 | a name failing validation gives 400 with the errors and no change; otherwise the outcome is the one `ChannelCreated` describes; the store invariant is kept |
| ChannelController.CreateNamedChannel | backend/src/controllers/channelController.ts:27-84 | a caller outside the workspace gets 403 and no change; a name already used in the workspace gets 400 and no change; for a member and a free name, success exactly when the channel id is not stored yet, and otherwise 500 "Failed to create channel" and no change; success adds exactly the new channel (`isPrivate` only when sent as true, description trimmed) and the caller as its only member, as ADMIN |
| ChannelController.GetChannels | backend/src/controllers/channelController.ts:91-154 | 403 exactly for a caller outside the workspace; otherwise exactly the workspace's non-archived channels that are public or have the caller as a member, oldest first, each as often as the table holds it (a permutation of the filtered table) |
| ChannelController.GetChannel | backend/src/controllers/channelController.ts:156-203 | 404 exactly when no channel with that id is public or has the caller as a member, with no workspace-membership or archived check; otherwise that channel |
| ChannelController.PatchChannel | backend/src/controllers/channelController.ts:224-231 | id, workspace, privacy and creation time never change; a field sent as undefined keeps its value and a field sent takes the value sent |
| ChannelController.PatchedChannelsValid | backend/src/controllers/channelController.ts:224-231 | patching one channel to a name that is free in its workspace keeps ids and `(workspace, name)` pairs unique, keeps the stored ids and keeps every row's workspace |
| ChannelController.UpdateChannel | backend/src/controllers/channelController.ts:205-238 | 403 and no change unless the caller is an ADMIN of the channel; on success only that channel's row is patched; a name another channel of the workspace has makes the update fail with 500 and no change, and every other admin update succeeds |
| ChannelController.JoinChannel | backend/src/controllers/channelController.ts:240-307 | 404 for an unknown channel, 403 for a caller outside its workspace, 400 for an existing member, each with no change; otherwise the join succeeds and exactly one MEMBER row is added, whether or not the channel is private |
| ChannelController.LeaveChannel | backend/src/controllers/channelController.ts:309-341 | 404 for an unknown channel and 400 for a channel named `general`, with no change; a caller who is not a member gets 500 from the failing delete and no change; otherwise exactly the caller's membership is removed |
| ChannelStore.ChannelState.constructor | frontend/src/store/channelStore.ts:19-21 | the initial state is an empty channel list and no current channel |
| ChannelStore.ChannelState.SetChannels | frontend/src/store/channelStore.ts:22 | the list is replaced wholesale; the current channel is unchanged |
| ChannelStore.ChannelState.SetCurrentChannel | frontend/src/store/channelStore.ts:23 | only the current channel changes; the list is unchanged |
| ChannelStore.ChannelState.AddChannel | frontend/src/store/channelStore.ts:24-25 | the channel is appended at the end, the old entries keep their order and nothing is deduplicated |
| WorkspaceStore.WorkspaceState.constructor | frontend/src/store/workspaceStore.ts:19-21 | the initial state is an empty workspace list and no current workspace |
| WorkspaceStore.WorkspaceState.SetWorkspaces | frontend/src/store/workspaceStore.ts:22 | the list is replaced wholesale; the current workspace is unchanged |
| WorkspaceStore.WorkspaceState.SetCurrentWorkspace | frontend/src/store/workspaceStore.ts:23 | only the current workspace changes |
| WorkspaceStore.WorkspaceState.AddWorkspace | frontend/src/store/workspaceStore.ts:24-25 | the workspace is appended at the end without deduplication |
| KeyedLists.Put | frontend/src/store/messageStore.ts:31-34 | the key holds the new list and every other key is unchanged |
| KeyedLists.Append | frontend/src/store/messageStore.ts:35-41 | the key's list (empty when missing or undefined) gains the element at its end and keeps its old entries; every other key is unchanged |
| KeyedLists.Patch | frontend/src/store/messageStore.ts:42-50 | a missing list becomes `undefined`; a present one keeps its length and order, selected entries are transformed and the rest are identical; every other key is unchanged |
| KeyedLists.Prune | frontend/src/store/messageStore.ts:51-57 | a missing list becomes `undefined`; a present one keeps exactly the entries that pass; every other key is unchanged |
| KeyedLists.PruneKeepsOrder | frontend/src/store/messageStore.ts:55 | pruning a concatenation prunes each part, so the survivors keep their relative order |
| KeyedLists.AppendThenPrune | frontend/src/store/messageStore.ts:35-57 | appending an element the filter rejects and then pruning restores the list, and the whole record when the key held a list |
| MessageStore.Merge | frontend/src/store/messageStore.ts:47 | `{ ...msg, ...updates }`: for each of the six fields, a value given in the updates overrides, and a field left out keeps the old value |
| MessageStore.MergeLaws | frontend/src/store/messageStore.ts:47 | merging no updates changes nothing, and merging the same updates twice equals merging them once |
| MessageStore.Updated | frontend/src/store/messageStore.ts:42-50 | the channel's list keeps its length and order; entries with the id get the updates merged over them and all others are identical; a channel with no list ends up `undefined`; other channels are unchanged |
| MessageStore.Deleted | frontend/src/store/messageStore.ts:51-57 | the channel's list keeps exactly the entries whose id differs; a channel with no list ends up `undefined`; other channels are unchanged |
| MessageStore.DeletedKeepsOrder | frontend/src/store/messageStore.ts:55 | deleting from a concatenated list deletes from each part, so the rest keep their relative order |
| MessageStore.AddThenDeleteRestores | frontend/src/store/messageStore.ts:35-57 | adding a message with a fresh id and then deleting that id restores the previous list, and the whole record when the channel had a list |
| MessageStore.MessageState.constructor | frontend/src/store/messageStore.ts:30 | the initial record is empty |
| MessageStore.MessageState.SetMessages | frontend/src/store/messageStore.ts:31-34 | the record becomes `Put` of the old one |
| MessageStore.MessageState.AddMessage | frontend/src/store/messageStore.ts:35-41 | the record becomes `Append` of the old one |
| MessageStore.MessageState.UpdateMessage | frontend/src/store/messageStore.ts:42-50 | the record becomes `Updated` of the old one |
| MessageStore.MessageState.DeleteMessage | frontend/src/store/messageStore.ts:51-57 | the record becomes `Deleted` of the old one |
| DmStore.Merge | frontend/src/store/dmStore.ts:65 | `{ ...msg, ...updates }` on a direct message: for each of the six fields, a value given overrides and a field left out keeps its value |
| DmStore.Updated | frontend/src/store/dmStore.ts:60-68 | the conversation's list keeps its length and order and only entries with the id get the updates; a conversation with no list ends up `undefined`; other keys are unchanged |
| DmStore.Deleted | frontend/src/store/dmStore.ts:69-75 | the conversation's list keeps exactly the entries whose id differs; no list ends up `undefined`; other keys are unchanged |
| DmStore.DeletedKeepsOrder | frontend/src/store/dmStore.ts:73 | deleting from a concatenation deletes from each part, so the order of the rest is kept |
| DmStore.AddThenDeleteRestores | frontend/src/store/dmStore.ts:53-75 | adding a message with a fresh id and deleting that id restores the list |
| DmStore.DmState.constructor | frontend/src/store/dmStore.ts:41-44 | the initial state is no conversations, no open conversation and an empty message record |
| DmStore.DmState.SetConversations | frontend/src/store/dmStore.ts:45 | the list is replaced wholesale and nothing else changes |
| DmStore.DmState.SetCurrentConversation | frontend/src/store/dmStore.ts:46 | only the open conversation changes |
| DmStore.DmState.AddConversation | frontend/src/store/dmStore.ts:47-48 | the conversation is prepended, without deduplication by id, and nothing else changes |
| DmStore.DmState.SetMessages | frontend/src/store/dmStore.ts:49-52 | only that conversation's list is replaced |
| DmStore.DmState.AddMessage | frontend/src/store/dmStore.ts:53-59 | the message is appended to that conversation's list, a missing list counting as empty |
| DmStore.DmState.UpdateMessage | frontend/src/store/dmStore.ts:60-68 | the record becomes `Updated` of the old one and nothing else changes |
| DmStore.DmState.DeleteMessage | frontend/src/store/dmStore.ts:69-75 | the record becomes `Deleted` of the old one and nothing else changes |
| Credentials.GenerateToken | backend/src/controllers/authController.ts:71 | a token is never empty |
| Credentials.VerifyGenerated | backend/src/socket/index.ts:20 | a token made for a user verifies, and to that user |
| Credentials.OnlyGeneratedVerify | backend/src/socket/index.ts:20 | a token that verifies to a user is the one generated for that user |
| Credentials.HashPassword | backend/src/controllers/authController.ts:48 | the stored hash is never the password itself |
| Credentials.HashInjective | backend/src/controllers/authController.ts:109 | two passwords with the same hash are equal, so the password check admits only the registered password |
| Store.Db.constructor | backend/src/controllers/authController.ts:51-59 | the database starts with every table empty and its unique constraints hold |
| Store.Db.AddUser | backend/src/controllers/authController.ts:51-59 | a user row that clashes with no id, e-mail or user name is appended, the unique constraints still hold and no other table changes |
| Store.Db.AddChannel | backend/src/controllers/channelController.ts:52-63 | a channel whose id and name are free in its workspace is appended and no other table changes |
| Store.Db.AddWorkspace | backend/src/controllers/workspaceController.ts:36-60 | the nested create adds the workspace, its owner membership, the `general` channel and its admin membership, and nothing else; afterwards these are the only rows that name the new workspace or the new channel |
| Store.Db.AddWorkspaceRow | backend/src/controllers/workspaceController.ts:36-41 | a workspace with a free id and slug is appended and no other table changes |
| Store.Db.AddWorkspaceMember | backend/src/controllers/workspaceController.ts:281-287 | one workspace membership row of a stored user and workspace is added and nothing else changes |
| Store.Db.AddConversation | backend/src/controllers/dmController.ts:122-132 | a conversation with a free id is appended with participant rows of stored users and nothing else changes |
| Store.Db.SetChannels | backend/src/controllers/channelController.ts:224-231 | an update that keeps channel ids and workspaces replaces the channel table and nothing else |
| Store.Db.SetWorkspaces | backend/src/controllers/workspaceController.ts:219-227 | an update that keeps workspace ids and slugs replaces the workspace table and nothing else |
| Store.Db.SetConversations | backend/src/controllers/dmController.ts:302-305 | an update that keeps conversation ids replaces the conversation table and nothing else |
| Store.Db.AddChannelMember | backend/src/controllers/channelController.ts:283 | one channel membership row is added and nothing else changes |
| Store.Db.SetLastRead | backend/src/controllers/messageController.ts:95-105 | only that member's `lastReadAt` moves to now |
| Store.Db.SetDmLastRead | backend/src/controllers/dmController.ts:244-254 | only that participant's `lastReadAt` moves to now |
| Store.Db.AddMessage | backend/src/socket/index.ts:99-105 | a message with a fresh id is appended and no other table changes |
| Store.Db.AddDirectMessage | backend/src/controllers/dmController.ts:281-287 | a direct message with a fresh id, with all its columns including `attachments`, is appended and no other table changes |
| Store.SetPresence | backend/src/socket/index.ts:33-36 | the user with that id gets the new status and last-seen time; every other row and the order are unchanged |
| Store.SetPresenceValid | backend/src/socket/index.ts:320-323 | a presence change keeps user ids, e-mails and user names unique |
| DmList.FirstOther | frontend/src/components/DMList.tsx:126-128 | the index of the first participant who is not the signed-in user, or none when every participant is that user |
| DmList.ConversationName | frontend/src/components/DMList.tsx:124-130 | a non-empty name wins; otherwise the first other participant's non-empty user name; otherwise "Unknown User" |
| DmList.Preview | frontend/src/components/DMList.tsx:137 | content whose `length` (in UTF-16 code units) is at most fifty is shown whole; longer content shows the longest prefix of at most fifty code units followed by "..." |
| DmList.PreviewIsPrefix | frontend/src/components/DMList.tsx:137 | a preview is the content or a cut-off prefix of it, and never longer than fifty-three characters |
| DmList.PreviewBmp | frontend/src/components/DMList.tsx:137 | for text inside the Basic Multilingual Plane, content of at most fifty characters is shown whole and longer content shows its first fifty characters followed by "..." |
| DmList.PreviewCountsSurrogatePairs | frontend/src/components/DMList.tsx:137 | twenty-six emoji outside the Basic Multilingual Plane are cut after twenty-five, as each counts two code units |
| Common.Utf16Prefix | frontend/src/components/DMList.tsx:137 | `substring(0, n)`: a prefix of at most `n` UTF-16 code units that one more character would take past `n` |
| Common.ValidatorLength | backend/src/controllers/workspaceController.ts:8 | the length `isLength` compares (JavaScript's `length` less one per surrogate pair and one per U+FE0E or U+FE0F): never more than the character count, and equal to it exactly when the string holds no presentation selector |
| Common.ValidatorLengthConcat | backend/src/controllers/workspaceController.ts:8 | the `isLength` count of a concatenation is the sum of the counts |
| Common.ValidatorLengthAppend | backend/src/controllers/workspaceController.ts:8 | appending U+FE0E or U+FE0F leaves the `isLength` count unchanged; any other character adds one |
| Common.SelectorsHaveNoLength | backend/src/controllers/workspaceController.ts:8 | a string of presentation selectors only has an `isLength` count of zero |
| WorkspaceController.SelectorsOnlyNameRefused | backend/src/controllers/workspaceController.ts:7-9 | a workspace name of presentation selectors only, such as a lone U+FE0F, gets "Name must be between 1 and 100 characters" first |
| Common.JsonOrNull | backend/src/controllers/dmController.ts:286 | the `attachments` written, or null: a value exactly when the field was sent with a truthy JSON value (any array or object, even an empty one, a non-empty string, a non-zero number or `true`), and then that value |
| Common.Utf16PrefixBmp | frontend/src/components/DMList.tsx:137 | inside the Basic Multilingual Plane, the cut keeps the first `n` characters |
| DmList.LastMessage | frontend/src/components/DMList.tsx:132-138 | "No messages yet" exactly when the payload has no messages; otherwise the preview of the first message |
| DmList.UnreadBadge | frontend/src/components/DMList.tsx:160-177 | a badge is shown exactly when the count is above zero; it reads "99+" exactly when the count is above ninety-nine, and one or two digits otherwise |
| DmList.CreateDm | frontend/src/components/DMList.tsx:111-122 | the request asks for a one-to-one conversation with that user; on success the conversation is put first and opened; on failure nothing changes |
| DmList.NewDmDialog.constructor | frontend/src/components/DMList.tsx:16-17 | the dialog opens with no results and not loading |
| DmList.NewDmDialog.SearchUsers | frontend/src/components/DMList.tsx:19-35 | a blank query is never sent and clears the results; any other query is sent as typed, and the results, or none on failure, replace the list with loading reset |
| DmController.ViewSpec | backend/src/controllers/dmController.ts:32-53 | a listed conversation carries its own row, its message count, and as preview no message when it has none, otherwise one of its messages that no other message of it postdates |
| DmController.GetConversations | backend/src/controllers/dmController.ts:5-65 | the answer lists exactly the caller's conversations, each with its view, most recently active first; the conversations listed are a permutation of the caller's rows of the table, so none is listed twice |
| DmController.ListingSpec | backend/src/controllers/dmController.ts:9-58 | the listing holds exactly the conversations the user takes part in, sorted by `updatedAt` descending |
| DmController.ParticipantRows | backend/src/controllers/dmController.ts:122-132 | a participant row for the new conversation exists for exactly the listed ids, each last read at creation time |
| DmController.CreateConversation | backend/src/controllers/dmController.ts:67-156 | 400 without participants; a one-to-one request answers 200 with an existing shared non-group conversation whenever one exists, and changes nothing; otherwise 201 with a new conversation whose participants are the caller and the listed ids; otherwise a request that reuses nothing succeeds exactly when the new id is free, every listed user exists and no user is listed twice (the caller included), and a failed insert is a 500 that changes nothing |
| DmController.GetConversation | backend/src/controllers/dmController.ts:158-199 | the conversation is returned exactly when it exists and the caller takes part in it; otherwise 404 |
| DmController.DmPageSpec | backend/src/controllers/dmController.ts:219-256 | a page holds at most `limit` messages of that conversation, before the cursor when one is given, oldest first, and no omitted matching message is newer than a returned one |
| DmController.GetDmMessages | backend/src/controllers/dmController.ts:201-261 | non-participants get 403 and nothing changes; participants get the page, and only their `lastReadAt` moves to now |
| DmController.Bumped | backend/src/controllers/dmController.ts:302-305 | only the conversation with that id gets `updatedAt` set to the send time; the table keeps its order |
| DmController.BumpedKeepsKeys | backend/src/controllers/dmController.ts:302-305 | bumping keeps conversation ids unique and the set of stored ids the same |
| DmController.BumpedOther | backend/src/controllers/dmController.ts:302-305 | every row other than the bumped one is unchanged |
| DmController.SendDmMessage | backend/src/controllers/dmController.ts:263-312 | non-participants get 403; a participant whose body has content and whose new id is free gets 201, the message is added with the body's `attachments`, or null when they are falsy (`JsonOrNull`), and the conversation bumped; a missing content or a taken id is a 500 that changes nothing |
| DmController.SendMovesToFront | backend/src/controllers/dmController.ts:302-305 | after a send later than all activity, that conversation heads the sender's list |
| DmController.UpdateDmMessage | backend/src/controllers/dmController.ts:314-356 | 404 for an unknown message, 403 for another sender's; otherwise only that row changes: its content, when given, is replaced and it is marked edited |
| DmController.DeleteDmMessage | backend/src/controllers/dmController.ts:358-385 | 404 for an unknown message, 403 for another sender's; otherwise exactly that row is removed |
| Gateway.InRoom | backend/src/socket/index.ts:121 | `io.to(room)` reaches exactly the connections subscribed to the room |
| Gateway.InRoomExcept | backend/src/socket/index.ts:133 | `socket.to(room)` reaches exactly the room's connections other than the sender |
| Gateway.StatusDeliveries | backend/src/socket/index.ts:73-79 | one `user:status` emit per loaded workspace, to that workspace's room without the sender |
| Gateway.JoinInitialRooms | backend/src/socket/index.ts:65-70 | the rooms joined are exactly the member workspaces' rooms and the rooms of those workspaces' channels the user is a member of |
| Gateway.JoinWorkspace | backend/src/socket/index.ts:66-69 | one outer turn adds the workspace's room and the room of each listed channel, and nothing else |
| Gateway.InitialRoomStep | backend/src/socket/index.ts:65-70 | the rooms due for one more workspace are those due for the ones before, plus that workspace's room and its member channels' rooms |
| Gateway.Server.constructor | backend/src/socket/index.ts:11 | the server starts with no connections and no socket keys |
| Gateway.Server.Connect | backend/src/socket/index.ts:13-79 | no token is refused with "Authentication required", a bad one with "Invalid token"; a verified token of an unknown user sets nothing up; otherwise the user goes online, the socket key is recorded, the connection joins exactly its initial rooms and each member workspace is told |
| Gateway.Server.SendMessage | backend/src/socket/index.ts:81-129 | a non-member gets an error only; a failed insert gets "Failed to send message" only; otherwise the message is stored and sent to the whole channel room, sender included |
| Gateway.Server.Typing | backend/src/socket/index.ts:131-148 | the typing event goes to the channel room without the sender and nothing is stored |
| Gateway.Server.UpdateMessage | backend/src/socket/index.ts:150-195 | a missing message or another author's gets "Cannot edit this message"; otherwise only that row is edited and the update goes to the room of the stored message's channel |
| Gateway.Server.DeleteMessage | backend/src/socket/index.ts:197-223 | a missing message or another author's gets "Cannot delete this message"; otherwise exactly that row is removed and the room of its channel is told |
| Gateway.Server.AddReaction | backend/src/socket/index.ts:225-257 | a triple that cannot be inserted changes nothing and emits nothing; otherwise it is added and the message's channel room is told |
| Gateway.Server.RemoveReaction | backend/src/socket/index.ts:259-300 | only an existing triple of the caller is removed and announced; otherwise nothing happens |
| Gateway.Server.JoinChannel | backend/src/socket/index.ts:303-307 | only this connection's rooms gain the channel room, with no membership check |
| Gateway.Server.LeaveChannel | backend/src/socket/index.ts:309-313 | only this connection's rooms lose the channel room; memberships are untouched |
| Gateway.Server.Disconnect | backend/src/socket/index.ts:316-335 | the connection is dropped, the user goes offline, the user's socket key is deleted and the workspaces loaded at connect time are told |
| MessageController.MessagePageSpec | backend/src/controllers/messageController.ts:32-107 | a page holds at most `limit` top-level messages of the channel inside the `before`/`after` window, oldest first, and no omitted matching message is newer than a returned one |
| MessageController.GetMessages | backend/src/controllers/messageController.ts:13-112 | a non-member gets 403 and nothing changes; a member gets the page, `before` winning over `after`, and only their `lastReadAt` moves to now |
| MessageController.GetThreadReplies | backend/src/controllers/messageController.ts:114-177 | 404 for an unknown message, 403 for a non-member of its channel; otherwise exactly the message's replies, oldest first, a permutation of the reply rows of the table |
| MessageController.Edited | backend/src/controllers/messageController.ts:197-204 | the written row has the new content and `edited` set, and every other field as before |
| MessageController.UpdateMessage | backend/src/controllers/messageController.ts:179-231 | 404 for an unknown message, 403 for another author's; otherwise only that row is replaced by its edited version |
| MessageController.DeleteMessage | backend/src/controllers/messageController.ts:233-259 | 404 for an unknown message, 403 for another author's; otherwise exactly that row is removed |
| MessageController.AddReaction | backend/src/controllers/messageController.ts:261-307 | 400 without an emoji or for a triple already present; 201 and the triple added when the user and the message exist; otherwise a 500 that changes nothing |
| MessageController.RemoveReaction | backend/src/controllers/messageController.ts:309-330 | an existing triple is removed with 200; a missing one is a 500 that changes nothing |
| MessageController.WorkspaceSearchSpec | backend/src/controllers/messageController.ts:342-373 | at most `limit` hits, each in a channel of the workspace the caller belongs to and containing the query ignoring case, newest first, none omitted newer than one returned |
| MessageController.SearchMessages | backend/src/controllers/messageController.ts:332-398 | a missing or empty query is a 400, a repeated one a 500; a non-empty query answers the workspace search, and only then succeeds |
| SearchController.MessageSearchSpec | backend/src/controllers/searchController.ts:14-97 | at most `limit` hits, each a message in the scope containing the trimmed query ignoring case, newest first, and no omitted hit newer than a returned one |
| SearchController.SearchMessages | backend/src/controllers/searchController.ts:5-124 | a query that is not one string whose trimmed `length` (in UTF-16 code units) is at least two is a 400; a channel needs the caller's membership and a workspace the caller's workspace membership (403 otherwise), the channel winning; a repeated scope parameter is a 500; the search succeeds exactly when none of these applies, and a success carries the search and its count |
| SearchController.EmojiQueryAdmitted | backend/src/controllers/searchController.ts:10 | a single emoji outside the Basic Multilingual Plane passes the two-character guard, as its `length` is two |
| SearchController.PaddedLetterRefused | backend/src/controllers/searchController.ts:10 | one letter between blanks trims to one character and is refused |
| SearchController.DmSearchSpec | backend/src/controllers/searchController.ts:135-168 | at most `limit` hits, each a direct message of the named conversation or of one the caller takes part in, containing the query ignoring case, newest first, and no omitted hit newer than a returned one |
| SearchController.SearchDms | backend/src/controllers/searchController.ts:126-190 | the same query guard; a repeated conversation id is a 500; otherwise it succeeds with the search and its count, a named conversation being searched whether or not the caller takes part |
| UserController.PublicAll | backend/src/controllers/userController.ts:36-44 | each returned user is the public projection of the matching row, in order, never with the password hash |
| UserController.SearchUsers | backend/src/controllers/userController.ts:5-52 | a query that is not one non-empty string is a 400; a repeated workspace id is a 500; otherwise it returns the public form of the user search, with the first ten matches in table order standing for any ten the store may pick |
| UserController.UserSearchSpec | backend/src/controllers/userController.ts:14-35 | at most ten users, each matching the query in username, e-mail or a name ignoring case, none the caller, all members of the workspace when one is given; with fewer than ten, every match is included |
| UserController.GetUsers | backend/src/controllers/userController.ts:54-86 | a missing workspace id is a 400, a repeated one a 500; it succeeds exactly when one non-empty workspace id is given, with exactly the public forms of the workspace's members, whoever asks, each as often as the user table holds the member (a permutation of the filtered table) |
| WorkspaceController.CreateWorkspaceErrors | backend/src/controllers/workspaceController.ts:6-12 | no error exactly when the name has a `ValidatorLength` of 1 to 100 and the slug is non-empty lowercase letters, digits and hyphens; at most one error per field |
| WorkspaceController.CreateWorkspace | backend/src/controllers/workspaceController.ts:16-87 | invalid input is a 400 with the validation errors, a taken slug a 400; valid input with a free slug succeeds exactly when the new workspace and channel ids are free and the caller is a stored user; on success the workspace, the caller's owner membership, the public `general` channel and the caller's admin membership of it are added and nothing else, so the caller is the workspace's only member, an OWNER, and the only member of `general`, an ADMIN, and `general` is its only channel; a failure changes nothing |
| WorkspaceController.ListedChannels | backend/src/controllers/workspaceController.ts:93-129 | the channels listed for a workspace are exactly its public channels and the private ones the user is a member of |
| WorkspaceController.GetWorkspaces | backend/src/controllers/workspaceController.ts:89-137 | exactly the caller's workspaces are listed, each with its listed channels; the listed workspaces are a permutation of the caller's rows of the table, so none is listed twice |
| WorkspaceController.GetWorkspace | backend/src/controllers/workspaceController.ts:139-194 | a 404 exactly when the workspace does not exist or the caller is not a member; otherwise the workspace with its listed channels |
| WorkspaceController.PatchWorkspace | backend/src/controllers/workspaceController.ts:219-227 | the id, slug and creation time never change; each field left out of the body keeps its value and each field sent takes the value sent |
| WorkspaceController.PatchedWorkspacesValid | backend/src/controllers/workspaceController.ts:219-227 | patching a workspace keeps ids and slugs unique and the stored ids the same |
| WorkspaceController.UpdateWorkspace | backend/src/controllers/workspaceController.ts:196-234 | non-owners and non-admins get 403 and no change; every owner or admin succeeds, and only that workspace's row is patched |
| WorkspaceController.InviteRole | backend/src/controllers/workspaceController.ts:281-287 | a missing or empty role becomes `MEMBER`; `OWNER` and `ADMIN` map to themselves; exactly the texts outside the role enumeration are refused |
| WorkspaceController.InviteToWorkspace | backend/src/controllers/workspaceController.ts:236-323 | the outcome is the one `Invited` describes, and the store invariant is kept |
| WorkspaceController.AddInvitedMember | backend/src/controllers/workspaceController.ts:280-318 | the member row is written; then, if the workspace has a `general` channel the user already belongs to, the reply is 500 with the member row left behind; otherwise 201, with the user added to `general` as a MEMBER when it exists |
| Upload.MaxFileSize | backend/src/config/env.ts:13 | without a configured ceiling the limit is 10485760 bytes |
| Upload.AllowedMimesSpec | backend/src/middleware/upload.ts:25-37 | the allow-list names eleven distinct types |
| Upload.ExtName | backend/src/middleware/upload.ts:18 | the extension is empty or a '.'-led suffix of the name with no other '.'; it is empty exactly when the name has no '.', starts with its only '.' or is ".." |
| Upload.StoredNameSplits | backend/src/middleware/upload.ts:16-19 | a stored name reads back as the time stamp, a '-', the random number and the original extension |
| Upload.Admit | backend/src/middleware/upload.ts:23-52 | a file is stored exactly when its type is allowed and its size is within the limit; a disallowed type gets the type error and an oversized allowed file the size error; a stored file keeps its original name, type and size under the generated name |
| Upload.TypeDecisionOnlyByMime | backend/src/middleware/upload.ts:39-43 | two files of the same type get the same type decision, whatever their names and sizes |
| UploadController.Url | backend/src/controllers/uploadController.ts:11 | the url is `/uploads/` followed by the stored file name |
| UploadController.UrlInjective | backend/src/controllers/uploadController.ts:11 | two files with the same url have the same stored name |
| UploadController.Reply | backend/src/controllers/uploadController.ts:13-21 | the reply copies the stored file's name, original name, type and size, and adds its url |
| UploadController.UploadFile | backend/src/controllers/uploadController.ts:5-26 | a 400 exactly when no file came; otherwise 201 with the file's reply |
| UploadController.UploadMultipleFiles | backend/src/controllers/uploadController.ts:28-47 | a 400 exactly when the files are missing, not a list or empty; otherwise 201 with one reply per file, in order |
| Mentions.NextMention | frontend/src/utils/mentions.ts:2-7 | `exec` from `lastIndex` finds the first '@' followed by a word character at or after it, or none when there is no such '@' |
| Mentions.WordEnd | frontend/src/utils/mentions.ts:2 | the greedy `\w+` run starting at a position ends at the first non-word character or the end of the input |
| Mentions.ParseMentions | frontend/src/utils/mentions.ts:1-29 | the `exec` loop with its moving `lastIndex` returns exactly the parts `Parse` defines |
| Mentions.ScanFlatten | frontend/src/utils/mentions.ts:7-26 | the parts produced from a position on cover exactly the rest of the input |
| Mentions.ParseReproduces | frontend/src/utils/mentions.ts:1-29 | concatenating the parts' texts gives back the message exactly |
| Mentions.ScanShape | frontend/src/utils/mentions.ts:9-18 | every mention produced is '@' and a non-empty word, no text part is empty and no two text parts are adjacent |
| Mentions.BlockShape | frontend/src/utils/mentions.ts:9-18 | one turn of the loop yields an optional non-empty text part and then a well-formed mention |
| Mentions.ParseShape | frontend/src/utils/mentions.ts:1-29 | every mention returned is '@' and a non-empty word; for a non-empty message no text part is empty and no two are adjacent |
| Mentions.ParseWithoutMentions | frontend/src/utils/mentions.ts:24-28 | a message with no match comes back as the single text part holding it, the empty message included |
| Mentions.BlockEnd | frontend/src/utils/mentions.ts:20 | the next `lastIndex` lies past the matched '@' and its first word character |
| Mentions.BlockSplit | frontend/src/utils/mentions.ts:7-21 | one turn of the loop consumes the input up to the end of the match and the scan continues from there |
| Mentions.ScanPlaced | frontend/src/utils/mentions.ts:14-18 | each mention from a position on sits at an '@' of the input followed by its word, which cannot be extended |
| Mentions.PlacedInBlock | frontend/src/utils/mentions.ts:14-18 | the mention of one turn sits where the match was found |
| Mentions.ParsePlaced | frontend/src/utils/mentions.ts:1-29 | each mention returned sits at an '@' of the message followed by its maximal word |
| Mentions.ScanKeepsStrayAt | frontend/src/utils/mentions.ts:9-11 | an '@' not followed by a word character lies inside a text part of the scan |
| Mentions.StrayInTail | frontend/src/utils/mentions.ts:24-26 | with no match left, any position lies inside the trailing text part |
| Mentions.StrayBeforeMatch | frontend/src/utils/mentions.ts:9-11 | a position before the next match lies inside that turn's text part |
| Mentions.StrayAfterMatch | frontend/src/utils/mentions.ts:2 | an '@' that cannot start a match is not inside the next match |
| Mentions.StrayAtStaysText | frontend/src/utils/mentions.ts:1-29 | an '@' not followed by a word character stays in a text part of the result |
| Mentions.MentionAfterWordChar | frontend/src/utils/mentions.ts:2 | a match may follow a word character: "a@b" gives the text "a" and the mention of "b" |
| MessageReactions.WithEmoji | frontend/src/components/MessageReactions.tsx:31-37 | the reactions collected under an emoji are exactly those carrying it |
| MessageReactions.WithEmojiAppend | frontend/src/components/MessageReactions.tsx:35 | one more reaction lands at the end of its own emoji's list and nowhere else |
| MessageReactions.EmojisAppend | frontend/src/components/MessageReactions.tsx:32-34 | one more reaction adds its emoji as the last key exactly when it is not a key yet |
| MessageReactions.EmojisMembers | frontend/src/components/MessageReactions.tsx:31-37 | an emoji is a key exactly when some reaction carries it |
| MessageReactions.EmojisDistinct | frontend/src/components/MessageReactions.tsx:32-34 | no emoji is a key twice |
| MessageReactions.Grouped | frontend/src/components/MessageReactions.tsx:50 | what the bar shows when the `reduce` does not throw: one group per key, in key order, each holding that emoji's reactions |
| MessageReactions.GroupReactions | frontend/src/components/MessageReactions.tsx:31-37 | the `reduce` throws (no groups) exactly when some reaction's emoji is an own property name of `Object.prototype` (`constructor`, `toString`, `__proto__`, …), which `{}` inherits so that `acc[emoji]` is truthy and has no `push`; otherwise it yields exactly the groups `Grouped` defines |
| MessageReactions.AccStep | frontend/src/components/MessageReactions.tsx:32-35 | one step of the `reduce` keeps the accumulator's keys and arrays those of the prefix read so far |
| MessageReactions.GroupedPartition | frontend/src/components/MessageReactions.tsx:31-37 | the groups partition the reactions: distinct emojis, each group exactly the reactions with its emoji, and every reaction in some group |
| MessageReactions.TotalShift | frontend/src/components/MessageReactions.tsx:64 | raising one badge by one raises the sum of the badges by one |
| MessageReactions.GroupedTotal | frontend/src/components/MessageReactions.tsx:64 | the badge counts add up to the number of reactions |
| MessageReactions.TotalStep | frontend/src/components/MessageReactions.tsx:64 | one more reaction raises the sum of the badges by exactly one |
| MessageReactions.BadgeStep | frontend/src/components/MessageReactions.tsx:64 | one more reaction raises its own emoji's badge by one and leaves every other badge as it was |
| MessageReactions.EmojisInFirstOccurrenceOrder | frontend/src/components/MessageReactions.tsx:50 | the badges appear in the order in which their emojis first occur among the reactions |
| MessageReactions.FirstInFront | frontend/src/components/MessageReactions.tsx:32 | an emoji that is already a key first occurs before the newest reaction |
| MessageReactions.FirstIsLast | frontend/src/components/MessageReactions.tsx:32 | an emoji that is not a key yet first occurs at the newest reaction |
| MessageReactions.Title | frontend/src/components/MessageReactions.tsx:61 | the tooltip of a badge with no reactions is empty and of one with a single reaction is that user's name |
| MessageReactions.Reacted | frontend/src/components/MessageReactions.tsx:51 | true exactly when some reaction is by that user |
| MessageReactions.HasUserReacted | frontend/src/components/MessageReactions.tsx:51 | the badge is highlighted exactly when someone is signed in and has a reaction in it |
| MessageReactions.Lookup | frontend/src/components/MessageReactions.tsx:40 | an emoji is found exactly when some group has it, and the reactions returned are that group's |
| MessageReactions.LookupGrouped | frontend/src/components/MessageReactions.tsx:40 | looking an emoji up among the groups gives exactly its reactions, or nothing when it has none |
| MessageReactions.ClickAction | frontend/src/components/MessageReactions.tsx:39-46 | a click asks to remove exactly when the signed-in user already reacted with that emoji, and to add otherwise |
| MessageReactions.PickerAction | frontend/src/components/MessageReactions.tsx:77-80 | the picker always asks to add the chosen emoji |
| MessageReactions.PickerIgnoresExisting | frontend/src/components/MessageReactions.tsx:39-80 | for an emoji the user already reacted with, a click asks to remove it while the picker asks to add it again |
| Sidebar.RunEnd | frontend/src/components/Sidebar.tsx:40 | the end of the run of white space starting at a position |
| Sidebar.Slug | frontend/src/components/Sidebar.tsx:40 | the slug is never longer than the name |
| Sidebar.SlugChars | frontend/src/components/Sidebar.tsx:40 | a slug holds no white space and no upper-case letter |
| Sidebar.SlugOfWord | frontend/src/components/Sidebar.tsx:40 | a name without white space slugs to its lower-case form |
| Sidebar.SlugIdempotent | frontend/src/components/Sidebar.tsx:40 | slugging a slug changes nothing |
| Sidebar.SlugConcat | frontend/src/components/Sidebar.tsx:40 | slugging distributes over a split that does not cut a run of white space |
| Sidebar.SlugRun | frontend/src/components/Sidebar.tsx:40 | each maximal run of white space becomes exactly one '-' |
| Sidebar.SidebarState.constructor | frontend/src/components/Sidebar.tsx:13-14 | the form opens with an empty name and closed |
| Sidebar.SidebarState.CreateChannel | frontend/src/components/Sidebar.tsx:34-51 | nothing is sent exactly when no workspace is current or the name is blank; otherwise the slugged name is sent as a public channel of the current workspace, and on success the returned channel is appended and the form cleared and closed, on failure nothing changes |
| Sidebar.SidebarState.SelectWorkspace | frontend/src/components/Sidebar.tsx:60-63 | the current workspace becomes the loaded workspace with the chosen id, or none exactly when the list is not loaded or lacks it; the list is untouched |
| ChannelScreen.DisplayName | FlowChatMobile/src/screens/ChannelScreen.tsx:55 | the first name when it is given and non-empty, the user name otherwise |
| ChannelScreen.FormatMessage | FlowChatMobile/src/screens/ChannelScreen.tsx:49-58 | the chat message keeps the server message's id, text and time, and names its author by the display name |
| ChannelScreen.FormatAll | FlowChatMobile/src/screens/ChannelScreen.tsx:39 | the list formats every message, in order |
| ChannelScreen.LoadedNewestFirst | FlowChatMobile/src/screens/ChannelScreen.tsx:36-47 | a page the server sends oldest first is shown newest first |
| ChannelScreen.Prepended | FlowChatMobile/src/screens/ChannelScreen.tsx:60-67 | a new message goes in front of the list and the rest is unchanged |
| ChannelScreen.Updated | FlowChatMobile/src/screens/ChannelScreen.tsx:69-77 | entries with the message's id become the reformatted message and every other entry stays in place |
| ChannelScreen.Deleted | FlowChatMobile/src/screens/ChannelScreen.tsx:79-85 | the list keeps exactly the entries whose id differs |
| ChannelScreen.UpdatedKeepsIds | FlowChatMobile/src/screens/ChannelScreen.tsx:69-77 | an update keeps the ids shown, in order |
| ChannelScreen.UpdatedIdempotent | FlowChatMobile/src/screens/ChannelScreen.tsx:69-77 | applying the same update twice is applying it once |
| ChannelScreen.UpdateOfAbsent | FlowChatMobile/src/screens/ChannelScreen.tsx:69-77 | an update for a message not in the list changes nothing |
| ChannelScreen.DeleteUndoesNew | FlowChatMobile/src/screens/ChannelScreen.tsx:60-85 | deleting a message that just arrived gives back the list it arrived in |
| ChannelScreen.DeletedKeepsOrder | FlowChatMobile/src/screens/ChannelScreen.tsx:79-85 | deleting distributes over a split of the list, so survivors keep their order |
| ChannelScreen.ChannelScreenState.constructor | FlowChatMobile/src/screens/ChannelScreen.tsx:10 | a screen opens on its channel with an empty list |
| ChannelScreen.ChannelScreenState.Mount | FlowChatMobile/src/screens/ChannelScreen.tsx:21 | mounting emits one `channel:join` for this channel |
| ChannelScreen.ChannelScreenState.Unmount | FlowChatMobile/src/screens/ChannelScreen.tsx:29 | unmounting emits one `channel:leave` for this channel |
| ChannelScreen.ChannelScreenState.LoadMessages | FlowChatMobile/src/screens/ChannelScreen.tsx:36-47 | a fetched page is reversed and formatted into the list; a failed fetch leaves the list as it was |
| ChannelScreen.ChannelScreenState.HandleNewMessage | FlowChatMobile/src/screens/ChannelScreen.tsx:60-67 | only a message of this channel is put in front |
| ChannelScreen.ChannelScreenState.HandleMessageUpdated | FlowChatMobile/src/screens/ChannelScreen.tsx:69-77 | only a message of this channel is updated in the list |
| ChannelScreen.ChannelScreenState.HandleMessageDeleted | FlowChatMobile/src/screens/ChannelScreen.tsx:79-85 | only a deletion in this channel removes entries |
| ChannelScreen.ChannelScreenState.OnSend | FlowChatMobile/src/screens/ChannelScreen.tsx:87-93 | nothing is sent exactly when nothing is pending; otherwise the first pending message's text goes to this channel |
| ChannelScreen.MountUnmountPair | FlowChatMobile/src/screens/ChannelScreen.tsx:19-31 | mounting and unmounting join and leave the same channel |

## Left out

- The shapes of the JSON payloads: the nested `include`/`select` blocks (authors, members, counts) are not modelled; handlers return the rows themselves, and the columns of `UserController.PublicUser`.
- Password hashing and token signing: `Credentials` uses injective prefix encodings in place of bcrypt and JWT, fixing only that verification accepts exactly what generation produced. Token expiry is not modelled.
- The 24-hour expiry of the `user:<id>:socketId` key in Redis: `Gateway.Server.socketKeys` is a map without expiry.
- Concurrency: every handler runs to completion without interleaving, and the awaits inside one handler are not interleaved with other events.
- Store failures other than unique-key and foreign-key violations: these become the handler's 500 reply with no change. The database schema is not part of this model; `Db.Valid()` holds the unique constraints the handlers rely on and the foreign keys of the tables no handler deletes from (channels to workspaces, memberships and participants to users, workspaces, channels and conversations). Foreign keys of messages, reactions and direct messages are checked only where a create needs them, and deleting a message does not cascade.
- RegisterErrors: validator's `isEmail` also accepts a quoted local part (`"a b"@x.com`); the model refuses it. Options other than the defaults, and validator's own code, are not part of this model.
- ChannelController.CreateChannel: `isPrivate` is taken as a boolean or left out. `body('isPrivate').optional().isBoolean()` also admits other JSON values (the strings `"true"`, `"false"`, `"1"` and `"0"`, the numbers 1 and 0), which `isPrivate || false` then hands to the store, and answers a 400 for others such as `null` or `"yes"`; these requests are not modelled.
- DmController.SendDmMessage: the `attachments` column's database type is not part of this model. Every JSON value, and a database null, is taken as storable; a store that refused `null` for a JSON column (as an ORM may demand a special JSON-null marker) would make every send without attachments a 500.
- LoginErrors: the same `IsEmail` as `RegisterErrors`, with the same gap for quoted local parts.
- DmList.Preview: where the fiftieth code unit is the first half of a surrogate pair, `substring` keeps that lone half; the model's string of characters cannot hold it and keeps the prefix without the pair.
- DmController.GetDmMessages: a `before` value that `new Date` cannot parse is not modelled; the source then fails the query with a 500. The cursor is given as a time.
- MessageController.GetMessages: a `before` or `after` value that `new Date` cannot parse is not modelled; the source then fails the query with a 500. The cursors are given as times.
- `String.prototype.trim` and the validator's `trim()`: only ASCII white space is removed, as for `\s`.
- `limit` query values: a limit is a natural number or the default of fifty; a non-numeric `limit`, which `parseInt` turns into `NaN`, is not modelled.
- Case-insensitive matching and `toLowerCase` fold ASCII letters only; `\s` and `\w` are their ASCII subsets. Unicode case folding and Unicode white space are not modelled.
- `sendMessageValidation` (backend/src/controllers/messageController.ts:6-11): no route in the source applies it, so it has no effect on any handler.
- `markChannelAsRead`: the channel routes import it, but channelController.ts does not define it; it is not part of this model, and neither is the mark-read request the mobile screen sends after loading.
- The direct-message socket events (`dm:send`, `dm:new`) used by DMView.tsx: the gateway registers no handler for them.
- server.ts registers its own bare `connection` handler and does not mount the routes or call `initializeSocket`; the model treats the handlers and the gateway as wired up.
- User interface rendering, navigation, React Query caching, loading skeletons and the mobile socket connection setup: only the state changes and emitted events are modelled.
- `GiftedChat.append`: modelled by its behaviour on the inverted chat list (the new message goes in front); the library itself is not part of this model.
- `Object.entries` orders integer-like keys numerically before the others; the model uses insertion order, which is what it gives for emoji keys.
- UserController.SearchUsers: `findMany` with `take: 10` and no `orderBy` may return any ten of the matching users when more than ten match; the model returns the first ten in table order, one of the answers the store may give. `UserSearchSpec` states the order-free properties every such answer has.
- AuthController.Clash: `findFirst` with `OR` returns some matching row; the model returns the first match in table order, one of the rows the store may return.
- DmController.CreateConversation: when several non-group conversations of the two users exist, the one reused is an arbitrary one of them, as with `findFirst`.
- Sequences.SortDesc: rows with equal sort keys are kept in table order, one of the orders the database may return.
- Sidebar.Slug: its own contract is only a length bound; what a slug is (no white space, no upper case, one '-' per run of white space, idempotent) is stated by the lemmas beside it.
- MessageReactions.Title: states the tooltip only for badges with no reaction or one reaction; the comma-joined list for more is given by its definition.
- Upload.MaxFileSize: a configured value that `parseInt` cannot read is not modelled.

## Observations

These follow from the code as written and are stated in the contracts above; none is claimed to be a bug.

- A reaction whose emoji is a key every object inherits, such as `constructor` or `toString`, makes the reaction bar throw while grouping (`MessageReactions.GroupReactions`). The reaction handler accepts any non-empty emoji string, so one such reaction stored through the API keeps the bar of that message from rendering.
- `updateChannel` does not validate the new name: it may rename a channel to `general`. The model takes the `(workspace, name)` pair of a channel to be unique (part of `Db.Valid()`, as `createChannel` checks it before inserting), and under that assumption only this constraint stops a rename to a name already in use.
- A one-to-one request whose only participant is the caller reuses any non-group conversation of the caller, and otherwise fails on the duplicate participant row.
- The server never sends `unreadCount` to the web client, so the unread badge of `DmList.UnreadBadge` is never shown.
- The sidebar's slug keeps a leading or trailing '-' for white space at the ends of the name, and keeps characters the channel validator rejects, which then fail creation with a 400.
