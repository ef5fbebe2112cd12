# BusyaChat core, modelled in Dafny

BusyaChat is a chat application: a NestJS backend over a relational store and a desktop client built with React. This project models the parts that hold decision logic, and proves what they promise.

- **Roles and permissions.** The role chain MEMBER < MOD < ADMIN < OWNER and the permission table (`permissions.dfy`).
- **Token parsing and the two JWT guards.** The WebSocket guard and the HTTP guard (`tokens.dfy`, `ws_guard.dfy`, `jwt_guard.dfy`).
- **The realtime gateway** (`gateway.dfy`, module `Realtime`). It is a class. Its fields are:
  - the authenticated sockets;
  - each socket's rooms (`server:`, `channel:`, `direct:`, `user:`, `voice:`);
  - the typing-timer table, keyed by `channelId:userId`;
  - a logical clock;
  - an append-only log of emitted events.

  Each emission records the sockets subscribed to its room at that moment. Timers fire through an explicit expiry step.
- **The backend services.** Servers, channels, invites, channel messages, direct threads and authentication. Each is a class over a `Store.Database` object, whose `db` field is a record of maps, one per table (`store.dfy`). Every state-changing operation:
  - keeps the store's referential invariant `Consistent`;
  - states its whole new state;
  - reports its error cases as `Failure` values with the source's messages (HTTP status kinds NotFound, Forbidden, BadRequest and Unauthorized).

  `posts.dfy` holds the message rules that channel and direct messages share. `listing.dfy` holds the database's `orderBy`/`take`.
- **The desktop client.** The chat store (`chat_store.dfy`, a class whose fields are the store's state) and the role grouping of the member list (`members_view.dfy`).

Identifiers (cuid), random invite codes and the clock (`new Date()`) are passed in as parameters. JWT signing and verification and argon2 hashing are passed in as oracles: a verify function from a token to an optional payload, and an equality of hashes. Trimming follows JavaScript's `String.prototype.trim`.

The model follows the code, which does less than a reader might expect:
- there is no per-user connection count for presence: every connect emits ONLINE and every authenticated disconnect emits OFFLINE;
- the voice roster returned by `voice.join` includes the caller;
- a disconnect clears neither typing timers nor voice state;
- a kick or a ban does not unsubscribe the member's sockets from the server's rooms.

## Model

| member | source | states |
|---|---|---|
| Permissions.Priority | backend/src/common/permissions.ts:12-17 | the priorities run from 0 to 3, MEMBER alone at 0 and OWNER alone at 3 |
| Permissions.RolePermissions | backend/src/common/permissions.ts:19-40 | no role lists a permission twice, and every role's list ends with VIEW_CHANNEL and SEND_MESSAGES |
| Permissions.HasAtLeastRole | backend/src/common/permissions.ts:42-44 | every role is at least MEMBER and at least itself, and OWNER is at least every role |
| Permissions.RoleHasPermission | backend/src/common/permissions.ts:46-48 | every role may view and send, and MEMBER may do nothing else |
| Permissions.IsHigherRole | backend/src/common/permissions.ts:50-52 | a higher role differs from the other, is never MEMBER, and OWNER is never below anyone |
| Permissions.PriorityChain | backend/src/common/permissions.ts:12-17 | MEMBER < MOD < ADMIN < OWNER, and distinct roles have distinct priorities |
| Permissions.AtLeastIsTotalOrder | backend/src/common/permissions.ts:42-44 | hasAtLeastRole is reflexive, antisymmetric, transitive and total, with MEMBER at the bottom and OWNER at the top |
| Permissions.HigherIsStrictAtLeast | backend/src/common/permissions.ts:50-52 | isHigherRole is exactly "at least and different", so it is irreflexive and asymmetric, and nothing is higher than OWNER |
| Permissions.PermissionsMonotone | backend/src/common/permissions.ts:19-40 | MEMBER's permissions are within MOD's, MOD's within ADMIN's, and ADMIN and OWNER hold the same ones |
| Permissions.PermissionUpward | backend/src/common/permissions.ts:42-48 | a role that is at least another holds every permission of the other |
| Permissions.EveryRoleViewsAndSends | backend/src/common/permissions.ts:19-40 | every role may view channels and send messages |
| Permissions.AdministrativePermissions | backend/src/common/permissions.ts:19-48 | MANAGE_SERVER and MANAGE_ROLES belong to exactly ADMIN and OWNER; MANAGE_CHANNELS, KICK_MEMBERS and BAN_MEMBERS to exactly the roles at least MOD |
| Tokens.ExtractToken | backend/src/common/auth/ws-jwt.guard.ts:12-20 | the authorization header wins, then auth.token, then query.token; only the first truthy field is read; an array gives its first element |
| Tokens.Truthy | backend/src/common/auth/ws-jwt.guard.ts:12-15 | a missing field and the empty string are falsy, and any array is truthy, empty or not |
| Tokens.TokenFrom | backend/src/common/auth/ws-jwt.guard.ts:17-20 | a falsy field gives no token; a string gives its stripped self; an array gives its stripped first element, and none when it is empty or its first element is the empty string |
| Tokens.StripBearer | backend/src/common/auth/ws-jwt.guard.ts:20 | a value without the "Bearer " prefix is kept whole; a prefixed one loses the prefix and comes out trimmed |
| Tokens.StripBearerRoundTrip | backend/src/common/auth/ws-jwt.guard.ts:20 | "Bearer " plus an already trimmed token gives that token back; a value without the prefix is kept whole |
| Tokens.NoFieldNoToken | backend/src/common/auth/ws-jwt.guard.ts:12-18 | a handshake with no usable field yields no token |
| Tokens.Subject | backend/src/realtime/realtime.gateway.ts:40-41 | the subject is present exactly when the sub claim is a non-empty string |
| WsGuard.GuardVerdict | backend/src/common/auth/ws-jwt.guard.ts:8-34 | no token gives 'Missing token'; a token passes exactly when it verifies and its typ is absent, empty or 'access'; every other failure is 'Invalid token' |
| Tokens.AcceptsTyp | backend/src/common/auth/ws-jwt.guard.ts:24-26 | a missing or empty typ, or 'access', passes; 'refresh' does not |
| WsGuard.RefreshTokensRejected | backend/src/common/auth/ws-jwt.guard.ts:24-26 | a verified refresh token is always refused, and a verified token without typ always passes |
| WsGuard.WsJwtGuard.CanActivate | backend/src/common/auth/ws-jwt.guard.ts:8-34 | on success the payload is stored as client.user and client.data.user, the rest of client.data is kept and true is returned; on failure the client is unchanged and the error is thrown |
| HttpGuard.BearerToken | backend/src/common/auth/jwt.guard.ts:13-17 | a token exists exactly when the header starts with "Bearer ", and the header is "Bearer " followed by the token |
| HttpGuard.BearerTokenRoundTrip | backend/src/common/auth/jwt.guard.ts:17 | whatever follows "Bearer " is the token, white space included |
| HttpGuard.HttpVerdict | backend/src/common/auth/jwt.guard.ts:9-25 | no bearer header gives 'No token'; a token that fails to verify gives 'Bad token'; otherwise the payload |
| HttpGuard.HttpGuardIgnoresTyp | backend/src/common/auth/jwt.guard.ts:19-21 | unlike the WebSocket guard, any verified payload passes, a refresh token included |
| HttpGuard.JwtGuard.CanActivate | backend/src/common/auth/jwt.guard.ts:9-25 | on success req.user is the payload and true is returned; on failure the request is unchanged |
| Text.SkipSpaces | backend/src/common/auth/auth.service.ts:64 | the index of the first non-space character at or after the start, with only spaces skipped |
| Text.StartsWith | backend/src/common/auth/ws-jwt.guard.ts:20 | `s.startsWith(prefix)` holds exactly when the prefix fits in s and agrees with it character by character |
| Text.SkipSpacesBack | backend/src/common/auth/auth.service.ts:64 | the index just after the last non-space character, with only spaces skipped |
| Text.Trim | backend/src/common/auth/auth.service.ts:64 | the result is empty or starts and ends with a non-space, and it is the input with leading and trailing white space removed |
| Text.TrimEmptyIff | backend/src/common/auth/auth.service.ts:64 | trimming gives the empty string exactly when the input is all white space |
| Text.TrimIdempotent | backend/src/common/auth/auth.service.ts:64 | trimming twice is trimming once |
| Auth.AccessClaims | backend/src/common/auth/auth.service.ts:41-44 | an access token carries sub and email and no typ, so the WebSocket guard accepts it |
| Auth.RefreshClaims | backend/src/common/auth/auth.service.ts:46-49 | a refresh token carries sub, email and typ 'refresh', so the WebSocket guard refuses it |
| Auth.Nickname | backend/src/common/auth/auth.service.ts:64 | the trimmed nickname when it is not blank, 'Busya' otherwise; never empty |
| Auth.Live | backend/src/common/auth/auth.service.ts:119-120 | a token is live for a user exactly when it belongs to the user, is unrevoked and expires after now |
| Auth.RevokeAll | backend/src/common/auth/auth.service.ts:85-88 | the same token ids; every unrevoked token of the user gets revokedAt now, and every other token is unchanged |
| Auth.RevokeAllLeavesNothingLive | backend/src/common/auth/auth.service.ts:148-153 | after revoking all of a user's tokens, none of them is live at any later time |
| Auth.NewUserConsistent | backend/src/common/auth/auth.service.ts:55-67 | adding a user with an unused email keeps the database consistent (emails stay unique) |
| Auth.TokensKeepConsistent | backend/src/common/auth/auth.service.ts:98-105 | rewriting the refresh-token table keeps the database consistent |
| Auth.AuthService.constructor | backend/src/common/auth/auth.service.ts:20-26 | the TTLs are the configured values, or 900 and 1209600 seconds when unset |
| Auth.AuthService.SignTokens | backend/src/common/auth/auth.service.ts:28-52 | a missing or empty access secret, then a missing or empty refresh secret, is an error; otherwise an access and a refresh token with their claims, secrets and TTLs |
| Auth.AuthService.Record | backend/src/common/auth/auth.service.ts:98-104 | the stored row belongs to the user, holds a hash that matches the token, is unrevoked and expires refreshTtl seconds after now |
| Auth.AuthService.SaveRefreshToken | backend/src/common/auth/auth.service.ts:98-105 | exactly one refresh-token row is added, and the database stays consistent |
| Auth.AuthService.RevokeToken | backend/src/common/auth/auth.service.ts:136-140 | exactly that token gets revokedAt now |
| Auth.AuthService.FindUserByEmail | backend/src/common/auth/auth.service.ts:55 | the user with that email if there is one (unique), none exactly when no user has it |
| Auth.AuthService.Register | backend/src/common/auth/auth.service.ts:54-73 | a used email is refused with 'Email already used' and nothing changes; otherwise one new user with the hashed password and the nickname, written before signing, so a missing secret fails with the user created and no refresh token; on success exactly one refresh token is saved |
| Auth.AuthService.Login | backend/src/common/auth/auth.service.ts:75-96 | an unknown email and a wrong password both give 'Invalid credentials' with nothing changed; with the right password the call succeeds exactly when signing does, a signing failure passes its error through with nothing changed, and on success all the user's old tokens are revoked and one new one is saved |
| Auth.AuthService.RefreshIdentity | backend/src/common/auth/auth.service.ts:108-117 | the token must verify under a non-empty refresh secret and carry a non-empty sub and email; a missing or empty secret, a failed verification or a missing claim all give 'Invalid refresh token' |
| Auth.AuthService.FindRecord | backend/src/common/auth/auth.service.ts:119-132 | records are the user's 20 newest live tokens, newest first; the match is the first of them whose hash matches, at the returned position, none exactly when none matches |
| Auth.AuthService.Rotate | backend/src/common/auth/auth.service.ts:119-145 | 'Refresh token not found' exactly when no token of the scanned page matches, and then nothing changes; otherwise the first match and no other is revoked, a signing failure keeps that revocation, and on success exactly one new refresh token is saved; no other error is possible |
| Auth.AuthService.Refresh | backend/src/common/auth/auth.service.ts:107-146 | an unverifiable token is refused with nothing changed; 'Refresh token not found' exactly when no token of the scanned page (the user's 20 newest live tokens) matches, and then nothing changes; when one matches, the call succeeds unless signing fails, the first match and no other is revoked, a signing failure keeps that revocation, and on success the new pair is returned and exactly one new refresh token saved; no other error is possible |
| Auth.AuthService.Logout | backend/src/common/auth/auth.service.ts:148-154 | every unrevoked token of the user is revoked and nothing else changes |
| Realtime.RoomKeyInjective | backend/src/realtime/realtime.gateway.ts:60-67 | the room names built from the five prefixes ("server:", "channel:", "user:", "direct:", "voice:") never collide |
| Realtime.EventName | backend/src/realtime/realtime.gateway.ts:70-195 | a forwarded event keeps its domain name, and none of the gateway's own event names (presence.update, typing.start, typing.stop, voice.joined, voice.left, voice.signal) is the name of a domain event |
| Realtime.DomainEventName | backend/src/realtime/realtime.gateway.ts:199-257 | the names of the direct-message events, and only those, start with "direct." |
| Realtime.TypingKeyFirstColon | backend/src/realtime/realtime.gateway.ts:118 | in a key "channelId:userId" whose channel id has no ':', the first ':' follows the channel id |
| Realtime.TypingKeyInjective | backend/src/realtime/realtime.gateway.ts:118 | typing keys of different (channel, user) pairs never collide when channel ids contain no ':' |
| Realtime.DomainRoom | backend/src/realtime/realtime.gateway.ts:199-257 | server and channel events go to the server room, message events to the channel room, direct message events to the thread room, and thread creation to the user room; the room is named after the given id |
| Realtime.InRoom | backend/src/realtime/realtime.gateway.ts:70 | a socket receives an emission to a room exactly when it is in that room at that moment |
| Realtime.ConnectingUser | backend/src/realtime/realtime.gateway.ts:33-54 | a connection is kept exactly when its token, once "Bearer " is stripped, is non-empty (an empty one is dropped before verification, which the guard alone would not do), passes the guard's checks and carries a non-empty sub, which becomes its user |
| Realtime.ConnectRooms | backend/src/realtime/realtime.gateway.ts:56-67 | a kept socket is in exactly its servers' rooms, its user room and its threads' rooms |
| Realtime.BurstStep | backend/src/realtime/realtime.gateway.ts:69-74 | one more server's presence.update extends a burst that already covers the servers done so far |
| Realtime.Admit | backend/src/realtime/realtime.gateway.ts:94-101 | a guarded handler first throws the guard's error; a missing or empty channelId or a missing sub gives { ok: false }; otherwise the handler goes on with the channel and the user |
| Realtime.GatewayChannelAccess | backend/src/realtime/realtime.gateway.ts:277-287 | access exactly when the channel exists, the user is a member of its server and holds at least its minimum role; otherwise 'Channel not found', 'Not a member' or 'Insufficient role', each pinned to its case |
| Realtime.Roster | backend/src/realtime/realtime.gateway.ts:164-165 | a user is listed exactly when one of its authenticated sockets is in the voice room |
| Realtime.JoinAll | backend/src/realtime/realtime.gateway.ts:259-265 | every socket in the source room joins the target room, and no socket gains or loses any other room |
| Realtime.Gateway.constructor | backend/src/realtime/realtime.gateway.ts:26-31 | the gateway starts with no sockets, rooms, timers or emissions |
| Realtime.Gateway.BroadcastPresence | backend/src/realtime/realtime.gateway.ts:69-74 | one presence.update with the status is emitted to each server's room, once per server, and the earlier log is kept |
| Realtime.Gateway.JoinEach | backend/src/realtime/realtime.gateway.ts:60 | the socket joins each of the rooms and nothing else changes |
| Realtime.Gateway.HandleConnection | backend/src/realtime/realtime.gateway.ts:33-75 | a connection without a token, with an empty token after "Bearer " is stripped, with a refused token or without a subject is dropped and nothing changes; a kept socket joins exactly its connect rooms and ONLINE is announced in each of its servers' rooms |
| Realtime.Gateway.JoinConnectRooms | backend/src/realtime/realtime.gateway.ts:56-67 | the new socket's rooms are exactly its servers' rooms, its user room and its threads' rooms |
| Realtime.Gateway.HandleDisconnect | backend/src/realtime/realtime.gateway.ts:77-92 | the socket is gone from every room; a socket with a user announces OFFLINE in each room of that user's servers; one without a user emits nothing |
| Realtime.Gateway.Authenticate | backend/src/realtime/realtime.gateway.ts:94-101 | the guard's verdict is computed first, and on success the payload is stored in the socket's session |
| Realtime.Gateway.ChannelJoin | backend/src/realtime/realtime.gateway.ts:94-106 | the socket joins the channel room exactly when the guard, the body and the access check all pass; every failure is reported and leaves the rooms unchanged. Only the guard touches the sessions: a refused socket keeps its session, any other has the verified payload stored as its user, and no other session changes. |
| Realtime.Gateway.TypingStart | backend/src/realtime/realtime.gateway.ts:108-129 | after the access check, typing.start reaches the channel room and the user's timer for that channel is set to fire 7000 ms from now, replacing any earlier one; every failure leaves timers and emissions unchanged. Only the guard touches the sessions: a refused socket keeps its session, any other has the verified payload stored as its user, and no other session changes. |
| Realtime.Gateway.TypingStop | backend/src/realtime/realtime.gateway.ts:131-147 | without any access check, the timer is dropped and typing.stop reaches the channel room. Only the guard touches the sessions: a refused socket keeps its session, any other has the verified payload stored as its user, and no other session changes. |
| Realtime.Gateway.Advance | backend/src/realtime/realtime.gateway.ts:123-126 | the clock moves forward to the given time |
| Realtime.Gateway.ExpireTyping | backend/src/realtime/realtime.gateway.ts:123-126 | a timer fires exactly when it is still pending and its deadline has come; it then drops its key and sends typing.stop to its channel room |
| Realtime.Gateway.VoiceJoin | backend/src/realtime/realtime.gateway.ts:149-167 | after the access check, a channel that is not VOICE gives { ok: false } with nothing changed; otherwise the socket joins the voice room, voice.joined reaches everyone in it, the caller too, and the answer lists the user of every socket in the room, read from the sessions as they were with only the caller's payload stored, the caller included. Only the guard touches the sessions: a refused socket keeps its session, any other has the verified payload stored as its user, and no other session changes. |
| Realtime.Gateway.VoiceLeave | backend/src/realtime/realtime.gateway.ts:169-181 | without any access check, the socket leaves the voice room first, so voice.left reaches the others and not the leaver. Only the guard touches the sessions: a refused socket keeps its session, any other has the verified payload stored as its user, and no other session changes. |
| Realtime.Gateway.VoiceSignal | backend/src/realtime/realtime.gateway.ts:183-197 | the data is relayed unchanged to the voice room, tagged with the sender, who need not be in the room. Only the guard touches the sessions: a refused socket keeps its session, any other has the verified payload stored as its user, and no other session changes. |
| Realtime.Gateway.EmitDomain | backend/src/realtime/realtime.gateway.ts:199-257 | exactly one emission is appended, carrying the event to the sockets in its room at that moment |
| Realtime.Gateway.JoinDirectRoomForUser | backend/src/realtime/realtime.gateway.ts:259-261 | every socket of the user joins the thread room |
| Realtime.Gateway.JoinServerRoomForUser | backend/src/realtime/realtime.gateway.ts:263-265 | every socket of the user joins the server room |
| Servers.EnsureNotBanned | backend/src/servers/servers.service.ts:170-175 | passes exactly when the user has no ban on the server; otherwise 'Banned from server' |
| Servers.EnsureMember | backend/src/servers/servers.service.ts:137-144 | the member row exactly when the user is not banned and is a member; the ban is looked at first, so a banned member gets 'Banned from server', and a non-member 'Not a server member' |
| Servers.MembershipDecides | backend/src/servers/servers.service.ts:137-144 | while bans and memberships exclude each other, ensureMember passes exactly for members |
| Servers.EnsurePermission | backend/src/servers/servers.service.ts:146-152 | passes exactly for a member whose role holds the permission; a member without it gets 'Insufficient permissions' |
| Servers.PermissionFollowsRank | backend/src/servers/servers.service.ts:146-152 | a member whose role is at least that of a member who passes the permission check passes it too |
| Servers.EnsureMinRole | backend/src/servers/servers.service.ts:154-160 | passes exactly for a member whose role is at least the minimum; a member below it gets 'Insufficient role' |
| Servers.GetMember | backend/src/servers/servers.service.ts:162-168 | the member row, with no ban check; otherwise 'Member not found' |
| Servers.RoleChangeCheck | backend/src/servers/servers.service.ts:80-87 | in the code's order: a caller without MANAGE_ROLES gets the permission error, a request for OWNER 'Owner role cannot be assigned', a target who is not a member 'Member not found', an owner target 'Cannot change owner role', and then a MOD actor 'Mods cannot manage roles' |
| Servers.RoleChangeAllowed | backend/src/servers/servers.service.ts:80-87 | a role change passes exactly when the caller may manage roles, the new role is not OWNER and the target is a member who is not OWNER; 'Mods cannot manage roles' can never be the outcome |
| Servers.ModerationCheck | backend/src/servers/servers.service.ts:96-102 | in the code's order: a caller without the permission gets the permission error, acting on oneself 'Cannot kick yourself' or 'Cannot ban yourself', a target who is not a member 'Member not found', an owner target 'Cannot kick owner' or 'Cannot ban owner', and a target not strictly below the actor 'Insufficient role' |
| Servers.ModerationAllowed | backend/src/servers/servers.service.ts:96-102 | a kick or ban passes exactly when the caller holds the permission, the target is someone else, a member, and strictly below the caller, so the owner is never the target |
| Servers.WithoutServer | backend/src/servers/servers.service.ts:63 | the server and exactly its memberships, bans, channels, invites and the messages of its channels are gone; every other row keeps its values, and users, threads, direct messages, attachments and refresh tokens are untouched |
| Servers.WithoutServerConsistent | backend/src/servers/servers.service.ts:63 | deleting a server with everything it owns keeps the database consistent |
| Servers.WithoutServerMemberRows | backend/src/servers/servers.service.ts:63 | after the delete, every membership and ban still names an existing server, and bans and memberships still exclude each other |
| Servers.WithoutServerChannelRows | backend/src/servers/servers.service.ts:63 | after the delete, every channel and invite still names an existing server |
| Servers.WithoutServerPosts | backend/src/servers/servers.service.ts:63 | after the delete, every message still belongs to an existing channel or thread, and every server's owner is still its OWNER member |
| Servers.NewServerConsistent | backend/src/servers/servers.service.ts:32-41 | adding a server with its owner's membership and its first channel keeps the database consistent |
| Servers.NewServerRows | backend/src/servers/servers.service.ts:32-41 | the new rows name existing servers, and bans and memberships still exclude each other |
| Servers.NewServerOwners | backend/src/servers/servers.service.ts:32-41 | after the create, every server, the new one included, has its owner as an OWNER member, and every OWNER row is its server's owner |
| Servers.WithNewServer | backend/src/servers/servers.service.ts:32-41 | the server, its owner's OWNER membership and the first channel are stored, and no other table changes |
| Servers.NewServerWrites | backend/src/servers/servers.service.ts:32-41 | exactly one row is added to each of servers, members and channels, and every earlier row keeps its value |
| Servers.NewServerPosts | backend/src/servers/servers.service.ts:32-41 | after the create, messages stay anchored and emails stay unique |
| Servers.UpsertBan | backend/src/servers/servers.service.ts:119-128 | an existing ban only gets the new reason; otherwise a new ban row with the reason and its creator; no other ban changes |
| Servers.ServersService.constructor | backend/src/servers/servers.service.ts:9 | the service holds the database and the gateway it is given |
| Servers.ServersService.CreateServer | backend/src/servers/servers.service.ts:27-45 | a trimmed name shorter than 2 is refused with nothing changed; otherwise exactly the server, the caller's OWNER membership and a TEXT channel 'general' for MEMBER at position 0 are added, the caller's sockets join the server room, and the answer says OWNER |
| Servers.ServersService.RenameServer | backend/src/servers/servers.service.ts:47-58 | a short trimmed name is refused before the permission check; without MANAGE_SERVER nothing changes; otherwise only the name changes, to the trimmed name, and server.updated goes to the server room |
| Servers.ServersService.DeleteServer | backend/src/servers/servers.service.ts:60-66 | a non-member gets 'Member not found' and a member that is not OWNER 'Only owner can delete server', with nothing changed; deletion happens exactly for the OWNER member, removes everything the server owns and notifies its room |
| Servers.ServersService.UpdateMemberRole | backend/src/servers/servers.service.ts:79-93 | when the checks fail nothing changes; otherwise only the target's role changes |
| Servers.ServersService.KickMember | backend/src/servers/servers.service.ts:95-108 | when the checks fail nothing changes; otherwise only the target's membership is removed |
| Servers.ServersService.BanMember | backend/src/servers/servers.service.ts:110-135 | when the checks fail nothing changes; otherwise the ban is upserted with the trimmed reason and the membership removed, after which ensureMember refuses the target as banned |
| Store.HashMatches | backend/src/common/auth/auth.service.ts:79 | argon2 verification holds exactly for the password the hash was made from |
| Store.MemberServers | backend/src/realtime/realtime.gateway.ts:56-59 | a server is listed exactly when the user holds a membership row in it |
| Store.UserThreads | backend/src/realtime/realtime.gateway.ts:63-66 | a thread is listed exactly when it exists and the user is among its members |
| Store.CoreTablesKeepConsistent | backend/src/common/auth/auth.service.ts:98-105 | writing only tables outside servers, members, bans, channels, invites and users keeps the server, ban, owner and email invariants |
| Channels.AllowedRoles | backend/src/channels/channels.service.ts:112-117 | a role is allowed exactly when the given role is at least it, so there are priority + 1 of them |
| Channels.EnsureChannelAccess | backend/src/channels/channels.service.ts:96-110 | a missing channel gives 'Channel not found'; the member's errors pass through; a member below the channel's minimum role gets Forbidden 'Insufficient role'; access exactly when ensureMember passes and the role reaches the minimum |
| Channels.RequireSendNeverFires | backend/src/channels/channels.service.ts:105-107 | asking for SEND_MESSAGES never changes the outcome, because every role holds it |
| Channels.GatewayAgreesWithService | backend/src/channels/channels.service.ts:96-103 | while the database is consistent, the gateway's access check admits exactly the users this one admits |
| Channels.VisibleIffAccessible | backend/src/channels/channels.service.ts:16-22 | a channel of the server is listed for a member exactly when that member may open it |
| Channels.WithoutChannel | backend/src/channels/channels.service.ts:91 | the channel and exactly its messages are gone; every other channel and message keeps its values, and every other table is as it was |
| Channels.WithoutChannelConsistent | backend/src/channels/channels.service.ts:91 | removing a channel with its messages keeps the database consistent |
| Channels.PutChannelConsistent | backend/src/channels/channels.service.ts:56-65 | adding or replacing a channel of an existing server keeps the database consistent |
| Channels.ChannelsService.constructor | backend/src/channels/channels.service.ts:10-14 | the service holds the database and the gateway it is given |
| Channels.ChannelsService.PutChannel | backend/src/channels/channels.service.ts:56-66 | exactly that channel row is written and one notice goes to the server room |
| Channels.ChannelsService.List | backend/src/channels/channels.service.ts:16-42 | ensureMember's error passes through; otherwise exactly the server's channels whose minimum role the member reaches, each once, in ascending position |
| Channels.ChannelsService.LastPosition | backend/src/channels/channels.service.ts:50-54 | nothing exactly when the server has no channel; otherwise a position some channel of the server has, and no channel of the server has a larger one |
| Channels.ChannelsService.Create | backend/src/channels/channels.service.ts:44-68 | the permission is checked before the name; on success the channel gets the trimmed name, TEXT and MEMBER unless given, a position one above the largest existing one, or 1 when there is none; exactly that row is added and channel.created goes to the server room |
| Channels.ChannelsService.Rename | backend/src/channels/channels.service.ts:70-85 | a missing channel gives 'Channel not found' before any permission check; success exactly with MANAGE_CHANNELS and a non-blank name; the name is trimmed and the minimum role kept unless given; any failure changes nothing |
| Channels.ChannelsService.Remove | backend/src/channels/channels.service.ts:87-94 | a missing channel gives 'Channel not found'; success exactly with MANAGE_CHANNELS; the channel goes with its messages and a removal notice goes to the server room |
| Invites.UsesLimit | backend/src/invites/invites.service.ts:30 | a limit is stored exactly when maxUses is given and positive, and then it is that value; otherwise unlimited |
| Invites.JoinCheck | backend/src/invites/invites.service.ts:78-95 | in the code's order: a missing or revoked invite gives 'Invite not found', then an invite that expired strictly before now 'Invite expired', one with uses at or above its limit 'Invite exhausted', a banned user 'Banned from server', a member 'Already a member'; it passes exactly when none applies, and an unlimited invite is never exhausted |
| Invites.PutInviteConsistent | backend/src/invites/invites.service.ts:25-43 | storing an invite of an existing server keeps the database consistent |
| Invites.AfterJoinConsistent | backend/src/invites/invites.service.ts:97-106 | adding the MEMBER row of a user who is neither banned nor a member, and counting the use, keeps the database consistent |
| Invites.AfterJoin | backend/src/invites/invites.service.ts:97-106 | the user gets a MEMBER row in the invite's server, the invite's use count grows by one, and no other table changes |
| Invites.AfterJoinWrites | backend/src/invites/invites.service.ts:97-106 | exactly one membership is added, no invite is added, and every other membership and invite keeps its value |
| Invites.AfterJoinMembers | backend/src/invites/invites.service.ts:97-99 | after the new MEMBER row, every membership, ban, channel and invite still names an existing server, bans and memberships still exclude each other, and every OWNER row is still its server's owner and the other way round |
| Invites.InvitesService.constructor | backend/src/invites/invites.service.ts:9-13 | the service holds the database and the gateway it is given |
| Invites.InvitesService.GenerateUniqueCode | backend/src/invites/invites.service.ts:116-123 | the result is the first drawn code, within 5 attempts, that no invite uses; when all 5 are taken, 'Could not generate invite code' |
| Invites.InvitesService.CreateInvite | backend/src/invites/invites.service.ts:15-44 | below MOD the role error passes through and nothing changes; it succeeds exactly when one of the five drawn codes is free, and otherwise gives 'Could not generate invite code' with nothing changed; on success the first free draw is the code, returned with the invite, and exactly that invite is added, unused, unrevoked, with the stored limit and the given expiry |
| Invites.InvitesService.ListInvites | backend/src/invites/invites.service.ts:46-62 | the permission error passes through; otherwise exactly the server's unrevoked invites, each once, newest first |
| Invites.InvitesService.Revoke | backend/src/invites/invites.service.ts:64-75 | an unknown code gives 'Invite not found'; with MANAGE_SERVER on the invite's server only its revoked flag is set; otherwise nothing changes |
| Invites.InvitesService.Join | backend/src/invites/invites.service.ts:77-114 | a failed check passes its error and changes nothing; otherwise exactly one MEMBER row is added, the invite's uses go up by exactly 1, the user's sockets join the server room and the server is answered with role MEMBER |
| Posts.ClampTake | backend/src/messages/messages.service.ts:20 | the page size is always within [1, cap], equals the limit when that is already within, 1 below it and cap above it |
| Posts.CursorBound | backend/src/messages/messages.service.ts:21-33 | no cursor, or an empty one, gives no bound; a cursor that is a message id gives that message's creation time, whatever its channel or state; any other cursor gives the date it parses as, if any |
| Posts.HistorySet | backend/src/messages/messages.service.ts:35-40 | a message is a candidate exactly when it is in the channel, not deleted and, with a bound, created strictly before it |
| Posts.SearchSet | backend/src/messages/messages.service.ts:62-67 | a message is a candidate exactly when it is in the channel, not deleted and contains the query |
| Posts.FoundAtMostListed | backend/src/messages/messages.service.ts:88-97 | the rows found for a list of ids are never more than the ids listed |
| Posts.FoundAllIff | backend/src/messages/messages.service.ts:97-99 | as many rows are found as ids listed exactly when the ids are distinct and each one is found |
| Posts.AttachmentsValid | backend/src/messages/messages.service.ts:86-100 | the attachment check passes exactly when the ids are distinct and each names an attachment the sender uploaded that no message holds, so a repeated id is refused |
| Posts.SendsSomething | backend/src/messages/messages.service.ts:81-82 | content with a non-space character, or a non-empty attachment list, may be sent; all-space content without attachments may not |
| Posts.Link | backend/src/messages/messages.service.ts:117-121 | every claimed attachment now points at the new message and keeps its uploader; every other attachment is untouched |
| Posts.Edited | backend/src/messages/messages.service.ts:160-162 | the edit sets the trimmed content and the edit time and keeps channel, author, creation time and deletion state |
| Posts.SoftDeleted | backend/src/messages/messages.service.ts:191-194 | the row stays with empty content and a deletion time, keeping channel, author and creation time |
| Posts.SoftDeletedLeavesListings | backend/src/messages/messages.service.ts:35-40 | once soft-deleted, a message is never a history or search candidate again |
| Messages.ManageCheck | backend/src/messages/messages.service.ts:150-158 | a missing or deleted message gives 'Message not found'; otherwise ensureMember's error passes through, and the caller passes exactly when they are the author or at least MOD, else 'Cannot edit message' or 'Cannot delete message'; the channel's minimum role is not looked at |
| Messages.AuthorsManageRegardlessOfChannelRole | backend/src/messages/messages.service.ts:156-157 | an author who is still a member may edit and delete their live message, whatever the channel's minimum role |
| Messages.ModeratorsManageEveryMessage | backend/src/messages/messages.service.ts:156-157 | a member of at least MOD manages every live message of the server's channels |
| Messages.PutMessageConsistent | backend/src/messages/messages.service.ts:102-121 | storing a message of an existing channel, and relinking attachments, keeps the database consistent |
| Messages.RemovedStaysRemoved | backend/src/messages/messages.service.ts:185 | once removed, a message can be neither edited nor removed again |
| Messages.SendCheck | backend/src/messages/messages.service.ts:81-100 | empty trimmed content without attachments gives 'Empty message' before any access check; then the access check with the right to send; then 'Invalid attachments'; it passes exactly when none fails, with the set of the listed ids |
| Messages.MessagesService.constructor | backend/src/messages/messages.service.ts:10-15 | the service holds the database and the gateway it is given |
| Messages.MessagesService.Publish | backend/src/messages/messages.service.ts:102-141 | exactly the message is added, the claimed attachments are linked to it, and message.created goes to the channel room |
| Messages.MessagesService.History | backend/src/messages/messages.service.ts:17-54 | the access error passes through; otherwise the newest live messages of the channel before the cursor, at most the clamped limit (50 by default, within [1, 100]), newest first and all of them when fewer |
| Messages.MessagesService.Search | backend/src/messages/messages.service.ts:56-78 | the access error passes through; a blank query gives []; otherwise the newest live messages of the channel containing the trimmed query, at most the clamped limit (20 by default, within [1, 50]) |
| Messages.MessagesService.Send | backend/src/messages/messages.service.ts:80-144 | a failed check passes its error and changes nothing; otherwise exactly one message with the trimmed content is stored, its attachments are linked and message.created goes to the channel room |
| Messages.MessagesService.Edit | backend/src/messages/messages.service.ts:146-178 | blank content gives 'Empty message' first; success exactly when the manage check passes; only that message changes, to the trimmed content with the edit time, and message.updated goes to the channel room |
| Messages.MessagesService.Remove | backend/src/messages/messages.service.ts:180-198 | success exactly when the manage check passes; the message is soft-deleted and message.deleted goes to the channel room; a failure changes nothing |
| Direct.EnsureThreadMember | backend/src/direct/direct.service.ts:271-276 | passes exactly when the thread exists and the user is one of its members; otherwise 'Not a member', a missing thread included |
| Direct.PairIsBoth | backend/src/direct/direct.service.ts:284-289 | two members that include two different users are exactly those two |
| Direct.Between | backend/src/direct/direct.service.ts:284-289 | for two different users, a matching thread's members are exactly those two |
| Direct.Others | backend/src/direct/direct.service.ts:301 | exactly the members other than the user, in row order; all of them when the user is not a member |
| Direct.PairSeesTheOther | backend/src/direct/direct.service.ts:26-33 | in a thread of two, each user's summary shows exactly the other user |
| Direct.ThreadPosts | backend/src/direct/direct.service.ts:297 | exactly the thread's messages, deleted ones included |
| Direct.LastMessageIsNewest | backend/src/direct/direct.service.ts:292-307 | the last message is absent exactly when the thread has no message, and otherwise is a message of the thread, deleted or not, that none of its messages is newer than |
| Direct.ManageCheck | backend/src/direct/direct.service.ts:193-197 | a missing or deleted message gives 'Message not found', a caller outside the thread 'Not a member', anyone but the author 'Cannot edit message' or 'Cannot delete message'; it passes exactly for the author who is a member, with no moderator override |
| Direct.SendCheck | backend/src/direct/direct.service.ts:126-145 | empty trimmed content without attachments gives 'Empty message' first, then 'Not a member', then 'Invalid attachments'; it passes exactly when none fails, with the set of the listed ids |
| Direct.PutDirectMessageConsistent | backend/src/direct/direct.service.ts:147-166 | storing a direct message of an existing thread, and relinking attachments, keeps the database consistent |
| Direct.NewThreadConsistent | backend/src/direct/direct.service.ts:42-49 | adding a thread keeps the database consistent |
| Direct.NewThreadSummary | backend/src/direct/direct.service.ts:42-61 | the summary of a new thread for its creator shows exactly the other user and no last message, and the thread is one findThreadBetween would find |
| Direct.ListedStep | backend/src/direct/direct.service.ts:26-33 | one more thread's summary extends a listing that has one summary per thread done so far |
| Direct.DirectService.constructor | backend/src/direct/direct.service.ts:7 | the service holds the database and the gateway it is given |
| Direct.DirectService.ThreadSummary | backend/src/direct/direct.service.ts:292-307 | a missing thread gives 'Thread not found'; otherwise the thread's id, the other members and its newest message, if any |
| Direct.DirectService.FindThreadBetween | backend/src/direct/direct.service.ts:278-290 | a thread of exactly two members including both users, and none exactly when no such thread exists |
| Direct.DirectService.ListThreads | backend/src/direct/direct.service.ts:9-34 | one summary for each thread the user belongs to, no thread twice and no other thread |
| Direct.DirectService.OpenThread | backend/src/direct/direct.service.ts:42-58 | exactly one thread with the two users as members is added, the sockets of both users join its room, and each user's room is told |
| Direct.DirectService.StartThread | backend/src/direct/direct.service.ts:36-61 | messaging oneself gives 'Cannot DM yourself' with nothing changed; an existing thread between the two is returned unchanged; otherwise a new thread is opened and its summary shows the other user and no message; either way the answer summarises a thread between the two |
| Direct.DirectService.History | backend/src/direct/direct.service.ts:63-99 | a non-member gets 'Not a member'; otherwise the thread's newest live messages before the cursor, at most the clamped limit |
| Direct.DirectService.Search | backend/src/direct/direct.service.ts:101-123 | a non-member gets 'Not a member'; a blank query gives []; otherwise the thread's newest live messages containing the trimmed query, at most the clamped limit |
| Direct.DirectService.Publish | backend/src/direct/direct.service.ts:147-185 | exactly the message is added, the claimed attachments are linked to it, and direct.message.created goes to the thread room |
| Direct.DirectService.Send | backend/src/direct/direct.service.ts:125-187 | a failed check passes its error and changes nothing; otherwise exactly one message with the trimmed content is stored, its attachments are linked and the thread room is told |
| Direct.DirectService.Edit | backend/src/direct/direct.service.ts:189-217 | blank content gives 'Empty message' first; success exactly when the author edits; only that message changes, to the trimmed content with the edit time, and the thread room is told |
| Direct.DirectService.Remove | backend/src/direct/direct.service.ts:219-233 | success exactly when the author removes; the message is soft-deleted and the thread room is told; a failure changes nothing |
| ChatStore.Reversed | apps/desktop/src/state/chat.ts:65 | the same length, with each position holding the element from the mirrored position |
| ChatStore.ReversedTwice | apps/desktop/src/state/chat.ts:65 | reversing twice gives the page back |
| ChatStore.Without | apps/desktop/src/state/chat.ts:98 | exactly the names other than the one removed, never longer, and still without duplicates |
| ChatStore.WithoutAbsent | apps/desktop/src/state/chat.ts:98 | removing a name that is not listed changes nothing |
| ChatStore.StartThenStop | apps/desktop/src/state/chat.ts:93-98 | a typing start for an unlisted user followed by the matching stop gives the list back as it was |
| ChatStore.Chat.constructor | apps/desktop/src/state/chat.ts:30-40 | no socket, no servers, channels or messages, nothing active and nobody typing |
| ChatStore.Chat.SelectChannel | apps/desktop/src/state/chat.ts:63-69 | the channel becomes active, its messages are stored oldest first, the typing list is cleared, and a connected socket sends channel_join |
| ChatStore.Chat.SelectServer | apps/desktop/src/state/chat.ts:55-61 | the server becomes active with its channels; messages and the active channel are reset; when there is a first channel it is selected |
| ChatStore.Chat.LoadServers | apps/desktop/src/state/chat.ts:42-48 | the server list is replaced; when no server is active and the list is not empty the first server is selected with selectServer's whole effect (channels, reset or selected channel, messages, typing list, channel_join); otherwise nothing else changes |
| ChatStore.Chat.CreateServer | apps/desktop/src/state/chat.ts:50-53 | the new server is put in front of the list |
| ChatStore.Chat.Send | apps/desktop/src/state/chat.ts:71-75 | a message is posted exactly when there is an active channel, and to that channel |
| ChatStore.Chat.ConnectWs | apps/desktop/src/state/chat.ts:77-80 | an existing socket is kept unchanged; otherwise the new socket is stored |
| ChatStore.Chat.DisconnectWs | apps/desktop/src/state/chat.ts:104-108 | an existing socket is closed; the socket is forgotten and the typing list cleared |
| ChatStore.Chat.OnMessageCreated | apps/desktop/src/state/chat.ts:85-89 | a message of the active channel is appended at the end; any other message changes nothing |
| ChatStore.Chat.OnTypingStarted | apps/desktop/src/state/chat.ts:91-94 | for the active channel an unlisted user is appended; another channel or a listed user changes nothing, so the list never has duplicates |
| ChatStore.Chat.OnTypingStopped | apps/desktop/src/state/chat.ts:96-99 | for the active channel the user is removed; another channel changes nothing |
| MembersView.InBucket | apps/desktop/src/ui/Members.tsx:15-18 | a bucket is never longer than the member list |
| MembersView.RoleOf | apps/desktop/src/ui/Members.tsx:16 | a member without a role is bucketed as MEMBER; otherwise by its role |
| MembersView.InBucketMembers | apps/desktop/src/ui/Members.tsx:16-18 | a member is in a role's bucket exactly when it is in the list and its role (defaulting to MEMBER) is that role |
| MembersView.InBucketAppend | apps/desktop/src/ui/Members.tsx:15-18 | one more member extends only its own role's bucket, at the end |
| MembersView.Unranked | apps/desktop/src/ui/Members.tsx:17 | the members outside the four buckets are exactly those whose role is none of OWNER, ADMIN, MOD, MEMBER |
| MembersView.UnrankedAppend | apps/desktop/src/ui/Members.tsx:17-18 | one more member with an unranked role extends the unranked members at the end |
| MembersView.OneBucket | apps/desktop/src/ui/Members.tsx:6 | every role is exactly one of the four ranked roles or none of them |
| MembersView.BucketsPartition | apps/desktop/src/ui/Members.tsx:12-21 | the four ranked buckets and the unranked members together count every member exactly once |
| MembersView.FourEmptyBuckets | apps/desktop/src/ui/Members.tsx:13-14 | the four empty starting buckets are the buckets of the empty list |
| MembersView.PushKeepsBuckets | apps/desktop/src/ui/Members.tsx:15-19 | pushing the next member onto its bucket keeps the map equal to the buckets of the longer list |
| MembersView.GroupedOfBuckets | apps/desktop/src/ui/Members.tsx:12-21 | the memo built member by member holds exactly the buckets of the whole list |
| MembersView.Grouped | apps/desktop/src/ui/Members.tsx:12-21 | a bucket exists exactly for the four ranked roles and each other role some member has, and each holds that role's members in list order |
| MembersView.Rendered | apps/desktop/src/ui/Members.tsx:35-37 | the sections shown are non-empty buckets of ranked roles only, every non-empty ranked bucket is shown, the sections follow ROLE_ORDER and no role is shown twice |
| MembersView.RenderedFrom | apps/desktop/src/ui/Members.tsx:35-37 | the sections are the non-empty buckets of the given roles, each shown, in the order of the given roles |
| MembersView.ConsInOrder | apps/desktop/src/ui/Members.tsx:35-37 | the section of the first role, if shown, followed by sections in the order of the remaining roles, are in the order of all roles |
| MembersView.ShownIffRanked | apps/desktop/src/ui/Members.tsx:35-42 | a member of a ranked role is shown in its role's section; a member of any other role appears in no section |
| MembersView.DisplayName | apps/desktop/src/ui/Members.tsx:48 | the user's name when present, otherwise "User" |
| MembersView.DisplayedStatus | apps/desktop/src/ui/Members.tsx:50 | the live presence when known, else the stored status, else OFFLINE |
| MembersView.PresenceKey | apps/desktop/src/ui/Members.tsx:50 | the user's id, or the key "undefined" for a member without a user |
| Listing.DistinctUncons | backend/src/channels/channels.service.ts:40 | a non-empty sequence has no repeats exactly when its head is not in its tail and its tail has none |
| Listing.InsertSorted | backend/src/channels/channels.service.ts:40 | inserting adds exactly that one element and keeps all the others |
| Listing.ConsSorted | backend/src/channels/channels.service.ts:40 | a sorted sequence stays sorted under a head whose key is no larger than any of its elements |
| Listing.InsertSortedSorted | backend/src/channels/channels.service.ts:40 | inserting into a sorted sequence keeps it sorted |
| Listing.HeadIsLeast | backend/src/channels/channels.service.ts:40 | the head of a sorted sequence has the smallest key |
| Listing.DistinctFromMultiset | backend/src/channels/channels.service.ts:40 | a sequence in which no element occurs twice has no repeated positions |
| Listing.OrderBy | backend/src/channels/channels.service.ts:40 | every selected row exactly once, in ascending key order |
| Listing.Take | backend/src/messages/messages.service.ts:41-42 | the first n rows, or all of them when there are fewer |
| Listing.PrefixComesFirst | backend/src/messages/messages.service.ts:41-42 | in a sorted sequence no row of a prefix has a larger key than a row after it |
| Listing.OrderByTake | backend/src/messages/messages.service.ts:41-42 | at most n distinct selected rows in key order, all of them when fewer are kept, and no row left out has a smaller key than one kept |

## Left out

- Controllers, modules, `main.ts`, the React views other than the member list, the Electron shell and the HTTP and socket clients: routing, rendering and transport with no decision logic.
- `myServers` and `listMembers` of the servers service: plain queries outside the modelled rules.
- Reactions, read markers and the unread map: outside the modelled core.
- Async interleaving between awaits: each handler runs to completion as one step.
- socket.io delivery and fan-out across processes: only the room subscription relation and the emission log are modelled.
- Event payloads: a forwarded domain event is reduced to the id of the row it carries, or to the id of the removed row.
- JWT signatures, argon2 hashes and `randomBytes`: oracles and parameters, as described above.
- String lengths: sequences of characters, not UTF-16 code units, so a character outside the basic plane counts once.
- The case-insensitive `contains` of search: an oracle parameter, not Unicode case folding.
- Non-string values in handshake fields and request bodies: every field is modelled as an optional string (or a sequence of them, for arrays).
- Database cascades: a deletion removes the dependent rows explicitly. The invariant `Consistent` anchors memberships, bans, channels and invites to their server, and messages to their channel or thread; an attachment's link to its message is not anchored.
- Foreign keys to users: `Consistent` anchors no row to the user table, so a write naming a user id that does not exist succeeds in the model where the database refuses it.
- Direct.DirectService.StartThread: an `otherUserId` that names no user gives a stored thread with a dangling member; the database's foreign-key failure on the nested member create is not modelled.
- Realtime.Roster: the same simplification as for Realtime.Gateway.VoiceJoin, below.
- Realtime.Gateway.VoiceJoin: the roster is a set of user ids; the answer's list has one entry per socket in the room, in the order sockets are fetched, so a user with two sockets there appears twice; that multiplicity and the order are not modelled.
- Direct.DirectService.FindThreadBetween: when several threads join the same pair, the database picks one; the model returns some such thread without fixing which.
- Listing.OrderBy: rows with equal keys come out in no fixed order, as in the database.
- Messages.MessagesService.Send: the re-read of the message after the attachments are linked cannot fail while the store is consistent, so its NotFound branch is not modelled.
- Direct.DirectService.Send: likewise, the re-read of the direct message after its attachments are linked ('Message not found') cannot fail while the store is consistent, so that branch is not modelled.
- Invites.InvitesService.Join: the 'Server not found' branch cannot be reached while the store is consistent (an invite always belongs to an existing server), so it is not modelled.
- Posts.ClampTake: the page size is an integer; a limit that is not a number (NaN, or a query string) is not modelled.
- Auth.AuthService.SignTokens: the refresh lifetime is an integer parameter; a non-numeric setting is not modelled.
- Auth.AuthService.Register: the schema's default user status is a parameter.
- Token expiry: the verify oracles (the gateway's and guard's `jwt`, and `verify` in the auth service) take no time and are fixed for the service's lifetime, so a token that verified once keeps verifying. In the code, a connected socket whose access token has since expired gets 'Invalid token' from the guard on its next message; in the model it still passes. The socket keeps its rooms until it disconnects, in the model and in the code.
- The member list's direct-message branch (`chat.view`): it renders only fixed text.
- The client listens for `typing_started` and `message_created` while the gateway emits `typing.start` and `message.created`; the client reducers are modelled on their own and not linked to the gateway's log.
- Wall-clock timers: a typing timer is an expiry time on the logical clock, and `setTimeout` is not modelled.
