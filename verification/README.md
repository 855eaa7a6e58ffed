# Collaborative editor backend: a Dafny model

This project models the core of a collaborative document editor's backend:

- the **real-time collaboration engine** (`backend/src/websocket/socketHandler.ts`): the WebSocket handshake and the `join-document`, `send-update`, `cursor-update`, `leave-document` and `disconnect` handlers over the process-wide `documents` map (document id to live Yjs document) and `documentRooms` map (document id to the set of socket ids);
- the **document access rules and routes** (`backend/src/routes/documents.ts`): the list, create, read, rename and delete routes and the query filters that decide who may do what;
- the **HTTP authentication guard** (`backend/src/middleware/auth.ts`): `Bearer` prefix stripping, the two 401 answers, and attaching the caller's identity.

Handlers run one at a time, so every handler is a pure transition from a `Server` state to the next state plus the list of messages it emits. A message is sent either to one socket (`socket.emit`) or to a room less the sender (`socket.to(room).emit`). Recipients are worked out from the Socket.IO room membership kept in each session, which the model keeps separate from `documentRooms`. An invariant proves the two always agree.

The Yjs document is abstracted as a grow-only set of opaque operations. `Y.applyUpdate` is set union and `Y.encodeStateAsUpdate` returns the set. The database becomes a map from document id to document record. `jwt.verify` becomes a parameter: a function from token to optional claims. Timestamps are a `now` parameter. The other inputs the code receives from outside become parameters too: fresh ids, request bodies and cursor payloads.

JavaScript `Set`s and `Map`s iterate in insertion order. The model keeps that order: a set is a sequence without duplicates, and a map is a key sequence plus a `map`. This makes the presence list's order and the order of `disconnect`'s notices part of the model.

Files: `wrappers.dfy` (Option, Result, JavaScript truthiness), `ordered.dfy` (insertion-ordered sets and maps), `crdt.dfy` (the Yjs abstraction), `identity.dfy` (token claims), `documents.dfy` (document record and access predicates), `auth_middleware.dfy`, `document_routes.dfy`, `socket_handler.dfy` (state, handlers, event runs), `socket_invariants.dfy` (the engine invariant), `socket_properties.dfy` (delivery, design deviations, traces).

### Where the code departs from the expected behaviour

The model follows the code in each of these places. The first three are proved as lemmas; the fourth is not modelled (see "## Left out"):

- An update from a socket outside the room would be expected to be ignored. But `send-update` checks only that the in-memory document exists, not that the sender is in the room (`socketHandler.ts:91-92`). A connected non-member's update is merged, saved and relayed to the whole room (`SocketProperties.NonMemberUpdateAccepted`).
- A departure would be expected to be announced only by a member. But `leave-document` announces `user-left` outside the membership `if` (`socketHandler.ts:122`), so the notice goes out even when the socket was not a member (`SocketProperties.LeaveAnnounced`).
- The two ways of leaving a room would be expected to clean up alike. But `leave-document` deletes an emptied set while `disconnect` leaves it in place, and neither one removes the in-memory document (`SocketProperties.EmptiedRoomsDiffer`).
- A malformed update would be expected to be reported to its sender. But it is only logged, and no `error` event is sent (`socketHandler.ts:100-102`).

## Model

| member | source | states |
|---|---|---|
| Crdt.ApplyUpdate | backend/src/websocket/socketHandler.ts:94 | Merging an update keeps every operation the document held and adds exactly the update's operations. |
| Crdt.NewDoc | backend/src/websocket/socketHandler.ts:50 | A new document holds no operation. |
| Crdt.EncodeStateAsUpdate | backend/src/websocket/socketHandler.ts:67 | The encoded state, applied to a fresh document, reproduces the encoded document: the hydration at lines 57-58 inverts the encoding at 67 and 155. |
| Crdt.ApplyAllCarries | backend/src/websocket/socketHandler.ts:94 | Applying a sequence of updates one by one adds exactly the operations they carry. |
| Crdt.ApplyAllOrderInsensitive | backend/src/websocket/socketHandler.ts:94 | Two replicas that received the same updates reach the same state, whatever the order and however many repeats. |
| Ordered.Add | backend/src/websocket/socketHandler.ts:65 | `Set.add` adds the element, keeps the existing order, never duplicates, and leaves a set that already holds the element unchanged. |
| Ordered.Remove | backend/src/websocket/socketHandler.ts:116 | `Set.delete` removes exactly the element, keeps the set duplicate-free, and shrinks it by one when the element was there. |
| Ordered.RemoveKeepsOrder | backend/src/websocket/socketHandler.ts:116 | Deleting a present element from a set leaves the others in their iteration order, with only the gap closed. |
| Ordered.NoDupSize | backend/src/websocket/socketHandler.ts:70 | A duplicate-free sequence has as many elements as its set, so `Array.from` of a set has the set's size. |
| Ordered.Put | backend/src/websocket/socketHandler.ts:62-63 | `Map.set` binds the key and keeps the map well formed. A new key goes last in the iteration order; an existing key keeps its place. |
| Ordered.Delete | backend/src/websocket/socketHandler.ts:118 | `Map.delete` drops exactly the key's binding and keeps the map well formed. The other keys keep their iteration order. |
| Documents.IsCollaborator | backend/src/routes/documents.ts:17 | `collaborators: { some: { userId } }` holds iff the user is among the users the document is shared with, at any level. |
| Documents.IsEditor | backend/src/routes/documents.ts:111 | The `permission: 'edit'` filter holds iff the user is among the users the document is shared with for editing; every editor is a collaborator. |
| Documents.Listable | backend/src/routes/documents.ts:14-19 | The list filter holds iff the user owns the document or it is shared with them; the public flag plays no part. |
| Documents.Readable | backend/src/routes/documents.ts:75-79 | The read filter holds iff the user owns the document, it is shared with them, or it is public; a public document is readable by everyone. |
| Documents.Renamable | backend/src/routes/documents.ts:109-112 | The rename filter holds iff the user owns the document or it is shared with them for editing. |
| Documents.PermissionsNest | backend/src/routes/documents.ts:72-150 | Ownership, the delete route's filter (`documents.ts:142-145`), implies rename permission, rename permission implies listing, and listing implies read access. |
| Documents.ReadableBeyondListing | backend/src/routes/documents.ts:14-19 | Read access is listing access or the public flag; a reader who would not see the document in the list has it only through the public flag and may not rename it. |
| AuthMiddleware.ExtractToken | backend/src/middleware/auth.ts:19-21 | A missing header gives no token. A present header is the token itself or `Bearer ` plus the token, and a header without the prefix is used unchanged. |
| AuthMiddleware.BearerRoundTrip | backend/src/middleware/auth.ts:19-20 | A header `Bearer X` yields exactly the token X. |
| AuthMiddleware.Authenticate | backend/src/middleware/auth.ts:17-42 | `next` is reached iff the token is non-empty and verifies, with `userId`/`userEmail` set from the claims. A missing or empty token gets 401 `Authentication required`. A failed verification gets 401 `Invalid or expired token`. |
| AuthMiddleware.MissingTokenSkipsVerification | backend/src/middleware/auth.ts:23-25 | Without a usable token the outcome does not depend on the verifier, so verification is never attempted. |
| AuthMiddleware.BareBearerIsMissing | backend/src/middleware/auth.ts:19-25 | A header equal to `Bearer ` is refused as a missing token. |
| AuthMiddleware.BearerAdmits | backend/src/middleware/auth.ts:19-38 | A `Bearer X` header whose token verifies passes the request on with X's claims attached and nothing else changed. |
| DocumentRoutes.InsertByRecency | backend/src/routes/documents.ts:24 | Inserting into a newest-first list keeps it newest first and adds exactly the new document (a permutation). |
| DocumentRoutes.InsertKeepsNoDup | backend/src/routes/documents.ts:24 | Inserting a document not yet listed keeps the list free of duplicates. |
| DocumentRoutes.ListDocuments | backend/src/routes/documents.ts:13-25 | The list holds each document the caller owns or collaborates on exactly once, and no other document (a public one alone does not qualify), ordered by `updatedAt` descending. |
| DocumentRoutes.CreateDocument | backend/src/routes/documents.ts:41-56 | The new document is owned by the caller and added under the fresh id with no other record changed. Its title is the given one, or `Untitled Document` when the title is missing or empty. |
| DocumentRoutes.GetDocument | backend/src/routes/documents.ts:72-89 | The read succeeds iff the document exists and the caller is owner, collaborator or it is public. A missing and a hidden document both get the same 404 `Document not found`. |
| DocumentRoutes.RenameDocument | backend/src/routes/documents.ts:106-126 | Rename succeeds iff the caller is owner or an `edit` collaborator, otherwise 404. It changes only the title (kept when none is sent) and `updatedAt`. |
| DocumentRoutes.DeleteDocument | backend/src/routes/documents.ts:141-154 | Delete succeeds iff the caller owns the document and removes exactly that record; otherwise 404. |
| DocumentRoutes.RoutePermissionsNest | backend/src/routes/documents.ts:72-150 | A delete the caller may perform implies the rename would succeed, which implies the read would succeed. |
| DocumentRoutes.ReadersCannotRename | backend/src/routes/documents.ts:106-118 | View-only collaborators and public-only readers can read the document but get the rename route's 404. |
| SocketHandler.Handshake | backend/src/websocket/socketHandler.ts:16-29 | The handshake succeeds iff a non-empty token verifies, and yields the token's claims. Every refusal carries `Authentication error`. |
| SocketHandler.OnConnect | backend/src/websocket/socketHandler.ts:16-29 | A refused connection gets a connection error and changes nothing. An accepted one becomes a session in no room whose `userId`/`email` are the decoded claims. |
| SocketHandler.CheckDocumentAccess | backend/src/websocket/socketHandler.ts:140-152 | Access is granted iff the document exists and the user is its owner or a collaborator, or it is public; a missing document is refused. |
| SocketHandler.Hydrate | backend/src/websocket/socketHandler.ts:49-60 | A new room document encodes the stored checkpoint when there is one, and is empty otherwise. |
| SocketHandler.Presence | backend/src/websocket/socketHandler.ts:70-76 | The presence list has at most one entry per recorded socket. When all are connected it has exactly one per socket, in set order, each the socket's `{id, email}`. |
| SocketHandler.AddMember | backend/src/websocket/socketHandler.ts:62-65 | Joining appends the socket to the document's set, creating the set when absent, so earlier members keep their order; other rooms are untouched and a re-join changes nothing. |
| SocketHandler.EnsureDocument | backend/src/websocket/socketHandler.ts:48-51 | After the lookup the document exists. An existing one is never replaced; a missing one is created from the stored checkpoint. |
| SocketHandler.JoinSocketRoom | backend/src/websocket/socketHandler.ts:46 | `socket.join` adds the room to the socket's Socket.IO rooms and changes no other session or identity. |
| SocketHandler.Admit | backend/src/websocket/socketHandler.ts:46-65 | After an admitted join the socket is in the room. An existing document is never replaced; a missing one is created from the checkpoint. The table is untouched. |
| SocketHandler.OnJoin | backend/src/websocket/socketHandler.ts:34-82 | A denied join sends exactly one `Access denied` error and changes nothing. An admitted join sends `sync-update` with the room document's encoded state, then `users-update`, then `user-joined` to the room except the joiner. |
| SocketHandler.SaveDocument | backend/src/websocket/socketHandler.ts:154-162 | The checkpoint write sets the stored state to the document's encoding and the update time, changes no other field or record, and does nothing when the record is gone. |
| SocketHandler.OnSendUpdate | backend/src/websocket/socketHandler.ts:89-103 | With no in-memory document nothing happens: no merge, no relay, no save. Otherwise the update is merged and relayed verbatim to the room except the sender. The stored record gets the document's new encoding and `updatedAt` set to the event's time, and no other field of it or other record changes. |
| SocketHandler.OnCursorUpdate | backend/src/websocket/socketHandler.ts:105-110 | The cursor goes to the room except the sender, with `userId` forced to the sender's and every other field kept; no state changes. |
| SocketHandler.OnLeave | backend/src/websocket/socketHandler.ts:112-125 | The socket leaves the document's set and Socket.IO room; a kept set lists the remaining sockets in their old order. The set's entry is deleted iff it becomes empty, nothing else changes, and `user-left` is sent regardless of prior membership. |
| SocketHandler.Sweep | backend/src/websocket/socketHandler.ts:128-135 | The `forEach` removes the socket from every set it visits, keeps every key, even when its set is emptied, and emits only `user-left` notices from the socket's user. |
| SocketHandler.SweepNoticesEachRoomOnce | backend/src/websocket/socketHandler.ts:128-135 | The `forEach` notifies exactly the rooms whose set held the socket, each exactly once. |
| SocketHandler.SweepKeepsOrder | backend/src/websocket/socketHandler.ts:128-130 | Each set the `forEach` visits loses only the socket; the remaining sockets keep their insertion order. |
| SocketHandler.DisconnectKeepsOrder | backend/src/websocket/socketHandler.ts:127-136 | After a disconnect every room's set lists its remaining sockets in their old order. |
| SocketHandler.OnDisconnect | backend/src/websocket/socketHandler.ts:127-136 | The session is gone and every set loses the socket but stays in the map. Exactly one `user-left` goes to each room the socket was recorded in, and `documents` is untouched. |
| SocketHandler.Recipients | backend/src/websocket/socketHandler.ts:79 | `socket.emit` reaches exactly the socket. `socket.to(room)` reaches every connected socket in the Socket.IO room except the sender, and never the sender. |
| SocketHandler.Step | backend/src/websocket/socketHandler.ts:31-137 | An event from a socket that is not connected, and a second connect of a live socket, change nothing and send nothing. Only a connect adds a session. No event changes which records the table holds or any of their fields except the checkpoint and its time, and no event drops a live document. |
| SocketHandler.Run | backend/src/websocket/socketHandler.ts:31-137 | Over any sequence of events the table keeps its records, each unchanged except for its checkpoint and its time, and no live document is dropped. Every session at the end was connected at the start or by a connect event of the sequence. |
| SocketInvariants.InitInv | backend/src/websocket/socketHandler.ts:7-8 | The empty maps of a fresh process satisfy the engine invariant. |
| SocketInvariants.RecipientsAreOtherMembers | backend/src/websocket/socketHandler.ts:79-82 | Under the invariant, `socket.to(room)` reaches exactly the sockets recorded for the room, less the sender. |
| SocketInvariants.ConnectPreservesInv | backend/src/websocket/socketHandler.ts:16-29 | A connection keeps the invariant. |
| SocketInvariants.AdmitKeepsRoomsWellFormed | backend/src/websocket/socketHandler.ts:62-65 | An admitted join keeps `documentRooms` a well-formed map of duplicate-free sets. |
| SocketInvariants.AdmitKeepsMembership | backend/src/websocket/socketHandler.ts:46-65 | An admitted join keeps the Socket.IO rooms and `documentRooms` in agreement. |
| SocketInvariants.JoinPreservesInv | backend/src/websocket/socketHandler.ts:34-82 | A join keeps the invariant. |
| SocketInvariants.SendUpdatePreservesInv | backend/src/websocket/socketHandler.ts:89-103 | An update keeps the invariant, including that the stored checkpoint hydrates to the in-memory document. |
| SocketInvariants.CursorPreservesInv | backend/src/websocket/socketHandler.ts:105-110 | A cursor relay keeps the invariant. |
| SocketInvariants.LeavePreservesInv | backend/src/websocket/socketHandler.ts:112-125 | A leave keeps the invariant. |
| SocketInvariants.DisconnectKeepsMembersConnected | backend/src/websocket/socketHandler.ts:127-136 | After a disconnect every socket still recorded for a room is connected and in that Socket.IO room. |
| SocketInvariants.DisconnectKeepsRoomsRecorded | backend/src/websocket/socketHandler.ts:127-136 | After a disconnect every Socket.IO room a connected socket is in still records it. |
| SocketInvariants.DisconnectPreservesInv | backend/src/websocket/socketHandler.ts:127-136 | A disconnect keeps the invariant. |
| SocketInvariants.StepPreservesInv | backend/src/websocket/socketHandler.ts:31-137 | Every event keeps the invariant. |
| SocketInvariants.RunPreservesInv | backend/src/websocket/socketHandler.ts:31-137 | Every sequence of events keeps the invariant. |
| SocketProperties.JoinAccessMatchesRead | backend/src/websocket/socketHandler.ts:140-152 | The WebSocket join admits exactly the users the read route serves; both gates use the same read filter, so the two entry points agree by construction. |
| SocketProperties.HandshakeRefusalsAgree | backend/src/websocket/socketHandler.ts:19-27 | A missing token, an empty token and a token that fails verification get the same refusal. |
| SocketProperties.JoinSyncIsCheckpoint | backend/src/websocket/socketHandler.ts:67-68 | The joiner's `sync-update` is the state the stored checkpoint hydrates to, whether or not the room document already existed. |
| SocketProperties.JoinPresenceComplete | backend/src/websocket/socketHandler.ts:70-78 | The joiner's presence list has one entry per recorded member, itself included, in set order. |
| SocketProperties.JoinNoticeToOthers | backend/src/websocket/socketHandler.ts:79-82 | `user-joined` reaches every other member of the room and never the joiner. |
| SocketProperties.UpdateDelivers | backend/src/websocket/socketHandler.ts:94-98 | An accepted update reaches every other member and never the sender. Afterwards the stored checkpoint hydrates to the in-memory document. |
| SocketProperties.CursorRelayedToOthers | backend/src/websocket/socketHandler.ts:105-110 | A cursor reaches exactly the other members of the room, never its sender, and carries the sender's `userId`. |
| SocketProperties.MemberUpdateAccepted | backend/src/websocket/socketHandler.ts:91-96 | An update from a member of the room is never dropped. |
| SocketProperties.NonMemberUpdateAccepted | backend/src/websocket/socketHandler.ts:91-96 | A connected socket outside the room still has its update merged, saved as the stored state, and relayed to the whole room. |
| SocketProperties.LeaveAnnounced | backend/src/websocket/socketHandler.ts:112-125 | `user-left` reaches every remaining member, whether or not the leaver was a member. |
| SocketProperties.EmptiedRoomsDiffer | backend/src/websocket/socketHandler.ts:112-136 | The last member's leave deletes the room's entry; the last member's disconnect keeps it, empty. Neither removes the document. |
| SocketProperties.DisconnectNotifies | backend/src/websocket/socketHandler.ts:127-136 | A disconnect notifies each room the socket was in exactly once, each notice reaching exactly the remaining members. |
| SocketProperties.ConcurrentUpdatesCommute | backend/src/websocket/socketHandler.ts:89-103 | Two updates to one document give the same merged document and the same checkpoint in either order. |
| SocketProperties.RunOfUpdatesMerges | backend/src/websocket/socketHandler.ts:89-103 | A run of updates to a live document from connected sockets leaves it equal to the document with every update merged in delivery order, and the connected sockets unchanged. |
| SocketProperties.RunOfUpdatesConverges | backend/src/websocket/socketHandler.ts:89-103 | The same update events delivered in any order leave the live document in the same state. |
| SocketProperties.RunKeepsDocuments | backend/src/websocket/socketHandler.ts:48-51 | Over any run of events no entry leaves `documents` and no document loses an operation: documents are never replaced. |
| SocketProperties.RunKeepsAccess | backend/src/websocket/socketHandler.ts:154-162 | No sequence of socket events changes who may list, read, rename or delete a document: only the checkpoint is ever written. |
| SocketProperties.RunFromInit | backend/src/websocket/socketHandler.ts:7-8 | From a fresh start, after any run of events: every recorded member is connected and in the Socket.IO room, every room has its document, and every checkpoint hydrates to the in-memory document. |

## Left out

- Asynchrony: every handler is one atomic step. The code claims the `documents` slot before it awaits the database read (`socketHandler.ts:50-53`), so a document is created at most once. A second joiner could still see it before hydration completes; that interleaving is not modelled.
- Exceptions from the database and from Yjs are not modelled: the join's `Failed to join document` error, a malformed update dropped in `send-update`'s `catch`, and the routes' 500 answers. A checkpoint write to a deleted record is modelled: it changes nothing.
- Socket.IO transport, socket id generation (a `Connect` naming a live socket is ignored), the room every socket has under its own id, and the `connect_error` packet format.
- `jwt.verify`, the secret and token expiry: a parameter from token to optional claims. Claims missing `userId` or `email` are not modelled.
- How Yjs resolves conflicting operations: the document is a set of opaque operations.
- Non-string request values (a numeric `title`, a `null` title, a cursor that is not an object): titles are optional strings and cursors are maps of simple values.
- The `owner` and `_count` fields the list and read routes add to their answers, and `createdAt`.
- The database schema is not part of this model. A new document is assumed to start non-public, with no collaborators, with no checkpoint and with `updatedAt` set to the creation time.
- The list's order among documents with equal `updatedAt` is left open, as the query leaves it.
- Console logging.
- `backend/src/routes/auth.ts` (registration, login, `/me`), `backend/src/index.ts` (server wiring, CORS) and `backend/prisma/seed.ts` (a one-off script) are not part of this model.
