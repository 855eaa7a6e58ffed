/**
 The persisted document record and the access rules that the document routes and the
 WebSocket join use as query filters. Each filter is a predicate over one record.
 */
module Documents {
  import opened Wrappers
  import opened Crdt

  type UserId = string
  type DocId = string

  /** A row of the collaborator table: a user and a permission string (`'view'` or `'edit'`). */
  datatype Collaborator = Collaborator(userId: UserId, permission: string)

  /** A row of the document table. `yjsState` is null until the first checkpoint. */
  datatype Document = Document(
    id: DocId,
    title: string,
    content: string,
    ownerId: UserId,
    collaborators: seq<Collaborator>,
    isPublic: bool,
    yjsState: Option<Update>,
    updatedAt: int)

  /** The document table, keyed by id. */
  type Store = map<DocId, Document>

  /**
   `after` differs from `before` at most in the checkpoint and its time: the id, the
   title, the content, the owner, the collaborators and the public flag are the same,
   so every access filter gives the same answer.
   */
  predicate CheckpointOnly(before: Document, after: Document) {
    && after.id == before.id && after.title == before.title && after.content == before.content
    && after.ownerId == before.ownerId && after.collaborators == before.collaborators
    && after.isPublic == before.isPublic
  }

  /** The owner: the filter of the delete route on its own, and part of every other filter. */
  predicate IsOwner(d: Document, u: UserId) {
    d.ownerId == u
  }

  /** The users a document is shared with, at any permission level. */
  function Sharers(d: Document): set<UserId> {
    set c | c in d.collaborators :: c.userId
  }

  /** The users a document is shared with for editing. */
  function EditorIds(d: Document): set<UserId> {
    set c | c in d.collaborators && c.permission == "edit" :: c.userId
  }

  /** `collaborators: { some: { userId } }`: any permission level. */
  function IsCollaborator(d: Document, u: UserId): (r: bool)
    ensures r <==> u in Sharers(d)
  {
    exists i :: 0 <= i < |d.collaborators| && d.collaborators[i].userId == u
  }

  /** `collaborators: { some: { userId, permission: 'edit' } }`. */
  function IsEditor(d: Document, u: UserId): (r: bool)
    ensures r <==> u in EditorIds(d)
    ensures r ==> IsCollaborator(d, u)
  {
    exists i :: 0 <= i < |d.collaborators| && d.collaborators[i].userId == u
      && d.collaborators[i].permission == "edit"
  }

  /** The filter of the document list: owned or shared; the public flag plays no part. */
  function Listable(d: Document, u: UserId): (r: bool)
    ensures r <==> u == d.ownerId || u in Sharers(d)
  {
    IsOwner(d, u) || IsCollaborator(d, u)
  }

  /** The filter of the single-document read and of the WebSocket join. */
  function Readable(d: Document, u: UserId): (r: bool)
    ensures r <==> u == d.ownerId || u in Sharers(d) || d.isPublic
    ensures d.isPublic ==> r
  {
    IsOwner(d, u) || IsCollaborator(d, u) || d.isPublic
  }

  /** The filter of the rename route: owner or a collaborator with `'edit'`. */
  function Renamable(d: Document, u: UserId): (r: bool)
    ensures r <==> u == d.ownerId || u in EditorIds(d)
  {
    IsOwner(d, u) || IsEditor(d, u)
  }

  /**
   The permissions nest: whoever may delete may rename, whoever may rename may read,
   and whoever sees a document in the list may read it.
   */
  lemma PermissionsNest(d: Document, u: UserId)
    ensures IsOwner(d, u) ==> Renamable(d, u)
    ensures Renamable(d, u) ==> Listable(d, u)
    ensures Listable(d, u) ==> Readable(d, u)
  {
    if IsEditor(d, u) {
      var i :| 0 <= i < |d.collaborators| && d.collaborators[i].userId == u
        && d.collaborators[i].permission == "edit";
      assert IsCollaborator(d, u);
    }
  }

  /** Read access beyond the list is exactly the public flag. */
  lemma ReadableBeyondListing(d: Document, u: UserId)
    ensures Readable(d, u) <==> Listable(d, u) || d.isPublic
    ensures Readable(d, u) && !Listable(d, u) ==> d.isPublic && !Renamable(d, u)
  {
    PermissionsNest(d, u);
  }
}
