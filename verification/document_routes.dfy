/**
 The document REST routes: list, create, read, rename and delete. Each route runs
 after the authentication guard, so the caller's user id is known; database reads
 and writes become reads and updates of the document table.
 */
module DocumentRoutes {
  import opened Wrappers
  import opened Ordered
  import opened Documents

  datatype HttpError = HttpError(status: int, message: string)

  /** The read route's answer for a missing and for a hidden document alike. */
  const NotFound := HttpError(404, "Document not found")
  /** The rename and delete routes' answer for a missing or forbidden document. */
  const NotFoundOrDenied := HttpError(404, "Document not found or access denied")

  const DefaultTitle := "Untitled Document"

  /** The serialised starter document every new document is created with. */
  const InitialContent :=
    "{\"type\":\"doc\",\"content\":[{\"type\":\"paragraph\",\"content\":"
    + "[{\"type\":\"text\",\"text\":\"Start typing...\"}]}]}"

  /** `orderBy: { updatedAt: 'desc' }`. */
  predicate NewestFirst(r: seq<Document>) {
    forall i, j :: 0 <= i < j < |r| ==> r[i].updatedAt >= r[j].updatedAt
  }

  /** Inserts `x` into a newest-first list before every document no newer than it. */
  function InsertByRecency(r: seq<Document>, x: Document): (res: seq<Document>)
    requires NewestFirst(r)
    ensures NewestFirst(res)
    ensures multiset(res) == multiset(r) + multiset{x}
    ensures |res| == |r| + 1 && (res[0] == x || (|r| > 0 && res[0] == r[0]))
  {
    if |r| == 0 || x.updatedAt >= r[0].updatedAt then [x] + r
    else
      var rest := InsertByRecency(r[1..], x);
      assert r == [r[0]] + r[1..];
      assert rest[0].updatedAt <= r[0].updatedAt;
      [r[0]] + rest
  }

  /** After insertion the list holds the old documents and `x`, and nothing else. */
  lemma InsertMembers(r: seq<Document>, x: Document)
    requires NewestFirst(r)
    ensures forall y :: y in InsertByRecency(r, x) <==> y in r || y == x
  {
    var res := InsertByRecency(r, x);
    forall y
      ensures y in res <==> y in r || y == x
    {
      assert y in res <==> y in multiset(res);
      assert y in r <==> y in multiset(r);
    }
  }

  /** Insertion keeps every document once. */
  lemma {:induction false} InsertKeepsNoDup(r: seq<Document>, x: Document)
    requires NewestFirst(r) && NoDup(r) && x !in r
    ensures NoDup(InsertByRecency(r, x))
  {
    if |r| > 0 && x.updatedAt < r[0].updatedAt {
      InsertKeepsNoDup(r[1..], x);
      var rest := InsertByRecency(r[1..], x);
      assert r == [r[0]] + r[1..];
      assert r[0] !in multiset(r[1..]) + multiset{x};
      assert r[0] !in rest;
    }
  }

  /**
   The list route: every document the caller owns or collaborates on, each once,
   newest first. A public document the caller has no part in is not listed.
   */
  method ListDocuments(store: Store, u: UserId) returns (r: seq<Document>)
    ensures forall d :: d in r <==> d in store.Values && Listable(d, u)
    ensures NoDup(r)
    ensures NewestFirst(r)
  {
    var pending := store.Values;
    r := [];
    while pending != {}
      invariant pending <= store.Values
      invariant NewestFirst(r) && NoDup(r)
      invariant forall d :: d in r <==> d in store.Values - pending && Listable(d, u)
      decreases pending
    {
      var d :| d in pending;
      if Listable(d, u) {
        InsertKeepsNoDup(r, d);
        InsertMembers(r, d);
        r := InsertByRecency(r, d);
      }
      pending := pending - {d};
    }
  }

  /**
   The create route: the caller owns the new document, which starts without a
   checkpoint and is titled `Untitled Document` when no title or an empty one is given.
   `id` is the fresh key the database generates.
   */
  function CreateDocument(store: Store, u: UserId, title: Option<string>, id: DocId, now: int)
    : (r: (Store, Document))
    requires id !in store
    ensures r.0.Keys == store.Keys + {id} && r.0[id] == r.1
    ensures forall k :: k in store ==> r.0[k] == store[k]
    ensures r.1.id == id && r.1.ownerId == u && IsOwner(r.1, u) && Listable(r.1, u)
    ensures Truthy(title) ==> r.1.title == title.value
    ensures !Truthy(title) ==> r.1.title == DefaultTitle
    ensures r.1.title != ""
    ensures r.1.collaborators == [] && !r.1.isPublic && r.1.yjsState == None
  {
    var doc := Document(id, if Truthy(title) then title.value else DefaultTitle,
                        InitialContent, u, [], false, None, now);
    (store[id := doc], doc)
  }

  /** The read route. Absence and refusal are indistinguishable to the caller. */
  function GetDocument(store: Store, id: DocId, u: UserId): (r: Result<Document, HttpError>)
    ensures r.Ok? <==> id in store && Readable(store[id], u)
    ensures r.Ok? ==> r.value == store[id]
    ensures r.Err? ==> r.error == NotFound
  {
    if id in store && Readable(store[id], u) then Ok(store[id]) else Err(NotFound)
  }

  /**
   The rename route. It changes the title (left as it was when the body carries no
   title, since an undefined field is not written) and the update time, and nothing else.
   */
  function RenameDocument(store: Store, id: DocId, u: UserId, title: Option<string>, now: int)
    : (r: Result<(Store, Document), HttpError>)
    ensures r.Ok? <==> id in store && Renamable(store[id], u)
    ensures r.Err? ==> r.error == NotFoundOrDenied
    ensures r.Ok? ==> r.value.0.Keys == store.Keys && r.value.0[id] == r.value.1
    ensures r.Ok? ==> forall k :: k in store && k != id ==> r.value.0[k] == store[k]
    ensures r.Ok? ==>
              r.value.1.(title := store[id].title, updatedAt := store[id].updatedAt) == store[id]
    ensures r.Ok? ==> r.value.1.updatedAt == now
    ensures r.Ok? && title.Some? ==> r.value.1.title == title.value
    ensures r.Ok? && title.None? ==> r.value.1.title == store[id].title
  {
    if id in store && Renamable(store[id], u) then
      var doc := store[id].(title := if title.Some? then title.value else store[id].title,
                            updatedAt := now);
      Ok((store[id := doc], doc))
    else Err(NotFoundOrDenied)
  }

  /** The delete route: only the owner may remove a document. */
  function DeleteDocument(store: Store, id: DocId, u: UserId): (r: Result<Store, HttpError>)
    ensures r.Ok? <==> id in store && IsOwner(store[id], u)
    ensures r.Err? ==> r.error == NotFoundOrDenied
    ensures r.Ok? ==> id !in r.value && r.value.Keys == store.Keys - {id}
    ensures r.Ok? ==> forall k :: k in r.value ==> r.value[k] == store[k]
  {
    if id in store && IsOwner(store[id], u) then Ok(store - {id}) else Err(NotFoundOrDenied)
  }

  /**
   The routes' permissions nest: a successful delete implies the rename would have
   been allowed, and a successful rename implies the read would have been.
   */
  lemma RoutePermissionsNest(store: Store, id: DocId, u: UserId, title: Option<string>, now: int)
    ensures DeleteDocument(store, id, u).Ok? ==> RenameDocument(store, id, u, title, now).Ok?
    ensures RenameDocument(store, id, u, title, now).Ok? ==> GetDocument(store, id, u).Ok?
  {
    if id in store {
      PermissionsNest(store[id], u);
    }
  }

  /**
   Readers who are neither owner nor editor (view-only collaborators and readers of a
   public document) may read but are refused a rename with the same 404 as a missing id.
   */
  lemma ReadersCannotRename(store: Store, id: DocId, u: UserId, title: Option<string>, now: int)
    requires id in store && Readable(store[id], u)
    requires !IsOwner(store[id], u) && !IsEditor(store[id], u)
    ensures GetDocument(store, id, u) == Ok(store[id])
    ensures RenameDocument(store, id, u, title, now) == Err(NotFoundOrDenied)
  {
  }
}
