/**
 The Yjs document, abstracted. A binary update is modelled as the set of opaque
 operations it carries; a document is the set of operations merged into it.
 Applying an update is set union, which makes merging commutative and idempotent;
 encoding the whole state yields an update that carries every merged operation.
 How Yjs resolves conflicting operations inside a document is not modelled.
 */
module Crdt {

  /** One opaque operation, as bytes; the server never looks inside. */
  type Item = seq<bv8>

  /** A binary Yjs update (`Uint8Array`), abstracted to the operations it carries. */
  type Update = set<Item>

  /** An in-memory `Y.Doc`. */
  datatype YDoc = YDoc(items: set<Item>)

  /** `new Y.Doc()`. */
  function NewDoc(): (d: YDoc)
    ensures forall it :: it !in d.items
  {
    YDoc({})
  }

  /** `Y.applyUpdate(doc, u)`: the document afterwards holds its old operations and those of `u`. */
  function ApplyUpdate(d: YDoc, u: Update): (r: YDoc)
    ensures d.items <= r.items && u <= r.items
    ensures forall it :: it in r.items ==> it in d.items || it in u
  {
    YDoc(d.items + u)
  }

  /**
   `Y.encodeStateAsUpdate(doc)`: an update carrying the whole merged state, so that
   hydrating a fresh document from it reproduces the encoded document.
   */
  function EncodeStateAsUpdate(d: YDoc): (u: Update)
    ensures ApplyUpdate(NewDoc(), u) == d
  {
    d.items
  }

  /** Applying the same update twice has the effect of applying it once. */
  lemma ApplyIdempotent(d: YDoc, u: Update)
    ensures ApplyUpdate(ApplyUpdate(d, u), u) == ApplyUpdate(d, u)
  {
  }

  /** Two updates merge to the same state in either order. */
  lemma ApplyCommutes(d: YDoc, u: Update, v: Update)
    ensures ApplyUpdate(ApplyUpdate(d, u), v) == ApplyUpdate(ApplyUpdate(d, v), u)
  {
  }

  /** Applies the updates of `us` one after another, in order. */
  function ApplyAll(d: YDoc, us: seq<Update>): YDoc
    decreases |us|
  {
    if |us| == 0 then d else ApplyAll(ApplyUpdate(d, us[0]), us[1..])
  }

  /** The operations carried by any update of `us`. */
  ghost function Carried(us: seq<Update>): set<Item> {
    set it, i | 0 <= i < |us| && it in us[i] :: it
  }

  /** Applying a sequence of updates adds exactly the operations they carry. */
  lemma {:induction false} ApplyAllCarries(d: YDoc, us: seq<Update>)
    ensures ApplyAll(d, us).items == d.items + Carried(us)
    decreases |us|
  {
    if |us| > 0 {
      ApplyAllCarries(ApplyUpdate(d, us[0]), us[1..]);
      forall it | it in Carried(us)
        ensures it in us[0] || it in Carried(us[1..])
      {
        var i :| 0 <= i < |us| && it in us[i];
        if i > 0 {
          assert us[1..][i - 1] == us[i];
        }
      }
      forall it | it in Carried(us[1..])
        ensures it in Carried(us)
      {
        var i :| 0 <= i < |us[1..]| && it in us[1..][i];
        assert us[i + 1] == us[1..][i];
      }
    }
  }

  /**
   Convergence: two replicas that received the same updates, in any order and with
   any repetitions, reach the same state.
   */
  lemma ApplyAllOrderInsensitive(d: YDoc, us: seq<Update>, vs: seq<Update>)
    requires forall u :: u in us <==> u in vs
    ensures ApplyAll(d, us) == ApplyAll(d, vs)
  {
    ApplyAllCarries(d, us);
    ApplyAllCarries(d, vs);
    forall it | it in Carried(us)
      ensures it in Carried(vs)
    {
      var i :| 0 <= i < |us| && it in us[i];
      assert us[i] in vs;
    }
    forall it | it in Carried(vs)
      ensures it in Carried(us)
    {
      var i :| 0 <= i < |vs| && it in vs[i];
      assert vs[i] in us;
    }
  }
}
