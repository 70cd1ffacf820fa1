/** The on-disk index as the synchronizer sees it through a tantivy writer:
    a sequence of documents, a delete-by-id, a delete-all, an add, and a
    commit that makes the writer's pending operations visible to searchers. */
module IndexStore {
  import opened Common

  /** A document with the fields of `get_schema` (search.py:174-182). */
  datatype Doc = Doc(
    id: string,
    name: string,
    title: string,
    content: string,
    doctype: string,
    fields: map<string, Value>)

  /** The identity key `f"{doctype}-{name}"`. */
  function DocId(doctype: string, name: string): string {
    doctype + "-" + name
  }

  /** The documents left by `delete_documents("id", id)`, in order. */
  function WithoutId(docs: seq<Doc>, id: string): (r: seq<Doc>)
    ensures forall d :: d in r <==> d in docs && d.id != id
    ensures |r| <= |docs|
  {
    if docs == [] then []
    else
      assert docs == [docs[0]] + docs[1..];
      (if docs[0].id == id then [] else [docs[0]]) + WithoutId(docs[1..], id)
  }

  /** How many documents carry the id. */
  function CountId(docs: seq<Doc>, id: string): nat {
    if docs == [] then 0
    else (if docs[0].id == id then 1 else 0) + CountId(docs[1..], id)
  }

  /** At most one live document per id. */
  predicate UniqueIds(docs: seq<Doc>) {
    forall i, j :: 0 <= i < j < |docs| ==> docs[i].id != docs[j].id
  }

  /** The documents after the replace protocol for `d` has run to its end:
      delete by `d.id`, commit, add `d`, commit. */
  function Replaced(docs: seq<Doc>, d: Doc): seq<Doc> {
    WithoutId(docs, d.id) + [d]
  }

  lemma {:induction false} CountIdAppend(a: seq<Doc>, b: seq<Doc>, id: string)
    ensures CountId(a + b, id) == CountId(a, id) + CountId(b, id)
  {
    if a != [] {
      assert (a + b)[1..] == a[1..] + b;
      CountIdAppend(a[1..], b, id);
    } else {
      assert a + b == b;
    }
  }

  lemma {:induction false} WithoutIdAppend(a: seq<Doc>, b: seq<Doc>, id: string)
    ensures WithoutId(a + b, id) == WithoutId(a, id) + WithoutId(b, id)
  {
    if a != [] {
      assert (a + b)[1..] == a[1..] + b;
      WithoutIdAppend(a[1..], b, id);
    } else {
      assert a + b == b;
    }
  }

  lemma {:induction false} WithoutIdIdempotent(docs: seq<Doc>, id: string)
    ensures WithoutId(WithoutId(docs, id), id) == WithoutId(docs, id)
  {
    if docs != [] {
      WithoutIdIdempotent(docs[1..], id);
      WithoutIdAppend(if docs[0].id == id then [] else [docs[0]], WithoutId(docs[1..], id), id);
    }
  }

  lemma {:induction false} WithoutIdRemovesAll(docs: seq<Doc>, id: string)
    ensures CountId(WithoutId(docs, id), id) == 0
  {
    if docs != [] {
      WithoutIdRemovesAll(docs[1..], id);
      CountIdAppend(if docs[0].id == id then [] else [docs[0]], WithoutId(docs[1..], id), id);
    }
  }

  /** After a replace exactly one document carries the id, never zero, never two. */
  lemma ReplacedHasOneCopy(docs: seq<Doc>, d: Doc)
    ensures CountId(Replaced(docs, d), d.id) == 1
  {
    WithoutIdRemovesAll(docs, d.id);
    CountIdAppend(WithoutId(docs, d.id), [d], d.id);
  }

  /** A replace leaves every document with another id as it was, in order. */
  lemma ReplacedKeepsOthers(docs: seq<Doc>, d: Doc)
    ensures WithoutId(Replaced(docs, d), d.id) == WithoutId(docs, d.id)
    ensures forall x: Doc :: x.id != d.id ==> (x in Replaced(docs, d) <==> x in docs)
  {
    WithoutIdAppend(WithoutId(docs, d.id), [d], d.id);
    WithoutIdIdempotent(docs, d.id);
  }

  /** Replacing twice under one id is the same as replacing once with the
      later document: repeated updates never pile up copies. */
  lemma ReplaceTwice(docs: seq<Doc>, d1: Doc, d2: Doc)
    requires d1.id == d2.id
    ensures Replaced(Replaced(docs, d1), d2) == Replaced(docs, d2)
  {
    WithoutIdAppend(WithoutId(docs, d1.id), [d1], d1.id);
    WithoutIdIdempotent(docs, d1.id);
  }

  /** A replace keeps the ids unique. */
  lemma ReplacedKeepsUniqueIds(docs: seq<Doc>, d: Doc)
    requires UniqueIds(docs)
    ensures UniqueIds(Replaced(docs, d))
  {
    var kept := WithoutId(docs, d.id);
    var r := Replaced(docs, d);
    UniqueSubsequence(docs, d.id);
    forall i, j | 0 <= i < j < |r|
      ensures r[i].id != r[j].id
    {
      if j == |r| - 1 {
        assert r[i] in kept;
      }
    }
  }

  lemma {:induction false} UniqueSubsequence(docs: seq<Doc>, id: string)
    requires UniqueIds(docs)
    ensures UniqueIds(WithoutId(docs, id))
  {
    if docs != [] {
      var rest := WithoutId(docs[1..], id);
      UniqueSubsequence(docs[1..], id);
      if docs[0].id != id {
        var r := [docs[0]] + rest;
        forall i, j | 0 <= i < j < |r|
          ensures r[i].id != r[j].id
        {
          if i == 0 {
            assert r[j] in docs[1..];
          } else {
            assert r[i] == rest[i - 1] && r[j] == rest[j - 1];
          }
        }
      }
    }
  }

  /** The index seen through one writer. `docs` is what a searcher opened now
      sees: the last committed state. `staged` is the writer's view: `docs`
      with the writer's operations since the last commit applied. */
  class Index {
    var docs: seq<Doc>
    var staged: seq<Doc>

    /** No operation is pending. */
    predicate Quiescent()
      reads this
    {
      staged == docs
    }

    /** `Index(schema, path=INDEX_PATH)` on an index holding `initial`. */
    constructor Open(initial: seq<Doc>)
      ensures docs == initial && Quiescent()
    {
      docs := initial;
      staged := initial;
    }

    /** `writer.delete_documents("id", id)`. */
    method DeleteDocuments(id: string)
      modifies this
      ensures staged == WithoutId(old(staged), id) && docs == old(docs)
    {
      staged := WithoutId(staged, id);
    }

    /** `writer.delete_all_documents()`. */
    method DeleteAllDocuments()
      modifies this
      ensures staged == [] && docs == old(docs)
    {
      staged := [];
    }

    /** `writer.add_document(d)`. */
    method AddDocument(d: Doc)
      modifies this
      ensures staged == old(staged) + [d] && docs == old(docs)
    {
      staged := staged + [d];
    }

    /** `writer.commit()`. */
    method Commit()
      modifies this
      ensures docs == old(staged) && Quiescent()
    {
      docs := staged;
    }

    /** The writer is dropped by an exception: what it did since the last
        commit is lost. */
    method Discard()
      modifies this
      ensures docs == old(docs) && Quiescent()
    {
      staged := docs;
    }
  }
}
