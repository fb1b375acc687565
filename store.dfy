/**
 * The document-store semantics every handler relies on, for one collection
 * held as a sequence of documents in insertion (store) order:
 *   - FindOne: the first document that matches the filter;
 *   - Find:    all matching documents, in store order (Filter);
 *   - InsertOne: append;
 *   - UpdateOne with `$set`: change the first match; with upsert and no
 *     match, insert a new document;
 *   - DeleteOne: remove the first match.
 * A filter is a predicate on documents.
 */
module Store {

  datatype Option<T> = None | Some(value: T)

  /** The complement of a filter. */
  function Not<T>(p: T -> bool): T -> bool
  {
    x => !p(x)
  }

  /** An update that replaces every field of the matched document, as `$set` of a whole record does. */
  function SetAll<T>(v: T): T -> T
  {
    _ => v
  }

  /** Two filters that no document satisfies together. */
  ghost predicate Disjoint<T(!new)>(p: T -> bool, q: T -> bool)
  {
    forall x :: p(x) ==> !q(x)
  }

  /** An update that keeps a matched document inside the filter it was selected by. */
  ghost predicate KeepsMatch<T(!new)>(p: T -> bool, update: T -> T)
  {
    forall x :: p(x) ==> p(update(x))
  }

  /** Position of the first document satisfying the filter. */
  function FirstMatch<T>(docs: seq<T>, p: T -> bool): (r: Option<nat>)
    ensures r.Some? ==> r.value < |docs| && p(docs[r.value])
    ensures r.Some? ==> forall j :: 0 <= j < r.value ==> !p(docs[j])
    ensures r.None? ==> forall j :: 0 <= j < |docs| ==> !p(docs[j])
  {
    if |docs| == 0 then None
    else if p(docs[0]) then Some(0)
    else match FirstMatch(docs[1..], p)
      case None => None
      case Some(k) => Some(k + 1)
  }

  /** FindOne: the first matching document, if any. */
  function FindOne<T>(docs: seq<T>, p: T -> bool): (r: Option<T>)
    ensures r.Some? ==> r.value in docs && p(r.value)
    ensures r.None? <==> forall j :: 0 <= j < |docs| ==> !p(docs[j])
  {
    match FirstMatch(docs, p)
    case None => None
    case Some(i) => Some(docs[i])
  }

  /** Find: every matching document, in store order. */
  function Filter<T>(docs: seq<T>, p: T -> bool): (r: seq<T>)
    ensures |r| <= |docs|
    ensures forall k :: 0 <= k < |r| ==> p(r[k])
  {
    if |docs| == 0 then []
    else
      var init := Filter(docs[..|docs| - 1], p);
      if p(docs[|docs| - 1]) then init + [docs[|docs| - 1]] else init
  }

  /** DeleteOne: remove the first matching document; nothing happens when none matches. */
  function DeleteOne<T>(docs: seq<T>, p: T -> bool): (r: seq<T>)
    ensures |r| == if FindOne(docs, p).Some? then |docs| - 1 else |docs|
  {
    match FirstMatch(docs, p)
    case None => docs
    case Some(i) => docs[..i] + docs[i + 1..]
  }

  /**
   * UpdateOne: apply `update` to the first matching document.  With the
   * upsert option (`upsert == Some(inserted)`, where `inserted` holds the
   * filter's fields together with the `$set` fields) a new document is
   * appended when nothing matches; without it nothing happens then.
   */
  function UpdateOne<T>(docs: seq<T>, p: T -> bool, update: T -> T, upsert: Option<T>): (r: seq<T>)
    ensures FindOne(docs, p).Some? ==> |r| == |docs|
    ensures FindOne(docs, p).None? ==> r == if upsert.Some? then docs + [upsert.value] else docs
  {
    match FirstMatch(docs, p)
    case None => if upsert.Some? then docs + [upsert.value] else docs
    case Some(i) => docs[i := update(docs[i])]
  }

  // ---------------------------------------------------------------------
  // Find

  /** Find returns exactly the matching documents, each as often as it is stored. */
  lemma {:induction false} FilterCount<T>(docs: seq<T>, p: T -> bool, x: T)
    ensures multiset(Filter(docs, p))[x] == if p(x) then multiset(docs)[x] else 0
  {
    if |docs| > 0 {
      var n := |docs| - 1;
      FilterCount(docs[..n], p, x);
      assert docs == docs[..n] + [docs[n]];
    }
  }

  /** Find keeps store order: filtering distributes over concatenation. */
  lemma {:induction false} FilterAppend<T>(a: seq<T>, b: seq<T>, p: T -> bool)
    ensures Filter(a + b, p) == Filter(a, p) + Filter(b, p)
  {
    if |b| == 0 {
      assert a + b == a;
    } else {
      var n := |b| - 1;
      FilterAppend(a, b[..n], p);
      assert (a + b)[..|a + b| - 1] == a + b[..n];
    }
  }

  /** A range with no match filters to nothing. */
  lemma {:induction false} FilterNone<T>(docs: seq<T>, p: T -> bool)
    requires forall j :: 0 <= j < |docs| ==> !p(docs[j])
    ensures Filter(docs, p) == []
  {
    if |docs| > 0 {
      FilterNone(docs[..|docs| - 1], p);
    }
  }

  /** Filtering a single document. */
  lemma FilterSingle<T>(d: T, p: T -> bool)
    ensures Filter([d], p) == if p(d) then [d] else []
  {
    assert [d][..0] == [];
  }

  /** A sequence is the part before position i, the element at i, and the part after. */
  lemma Around<T>(docs: seq<T>, i: nat)
    requires i < |docs|
    ensures docs == docs[..i] + [docs[i]] + docs[i + 1..]
  {
  }

  /** The pieces around the first match, filtered. */
  lemma FilterAround<T>(docs: seq<T>, i: nat, p: T -> bool)
    requires i < |docs|
    ensures Filter(docs, p) == Filter(docs[..i], p) + Filter([docs[i]], p) + Filter(docs[i + 1..], p)
  {
    var a, d, b := docs[..i], [docs[i]], docs[i + 1..];
    Around(docs, i);
    FilterAppend(a + d, b, p);
    FilterAppend(a, d, p);
  }

  /** FindOne is the head of Find. */
  lemma FindOneIsFirstOfFilter<T>(docs: seq<T>, p: T -> bool)
    ensures FindOne(docs, p) == if Filter(docs, p) == [] then None else Some(Filter(docs, p)[0])
  {
    match FirstMatch(docs, p)
    case None =>
      FilterNone(docs, p);
    case Some(i) =>
      FilterAround(docs, i, p);
      FilterNone(docs[..i], p);
      FilterSingle(docs[i], p);
  }

  // ---------------------------------------------------------------------
  // DeleteOne

  /** DeleteOne removes exactly the first match: the remaining matches are the old ones but the first. */
  lemma DeleteOneRemovesFirstMatch<T>(docs: seq<T>, p: T -> bool)
    ensures Filter(DeleteOne(docs, p), p) == if Filter(docs, p) == [] then [] else Filter(docs, p)[1..]
  {
    match FirstMatch(docs, p)
    case None =>
      FilterNone(docs, p);
    case Some(i) =>
      var a, b := docs[..i], docs[i + 1..];
      assert DeleteOne(docs, p) == a + b;
      FilterAround(docs, i, p);
      FilterNone(a, p);
      FilterSingle(docs[i], p);
      FilterAppend(a, b, p);
  }

  /** DeleteOne leaves every document outside the filter where it was. */
  lemma DeleteOneKeepsOthers<T(!new)>(docs: seq<T>, p: T -> bool, q: T -> bool)
    requires Disjoint(p, q)
    ensures Filter(DeleteOne(docs, p), q) == Filter(docs, q)
  {
    match FirstMatch(docs, p)
    case None =>
    case Some(i) =>
      var a, b := docs[..i], docs[i + 1..];
      assert DeleteOne(docs, p) == a + b;
      FilterAround(docs, i, q);
      FilterSingle(docs[i], q);
      FilterAppend(a, b, q);
  }

  // ---------------------------------------------------------------------
  // UpdateOne

  /** After UpdateOne, FindOne with the same filter sees the updated (or upserted) document. */
  lemma UpdateOneThenFindOne<T(!new)>(docs: seq<T>, p: T -> bool, update: T -> T, upsert: Option<T>)
    requires KeepsMatch(p, update) && (upsert.Some? ==> p(upsert.value))
    ensures FindOne(UpdateOne(docs, p, update, upsert), p)
         == match FindOne(docs, p)
            case Some(d) => Some(update(d))
            case None => upsert
  {
    var r := UpdateOne(docs, p, update, upsert);
    match FirstMatch(docs, p)
    case None =>
      if upsert.Some? {
        FindOneIsFirstOfFilter(r, p);
        FilterAppend(docs, [upsert.value], p);
        FilterNone(docs, p);
        FilterSingle(upsert.value, p);
      }
    case Some(i) =>
      assert p(r[i]);
      assert forall j :: 0 <= j < i ==> r[j] == docs[j];
      FindOneIsFirstOfFilter(r, p);
      FilterAround(r, i, p);
      FilterNone(r[..i], p);
      FilterSingle(r[i], p);
  }

  /** UpdateOne leaves every document outside the filter where it was. */
  lemma UpdateOneKeepsOthers<T(!new)>(docs: seq<T>, p: T -> bool, update: T -> T, upsert: Option<T>, q: T -> bool)
    requires Disjoint(p, q) && KeepsMatch(p, update) && (upsert.Some? ==> p(upsert.value))
    ensures Filter(UpdateOne(docs, p, update, upsert), q) == Filter(docs, q)
  {
    var r := UpdateOne(docs, p, update, upsert);
    match FirstMatch(docs, p)
    case None =>
      if upsert.Some? {
        FilterAppend(docs, [upsert.value], q);
        FilterSingle(upsert.value, q);
      }
    case Some(i) =>
      FilterAround(docs, i, q);
      FilterAround(r, i, q);
      FilterSingle(docs[i], q);
      FilterSingle(r[i], q);
      assert r[..i] == docs[..i];
      assert r[i + 1..] == docs[i + 1..];
  }

  /** InsertOne (append) makes a new document the last match of every filter it satisfies. */
  lemma InsertOneFilter<T>(docs: seq<T>, d: T, p: T -> bool)
    ensures Filter(docs + [d], p) == Filter(docs, p) + (if p(d) then [d] else [])
  {
    FilterAppend(docs, [d], p);
    FilterSingle(d, p);
  }

  /** Appending a document to a collection with no match makes it FindOne's answer. */
  lemma InsertOneThenFindOne<T>(docs: seq<T>, d: T, p: T -> bool)
    requires FindOne(docs, p).None? && p(d)
    ensures FindOne(docs + [d], p) == Some(d)
  {
    FindOneIsFirstOfFilter(docs + [d], p);
    InsertOneFilter(docs, d, p);
    FilterNone(docs, p);
  }

  /** Appending leaves FindOne's answer alone when something already matched. */
  lemma InsertOneKeepsFindOne<T>(docs: seq<T>, d: T, p: T -> bool)
    requires FindOne(docs, p).Some?
    ensures FindOne(docs + [d], p) == FindOne(docs, p)
  {
    FindOneIsFirstOfFilter(docs, p);
    FindOneIsFirstOfFilter(docs + [d], p);
    InsertOneFilter(docs, d, p);
  }

  /** Find depends only on which documents the filter accepts. */
  lemma {:induction false} FilterCongruent<T(!new)>(docs: seq<T>, p: T -> bool, q: T -> bool)
    requires forall x :: p(x) == q(x)
    ensures Filter(docs, p) == Filter(docs, q)
  {
    if |docs| > 0 {
      FilterCongruent(docs[..|docs| - 1], p, q);
    }
  }
}
