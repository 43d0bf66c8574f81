/**
 * The recipes collection behind the `Recipe` model, as an insertion-ordered table of
 * documents, and the model operations the resolvers call on it: `find` with `limit`
 * and `skip`, `findById`, `save`, `findByIdAndDelete` and `findByIdAndUpdate` with `$set`.
 */
module Collection {
  import opened Wrappers
  import opened Schema

  function Min(a: int, b: int): int { if a <= b then a else b }
  function Max(a: int, b: int): int { if a <= b then b else a }

  /** The ids of the stored documents. */
  function Ids(rows: seq<Recipe>): set<Id> {
    set i | 0 <= i < |rows| :: rows[i].id
  }

  /** The collection holds at most one document per id. */
  predicate UniqueIds(rows: seq<Recipe>) {
    forall i, j :: 0 <= i < j < |rows| ==> rows[i].id != rows[j].id
  }

  /** `Recipe.find().limit(limit).skip(offset)`: skip `offset` documents in insertion order, then take at most `limit`. */
  function FindPage(rows: seq<Recipe>, limit: int, offset: int): (page: seq<Recipe>)
    requires limit > 0 && offset >= 0
    ensures |page| == Min(limit, Max(0, |rows| - offset))
    ensures forall k :: 0 <= k < |page| ==> page[k] == rows[offset + k]
  {
    if offset >= |rows| then [] else rows[offset..Min(|rows|, offset + limit)]
  }

  /** A page shorter than `limit` is the last one: the collection is exhausted after it. */
  lemma ShortPageIsLast(rows: seq<Recipe>, limit: int, offset: int)
    requires limit > 0 && offset >= 0
    requires |FindPage(rows, limit, offset)| < limit
    ensures offset + |FindPage(rows, limit, offset)| >= |rows|
    ensures FindPage(rows, limit, offset + limit) == []
  {
  }

  /** The offset of page `p`, counted in whole pages of size `limit`. */
  function PageOffset(p: nat, limit: nat): nat {
    if p == 0 then 0 else PageOffset(p - 1, limit) + limit
  }

  /** Page `p` starts at `p * limit`. */
  lemma {:induction false} PageOffsetIsProduct(p: nat, limit: nat)
    ensures PageOffset(p, limit) == p * limit
  {
    if p > 0 {
      PageOffsetIsProduct(p - 1, limit);
      assert p * limit == (p - 1) * limit + limit;
    }
  }

  /** The first `p` pages of size `limit`, concatenated. */
  function FirstPages(rows: seq<Recipe>, limit: nat, p: nat): seq<Recipe>
    requires limit > 0
  {
    if p == 0 then [] else FirstPages(rows, limit, p - 1) + FindPage(rows, limit, PageOffset(p - 1, limit))
  }

  /** Paging through page by page visits every document once, in order. */
  lemma FirstPagesArePrefix(rows: seq<Recipe>, limit: nat, p: nat)
    requires limit > 0
    ensures FirstPages(rows, limit, p) == rows[..Min(p * limit, |rows|)]
  {
    FirstPagesReachOffset(rows, limit, p);
    PageOffsetIsProduct(p, limit);
  }

  lemma {:induction false} FirstPagesReachOffset(rows: seq<Recipe>, limit: nat, p: nat)
    requires limit > 0
    ensures FirstPages(rows, limit, p) == rows[..Min(PageOffset(p, limit), |rows|)]
  {
    if p > 0 {
      FirstPagesReachOffset(rows, limit, p - 1);
      var off := PageOffset(p - 1, limit);
      PageIsSlice(rows, limit, off);
      PrefixThenSlice(rows, Min(off, |rows|), Min(off + limit, |rows|));
    }
  }

  lemma PageIsSlice(rows: seq<Recipe>, limit: int, offset: int)
    requires limit > 0 && offset >= 0
    ensures FindPage(rows, limit, offset) == rows[Min(offset, |rows|)..Min(offset + limit, |rows|)]
  {
  }

  lemma PrefixThenSlice(rows: seq<Recipe>, lo: int, hi: int)
    requires 0 <= lo <= hi <= |rows|
    ensures rows[..lo] + rows[lo..hi] == rows[..hi]
  {
  }

  /** Twelve documents A..L: the first page is A..E, and the page at offset 10 is K, L. */
  lemma TwelveDocuments(rows: seq<Recipe>)
    requires |rows| == 12
    ensures FindPage(rows, 5, 0) == rows[..5]
    ensures FindPage(rows, 5, 10) == [rows[10], rows[11]]
  {
  }

  /** `Recipe.findById(id)`: the first document with this id, if any. */
  function FindById(rows: seq<Recipe>, id: Id): (r: Option<Recipe>)
    ensures r.Some? <==> id in Ids(rows)
    ensures r.Some? ==> r.value.id == id && r.value in rows
  {
    if rows == [] then None
    else if rows[0].id == id then Some(rows[0])
    else
      assert id in Ids(rows) ==> id in Ids(rows[1..]) by {
        if id in Ids(rows) {
          var i :| 0 <= i < |rows| && rows[i].id == id;
          assert rows[1..][i - 1].id == id;
        }
      }
      FindById(rows[1..], id)
  }

  /** With unique ids, `findById` finds the document at the position that holds the id. */
  lemma {:induction false} FindByIdAt(rows: seq<Recipe>, i: nat)
    requires UniqueIds(rows) && i < |rows|
    ensures FindById(rows, rows[i].id) == Some(rows[i])
  {
    if i > 0 {
      assert rows[0].id != rows[i].id;
      assert UniqueIds(rows[1..]);
      FindByIdAt(rows[1..], i - 1);
    }
  }

  /** `new Recipe(input)`: the document `save` stores under the id the database assigns. */
  function NewDocument(id: Id, input: AddRecipeInput): Recipe {
    Recipe(id, input.name, input.description, input.ingredients, input.instructions)
  }

  /** `save` of a document under a fresh id appends it, keeps ids unique, and `findById` then returns it. */
  lemma SaveFresh(rows: seq<Recipe>, doc: Recipe)
    requires UniqueIds(rows) && doc.id !in Ids(rows)
    ensures UniqueIds(rows + [doc])
    ensures Ids(rows + [doc]) == Ids(rows) + {doc.id}
    ensures FindById(rows + [doc], doc.id) == Some(doc)
  {
    var s := rows + [doc];
    assert UniqueIds(s) by {
      forall i, j | 0 <= i < j < |s| ensures s[i].id != s[j].id {
        if j == |rows| { assert s[i] == rows[i]; }
      }
    }
    assert Ids(s) == Ids(rows) + {doc.id} by {
      forall id | id in Ids(s) ensures id in Ids(rows) + {doc.id} {
        var i :| 0 <= i < |s| && s[i].id == id;
        if i < |rows| { assert rows[i].id == id; }
      }
      forall id | id in Ids(rows) ensures id in Ids(s) {
        var i :| 0 <= i < |rows| && rows[i].id == id;
        assert s[i].id == id;
      }
      assert s[|rows|].id == doc.id;
    }
    FindByIdAt(s, |rows|);
  }

  /** `Recipe.findByIdAndDelete(id)`: the collection without the first document that has this id. */
  function DeleteById(rows: seq<Recipe>, id: Id): (r: seq<Recipe>)
    ensures id !in Ids(rows) ==> r == rows
  {
    if rows == [] then []
    else if rows[0].id == id then rows[1..]
    else [rows[0]] + DeleteById(rows[1..], id)
  }

  /** With unique ids, deleting the id at position `i` removes exactly that document and keeps the order of the rest. */
  lemma {:induction false} DeleteByIdAt(rows: seq<Recipe>, i: nat)
    requires UniqueIds(rows) && i < |rows|
    ensures DeleteById(rows, rows[i].id) == rows[..i] + rows[i + 1..]
  {
    if i > 0 {
      assert rows[0].id != rows[i].id;
      TailUnique(rows);
      DeleteByIdAt(rows[1..], i - 1);
      ConsRemoveAt(rows, i);
    }
  }

  lemma TailUnique(rows: seq<Recipe>)
    requires UniqueIds(rows) && rows != []
    ensures UniqueIds(rows[1..])
  {
    forall a, b | 0 <= a < b < |rows| - 1 ensures rows[1..][a].id != rows[1..][b].id {
      assert rows[1..][a] == rows[a + 1] && rows[1..][b] == rows[b + 1];
    }
  }

  lemma ConsRemoveAt(rows: seq<Recipe>, i: nat)
    requires 0 < i < |rows|
    ensures [rows[0]] + (rows[1..][..i - 1] + rows[1..][i..]) == rows[..i] + rows[i + 1..]
  {
    assert rows[1..][..i - 1] == rows[1..i];
    assert rows[1..][i..] == rows[i + 1..];
    assert [rows[0]] + rows[1..i] == rows[..i];
  }

  /** Removing one position keeps ids unique and drops exactly that id. */
  lemma RemoveAtKeepsUnique(rows: seq<Recipe>, i: nat)
    requires UniqueIds(rows) && i < |rows|
    ensures UniqueIds(rows[..i] + rows[i + 1..])
    ensures Ids(rows[..i] + rows[i + 1..]) == Ids(rows) - {rows[i].id}
  {
    RemoveAtShifts(rows, i);
    RemoveAtUnique(rows, i);
    RemoveAtIdsShrink(rows, i);
    RemoveAtIdsKeep(rows, i);
  }

  lemma RemoveAtUnique(rows: seq<Recipe>, i: nat)
    requires UniqueIds(rows) && i < |rows|
    requires forall k :: 0 <= k < |rows| - 1 ==> (rows[..i] + rows[i + 1..])[k] == rows[Shift(k, i)]
    ensures UniqueIds(rows[..i] + rows[i + 1..])
  {
    var s := rows[..i] + rows[i + 1..];
    forall a, b | 0 <= a < b < |s| ensures s[a].id != s[b].id {
      assert s[a] == rows[Shift(a, i)] && s[b] == rows[Shift(b, i)];
    }
  }

  lemma RemoveAtIdsShrink(rows: seq<Recipe>, i: nat)
    requires UniqueIds(rows) && i < |rows|
    requires forall k :: 0 <= k < |rows| - 1 ==> (rows[..i] + rows[i + 1..])[k] == rows[Shift(k, i)]
    ensures Ids(rows[..i] + rows[i + 1..]) <= Ids(rows) - {rows[i].id}
  {
    var s := rows[..i] + rows[i + 1..];
    forall id | id in Ids(s) ensures id in Ids(rows) - {rows[i].id} {
      var k :| 0 <= k < |s| && s[k].id == id;
      assert rows[Shift(k, i)].id == id;
    }
  }

  lemma RemoveAtIdsKeep(rows: seq<Recipe>, i: nat)
    requires i < |rows|
    requires forall k :: 0 <= k < |rows| - 1 ==> (rows[..i] + rows[i + 1..])[k] == rows[Shift(k, i)]
    ensures Ids(rows) - {rows[i].id} <= Ids(rows[..i] + rows[i + 1..])
  {
    var s := rows[..i] + rows[i + 1..];
    forall id | id in Ids(rows) - {rows[i].id} ensures id in Ids(s) {
      var k :| 0 <= k < |rows| && rows[k].id == id;
      var m := if k < i then k else k - 1;
      assert Shift(m, i) == k;
      assert s[m].id == id;
    }
  }

  /** Position `k` of a sequence with position `i` removed. */
  function Shift(k: nat, i: nat): nat {
    if k < i then k else k + 1
  }

  lemma RemoveAtShifts(rows: seq<Recipe>, i: nat)
    requires i < |rows|
    ensures |rows[..i] + rows[i + 1..]| == |rows| - 1
    ensures forall k :: 0 <= k < |rows| - 1 ==> (rows[..i] + rows[i + 1..])[k] == rows[Shift(k, i)]
  {
  }

  /** `$set: input`: every field the update supplies is overwritten, the id and every omitted field are kept. */
  function SetFields(doc: Recipe, u: UpdateRecipeInput): (r: Recipe)
    ensures r.id == doc.id
    ensures u == UpdateRecipeInput(None, None, None, None) ==> r == doc
    ensures u.name.Some? && u.description.Some? && u.ingredients.Some? && u.instructions.Some? ==>
      r == Recipe(doc.id, u.name.value, u.description.value, u.ingredients.value, u.instructions.value)
  {
    Recipe(
      doc.id,
      u.name.GetOr(doc.name),
      u.description.GetOr(doc.description),
      u.ingredients.GetOr(doc.ingredients),
      u.instructions.GetOr(doc.instructions))
  }

  /** The update that supplies what `later` supplies and otherwise what `earlier` supplies. */
  function Merge(earlier: UpdateRecipeInput, later: UpdateRecipeInput): UpdateRecipeInput {
    UpdateRecipeInput(
      if later.name.Some? then later.name else earlier.name,
      if later.description.Some? then later.description else earlier.description,
      if later.ingredients.Some? then later.ingredients else earlier.ingredients,
      if later.instructions.Some? then later.instructions else earlier.instructions)
  }

  /** A `$set` changes exactly the supplied fields and never the id. */
  lemma SetFieldsChangesOnlySupplied(doc: Recipe, u: UpdateRecipeInput)
    ensures SetFields(doc, u).id == doc.id
    ensures SetFields(doc, u).name == (if u.name.Some? then u.name.value else doc.name)
    ensures SetFields(doc, u).description == (if u.description.Some? then u.description.value else doc.description)
    ensures SetFields(doc, u).ingredients == (if u.ingredients.Some? then u.ingredients.value else doc.ingredients)
    ensures SetFields(doc, u).instructions == (if u.instructions.Some? then u.instructions.value else doc.instructions)
  {
  }

  /** An update with no fields leaves the document as it was; repeating an update changes nothing more. */
  lemma SetFieldsIdentityAndIdempotent(doc: Recipe, u: UpdateRecipeInput)
    ensures SetFields(doc, UpdateRecipeInput(None, None, None, None)) == doc
    ensures SetFields(SetFields(doc, u), u) == SetFields(doc, u)
  {
  }

  /** Two successive updates act as one update with the later values winning. */
  lemma SetFieldsCompose(doc: Recipe, earlier: UpdateRecipeInput, later: UpdateRecipeInput)
    ensures SetFields(SetFields(doc, earlier), later) == SetFields(doc, Merge(earlier, later))
  {
  }

  /** `Recipe.findByIdAndUpdate(id, { $set: u })`: the collection with the first document that has this id updated. */
  function UpdateById(rows: seq<Recipe>, id: Id, u: UpdateRecipeInput): (r: seq<Recipe>)
    ensures |r| == |rows|
    ensures forall k :: 0 <= k < |rows| ==> r[k].id == rows[k].id
    ensures id !in Ids(rows) ==> r == rows
  {
    if rows == [] then []
    else if rows[0].id == id then [SetFields(rows[0], u)] + rows[1..]
    else [rows[0]] + UpdateById(rows[1..], id, u)
  }

  /** With unique ids, updating the id at position `i` replaces that document only. */
  lemma {:induction false} UpdateByIdAt(rows: seq<Recipe>, i: nat, u: UpdateRecipeInput)
    requires UniqueIds(rows) && i < |rows|
    ensures UpdateById(rows, rows[i].id, u) == rows[i := SetFields(rows[i], u)]
  {
    if i > 0 {
      assert rows[0].id != rows[i].id;
      TailUnique(rows);
      UpdateByIdAt(rows[1..], i - 1, u);
      ConsUpdateAt(rows, i, SetFields(rows[i], u));
    }
  }

  lemma ConsUpdateAt(rows: seq<Recipe>, i: nat, doc: Recipe)
    requires 0 < i < |rows|
    ensures [rows[0]] + rows[1..][i - 1 := doc] == rows[i := doc]
  {
  }

  /** Replacing one document by one with the same id keeps ids unique and the id set unchanged. */
  lemma ReplaceKeepsIds(rows: seq<Recipe>, i: nat, doc: Recipe)
    requires UniqueIds(rows) && i < |rows| && doc.id == rows[i].id
    ensures UniqueIds(rows[i := doc])
    ensures Ids(rows[i := doc]) == Ids(rows)
  {
    var s := rows[i := doc];
    forall id | id in Ids(s) ensures id in Ids(rows) {
      var k :| 0 <= k < |s| && s[k].id == id;
      assert rows[k].id == id;
    }
    forall id | id in Ids(rows) ensures id in Ids(s) {
      var k :| 0 <= k < |rows| && rows[k].id == id;
      assert s[k].id == id;
    }
  }
}
