/**
 * The category routes over the `Categories` table, and the one-hour cache slot
 * the listing route keeps.
 */
module CategoryController {
  import opened Wrappers
  import opened Strings
  import opened Models
  import opened Responses
  import opened ModelStateExtension
  import opened CategoryViewModels

  const NotFoundMessage: string := "Categoria não encontrada."
  const InternalErrorMessage: string := "Erro interno no servidor ao processar a requisição."
  const CreateFailedMessage: string := "Erro interno no servidor ao processar nova categoria."
  const UpdateFailedMessage: string := "Não foi possível atualizar a categoria."
  const DeleteFailedMessage: string := "Não foi possível excluir a categoria."

  /** The cache entry's absolute expiry, one hour, on a clock counting seconds. */
  const CacheLifetime: int := 3600

  /** Every row is stored under its own id. */
  ghost predicate KeysMatchIds(table: map<int, Category>) {
    forall id :: id in table ==> table[id].id == id
  }

  lemma {:induction false} HasLeast(s: set<int>)
    requires s != {}
    ensures exists k :: k in s && forall j :: j in s ==> k <= j
  {
    // only gives the verifier a witness for the `:|` below
    if forall y :: y !in s {
      assert false;
    }
    var x :| x in s;
    if s != {x} {
      HasLeast(s - {x});
      var m :| m in s - {x} && forall j :: j in s - {x} ==> m <= j;
      var k := if x < m then x else m;
      forall j | j in s ensures k <= j {
        if j != x {
          assert j in s - {x};
        }
      }
    }
  }

  /** The least element of a non-empty set of ids. */
  function MinKey(s: set<int>): (k: int)
    requires s != {}
    ensures k in s && forall j :: j in s ==> k <= j
  {
    HasLeast(s);
    var k :| k in s && forall j :: j in s ==> k <= j;
    k
  }

  /** The ids of a set in ascending order, each once. */
  function SortedKeys(s: set<int>): (r: seq<int>)
    ensures |r| == |s|
    ensures forall k :: k in s <==> k in r
    ensures forall i, j :: 0 <= i < j < |r| ==> r[i] < r[j]
    decreases s
  {
    if s == {} then []
    else
      var m := MinKey(s);
      var rest := SortedKeys(s - {m});
      assert |s - {m}| == |s| - 1;
      assert forall i :: 0 <= i < |rest| ==> m < rest[i] by {
        forall i | 0 <= i < |rest| ensures m < rest[i] {
          assert rest[i] in s - {m};
        }
      }
      var r := [m] + rest;
      assert forall i :: 0 < i < |r| ==> r[i] == rest[i - 1];
      r
  }

  /**
   * `GetCategories`: the rows of the table, in ascending id order. Every row is
   * listed once and nothing else is.
   */
  function Listing(table: map<int, Category>): (r: seq<Category>)
    requires KeysMatchIds(table)
    ensures |r| == |table|
    ensures forall i :: 0 <= i < |r| ==> r[i].id in table && table[r[i].id] == r[i]
    ensures forall id :: id in table ==> table[id] in r
    ensures forall i, j :: 0 <= i < j < |r| ==> r[i].id < r[j].id
  {
    var ks := SortedKeys(table.Keys);
    assert forall i :: 0 <= i < |ks| ==> ks[i] in table by {
      forall i | 0 <= i < |ks| ensures ks[i] in table {
        assert ks[i] in ks;
      }
    }
    var r := Rows(table, ks);
    ListingCoversTable(table, ks, r);
    r
  }

  /** The rows stored under the given ids, in the ids' order. */
  function Rows(table: map<int, Category>, ks: seq<int>): (r: seq<Category>)
    requires forall i :: 0 <= i < |ks| ==> ks[i] in table
    ensures |r| == |ks| && forall i :: 0 <= i < |ks| ==> r[i] == table[ks[i]]
  {
    if ks == [] then [] else [table[ks[0]]] + Rows(table, ks[1..])
  }

  lemma ListingCoversTable(table: map<int, Category>, ks: seq<int>, r: seq<Category>)
    requires KeysMatchIds(table)
    requires |ks| == |table.Keys| && (forall k :: k in table.Keys <==> k in ks)
    requires forall i, j :: 0 <= i < j < |ks| ==> ks[i] < ks[j]
    requires forall i :: 0 <= i < |ks| ==> ks[i] in table
    requires |r| == |ks| && forall i :: 0 <= i < |ks| ==> r[i] == table[ks[i]]
    ensures |r| == |table|
    ensures forall i :: 0 <= i < |r| ==> r[i].id in table && table[r[i].id] == r[i]
    ensures forall id :: id in table ==> table[id] in r
    ensures forall i, j :: 0 <= i < j < |r| ==> r[i].id < r[j].id
  {
    assert |table.Keys| == |table|;
    forall id | id in table ensures table[id] in r {
      var i :| 0 <= i < |ks| && ks[i] == id;
      assert r[i] == table[id];
    }
  }

  /** One cached listing and the instant it stops being served. */
  datatype CacheEntry = CacheEntry(categories: seq<Category>, expiresAt: int)

  /** An entry is served while its absolute expiry lies in the future. */
  predicate Live(entry: Option<CacheEntry>, now: int) {
    entry.Some? && now < entry.value.expiresAt
  }

  /**
   * The `Categories` table with its identity counter, and the shared
   * "CategoriesCache" slot. Every handler's `fault` says what the database
   * did; a failure strikes at the first database call unless it is the
   * `DbUpdateException` of saving, and a failed save stores nothing.
   */
  class CategoryStore {
    var table: map<int, Category>
    var nextId: int
    var cache: Option<CacheEntry>

    ghost predicate Valid()
      reads this
    {
      KeysMatchIds(table) && forall id :: id in table ==> id < nextId
    }

    constructor ()
      ensures Valid() && table == map[] && nextId == 1 && cache == None
    {
      table := map[];
      nextId := 1;
      cache := None;
    }

    /**
     * `GetAsync`: a live cache entry is served as it is, whatever the table
     * holds now; otherwise the table is listed and cached for one hour.
     */
    method List(now: int, fault: Fault) returns (r: Response)
      requires Valid()
      modifies this`cache
      ensures Valid()
      ensures Live(old(cache), now) ==>
                r == Ok(CategoryListData(old(cache).value.categories)) && cache == old(cache)
      ensures !Live(old(cache), now) && fault != NoFault ==>
                r == Fail(500, InternalErrorMessage) && cache == None
      ensures !Live(old(cache), now) && fault == NoFault ==>
                r == Ok(CategoryListData(Listing(table)))
                && cache == Some(CacheEntry(Listing(table), now + CacheLifetime))
    {
      if Live(cache, now) {
        return Ok(CategoryListData(cache.value.categories));
      }
      cache := None;
      if fault != NoFault {
        return Fail(500, InternalErrorMessage);
      }
      var categories := Listing(table);
      cache := Some(CacheEntry(categories, now + CacheLifetime));
      r := Ok(CategoryListData(categories));
    }

    /** `GetByIdAsync`: 200 with the row exactly when the id is present, else 404. */
    method GetById(id: int, fault: Fault) returns (r: Response)
      ensures fault != NoFault ==> r == Fail(500, InternalErrorMessage)
      ensures fault == NoFault ==> (r.status == 200 <==> id in table)
      ensures fault == NoFault && id in table ==> r == Ok(CategoryData(table[id]))
      ensures fault == NoFault && id !in table ==> r == Fail(404, NotFoundMessage)
    {
      if fault != NoFault {
        return Fail(500, InternalErrorMessage);
      }
      if id !in table {
        return Fail(404, NotFoundMessage);
      }
      r := Ok(CategoryData(table[id]));
    }

    /**
     * `PostAsync` (create): a valid payload becomes a new row under a fresh id,
     * with the name as given and the slug lower-cased; no other row changes.
     */
    method Create(model: EditorCategoryViewModel, fault: Fault) returns (r: Response)
      requires Valid()
      modifies this`table, this`nextId
      ensures Valid()
      ensures !IsValid(Validate(model)) ==>
                r == BadRequest(GetErrors(Validate(model))) && table == old(table) && nextId == old(nextId)
      ensures IsValid(Validate(model)) && fault == UpdateFailure ==>
                r == Fail(500, CreateFailedMessage) && table == old(table) && nextId == old(nextId)
      ensures IsValid(Validate(model)) && fault == OtherFailure ==>
                r == Fail(500, InternalErrorMessage) && table == old(table) && nextId == old(nextId)
      ensures IsValid(Validate(model)) && fault == NoFault ==>
                && old(nextId) !in old(table)
                && table == old(table)[old(nextId) := Category(old(nextId), model.name.value, ToLower(model.slug.value))]
                && r == Created(CategoryData(table[old(nextId)]))
    {
      var ms := Validate(model);
      if !IsValid(ms) {
        return BadRequest(GetErrors(ms));
      }
      if fault == UpdateFailure {
        return Fail(500, CreateFailedMessage);
      }
      if fault == OtherFailure {
        return Fail(500, InternalErrorMessage);
      }
      var category := Category(nextId, model.name.value, ToLower(model.slug.value));
      table := table[nextId := category];
      nextId := nextId + 1;
      r := Created(CategoryData(category));
    }

    /**
     * `PostAsync` (PUT, update): an absent id is 404 and changes nothing; a
     * present one gets the new name and lower-cased slug and keeps its id.
     */
    method Update(id: int, model: EditorCategoryViewModel, fault: Fault) returns (r: Response)
      requires Valid()
      modifies this`table
      ensures Valid()
      ensures !IsValid(Validate(model)) ==>
                r == BadRequest(GetErrors(Validate(model))) && table == old(table)
      ensures IsValid(Validate(model)) && fault == OtherFailure ==>
                r == Fail(500, InternalErrorMessage) && table == old(table)
      ensures IsValid(Validate(model)) && fault != OtherFailure && id !in old(table) ==>
                r == Fail(404, NotFoundMessage) && table == old(table)
      ensures IsValid(Validate(model)) && fault == UpdateFailure && id in old(table) ==>
                r == Fail(500, UpdateFailedMessage) && table == old(table)
      ensures IsValid(Validate(model)) && fault == NoFault && id in old(table) ==>
                && table == old(table)[id := Category(id, model.name.value, ToLower(model.slug.value))]
                && r == Ok(CategoryData(table[id]))
    {
      var ms := Validate(model);
      if !IsValid(ms) {
        return BadRequest(GetErrors(ms));
      }
      if fault == OtherFailure {
        return Fail(500, InternalErrorMessage);
      }
      if id !in table {
        return Fail(404, NotFoundMessage);
      }
      if fault == UpdateFailure {
        return Fail(500, UpdateFailedMessage);
      }
      var category := Category(id, model.name.value, ToLower(model.slug.value));
      table := table[id := category];
      r := Ok(CategoryData(category));
    }

    /**
     * `DeleteAsync`: an absent id is 404 and changes nothing; a present one is
     * removed, alone, and returned.
     */
    method Delete(id: int, fault: Fault) returns (r: Response)
      requires Valid()
      modifies this`table
      ensures Valid()
      ensures fault == OtherFailure ==> r == Fail(500, InternalErrorMessage) && table == old(table)
      ensures fault != OtherFailure && id !in old(table) ==> r == Fail(404, NotFoundMessage) && table == old(table)
      ensures fault == UpdateFailure && id in old(table) ==> r == Fail(500, DeleteFailedMessage) && table == old(table)
      ensures fault == NoFault && id in old(table) ==>
                table == old(table) - {id} && r == Ok(CategoryData(old(table)[id]))
    {
      if fault == OtherFailure {
        return Fail(500, InternalErrorMessage);
      }
      if id !in table {
        return Fail(404, NotFoundMessage);
      }
      if fault == UpdateFailure {
        return Fail(500, DeleteFailedMessage);
      }
      var category := table[id];
      table := table - {id};
      r := Ok(CategoryData(category));
    }
  }

  /**
   * Within the hour a listing stays as cached even after a create has added a
   * row to the table, so it no longer matches what the table holds.
   */
  method CachedListingIsStale(store: CategoryStore, model: EditorCategoryViewModel, now: int)
    returns (before: Response, after: Response)
    requires store.Valid() && !Live(store.cache, now)
    requires IsValid(Validate(model))
    modifies store
    ensures store.Valid()
    ensures old(store.nextId) in store.table && old(store.nextId) !in old(store.table)
    ensures before == after
    ensures after != Ok(CategoryListData(Listing(store.table)))
  {
    before := store.List(now, NoFault);
    ghost var listed := Listing(store.table);
    var created := store.Create(model, NoFault);
    ghost var row := store.table[old(store.nextId)];
    assert row in Listing(store.table);
    assert row !in listed;
    after := store.List(now + CacheLifetime - 1, NoFault);
  }
}
