/** The category handlers. None of them looks at the caller: the category routes mount no
    authentication, so the functions here take none. */
module CategoryController {
  import opened Common
  import opened Models
  import opened Store
  import opened Http

  datatype CategoryQuery = CategoryQuery(page: Option<int>, limit: Option<int>, search: Option<string>,
                                         sortBy: Option<string>, order: Option<string>)

  /** The `where` object: a substring of the name. */
  datatype CategoryWhere = CategoryWhere(search: Option<string>)

  const CategorySortFields: seq<string> := ["id", "name", "sort", "created_at", "updated_at"]
  const CategoryOrders: seq<string> := ["asc", "desc"]

  /** `getCategories`: sorted by `sort` ascending unless told otherwise; an unknown sort field and
      an unknown order are both refused with 400 and the same message. */
  method GetCategories(q: CategoryQuery) returns (r: Listing<CategoryWhere>)
    ensures var sortBy, order := Default(q.sortBy, "sort"), Default(q.order, "asc");
            && (r.Find? <==> sortBy in CategorySortFields && order in CategoryOrders)
            && (r.Rejected? ==> r == Rejected(400, InvalidSortField))
            && (r.Find? ==> r.spec.sortBy == sortBy && r.spec.order == order)
    ensures r.Find? ==>
              var page, limit := Default(q.page, 1), Default(q.limit, 10);
              r.spec.limit == limit && r.spec.offset == (page - 1) * limit
    ensures r.Find? ==> (r.spec.where.search.Some? <==> IsTruthyString(q.search))
                        && (r.spec.where.search.Some? ==> r.spec.where.search == q.search)
  {
    var page := Default(q.page, 1);
    var limit := Default(q.limit, 10);
    var search := Default(q.search, "");
    var sortBy := Default(q.sortBy, "sort");
    var order := Default(q.order, "asc");
    var offset := Offset(page, limit);

    var where := CategoryWhere(None);
    if search != "" {
      where := where.(search := Some(search));
    }
    if sortBy !in CategorySortFields {
      return Rejected(400, InvalidSortField);
    }
    if order !in CategoryOrders {
      return Rejected(400, InvalidSortField);
    }
    r := Find(FindSpec(where, sortBy, order, limit, offset));
  }

  /** The body of a create or update request. */
  datatype CategoryInput = CategoryInput(name: Option<string>, description: Option<string>,
                                         sort: Option<int>, status: Option<string>)

  /** The row `createCategory` inserts: `sort || 0`, the default status; `None` without a name. */
  function NewCategoryRow(input: CategoryInput, id: int): (c: Option<Category>)
    ensures c.Some? <==> input.name.Some?
    ensures c.Some? ==> c.value.id == id && c.value.name == input.name.value
                        && c.value.description == input.description && c.value.status == DefaultStatus
    ensures c.Some? ==> c.value.sort == (if IsTruthyInt(input.sort) then input.sort.value else 0)
  {
    if input.name.None? then None
    else Some(Category(id, input.name.value, input.description,
                       if IsTruthyInt(input.sort) then input.sort.value else 0, DefaultStatus))
  }

  /** `createCategory`: a row the table's validation refuses is 500; a name already used is
      400; otherwise 201 inserting the row. */
  function CreateCategory(input: CategoryInput, t: Tables): (r: Reply<Category>)
    ensures r.status == 201 <==>
              var c := NewCategoryRow(input, t.categories.next);
              c.Some? && CategoryRowValid(c.value) && NameFree(t.categories.rows, c.value)
    ensures r.status == 201 ==>
              && r.effect == InsertCategory(NewCategoryRow(input, t.categories.next).value)
              && r.body == Some(r.effect.category)
              && Admissible(t, r.effect)
    ensures var c := NewCategoryRow(input, t.categories.next);
            (c.None? || !CategoryRowValid(c.value)) ==> r == Refuse(500, ServerError)
    ensures var c := NewCategoryRow(input, t.categories.next);
            c.Some? && CategoryRowValid(c.value) && !NameFree(t.categories.rows, c.value) ==>
              r == Refuse(400, CategoryNameTaken)
    ensures r.status != 201 ==> r.effect.NoEffect?
  {
    var row := NewCategoryRow(input, t.categories.next);
    if row.None? || !CategoryRowValid(row.value) then Refuse(500, ServerError)
    else if !NameFree(t.categories.rows, row.value) then Refuse(400, CategoryNameTaken)
    else Reply(201, CategoryCreated, row, InsertCategory(row.value))
  }

  /** An accepted creation whose `sort` was absent or 0 stores 0. */
  lemma CreatedSortDefaultsToZero(input: CategoryInput, t: Tables)
    requires CreateCategory(input, t).status == 201
    requires !IsTruthyInt(input.sort)
    ensures CreateCategory(input, t).effect.category.sort == 0
  {
  }

  /** `category.update` with the supplied fields; `None` when the status is not enumerated. */
  function PatchCategory(c: Category, input: CategoryInput): (d: Option<Category>)
    ensures d.Some? <==> input.status.None? || ParseStatus(input.status.value).Some?
    ensures d.Some? ==> d.value.status == (if input.status.Some? then ParseStatus(input.status.value).value else c.status)
    ensures d.Some? ==> d.value.id == c.id && d.value.name == Default(input.name, c.name)
                        && d.value.sort == Default(input.sort, c.sort)
                        && d.value.description == (if input.description.Some? then input.description else c.description)
  {
    if input.status.Some? && ParseStatus(input.status.value).None? then None
    else
      Some(c.(name := Default(input.name, c.name),
              description := if input.description.Some? then input.description else c.description,
              sort := Default(input.sort, c.sort),
              status := if input.status.Some? then ParseStatus(input.status.value).value else c.status))
  }

  /** `updateCategory`: a missing category is 400 (not 404); a row the validation refuses is 500;
      a name another category holds is 400; otherwise 201 saving the patched row. */
  function UpdateCategory(id: int, input: CategoryInput, t: Tables): (r: Reply<Category>)
    ensures id !in t.categories.rows ==> r == Refuse(400, CategoryNotFound)
    ensures id in t.categories.rows ==>
              var d := PatchCategory(t.categories.rows[id], input);
              && ((d.None? || !CategoryRowValid(d.value)) ==> r == Refuse(500, InvalidCategoryData))
              && (d.Some? && CategoryRowValid(d.value) && !NameFree(t.categories.rows, d.value) ==>
                    r == Refuse(400, CategoryNameTaken))
              && (r.status == 201 <==> d.Some? && CategoryRowValid(d.value) && NameFree(t.categories.rows, d.value))
    ensures r.status == 201 ==>
              && id in t.categories.rows
              && PatchCategory(t.categories.rows[id], input).Some?
              && r.effect == SaveCategory(PatchCategory(t.categories.rows[id], input).value)
    ensures r.status != 201 ==> r.effect.NoEffect?
  {
    if id !in t.categories.rows then Refuse(400, CategoryNotFound)
    else
      var patched := PatchCategory(t.categories.rows[id], input);
      if patched.None? || !CategoryRowValid(patched.value) then Refuse(500, InvalidCategoryData)
      else if !NameFree(t.categories.rows, patched.value) then Refuse(400, CategoryNameTaken)
      else Reply(201, CategoryUpdated, patched, SaveCategory(patched.value))
  }

  /** An accepted update is a write the database accepts. */
  lemma UpdateCategoryAdmissible(id: int, input: CategoryInput, t: Tables)
    requires Consistent(t)
    ensures Admissible(t, UpdateCategory(id, input, t).effect)
  {
  }

  /** `deleteCategory`: 404 for a missing category, 400 quoting the number of products that
      still reference it, otherwise 200 destroying it. */
  function DeleteCategory(id: int, t: Tables): (r: Reply<()>)
    ensures r.status == 404 <==> id !in t.categories.rows
    ensures r.status == 400 <==> id in t.categories.rows && !Unreferenced(t.products.rows, id)
    ensures r.status == 400 ==> r.msg == CategoryInUse(CountProducts(t.products.rows, id)) && r.msg.count > 0
    ensures r.status == 200 <==> id in t.categories.rows && Unreferenced(t.products.rows, id)
    ensures r.status == 200 ==> r.effect == DestroyCategory(id)
    ensures r.status != 200 ==> r.effect.NoEffect?
  {
    if id !in t.categories.rows then Refuse(404, CategoryNotFound)
    else
      var count := CountProducts(t.products.rows, id);
      if count > 0 then Refuse(400, CategoryInUse(count))
      else Reply(200, CategoryDeleted, None, DestroyCategory(id))
  }

  /** After a committed deletion every product still references an existing category, and the
      products table is untouched. */
  lemma DeleteCategoryKeepsReferences(id: int, t: Tables, hash: string -> string)
    requires Consistent(t)
    ensures var r := DeleteCategory(id, t);
            var t' := Apply(t, r.effect, hash);
            && Admissible(t, r.effect)
            && Consistent(t')
            && t'.products == t.products
            && (r.status == 200 ==> id !in t'.categories.rows)
  {
    var r := DeleteCategory(id, t);
    ApplyKeepsConsistent(t, r.effect, hash);
  }
}
