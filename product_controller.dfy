/** The product handlers: the listing filter, the read guard that admits anonymous callers, the
    owner choice on create, and the owner-or-admin guard on update and delete. The caller is
    `req.user`, absent when no middleware authenticated the request. */
module ProductController {
  import opened Common
  import opened Models
  import opened Store
  import opened Http

  /** The query string of a listing; `page` and `limit` are taken as the numbers they spell. */
  datatype ProductQuery = ProductQuery(page: Option<int>, limit: Option<int>, categoryId: Option<string>,
                                       name: Option<string>, sortBy: Option<string>, order: Option<string>,
                                       merchantId: Option<string>)

  /** The owner condition: the caller's own key, or the `merchant_id` parameter as given. */
  datatype Owner = OwnerId(id: int) | OwnerParam(param: string)

  /** The `where` object: owner, category and a name substring. */
  datatype ProductWhere = ProductWhere(owner: Option<Owner>, categoryId: Option<string>, nameLike: Option<string>)

  const ProductSortFields: seq<string> := ["id", "name", "price", "created_at", "updated_at"]
  const SortOrders: seq<string> := ["asc", "desc"]

  /** `getProducts`: builds the filter field by field, then checks the sort field and the order.
      A caller who is not an admin sees only their own products whatever `merchant_id` says; an
      admin or an anonymous caller is filtered by `merchant_id` when one is given. */
  method GetProducts(caller: Option<UserRow>, q: ProductQuery) returns (r: Listing<ProductWhere>)
    ensures var sortBy, order := Default(q.sortBy, "created_at"), Default(q.order, "desc");
            && (sortBy !in ProductSortFields ==> r == Rejected(400, InvalidSortField))
            && (sortBy in ProductSortFields && order !in SortOrders ==> r == Rejected(400, InvalidSortOrder))
            && (r.Find? <==> sortBy in ProductSortFields && order in SortOrders)
            && (r.Find? ==> r.spec.sortBy == sortBy && r.spec.order == order)
    ensures r.Find? ==>
              var page, limit := Default(q.page, 1), Default(q.limit, 10);
              r.spec.limit == limit && r.spec.offset == (page - 1) * limit
    ensures r.Find? && caller.Some? && caller.value.role != Admin ==>
              r.spec.where.owner == Some(OwnerId(caller.value.id))
    ensures r.Find? && (caller.None? || caller.value.role == Admin) ==>
              r.spec.where.owner == (if IsTruthyString(q.merchantId) then Some(OwnerParam(q.merchantId.value)) else None)
    ensures r.Find? ==> (r.spec.where.categoryId.Some? <==> IsTruthyString(q.categoryId))
                        && (r.spec.where.categoryId.Some? ==> r.spec.where.categoryId == q.categoryId)
    ensures r.Find? ==> (r.spec.where.nameLike.Some? <==> IsTruthyString(q.name))
                        && (r.spec.where.nameLike.Some? ==> r.spec.where.nameLike == q.name)
  {
    var page := Default(q.page, 1);
    var limit := Default(q.limit, 10);
    var sortBy := Default(q.sortBy, "created_at");
    var order := Default(q.order, "desc");

    var where := ProductWhere(None, None, None);
    if caller.Some? && caller.value.role != Admin {
      where := where.(owner := Some(OwnerId(caller.value.id)));
    } else if IsTruthyString(q.merchantId) {
      where := where.(owner := Some(OwnerParam(q.merchantId.value)));
    }
    if IsTruthyString(q.categoryId) {
      where := where.(categoryId := q.categoryId);
    }
    if IsTruthyString(q.name) {
      where := where.(nameLike := q.name);
    }

    if sortBy !in ProductSortFields {
      return Rejected(400, InvalidSortField);
    }
    if order !in SortOrders {
      return Rejected(400, InvalidSortOrder);
    }
    var offset := Offset(page, limit);
    r := Find(FindSpec(where, sortBy, order, limit, offset));
  }

  /** The read guard: a caller who is present, not an admin and not the owner is refused. */
  predicate MayView(caller: Option<UserRow>, p: Product)
  {
    !(caller.Some? && caller.value.role != Admin && p.userId != caller.value.id)
  }

  /** `getProductById`: 404 for a missing product, then 403 exactly when a present caller is
      neither admin nor owner; anonymous reads always succeed. */
  function GetProductById(caller: Option<UserRow>, products: map<int, Product>, id: int): (r: Reply<Product>)
    ensures id !in products ==> r == Refuse(404, ProductNotFound)
    ensures r.status == 403 <==>
              id in products && caller.Some? && caller.value.role != Admin && products[id].userId != caller.value.id
    ensures r.status == 200 <==> id in products && MayView(caller, products[id])
    ensures r.status == 200 ==> r.body == Some(products[id])
    ensures r.effect.NoEffect?
  {
    if id !in products then Refuse(404, ProductNotFound)
    else if !MayView(caller, products[id]) then Refuse(403, NoRightToView)
    else Reply(200, ProductFetched, Some(products[id]), NoEffect)
  }

  /** An anonymous caller reads every product there is. */
  lemma AnonymousReadsAll(products: map<int, Product>, id: int)
    requires id in products
    ensures GetProductById(None, products, id).status == 200
  {
  }

  /** The body of a create or update request. */
  datatype ProductInput = ProductInput(name: Option<string>, image: Option<string>, price: Option<int>,
                                       status: Option<string>, categoryId: Option<int>, userId: Option<int>)

  /** The row `Product.create` would insert, or `None` when a NOT NULL column is missing or the
      status is not one of the enumerated values. */
  function NewProductRow(input: ProductInput, owner: int, id: int): (p: Option<Product>)
    ensures p.Some? <==> input.name.Some? && input.price.Some? && input.categoryId.Some?
                         && (input.status.None? || ParseStatus(input.status.value).Some?)
    ensures p.Some? ==> p.value.id == id && p.value.userId == owner && p.value.categoryId == input.categoryId.value
                        && p.value.name == input.name.value && p.value.price == input.price.value
                        && p.value.image == input.image
                        && p.value.status == (if input.status.None? then DefaultStatus else ParseStatus(input.status.value).value)
  {
    if input.name.None? || input.price.None? || input.categoryId.None? then None
    else if input.status.Some? && ParseStatus(input.status.value).None? then None
    else
      var status := if input.status.None? then DefaultStatus else ParseStatus(input.status.value).value;
      Some(Product(id, input.name.value, input.image, input.price.value, status, input.categoryId.value, owner))
  }

  /** The owner an accepted creation gets: the supplied `user_id` when an admin supplies one,
      and otherwise the caller, whatever `user_id` holds. */
  function ChosenOwner(user: UserRow, input: ProductInput): int
  {
    if user.role == Admin && IsTruthyInt(input.userId) then input.userId.value else user.id
  }

  /** The owner guard of `createProduct`: a truthy `user_id` is required, and an admin's
      must name an existing merchant. */
  predicate OwnerAccepted(user: UserRow, input: ProductInput, t: Tables)
  {
    && IsTruthyInt(input.userId)
    && (user.role == Admin ==>
          input.userId.value in t.users.rows && t.users.rows[input.userId.value].role == Merchant)
  }

  /** Everything a creation needs: an existing category, the owner guard, and a row the
      products table accepts. */
  predicate CreateAccepted(user: UserRow, input: ProductInput, t: Tables)
  {
    && input.categoryId.Some? && input.categoryId.value in t.categories.rows
    && OwnerAccepted(user, input, t)
    && var row := NewProductRow(input, ChosenOwner(user, input), t.products.next);
       row.Some? && ProductRowValid(row.value)
  }

  /** `createProduct`: 401 without a caller; 400 for a missing category; an admin who names a
      `user_id` needs an existing merchant there; anyone else, and an admin who names none, gets
      400 without a truthy `user_id`; a row the table refuses is 500; otherwise 201 creating the
      product with the chosen owner. */
  method CreateProduct(caller: Option<UserRow>, input: ProductInput, t: Tables) returns (r: Reply<Product>)
    ensures caller.None? ==> r == Refuse(401, LoginFirst)
    ensures caller.Some? && (input.categoryId.None? || input.categoryId.value !in t.categories.rows) ==>
              r == Refuse(400, CategoryMissing)
    ensures caller.Some? && input.categoryId.Some? && input.categoryId.value in t.categories.rows ==>
              var user := caller.value;
              && (!IsTruthyInt(input.userId) ==> r == Refuse(400, MerchantRequired))
              && (user.role == Admin && IsTruthyInt(input.userId) && input.userId.value !in t.users.rows ==>
                    r == Refuse(400, MerchantMissing))
              && ((user.role == Admin && IsTruthyInt(input.userId) && input.userId.value in t.users.rows
                   && t.users.rows[input.userId.value].role != Merchant) ==> r == Refuse(400, NotAMerchant))
    ensures r.status == 201 <==> caller.Some? && CreateAccepted(caller.value, input, t)
    ensures caller.Some? && input.categoryId.Some? && input.categoryId.value in t.categories.rows
            && OwnerAccepted(caller.value, input, t) && !CreateAccepted(caller.value, input, t) ==>
              r == Refuse(500, ServerError)
    ensures r.status == 201 ==>
              && NewProductRow(input, ChosenOwner(caller.value, input), t.products.next).Some?
              && r.effect == InsertProduct(NewProductRow(input, ChosenOwner(caller.value, input), t.products.next).value)
    ensures r.status == 201 ==>
              && caller.Some? && IsTruthyInt(input.userId)
              && r.effect.InsertProduct? && r.body == Some(r.effect.product)
              && r.effect.product.userId == ChosenOwner(caller.value, input)
              && Admissible(t, r.effect)
    ensures r.status == 201 && caller.value.role == Admin ==>
              input.userId.value in t.users.rows && t.users.rows[input.userId.value].role == Merchant
    ensures r.status != 201 ==> r.effect.NoEffect?
  {
    if caller.None? {
      return Refuse(401, LoginFirst);
    }
    var user := caller.value;
    if input.categoryId.None? || input.categoryId.value !in t.categories.rows {
      return Refuse(400, CategoryMissing);
    }

    var owner: int;
    if user.role == Admin && IsTruthyInt(input.userId) {
      var target := input.userId.value;
      if target !in t.users.rows {
        return Refuse(400, MerchantMissing);
      }
      if t.users.rows[target].role != Merchant {
        return Refuse(400, NotAMerchant);
      }
      owner := target;
    } else {
      if !IsTruthyInt(input.userId) {
        return Refuse(400, MerchantRequired);
      }
      owner := user.id;
    }

    var row := NewProductRow(input, owner, t.products.next);
    if row.None? || !ProductRowValid(row.value) {
      return Refuse(500, ServerError);
    }
    return Reply(201, ProductCreated, row, InsertProduct(row.value));
  }

  /** The update guard: an admin, or the product's owner. */
  predicate MayChange(user: UserRow, p: Product)
  {
    user.role == Admin || p.userId == user.id
  }

  /** `product.update` with the supplied fields: an absent field keeps its column, `user_id` is
      never changed; `None` when the status is not an enumerated value. */
  function PatchProduct(p: Product, input: ProductInput): (q: Option<Product>)
    ensures q.Some? <==> input.status.None? || ParseStatus(input.status.value).Some?
    ensures q.Some? ==> q.value.id == p.id && q.value.userId == p.userId
    ensures q.Some? ==> q.value.status == (if input.status.Some? then ParseStatus(input.status.value).value else p.status)
    ensures q.Some? ==> q.value.name == Default(input.name, p.name) && q.value.price == Default(input.price, p.price)
                        && q.value.image == (if input.image.Some? then input.image else p.image)
                        && q.value.categoryId == Default(input.categoryId, p.categoryId)
  {
    if input.status.Some? && ParseStatus(input.status.value).None? then None
    else
      Some(p.(name := Default(input.name, p.name),
              image := if input.image.Some? then input.image else p.image,
              price := Default(input.price, p.price),
              status := if input.status.Some? then ParseStatus(input.status.value).value else p.status,
              categoryId := Default(input.categoryId, p.categoryId)))
  }

  /** The patched row is one the products table accepts, its category included. */
  predicate UpdateAccepted(p: Product, input: ProductInput, t: Tables)
  {
    var q := PatchProduct(p, input);
    q.Some? && ProductRowValid(q.value) && q.value.categoryId in t.categories.rows
  }

  /** `updateProduct`: 401, then 404, then 403 unless admin or owner; the category is checked only
      when a truthy `category_id` is supplied (400); a row the table refuses (bad field, or a
      falsy `category_id` no category has) is 500; otherwise 200 saving the patched row. */
  function UpdateProduct(caller: Option<UserRow>, id: int, input: ProductInput, t: Tables): (r: Reply<Product>)
    ensures r.status == 401 <==> caller.None?
    ensures r.status == 404 <==> caller.Some? && id !in t.products.rows
    ensures r.status == 403 <==> caller.Some? && id in t.products.rows && !MayChange(caller.value, t.products.rows[id])
    ensures r.status == 400 <==>
              && caller.Some? && id in t.products.rows && MayChange(caller.value, t.products.rows[id])
              && IsTruthyInt(input.categoryId) && input.categoryId.value !in t.categories.rows
    ensures r.status == 200 <==>
              && caller.Some? && id in t.products.rows && MayChange(caller.value, t.products.rows[id])
              && UpdateAccepted(t.products.rows[id], input, t)
    ensures r.status == 500 <==>
              && caller.Some? && id in t.products.rows && MayChange(caller.value, t.products.rows[id])
              && !(IsTruthyInt(input.categoryId) && input.categoryId.value !in t.categories.rows)
              && !UpdateAccepted(t.products.rows[id], input, t)
    ensures r.status == 200 ==>
              && caller.Some? && id in t.products.rows && MayChange(caller.value, t.products.rows[id])
              && PatchProduct(t.products.rows[id], input).Some?
              && r.effect == SaveProduct(PatchProduct(t.products.rows[id], input).value)
              && r.body == Some(r.effect.product)
    ensures r.status != 200 ==> r.effect.NoEffect?
  {
    if caller.None? then Refuse(401, LoginFirst)
    else if id !in t.products.rows then Refuse(404, ProductNotFound)
    else if !MayChange(caller.value, t.products.rows[id]) then Refuse(403, NoRightToUpdate)
    else if IsTruthyInt(input.categoryId) && input.categoryId.value !in t.categories.rows then
      Refuse(400, CategoryMissing)
    else
      var patched := PatchProduct(t.products.rows[id], input);
      if patched.None? || !ProductRowValid(patched.value) || patched.value.categoryId !in t.categories.rows then
        Refuse(500, ServerError)
      else Reply(200, ProductUpdated, patched, SaveProduct(patched.value))
  }

  /** An accepted update keeps the owner and is a write the database accepts. */
  lemma UpdateProductAdmissible(caller: Option<UserRow>, id: int, input: ProductInput, t: Tables)
    requires Consistent(t)
    ensures var r := UpdateProduct(caller, id, input, t);
            Admissible(t, r.effect)
            && (r.status == 200 ==> r.effect.product.id == id && r.effect.product.userId == t.products.rows[id].userId)
  {
  }

  /** `deleteProduct`: 401, then 404, then 403 unless admin or owner, otherwise 200 destroying it. */
  function DeleteProduct(caller: Option<UserRow>, id: int, t: Tables): (r: Reply<Product>)
    ensures r.status == 401 <==> caller.None?
    ensures r.status == 404 <==> caller.Some? && id !in t.products.rows
    ensures r.status == 403 <==> caller.Some? && id in t.products.rows && !MayChange(caller.value, t.products.rows[id])
    ensures r.status == 200 <==> caller.Some? && id in t.products.rows && MayChange(caller.value, t.products.rows[id])
    ensures r.status == 200 ==> r.effect == DestroyProduct(id) && Admissible(t, r.effect)
    ensures r.status != 200 ==> r.effect.NoEffect?
  {
    if caller.None? then Refuse(401, LoginFirst)
    else if id !in t.products.rows then Refuse(404, ProductNotFound)
    else if !MayChange(caller.value, t.products.rows[id]) then Refuse(403, NoRightToDelete)
    else Reply(200, ProductDeleted, None, DestroyProduct(id))
  }
}
