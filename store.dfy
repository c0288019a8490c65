/** The database the handlers read and write: three auto-increment tables, the constraints the
    schema enforces, and the single write each successful request performs. */
module Store {
  import opened Common
  import opened Models

  /** A table: rows by primary key and the next auto-increment value. */
  datatype Table<T> = Table(rows: map<int, T>, next: int)

  datatype Tables = Tables(users: Table<UserRow>, products: Table<Product>, categories: Table<Category>)

  /** Every key is below the auto-increment counter and names its own row. */
  predicate UserKeys(t: Table<UserRow>)
  {
    forall id :: id in t.rows ==> t.rows[id].id == id && id < t.next
  }

  predicate ProductKeys(t: Table<Product>)
  {
    forall id :: id in t.rows ==> t.rows[id].id == id && id < t.next
  }

  predicate CategoryKeys(t: Table<Category>)
  {
    forall id :: id in t.rows ==> t.rows[id].id == id && id < t.next
  }

  /** The unique indexes on `users.username` and `users.email`. */
  predicate UniqueLogins(users: map<int, UserRow>)
  {
    forall a, b :: a in users && b in users && a != b ==>
      users[a].username != users[b].username && users[a].email != users[b].email
  }

  /** The unique index on `categories.name`. */
  predicate UniqueCategoryNames(cats: map<int, Category>)
  {
    forall a, b :: a in cats && b in cats && a != b ==> cats[a].name != cats[b].name
  }

  /** The foreign key `products.category_id` (ON DELETE RESTRICT). */
  predicate CategoriesReferenced(t: Tables)
  {
    forall id :: id in t.products.rows ==> t.products.rows[id].categoryId in t.categories.rows
  }

  /** What the database guarantees between two requests. */
  predicate Consistent(t: Tables)
  {
    && UserKeys(t.users) && ProductKeys(t.products) && CategoryKeys(t.categories)
    && UniqueLogins(t.users.rows) && UniqueCategoryNames(t.categories.rows)
    && CategoriesReferenced(t)
  }

  /** The one write a request performs, if any. */
  datatype Effect =
    | NoEffect
    | InsertUser(user: UserRow)
    | SaveUser(user: UserRow)
    | DestroyUser(id: int)
    | InsertProduct(product: Product)
    | SaveProduct(product: Product)
    | DestroyProduct(id: int)
    | InsertCategory(category: Category)
    | SaveCategory(category: Category)
    | DestroyCategory(id: int)

  /** No other user holds this username or email. */
  predicate LoginsFree(users: map<int, UserRow>, u: UserRow)
  {
    forall id :: id in users && id != u.id ==> users[id].username != u.username && users[id].email != u.email
  }

  predicate NameFree(cats: map<int, Category>, c: Category)
  {
    forall id :: id in cats && id != c.id ==> cats[id].name != c.name
  }

  /** No product references the category. */
  predicate Unreferenced(products: map<int, Product>, categoryId: int)
  {
    forall id :: id in products ==> products[id].categoryId != categoryId
  }

  /** The writes the database accepts: inserts take the next key, saves and destroys name an
      existing row, and every constraint of `Consistent` still holds afterwards. */
  predicate Admissible(t: Tables, e: Effect)
  {
    match e
    case NoEffect => true
    case InsertUser(u) => u.id == t.users.next && UserRowValid(u) && LoginsFree(t.users.rows, u)
    case SaveUser(u) => u.id in t.users.rows && LoginsFree(t.users.rows, u)
    case DestroyUser(id) => id in t.users.rows
    case InsertProduct(p) => p.id == t.products.next && ProductRowValid(p) && p.categoryId in t.categories.rows
    case SaveProduct(p) => p.id in t.products.rows && ProductRowValid(p) && p.categoryId in t.categories.rows
    case DestroyProduct(id) => id in t.products.rows
    case InsertCategory(c) => c.id == t.categories.next && CategoryRowValid(c) && NameFree(t.categories.rows, c)
    case SaveCategory(c) => c.id in t.categories.rows && CategoryRowValid(c) && NameFree(t.categories.rows, c)
    case DestroyCategory(id) => id in t.categories.rows && Unreferenced(t.products.rows, id)
  }

  /** The tables after a write, the user hooks included; `hash` stands for the password hash. */
  function Apply(t: Tables, e: Effect, hash: string -> string): Tables
  {
    match e
    case NoEffect => t
    case InsertUser(u) =>
      t.(users := Table(t.users.rows[u.id := HashOnCreate(u, hash)], t.users.next + 1))
    case SaveUser(u) =>
      var stored := if u.id in t.users.rows then HashOnUpdate(t.users.rows[u.id], u, hash) else u;
      t.(users := t.users.(rows := t.users.rows[u.id := stored]))
    case DestroyUser(id) => t.(users := t.users.(rows := t.users.rows - {id}))
    case InsertProduct(p) => t.(products := Table(t.products.rows[p.id := p], t.products.next + 1))
    case SaveProduct(p) => t.(products := t.products.(rows := t.products.rows[p.id := p]))
    case DestroyProduct(id) => t.(products := t.products.(rows := t.products.rows - {id}))
    case InsertCategory(c) => t.(categories := Table(t.categories.rows[c.id := c], t.categories.next + 1))
    case SaveCategory(c) => t.(categories := t.categories.(rows := t.categories.rows[c.id := c]))
    case DestroyCategory(id) => t.(categories := t.categories.(rows := t.categories.rows - {id}))
  }

  /** An admissible write keeps the database consistent. */
  lemma ApplyKeepsConsistent(t: Tables, e: Effect, hash: string -> string)
    requires Consistent(t) && Admissible(t, e)
    ensures Consistent(Apply(t, e, hash))
  {
    var t' := Apply(t, e, hash);
    match e
    case NoEffect =>
    case InsertUser(u) =>
      assert t'.users.rows[u.id].username == u.username && t'.users.rows[u.id].email == u.email;
      assert UniqueLogins(t'.users.rows);
    case SaveUser(u) =>
      assert t'.users.rows[u.id].username == u.username && t'.users.rows[u.id].email == u.email;
      assert UniqueLogins(t'.users.rows);
    case DestroyUser(id) =>
    case InsertProduct(p) =>
    case SaveProduct(p) =>
    case DestroyProduct(id) =>
    case InsertCategory(c) =>
    case SaveCategory(c) =>
    case DestroyCategory(id) =>
      assert CategoriesReferenced(t');
  }

  /** Only the addressed row changes: every other row of every table is as it was. */
  lemma ApplyTouchesOneRow(t: Tables, e: Effect, hash: string -> string, id: int)
    requires match e
             case InsertUser(u) => u.id != id
             case SaveUser(u) => u.id != id
             case DestroyUser(d) => d != id
             case _ => true
    ensures var t' := Apply(t, e, hash);
            (id in t.users.rows ==> id in t'.users.rows && t'.users.rows[id] == t.users.rows[id])
  {
  }

  /** The number of products in a category (`Product.count` with a `category_id` condition). */
  function CountProducts(products: map<int, Product>, categoryId: int): (n: nat)
    ensures n == 0 <==> Unreferenced(products, categoryId)
  {
    var ids := set id | id in products && products[id].categoryId == categoryId;
    if w :| w in ids then
      |ids|
    else
      assert Unreferenced(products, categoryId) by {
        forall id | id in products ensures products[id].categoryId != categoryId {
          assert id !in ids;
        }
      }
      0
  }

  /** `findOne` over the users table: the matching row with the smallest key, or none. */
  function FindUser(users: map<int, UserRow>, matches: UserRow -> bool): (r: Option<UserRow>)
    requires forall id :: id in users ==> users[id].id == id
    ensures r.None? <==> forall id :: id in users ==> !matches(users[id])
    ensures r.Some? ==> r.value.id in users && users[r.value.id] == r.value && matches(r.value)
    ensures r.Some? ==> forall id :: id in users && matches(users[id]) ==> r.value.id <= id
  {
    var ids := set id | id in users && matches(users[id]);
    if w :| w in ids then
      var m := Least(ids);
      assert forall id :: id in users && matches(users[id]) ==> m <= id by {
        forall id | id in users && matches(users[id]) ensures m <= id {
          assert id in ids;
        }
      }
      Some(users[m])
    else
      assert forall id :: id in users ==> !matches(users[id]) by {
        forall id | id in users ensures !matches(users[id]) {
          assert id !in ids;
        }
      }
      None
  }

  /** The database: its tables change only by committing an admissible write, and each
      commit keeps every constraint. */
  class Db {
    var tables: Tables
    const hash: string -> string

    predicate Valid()
      reads this
    {
      Consistent(tables)
    }

    /** Empty tables whose auto-increment counters start at 1. */
    constructor (hash: string -> string)
      ensures Valid() && this.hash == hash
      ensures tables == Tables(Table(map[], 1), Table(map[], 1), Table(map[], 1))
    {
      this.hash := hash;
      tables := Tables(Table(map[], 1), Table(map[], 1), Table(map[], 1));
    }

    method Commit(e: Effect)
      requires Valid() && Admissible(tables, e)
      modifies this
      ensures Valid()
      ensures tables == Apply(old(tables), e, hash)
    {
      ApplyKeepsConsistent(tables, e, hash);
      tables := Apply(tables, e, hash);
    }
  }
}
