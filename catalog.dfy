/** The category rules: the rename cascade onto products, the name uniqueness the `categories.name`
    UNIQUE column enforces, and the delete guard. */
module Catalog {
  import opened Optional
  import opened Tables

  /** `UPDATE products SET category = newName WHERE category = oldName`. */
  function Renamed(products: map<Id, Product>, oldName: string, newName: string): (r: map<Id, Product>)
    ensures r.Keys == products.Keys
    ensures forall id :: id in products ==>
      r[id] == if products[id].category == oldName then products[id].(category := newName) else products[id]
  {
    map id | id in products :: if products[id].category == oldName then products[id].(category := newName) else products[id]
  }

  /** `SELECT 1 FROM products WHERE category = name LIMIT 1` finds a row. */
  predicate InUse(products: map<Id, Product>, name: string) {
    exists id :: id in products && products[id].category == name
  }

  /** Some category other than `except` already has the name. */
  predicate NameTaken(categories: map<Id, Category>, name: string, except: Option<Id>) {
    exists id :: id in categories && categories[id].name == name && Some(id) != except
  }

  /** After a rename a product is in the new category exactly when it was in the old or the new one,
      no product is left in the old category, and the products table stays well formed. */
  lemma RenameMovesExactlyTheOldMembers(products: map<Id, Product>, oldName: string, newName: string)
    requires ProductsWellFormed(products)
    ensures forall id :: id in products ==>
      (Renamed(products, oldName, newName)[id].category == newName <==>
         products[id].category == oldName || products[id].category == newName)
    ensures oldName != newName ==> !InUse(Renamed(products, oldName, newName), oldName)
    ensures ProductsWellFormed(Renamed(products, oldName, newName))
  {
  }

  /** Giving category `id` a name no other category has keeps the names unique. */
  lemma RenameKeepsNamesUnique(categories: map<Id, Category>, id: Id, newName: string, imageUrl: Option<string>)
    requires CategoriesWellFormed(categories) && id in categories
    requires !NameTaken(categories, newName, Some(id))
    ensures CategoriesWellFormed(categories[id := Category(id, newName, imageUrl)])
  {
  }
}
