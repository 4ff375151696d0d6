/** Soft deletion in the catalogue (apps/api/src/menu/menu.service.ts). */
module Menu {
  import opened Wrappers
  import Cascade

  type Id = nat

  datatype Category = Category(tenant: Id, live: bool)

  datatype Product = Product(tenant: Id, category: Id, live: bool, available: bool)

  datatype Error = NotFound | Conflict

  predicate InCategory(p: Product, tenant: Id, category: Id) {
    p.category == category && p.tenant == tenant && p.live
  }

  class Catalogue {
    var categories: map<Id, Category>
    var products: map<Id, Product>

    /** The category goes together with exactly its live products; every other row stays as it is. */
    method DeleteCategory(tenant: Id, id: Id) returns (error: Option<Error>)
      modifies this
      ensures error.None? <==> old(id in categories && categories[id].tenant == tenant && categories[id].live)
      ensures error.Some? ==> categories == old(categories) && products == old(products)
      ensures error.None? ==> categories == old(categories)[id := Category(tenant, false)]
      ensures products.Keys == old(products).Keys
      ensures error.None? ==> forall p :: p in products ==>
                products[p] == var was := old(products)[p];
                               if InCategory(was, tenant, id) then was.(live := false, available := false) else was
      ensures error.None? ==> forall p :: p in products ==> !InCategory(products[p], tenant, id)
    {
      if id !in categories || categories[id].tenant != tenant || !categories[id].live {
        return Some(NotFound);
      }
      products := Cascade.SoftDeleteChildren(products,
        (p: Product) => InCategory(p, tenant, id), (p: Product) => p.(live := false, available := false));
      categories := categories[id := categories[id].(live := false)];
      error := None;
    }

    /** A product comes back available, and only under a live category. */
    method RestoreProduct(tenant: Id, id: Id) returns (error: Option<Error>)
      modifies `products
      ensures error == if old(id !in products || products[id].tenant != tenant) then Some(NotFound)
                       else if old(var c := products[id].category;
                                   c !in categories || categories[c].tenant != tenant || !categories[c].live)
                       then Some(Conflict) else None
      ensures error.Some? ==> products == old(products)
      ensures error.None? ==> products == old(products)[id := if old(products[id].live) then old(products[id])
                                                             else old(products[id]).(live := true, available := true)]
    {
      if id !in products || products[id].tenant != tenant {
        return Some(NotFound);
      }
      var p := products[id];
      if p.category !in categories || categories[p.category].tenant != tenant || !categories[p.category].live {
        return Some(Conflict);
      }
      if !p.live {
        products := products[id := p.(live := true, available := true)];
      }
      error := None;
    }
  }
}
