/**
 * The product-service's entity and its transfer objects. Money is a BigDecimal
 * in the source; here it is an exact integer count of minor units.
 */
module Products {
  import opened Wrappers
  import opened Common

  type ProductId = string

  /** The stored product document; `isDeleted` marks a soft delete. */
  datatype Product = Product(
    id: ProductId,
    name: string,
    description: string,
    category: string,
    price: int,
    stockQuantity: int,
    sku: string,
    brand: string,
    createdAt: Option<Time>,
    updatedAt: Option<Time>,
    isDeleted: bool)

  /** The fields a client supplies when adding or updating a product. */
  datatype ProductRequest = ProductRequest(
    name: string,
    description: string,
    category: string,
    price: int,
    stockQuantity: int,
    sku: string,
    brand: string)

  /** What the product-service returns: the document without its deletion flag. */
  datatype ProductResponse = ProductResponse(
    id: ProductId,
    name: string,
    description: string,
    category: string,
    price: int,
    stockQuantity: int,
    sku: string,
    brand: string,
    createdAt: Option<Time>,
    updatedAt: Option<Time>)

  /** The product collection, keyed by document id. */
  type Store = map<ProductId, Product>

  /** Every document is filed under its own id. */
  ghost predicate KeysMatch(store: Store) {
    forall id :: id in store ==> store[id].id == id
  }

  /** Explicit form of the entity-to-response field copy. */
  function AsResponse(p: Product): ProductResponse {
    ProductResponse(p.id, p.name, p.description, p.category, p.price, p.stockQuantity,
                    p.sku, p.brand, p.createdAt, p.updatedAt)
  }
}
