/** Shapes of the storefront's records (types/product.ts), plus the browser `File`
    fields the upload and custom-order forms look at. */
module Types {

  /** An optional TypeScript property (`stockCount?: number`, `rating?: number`). */
  datatype Option<T> = None | Some(value: T)

  /** `CategoryId`: "all" and the seven furniture categories. */
  datatype CategoryId = All | Sofas | Beds | Dining | Office | Cabinets | Outdoor | Custom

  /** The fields of `Product` that the catalog and the carts read. Prices and
      ratings are whole numbers here. */
  datatype Product = Product(
    id: string,
    name: string,
    description: string,
    price: int,
    category: CategoryId,
    inStock: bool,
    stockCount: Option<int>,
    rating: Option<int>)

  /** One cart line: a product and how many of it. */
  datatype CartItem = CartItem(product: Product, quantity: int)

  /** The parts of a browser `File` that validation consults. */
  datatype FileInfo = FileInfo(name: string, mimeType: string, size: int)
}
