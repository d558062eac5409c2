/** The marketplace's value types: the two enumerations stored by name and the
    Listing row as the view models use it (the Kotlin `Listing` entity with
    enum-valued category/condition and optional remote URLs). */
module Market {
  import opened Wrappers

  /** One byte of a file or stream. */
  newtype byte = x: int | 0 <= x < 256

  datatype Category = COUCHES | BEDS | BOOKCASES | DESKS | CHAIRS

  datatype Condition = NEW | USED | FAIR

  /** A listing row. `price` counts hundredths of the currency unit, so 199.99 is 19999. */
  datatype Listing = Listing(
    id: int,
    productName: string,
    category: Category,
    price: int,
    condition: Condition,
    imageUrl: Option<string>,
    modelUrl: Option<string>)
}
