/** The storefront's catalog entries, the copies a customer owns, and the
    receipts a transaction issues. Money is counted in integer cents. */
module Items {

  datatype Option<T> = None | Some(value: T)

  /** What distinguishes a catalog entry beyond its shared fields: the Game and
      Movie subclasses, or a plain Item that is neither. */
  datatype Kind =
    | Game(publisher: string, isMultiplayer: bool)
    | Movie(runningTime: int)
    | Plain

  /** A catalog entry: the shared id, title and price (in cents), plus its kind. */
  datatype Item = Item(id: string, title: string, price: int, kind: Kind)

  /** A purchased copy: a snapshot of the catalog entry's id, title and price
      at the time of purchase, and the minutes it has been used. */
  datatype OwnedItem = OwnedItem(id: string, title: string, price: int, minutesUsed: int)

  /** What a receipt reports: a purchase or a refund, the title and the amount. */
  datatype Receipt = Receipt(isRefund: bool, title: string, amount: int)

  /** The display label a search result is printed with. */
  datatype Tag = GameTag | MovieTag

  /** One line of a search listing: the label and the item it describes. */
  datatype Listing = Listing(tag: Tag, item: Item)

  /** The copy a purchase of `item` adds to the buyer's list: never used yet. */
  function Copy(item: Item): OwnedItem
  {
    OwnedItem(item.id, item.title, item.price, 0)
  }

  /** The listing lines one search result produces: one labelled line for a
      Game or a Movie, nothing for a plain Item. */
  function Label(item: Item): seq<Listing>
  {
    match item.kind
    case Game(_, _) => [Listing(GameTag, item)]
    case Movie(_) => [Listing(MovieTag, item)]
    case Plain => []
  }
}
