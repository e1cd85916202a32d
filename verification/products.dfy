/** The records the catalog component holds. */
module Products {

  /** Identifiers are assigned by the remote store and compared with `===`. */
  type Id = int

  /** The price field after JavaScript coercion, as the validator sees it.
      `Empty` stands for every falsy value (the empty string of a fresh form,
      a missing field, the number 0); `NotANumber` for a truthy value that
      `isNaN` flags; `Num(amount)` for a truthy value whose numeric reading is
      `amount` (the string "0" is truthy and reads as `Num(0.0)`). */
  datatype PriceInput = Empty | NotANumber | Num(amount: real)

  /** The fields a user types: the add form's `newProduct`, and the body sent
      when creating. It carries no identifier. */
  datatype Draft = Draft(name: string, description: string, price: PriceInput)

  /** A product as the remote store returns it: a draft plus its identifier. */
  datatype Product = Product(id: Id, name: string, description: string, price: PriceInput)
  {
    /** The fields the validator reads. */
    function Fields(): Draft
    {
      Draft(name, description, price)
    }
  }

  /** One `onChange` of a form input: the new value of one field. */
  datatype Keystroke = SetName(text: string) | SetDescription(text: string) | SetPrice(value: PriceInput)

  /** `{ ...d, field: value }`: the draft with one field overwritten. */
  function TypeIntoDraft(d: Draft, k: Keystroke): Draft
  {
    match k
    case SetName(t) => d.(name := t)
    case SetDescription(t) => d.(description := t)
    case SetPrice(v) => d.(price := v)
  }

  /** `{ ...p, field: value }`: the product with one field overwritten; the
      identifier is kept. */
  function TypeIntoProduct(p: Product, k: Keystroke): Product
  {
    match k
    case SetName(t) => p.(name := t)
    case SetDescription(t) => p.(description := t)
    case SetPrice(v) => p.(price := v)
  }

  /** `{ name: '', description: '', price: '' }`: the initial and reset value
      of the add form. */
  const EmptyDraft: Draft := Draft("", "", Empty)
}
