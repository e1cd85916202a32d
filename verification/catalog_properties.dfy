/** Properties that relate several handler calls, and concrete cases. */
module CatalogProperties {
  import opened Results
  import opened Products
  import opened Validation
  import opened ProductList
  import opened Catalog

  /** When the form fails validation the outcome parameter is never looked
      at: the handler returned before any request, so the result cannot
      depend on how a request would have settled. */
  lemma InvalidSubmitIgnoresOutcome(s: State, id: Id, p: Product, o1: Outcome<Product>, o2: Outcome<Product>)
    ensures !Validate(s.newProduct).isValid ==> AddProduct(s, o1) == AddProduct(s, o2)
    ensures !Validate(p.Fields()).isValid ==> EditProduct(s, id, p, o1) == EditProduct(s, id, p, o2)
  {
  }

  /** Opening the edit form and cancelling it leaves the same state as
      cancelling straight away: the list is untouched and the slot is empty. */
  lemma BeginThenCancel(s: State, p: Product)
    ensures CancelEdit(BeginEdit(s, p)) == CancelEdit(s)
    ensures CancelEdit(BeginEdit(s, p)).products == s.products
    ensures CancelEdit(BeginEdit(s, p)).editingProduct == None
  {
  }

  /** Opening the edit form on an entry and saving it unchanged, against a
      server that echoes the body back, leaves the list as it was, provided
      every entry sharing that identifier is that same entry. The form
      closes when the entry passes validation and stays open otherwise. */
  lemma EditEchoKeepsList(s: State, p: Product)
    requires forall k :: 0 <= k < |s.products| && s.products[k].id == p.id ==> s.products[k] == p
    ensures EditProduct(BeginEdit(s, p), p.id, p, Ok(p)).state.products == s.products
    ensures Validate(p.Fields()).isValid ==>
              EditProduct(BeginEdit(s, p), p.id, p, Ok(p)).state.editingProduct == None
    ensures !Validate(p.Fields()).isValid ==>
              EditProduct(BeginEdit(s, p), p.id, p, Ok(p)).state.editingProduct == Some(p)
  {
  }

  /** Adding a product whose server-assigned identifier is fresh and then
      deleting that identifier gives back the list from before the add. */
  lemma AddThenDelete(s: State, x: Product)
    requires Validate(s.newProduct).isValid
    requires forall k :: 0 <= k < |s.products| ==> s.products[k].id != x.id
    ensures DeleteProduct(AddProduct(s, Ok(x)).state, x.id, Ok(())).state.products == s.products
  {
    RemoveByIdAppend(s.products, [x], x.id);
    RemoveAbsentId(s.products, x.id);
  }

  /** Deleting an identifier no entry carries, when the server accepts,
      changes nothing at all; in particular it sets no banner. */
  lemma DeleteAbsentIsNoop(s: State, id: Id)
    requires forall k :: 0 <= k < |s.products| ==> s.products[k].id != id
    ensures DeleteProduct(s, id, Ok(())).state == s
  {
    RemoveAbsentId(s.products, id);
  }

  /** A second successful delete of the same identifier changes nothing. */
  lemma DeleteTwice(s: State, id: Id)
    ensures var once := DeleteProduct(s, id, Ok(())).state;
            DeleteProduct(once, id, Ok(())).state == once
  {
    RemoveByIdIdempotent(s.products, id);
  }

  /** The price rule on sample inputs: absent, zero, negative and
      non-numeric prices carry a price message; 0.01 and 100 do not. */
  lemma PriceSamples(name: string, description: string)
    ensures Price in Validate(Draft(name, description, Empty)).errors
    ensures Validate(Draft(name, description, Empty)).errors[Price] == PriceRequired
    ensures Validate(Draft(name, description, Num(0.0))).errors[Price] == PricePositive
    ensures Validate(Draft(name, description, Num(-5.0))).errors[Price] == PricePositive
    ensures Validate(Draft(name, description, NotANumber)).errors[Price] == PricePositive
    ensures Price !in Validate(Draft(name, description, Num(0.01))).errors
    ensures Price !in Validate(Draft(name, description, Num(100.0))).errors
  {
  }

  /** Blank fields: a whitespace-only name and an empty description are both
      reported in one pass, next to a bad price. */
  lemma AllFailuresReportedTogether()
    ensures Validate(Draft(" \t", "", Num(-1.0))).errors
              == map[Name := NameRequired, Description := DescriptionRequired, Price := PricePositive]
  {
  }

  /** A concrete add: starting from one product with identifier 1 and
      the form holding B, a server answering with identifier 2 yields the
      two products in that order, and the form is reset. */
  lemma AddScenario()
    ensures
      var a := Product(1, "A", "d", Num(10.0));
      var b := Product(2, "B", "e", Num(5.0));
      var s := Initial.(products := [a], newProduct := Draft("B", "e", Num(5.0)));
      var r := AddProduct(s, Ok(b));
      r.sent == Some(Post(Draft("B", "e", Num(5.0))))
      && r.state.products == [a, b]
      && r.state.newProduct == EmptyDraft
  {
  }

  /** The edit form's messages survive opening it on another entry: after
      a save of one entry that fails validation, opening a valid entry still shows the old
      messages until the next save or cancel. */
  lemma StaleEditErrors(bad: Product, good: Product)
    requires !Validate(bad.Fields()).isValid
    ensures
      var s := EditProduct(BeginEdit(Initial, bad), bad.id, bad, Fail("unused")).state;
      var t := BeginEdit(s, good);
      t.editingProduct == Some(good) && t.editErrors != map[]
  {
  }

  /** Typing into the add form and then adding sends the typed form: from
      the initial state, filling in the three fields makes the next add
      POST exactly what was typed. */
  lemma TypedDraftIsPosted(o: Outcome<Product>)
    ensures
      var typed := [OnTypeNew(SetName("B")), OnTypeNew(SetDescription("e")), OnTypeNew(SetPrice(Num(5.0)))];
      Apply(Run(Initial, typed), OnAdd(o)).sent == Some(Post(Draft("B", "e", Num(5.0))))
  {
  }

  /** Saving after typing into the edit form PUTs the typed product under
      its own identifier, when it passes validation. */
  lemma SaveSendsTypedProduct(s: State, k: Keystroke, o: Outcome<Product>)
    requires s.editingProduct.Some?
    ensures
      var t := TypeEdit(s, k);
      var p := TypeIntoProduct(s.editingProduct.value, k);
      && t.editingProduct == Some(p)
      && (Validate(p.Fields()).isValid <==> Save(t, o).sent == Some(Put(s.editingProduct.value.id, p)))
  {
  }
}
