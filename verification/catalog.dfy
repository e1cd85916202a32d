/** The `App` component's state and the transitions its handlers perform.
    Each handler that awaits a request takes the request's outcome as a
    parameter and reports, next to the new state, which request it sent;
    `None` there means the handler returned before touching the network. */
module Catalog {
  import opened Results
  import opened Products
  import opened Validation
  import opened ProductList

  /** The six `useState` slots: the list, the add form, the edit form
      (`None` for `null`), the banner message (`''` when none), and the error
      maps of the add form (`validationError1`) and of the edit form
      (`validationError2`). */
  datatype State = State(
    products: seq<Product>,
    newProduct: Draft,
    editingProduct: Option<Product>,
    error: string,
    addErrors: Errors,
    editErrors: Errors)

  /** The state on mount, before the first fetch settles. */
  const Initial: State := State([], EmptyDraft, None, "", map[], map[])

  /** The four requests against the products collection. */
  datatype Request =
    | GetAll
    | Post(draft: Draft)
    | Put(id: Id, product: Product)
    | DeleteOne(id: Id)

  /** A handler's effect: the state after the request settled, and the
      request sent if any. */
  datatype Step = Step(state: State, sent: Option<Request>)

  const FetchFailed: string := "Error fetching products: "
  const AddFailed: string := "Error adding product: "
  const DeleteFailed: string := "Error deleting product: "
  const UpdateFailed: string := "Error updating product: "

  /** `fetchProducts`: a GET; on success the list is replaced wholesale by the
      response, on failure only the banner changes. */
  function FetchProducts(s: State, o: Outcome<seq<Product>>): (r: Step)
    ensures r.sent == Some(GetAll)
    ensures o.Ok? ==> r.state.products == o.data && r.state.(products := s.products) == s
    ensures o.Fail? ==> r.state.error == FetchFailed + o.message && r.state.(error := s.error) == s
  {
    match o
    case Ok(listed) => Step(s.(products := listed), Some(GetAll))
    case Fail(m) => Step(s.(error := FetchFailed + m), Some(GetAll))
  }

  /** `addProduct`. An invalid add form only replaces the add form's error
      map, wholesale, and sends nothing. A valid one clears that map and
      POSTs the form: on success the response is appended at the end and the
      form is reset; on failure the list and the form are kept and the
      banner is set. Nothing else ever changes; in particular a success does
      not clear the banner. */
  function AddProduct(s: State, o: Outcome<Product>): (r: Step)
    ensures r.sent.None? <==> !Validate(s.newProduct).isValid
    ensures r.sent.Some? ==> r.sent.value == Post(s.newProduct)
    ensures r.sent.None? ==>
              r.state.addErrors == Validate(s.newProduct).errors && r.state.(addErrors := s.addErrors) == s
    ensures r.sent.Some? ==> r.state.addErrors == map[]
    ensures r.sent.Some? && o.Ok? ==>
              && |r.state.products| == |s.products| + 1
              && r.state.products[..|s.products|] == s.products
              && r.state.products[|s.products|] == o.data
              && r.state.newProduct == EmptyDraft
              && r.state.(products := s.products, newProduct := s.newProduct, addErrors := s.addErrors) == s
    ensures r.sent.Some? && o.Fail? ==>
              && r.state.error == AddFailed + o.message
              && r.state.(error := s.error, addErrors := s.addErrors) == s
  {
    var v := Validate(s.newProduct);
    if !v.isValid then
      Step(s.(addErrors := v.errors), None)
    else
      var cleared := s.(addErrors := map[]);
      var after :=
        match o
        case Ok(created) => cleared.(products := s.products + [created], newProduct := EmptyDraft)
        case Fail(m) => cleared.(error := AddFailed + m);
      Step(after, Some(Post(s.newProduct)))
  }

  /** `onCancelAdd`: resets the add form and its error map, and nothing
      else. */
  function CancelAdd(s: State): (r: State)
    ensures r.newProduct == EmptyDraft && r.addErrors == map[]
    ensures r.(newProduct := s.newProduct, addErrors := s.addErrors) == s
  {
    s.(newProduct := EmptyDraft, addErrors := map[])
  }

  /** `onCancelEdit`: closes the edit form and clears its error map, and
      nothing else. */
  function CancelEdit(s: State): (r: State)
    ensures r.editingProduct == None && r.editErrors == map[]
    ensures r.(editingProduct := s.editingProduct, editErrors := s.editErrors) == s
  {
    s.(editingProduct := None, editErrors := map[])
  }

  /** The Edit button's handler: opens the edit form on `p`. It leaves the
      edit form's error map as it was, so messages from an earlier edit
      stay on display. */
  function BeginEdit(s: State, p: Product): (r: State)
    ensures r.editingProduct == Some(p)
    ensures r.editErrors == s.editErrors
    ensures r.(editingProduct := s.editingProduct) == s
  {
    s.(editingProduct := Some(p))
  }

  /** `deleteProduct`: not gated by validation. A DELETE; on success every
      entry carrying `id` is dropped and the others keep their order, on
      failure only the banner changes. */
  function DeleteProduct(s: State, id: Id, o: Outcome<()>): (r: Step)
    ensures r.sent == Some(DeleteOne(id))
    ensures o.Ok? ==>
              && (forall p :: p in r.state.products <==> p in s.products && p.id != id)
              && r.state.products == RemoveById(s.products, id)
              && r.state.(products := s.products) == s
    ensures o.Fail? ==> r.state.error == DeleteFailed + o.message && r.state.(error := s.error) == s
  {
    match o
    case Ok(_) => Step(s.(products := RemoveById(s.products, id)), Some(DeleteOne(id)))
    case Fail(m) => Step(s.(error := DeleteFailed + m), Some(DeleteOne(id)))
  }

  /** `editProduct`. An invalid `p` only replaces the edit form's error map
      and sends nothing. A valid one clears that map and PUTs `p` under `id`:
      on success every entry carrying `id` becomes the response, the others
      stay in place, and the edit form closes; on failure the list and the
      form are kept and the banner is set. */
  function EditProduct(s: State, id: Id, p: Product, o: Outcome<Product>): (r: Step)
    ensures r.sent.None? <==> !Validate(p.Fields()).isValid
    ensures r.sent.Some? ==> r.sent.value == Put(id, p)
    ensures r.sent.None? ==>
              r.state.editErrors == Validate(p.Fields()).errors && r.state.(editErrors := s.editErrors) == s
    ensures r.sent.Some? ==> r.state.editErrors == map[]
    ensures r.sent.Some? && o.Ok? ==>
              && |r.state.products| == |s.products|
              && (forall k :: 0 <= k < |s.products| ==>
                    r.state.products[k] == (if s.products[k].id == id then o.data else s.products[k]))
              && r.state.editingProduct == None
              && r.state.(products := s.products, editingProduct := s.editingProduct, editErrors := s.editErrors) == s
    ensures r.sent.Some? && o.Fail? ==>
              && r.state.error == UpdateFailed + o.message
              && r.state.(error := s.error, editErrors := s.editErrors) == s
  {
    var v := Validate(p.Fields());
    if !v.isValid then
      Step(s.(editErrors := v.errors), None)
    else
      var cleared := s.(editErrors := map[]);
      var after :=
        match o
        case Ok(updated) => cleared.(products := ReplaceById(s.products, id, updated), editingProduct := None)
        case Fail(m) => cleared.(error := UpdateFailed + m);
      Step(after, Some(Put(id, p)))
  }

  /** The `onChange` handlers of the add form's inputs: one field of the
      add form takes the typed value; the other fields, the error maps and
      everything else are kept. */
  function TypeNew(s: State, k: Keystroke): (r: State)
    ensures r.newProduct.name == (if k.SetName? then k.text else s.newProduct.name)
    ensures r.newProduct.description == (if k.SetDescription? then k.text else s.newProduct.description)
    ensures r.newProduct.price == (if k.SetPrice? then k.value else s.newProduct.price)
    ensures r.(newProduct := s.newProduct) == s
  {
    s.(newProduct := TypeIntoDraft(s.newProduct, k))
  }

  /** The `onChange` handlers of the edit form's inputs. The inputs exist
      only while the edit slot is filled; there one field of the edited
      product takes the typed value and its identifier is kept. With the
      slot empty nothing can be typed, and nothing changes. */
  function TypeEdit(s: State, k: Keystroke): (r: State)
    ensures s.editingProduct.None? ==> r == s
    ensures s.editingProduct.Some? ==>
              && r.editingProduct.Some?
              && r.editingProduct.value.id == s.editingProduct.value.id
              && r.editingProduct.value.name == (if k.SetName? then k.text else s.editingProduct.value.name)
              && r.editingProduct.value.description ==
                   (if k.SetDescription? then k.text else s.editingProduct.value.description)
              && r.editingProduct.value.price == (if k.SetPrice? then k.value else s.editingProduct.value.price)
    ensures r.(editingProduct := s.editingProduct) == s
  {
    match s.editingProduct
    case None => s
    case Some(p) => s.(editingProduct := Some(TypeIntoProduct(p, k)))
  }

  /** The Save button: `editProduct(editingProduct.id, editingProduct)`.
      With the slot filled it is `EditProduct` on the slot's product under
      its own identifier: it validates the slot, replaces the edit form's
      error map when the slot is invalid, and otherwise PUTs it, closing the
      slot and updating the list on success and setting the banner on
      failure. The button exists only while the slot is filled; with the
      slot empty nothing happens. */
  function Save(s: State, o: Outcome<Product>): (r: Step)
    ensures s.editingProduct.None? ==> r == Step(s, None)
    ensures s.editingProduct.Some? ==>
              r == EditProduct(s, s.editingProduct.value.id, s.editingProduct.value, o)
    ensures s.editingProduct.Some? ==>
              (r.sent.Some? <==> Validate(s.editingProduct.value.Fields()).isValid)
    ensures s.editingProduct.Some? ==>
              r.sent.Some? ==> r.sent.value == Put(s.editingProduct.value.id, s.editingProduct.value)
    ensures s.editingProduct.Some? && r.sent.None? ==>
              && r.state.editErrors == Validate(s.editingProduct.value.Fields()).errors
              && r.state.(editErrors := s.editErrors) == s
    ensures s.editingProduct.Some? && r.sent.Some? ==> r.state.editErrors == map[]
    ensures s.editingProduct.Some? && r.sent.Some? && o.Ok? ==>
              && r.state.editingProduct == None
              && r.state.products == ReplaceById(s.products, s.editingProduct.value.id, o.data)
              && r.state.error == s.error
    ensures s.editingProduct.Some? && r.sent.Some? && o.Fail? ==>
              && r.state.error == UpdateFailed + o.message
              && r.state.(error := s.error, editErrors := s.editErrors) == s
  {
    match s.editingProduct
    case None => Step(s, None)
    case Some(p) => EditProduct(s, p.id, p, o)
  }

  /** One user or lifecycle event, together with how its request settles. */
  datatype Event =
    | OnLoad(listed: Outcome<seq<Product>>)
    | OnAdd(created: Outcome<Product>)
    | OnCancelAdd
    | OnDelete(target: Id, deleted: Outcome<()>)
    | OnBeginEdit(chosen: Product)
    | OnTypeNew(typedNew: Keystroke)
    | OnTypeEdit(typedEdit: Keystroke)
    | OnSave(updated: Outcome<Product>)
    | OnCancelEdit

  /** Dispatches an event to its handler; the local handlers send nothing. */
  function Apply(s: State, e: Event): Step
  {
    match e
    case OnLoad(o) => FetchProducts(s, o)
    case OnAdd(o) => AddProduct(s, o)
    case OnCancelAdd => Step(CancelAdd(s), None)
    case OnDelete(id, o) => DeleteProduct(s, id, o)
    case OnBeginEdit(p) => Step(BeginEdit(s, p), None)
    case OnTypeNew(k) => Step(TypeNew(s, k), None)
    case OnTypeEdit(k) => Step(TypeEdit(s, k), None)
    case OnSave(o) => Save(s, o)
    case OnCancelEdit => Step(CancelEdit(s), None)
  }

  /** The state after a run of events, each handler finishing before the
      next starts. */
  function Run(s: State, es: seq<Event>): State
    decreases |es|
  {
    if es == [] then s else Run(Apply(s, es[0]).state, es[1..])
  }

  /** The event's request was sent and was rejected. */
  predicate FailedRemotely(s: State, e: Event)
  {
    match e
    case OnLoad(o) => o.Fail?
    case OnAdd(o) => o.Fail? && Validate(s.newProduct).isValid
    case OnDelete(_, o) => o.Fail?
    case OnSave(o) => o.Fail? && s.editingProduct.Some? && Validate(s.editingProduct.value.Fields()).isValid
    case _ => false
  }

  /** The event's request was sent and succeeded. */
  predicate SucceededRemotely(s: State, e: Event)
  {
    match e
    case OnLoad(o) => o.Ok?
    case OnAdd(o) => o.Ok? && Validate(s.newProduct).isValid
    case OnDelete(_, o) => o.Ok?
    case OnSave(o) => o.Ok? && s.editingProduct.Some? && Validate(s.editingProduct.value.Fields()).isValid
    case _ => false
  }

  /** What the banner can hold: nothing, or one of the four failure
      reports. */
  predicate IsReport(e: string)
  {
    || e == ""
    || FetchFailed <= e || AddFailed <= e
    || DeleteFailed <= e || UpdateFailed <= e
  }

  /** The state invariant: both error maps are validator verdicts and the
      banner is empty or a failure report. */
  ghost predicate Inv(s: State)
  {
    WellFormed(s.addErrors) && WellFormed(s.editErrors) && IsReport(s.error)
  }

  /** The component starts in a state satisfying the invariant. */
  lemma InitialInv()
    ensures Inv(Initial)
  {
  }

  /** Every handler keeps the invariant. */
  lemma ApplyInv(s: State, e: Event)
    requires Inv(s)
    ensures Inv(Apply(s, e).state)
  {
  }

  /** Any run of events keeps the invariant. */
  lemma {:induction false} RunInv(s: State, es: seq<Event>)
    requires Inv(s)
    ensures Inv(Run(s, es))
    decreases |es|
  {
    if es != [] {
      ApplyInv(s, es[0]);
      RunInv(Apply(s, es[0]).state, es[1..]);
    }
  }

  /** The banner changes only when a sent request is rejected, and then it
      reads the failure prefix followed by the rejection's message. */
  lemma ErrorOnlyOnFailure(s: State, e: Event)
    ensures !FailedRemotely(s, e) ==> Apply(s, e).state.error == s.error
    ensures FailedRemotely(s, e) ==> "Error " <= Apply(s, e).state.error
  {
  }

  /** The banner is never cleared: once set, it stays non-empty through any
      run of events, successes included. */
  lemma {:induction false} ErrorNeverCleared(s: State, es: seq<Event>)
    requires s.error != ""
    ensures Run(s, es).error != ""
    decreases |es|
  {
    if es != [] {
      var t := Apply(s, es[0]).state;
      ErrorOnlyOnFailure(s, es[0]);
      assert t.error != "";
      ErrorNeverCleared(t, es[1..]);
    }
  }

  /** A run in which no request is rejected leaves the banner as it was. */
  lemma {:induction false} ErrorStableWithoutFailures(s: State, es: seq<Event>)
    requires forall i :: 0 <= i < |es| ==> !FailedRemotely(Run(s, es[..i]), es[i])
    ensures Run(s, es).error == s.error
    decreases |es|
  {
    if es != [] {
      var t := Apply(s, es[0]).state;
      assert es[..0] == [];
      ErrorOnlyOnFailure(s, es[0]);
      forall i | 0 <= i < |es[1..]|
        ensures !FailedRemotely(Run(t, es[1..][..i]), es[1..][i])
      {
        assert es[..i + 1] == [es[0]] + es[1..][..i];
        assert Run(s, es[..i + 1]) == Run(t, es[1..][..i]);
      }
      ErrorStableWithoutFailures(t, es[1..]);
    }
  }

  /** The list changes only through a request that succeeded: validation
      failures, rejections and the local handlers never touch it. */
  lemma ProductsOnlyFromSuccess(s: State, e: Event)
    ensures Apply(s, e).state.products != s.products ==> SucceededRemotely(s, e)
  {
  }

  /** A request goes out exactly for the fetch, the delete, and the submits
      whose form passes validation; typing, opening and cancelling never
      send one. */
  lemma SentIffRemote(s: State, e: Event)
    ensures Apply(s, e).sent.Some? <==>
              (e.OnLoad? || e.OnDelete?
               || (e.OnAdd? && Validate(s.newProduct).isValid)
               || (e.OnSave? && s.editingProduct.Some? && Validate(s.editingProduct.value.Fields()).isValid))
  {
  }
}
