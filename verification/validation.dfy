/** `validateProduct`: the local check run before every create or update. */
module Validation {
  import opened Text
  import opened Products
  import opened Results

  /** The keys an error map can hold. */
  datatype Field = Name | Description | Price

  /** Field-keyed error messages; the empty map means "valid". */
  type Errors = map<Field, string>

  const NameRequired: string := "Name is required"
  const DescriptionRequired: string := "Description is required"
  const PriceRequired: string := "Price is required"
  const PricePositive: string := "Price must be a positive number"

  /** The validator's `{isValid, errors}` pair. */
  datatype Report = Report(isValid: bool, errors: Errors)

  /** The price is present: `!product.price` is false. */
  predicate Truthy(p: PriceInput)
  {
    !p.Empty?
  }

  /** `isNaN(value) || value <= 0` on a truthy price; a NaN compares false
      with `<=`, so only a numeric reading can be at most zero. */
  predicate NotPositive(p: PriceInput)
  {
    p.NotANumber? || (p.Num? && p.amount <= 0.0)
  }

  /** `!value.trim()`: the trimmed text is the empty, falsy string, which
      happens exactly when every character is whitespace. */
  predicate Blank(s: string)
    ensures Blank(s) <==> AllWs(s)
  {
    TrimEmptyIffAllWs(s);
    Trim(s) == []
  }

  /** A price the validator accepts. */
  ghost predicate AcceptablePrice(p: PriceInput)
  {
    p.Num? && p.amount > 0.0
  }

  /** The reference verdict for one field, stated without trimming or
      coercion: the message that field must carry, or `None` when the field
      passes. */
  ghost function Expected(f: Field, d: Draft): Option<string>
  {
    match f
    case Name => if AllWs(d.name) then Some(NameRequired) else None
    case Description => if AllWs(d.description) then Some(DescriptionRequired) else None
    case Price =>
      if AcceptablePrice(d.price) then None
      else if d.price.Empty? then Some(PriceRequired)
      else Some(PricePositive)
  }

  /** Runs the three checks one after another, never short-circuiting, each
      one clearing `isValid` and adding its own key when it fails. The result
      agrees with `Expected` on every field, and `isValid` holds exactly when
      no key was added. */
  function Validate(d: Draft): (v: Report)
    ensures v.isValid <==> v.errors == map[]
    ensures forall f :: f in v.errors <==> Expected(f, d).Some?
    ensures forall f :: f in v.errors ==> v.errors[f] == Expected(f, d).value
  {
    var nameBlank := Blank(d.name);
    var descriptionBlank := Blank(d.description);
    var e1: Errors := if nameBlank then map[Name := NameRequired] else map[];
    var e2 := if descriptionBlank then e1[Description := DescriptionRequired] else e1;
    var e3 :=
      if !Truthy(d.price) then e2[Price := PriceRequired]
      else if NotPositive(d.price) then e2[Price := PricePositive]
      else e2;
    var ok := !nameBlank && !descriptionBlank && Truthy(d.price) && !NotPositive(d.price);
    assert !ok ==> Name in e3 || Description in e3 || Price in e3;
    Report(ok, e3)
  }

  /** The maps the validator can produce: each key carries its own field's
      message, and the price key one of its two messages. */
  ghost predicate WellFormed(e: Errors)
  {
    && (Name in e ==> e[Name] == NameRequired)
    && (Description in e ==> e[Description] == DescriptionRequired)
    && (Price in e ==> e[Price] == PriceRequired || e[Price] == PricePositive)
  }

  /** Every validator output is well formed. */
  lemma ValidateWellFormed(d: Draft)
    ensures WellFormed(Validate(d).errors)
  {
  }

  /** A draft that fails exactly the checks `e` records. */
  ghost function Witness(e: Errors): (d: Draft)
    requires WellFormed(e)
    ensures Name in e <==> AllWs(d.name)
    ensures Description in e <==> AllWs(d.description)
  {
    assert !IsWs("x"[0]);
    Draft(
      if Name in e then "" else "x",
      if Description in e then "" else "x",
      if Price !in e then Num(1.0)
      else if e[Price] == PriceRequired then Empty
      else NotANumber)
  }

  /** Conversely, every well-formed map is the validator's verdict on some
      draft, so `WellFormed` describes the validator's range exactly. */
  lemma ValidateOnto(e: Errors)
    requires WellFormed(e)
    ensures Validate(Witness(e)).errors == e
  {
  }
}
