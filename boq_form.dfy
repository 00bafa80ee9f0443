/** `src/components/boq-form.tsx`: the schema a BOQ line must satisfy, the
    values the form starts from, and what it hands to its `onSubmit`. */
module BoqForm {
  import opened Wrappers
  import opened Types

  /** The four form fields. The type has no `id` and no `amount`: the
      payload cannot carry either. */
  datatype FormValues = FormValues(description: string, unit: string, quantity: real, rate: real)

  datatype Field = Description | Unit | Quantity | Rate

  /** One schema violation: the field and the message shown under it. */
  datatype Issue = Issue(path: Field, message: string)

  /** The schema's verdict on a set of values. */
  datatype Parsed = Accepted(values: FormValues) | Rejected(issues: seq<Issue>)

  function Message(f: Field): string
  {
    match f
    case Description => "Description is required."
    case Unit => "Unit is required."
    case Quantity => "Quantity must be a positive number."
    case Rate => "Rate must be a positive number."
  }

  /** Field `f` of `v` breaks its rule: strings need at least one
      character, numbers must not be negative. */
  predicate Violates(v: FormValues, f: Field)
  {
    match f
    case Description => |v.description| < 1
    case Unit => |v.unit| < 1
    case Quantity => v.quantity < 0.0
    case Rate => v.rate < 0.0
  }

  function Check(v: FormValues, f: Field): seq<Issue>
  {
    if Violates(v, f) then [Issue(f, Message(f))] else []
  }

  /** The object schema checks every field and reports every failure, in
      field order; on success it returns the values it parsed. */
  function Validate(v: FormValues): (r: Parsed)
    ensures r.Accepted? <==> |v.description| >= 1 && |v.unit| >= 1 && v.quantity >= 0.0 && v.rate >= 0.0
    ensures r.Accepted? ==> r.values == v
    ensures r.Rejected? ==> |r.issues| > 0 && forall i :: 0 <= i < |r.issues| ==>
              Violates(v, r.issues[i].path) && r.issues[i].message == Message(r.issues[i].path)
    ensures forall f :: Violates(v, f) ==> r.Rejected? && Issue(f, Message(f)) in r.issues
  {
    var issues := Check(v, Description) + Check(v, Unit) + Check(v, Quantity) + Check(v, Rate);
    if issues == [] then Accepted(v) else Rejected(issues)
  }

  /** The form's initial values: the item's fields with `|| ""` and `|| 0`
      fallbacks, or empty strings and zeros for a new item. */
  function Defaults(item: Option<BoqItem>): (v: FormValues)
    ensures item.None? ==> v == FormValues("", "", 0.0, 0.0)
    ensures item.Some? ==> v == FieldsOf(item.value)
  {
    match item
    case None => FormValues("", "", 0.0, 0.0)
    case Some(it) => FormValues(OrElse(it.description, ""), OrElse(it.unit, ""), OrZero(it.quantity), OrZero(it.rate))
  }

  /** `form.handleSubmit(handleFormSubmit)`: the values reach `onSubmit`
      unchanged, and only when the schema accepts them. */
  function Submit(v: FormValues): (r: Option<FormValues>)
    ensures r.Some? <==> Validate(v).Accepted?
    ensures r.Some? ==> r.value == v
  {
    match Validate(v)
    case Accepted(values) => Some(values)
    case Rejected(_) => None
  }

  /** The four fields of an item, as the form holds them. */
  function FieldsOf(item: BoqItem): FormValues
  {
    FormValues(item.description, item.unit, item.quantity, item.rate)
  }

  /** An edit form starts from exactly the item's four fields. */
  lemma DefaultsOfItem(item: BoqItem)
    ensures Defaults(Some(item)) == FieldsOf(item)
  {
  }

  /** A new-item form starts empty, and submitting it as it is fails on the
      description (and the unit). */
  lemma NewItemDefaultsRejected()
    ensures Defaults(None) == FormValues("", "", 0.0, 0.0)
    ensures Validate(Defaults(None)) == Rejected([Issue(Description, Message(Description)), Issue(Unit, Message(Unit))])
    ensures Submit(Defaults(None)) == None
  {
  }

  /** A negative quantity or rate is refused with its own message. */
  lemma NegativeRejected(v: FormValues)
    requires v.quantity < 0.0 || v.rate < 0.0
    ensures Validate(v).Rejected?
    ensures v.quantity < 0.0 ==> Issue(Quantity, "Quantity must be a positive number.") in Validate(v).issues
    ensures v.rate < 0.0 ==> Issue(Rate, "Rate must be a positive number.") in Validate(v).issues
  {
    if v.quantity < 0.0 {
      assert Violates(v, Quantity);
    }
    if v.rate < 0.0 {
      assert Violates(v, Rate);
    }
  }

  /** Opening an item that satisfies the schema and submitting the form
      untouched hands back the item's own four field values. */
  lemma RoundTrip(item: BoqItem)
    requires |item.description| >= 1 && |item.unit| >= 1 && item.quantity >= 0.0 && item.rate >= 0.0
    ensures Validate(Defaults(Some(item))).Accepted?
    ensures Submit(Defaults(Some(item))) == Some(FieldsOf(item))
  {
    DefaultsOfItem(item);
  }
}
