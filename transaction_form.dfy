// The transaction dialog: the values a user can enter, the schema they must
// pass, the defaults of a fresh form and of an edit, the stored record built
// from them, and whether it is created or the edited one updated.

module TransactionForm {

  import opened Strings
  import opened FinanceTypes

  /** The form's values as entered; the enumerations are the option values
    * the selects hand over, and an untouched optional field is `None`. */
  datatype Values = Values(
    ttype: string,
    categoryId: Option<string>,
    subcategory: Option<string>,
    description: Option<string>,
    amount: real,
    date: string,
    paymentMethod: Option<string>,
    source: Option<string>,
    status: string,
    isRecurring: bool)

  /** The fields the schema can reject, in the schema's order. */
  datatype Field = TypeField | AmountField | DateField | PaymentMethodField | SourceField | StatusField

  /** The values once they pass, with the enumerations resolved. */
  datatype Checked = Checked(
    ttype: TransactionType,
    categoryId: Option<string>,
    subcategory: Option<string>,
    description: Option<string>,
    amount: real,
    date: string,
    paymentMethod: Option<PaymentMethod>,
    source: Option<Source>,
    status: Status,
    isRecurring: bool)

  datatype Validation = Valid(values: Checked) | Invalid(errors: seq<Field>)

  const MinAmount: real := 0.01

  /** The fields in the schema's order. */
  const SchemaFields: seq<Field> := [TypeField, AmountField, DateField, PaymentMethodField, SourceField, StatusField]

  /** Whether the schema rejects field `f` of `v`. */
  predicate Fails(v: Values, f: Field) {
    match f
    case TypeField => ParseType(v.ttype).None?
    case AmountField => v.amount < MinAmount
    case DateField => |v.date| < 1
    case PaymentMethodField => v.paymentMethod.Some? && ParsePaymentMethod(v.paymentMethod.value).None?
    case SourceField => v.source.Some? && ParseSource(v.source.value).None?
    case StatusField => ParseStatus(v.status).None?
  }

  /** The fields of `fs` that fail, in their order. */
  function Failing(v: Values, fs: seq<Field>): seq<Field> {
    if fs == [] then []
    else (if Fails(v, fs[0]) then [fs[0]] else []) + Failing(v, fs[1..])
  }

  /** The schema's verdict on each field. */
  function Problems(v: Values): seq<Field> {
    Failing(v, SchemaFields)
  }

  lemma {:induction false} FailingMembers(v: Values, fs: seq<Field>, f: Field)
    ensures f in Failing(v, fs) <==> f in fs && Fails(v, f)
  {
    if fs != [] {
      FailingMembers(v, fs[1..], f);
      assert fs == [fs[0]] + fs[1..];
    }
  }

  /** The schema reports exactly the failing fields. */
  lemma ProblemsAreFailures(v: Values, f: Field)
    ensures f in Problems(v) <==> Fails(v, f)
  {
    FailingMembers(v, SchemaFields, f);
    assert f in SchemaFields by {
      match f
      case TypeField => assert SchemaFields[0] == f;
      case AmountField => assert SchemaFields[1] == f;
      case DateField => assert SchemaFields[2] == f;
      case PaymentMethodField => assert SchemaFields[3] == f;
      case SourceField => assert SchemaFields[4] == f;
      case StatusField => assert SchemaFields[5] == f;
    }
  }

  /** `c` holds the values of `v` with every enumeration resolved to the
    * option whose value was entered. */
  predicate Resolves(v: Values, c: Checked) {
    TypeKey(c.ttype) == v.ttype && StatusKey(c.status) == v.status &&
    c.amount == v.amount && c.date == v.date && c.isRecurring == v.isRecurring &&
    c.categoryId == v.categoryId && c.subcategory == v.subcategory && c.description == v.description &&
    (c.paymentMethod.Some? <==> v.paymentMethod.Some?) &&
    (c.paymentMethod.Some? ==> PaymentMethodKey(c.paymentMethod.value) == v.paymentMethod.value) &&
    (c.source.Some? <==> v.source.Some?) &&
    (c.source.Some? ==> SourceKey(c.source.value) == v.source.value)
  }

  /** `transactionSchema`: every failing field is reported; values pass only
    * when none fails. */
  function Validate(v: Values): (r: Validation)
    ensures r.Valid? <==>
              ParseType(v.ttype).Some? && v.amount >= MinAmount && v.date != "" && ParseStatus(v.status).Some? &&
              (v.paymentMethod.Some? ==> ParsePaymentMethod(v.paymentMethod.value).Some?) &&
              (v.source.Some? ==> ParseSource(v.source.value).Some?)
    ensures r.Invalid? ==> r.errors != [] && forall f :: f in r.errors <==> Fails(v, f)
    ensures r.Valid? ==> Resolves(v, r.values)
  {
    forall f: Field ensures f in Problems(v) <==> Fails(v, f) {
      ProblemsAreFailures(v, f);
    }
    var errs := Problems(v);
    if errs != [] then
      assert errs[0] in errs && Fails(v, errs[0]);
      Invalid(errs)
    else
      assert !Fails(v, TypeField) && !Fails(v, AmountField) && !Fails(v, DateField) &&
             !Fails(v, PaymentMethodField) && !Fails(v, SourceField) && !Fails(v, StatusField);
      Valid(Checked(ParseType(v.ttype).value, v.categoryId, v.subcategory, v.description, v.amount, v.date,
                    if v.paymentMethod.Some? then ParsePaymentMethod(v.paymentMethod.value) else None,
                    if v.source.Some? then ParseSource(v.source.value) else None,
                    ParseStatus(v.status).value, v.isRecurring))
  }

  // ---------------------------------------------------------------------
  // Defaults

  /** A fresh form: the given type (revenue unless told otherwise), today's
    * date, expected status, not recurring, amount 0. */
  function Fresh(defaultType: Option<TransactionType>, today: string): Values {
    Values(TypeKey(if defaultType.Some? then defaultType.value else Receita), None, Some(""), Some(""), 0.0, today,
           None, None, StatusKey(Previsto), false)
  }

  /** `string || undefined`. */
  function OrUndefined(o: Option<string>): (r: Option<string>)
    ensures r.Some? <==> Truthy(o)
  {
    if Truthy(o) then o else None
  }

  /** The form opened on an existing transaction. */
  function FromTransaction(t: Transaction): Values {
    Values(TypeKey(t.ttype), OrUndefined(t.categoryId), Some(OrEmpty(t.subcategory)), Some(OrEmpty(t.description)),
           t.amount, t.date,
           if t.paymentMethod.Some? then Some(PaymentMethodKey(t.paymentMethod.value)) else None,
           if t.source.Some? then Some(SourceKey(t.source.value)) else None,
           StatusKey(t.status), t.isRecurring)
  }

  /** A fresh form cannot be saved as it is: its amount is below the
    * minimum, and that is its only problem when a date is filled in. */
  lemma FreshNeedsAmount(defaultType: Option<TransactionType>, today: string)
    ensures Validate(Fresh(defaultType, today)).Invalid?
    ensures today != "" ==> Validate(Fresh(defaultType, today)).errors == [AmountField]
    ensures Fresh(defaultType, today).status == "previsto" && !Fresh(defaultType, today).isRecurring
    ensures defaultType.None? ==> Fresh(defaultType, today).ttype == "receita"
  {
    var v := Fresh(defaultType, today);
    var ty := if defaultType.Some? then defaultType.value else Receita;
    assert ParseType(TypeKey(ty)).Some?;
    assert ParseStatus(StatusKey(Previsto)).Some?;
    if today != "" {
      var fs := SchemaFields;
      assert Failing(v, fs[6..]) == [] by { assert fs[6..] == []; }
      assert Failing(v, fs[5..]) == [] by { assert fs[5..][1..] == fs[6..]; }
      assert Failing(v, fs[4..]) == [] by { assert fs[4..][1..] == fs[5..]; }
      assert Failing(v, fs[3..]) == [] by { assert fs[3..][1..] == fs[4..]; }
      assert Failing(v, fs[2..]) == [] by { assert fs[2..][1..] == fs[3..]; }
      assert Failing(v, fs[1..]) == [AmountField] by { assert fs[1..][1..] == fs[2..]; }
      assert Failing(v, fs) == [AmountField];
    }
  }

  // ---------------------------------------------------------------------
  // Submitting

  /** The record sent: the required fields as they are, the optional ones
    * set to null when empty or absent. */
  datatype Payload = Payload(
    ttype: TransactionType,
    amount: real,
    date: string,
    status: Status,
    isRecurring: bool,
    categoryId: Option<string>,
    subcategory: Option<string>,
    description: Option<string>,
    paymentMethod: Option<PaymentMethod>,
    source: Option<Source>)

  function PayloadOf(c: Checked): (p: Payload)
    ensures p.categoryId.Some? <==> Truthy(c.categoryId)
    ensures p.subcategory.Some? <==> Truthy(c.subcategory)
    ensures p.description.Some? <==> Truthy(c.description)
    ensures p.ttype == c.ttype && p.amount == c.amount && p.date == c.date && p.status == c.status &&
            p.isRecurring == c.isRecurring && p.paymentMethod == c.paymentMethod && p.source == c.source
  {
    Payload(c.ttype, c.amount, c.date, c.status, c.isRecurring,
            OrNull(c.categoryId), OrNull(c.subcategory), OrNull(c.description), c.paymentMethod, c.source)
  }

  datatype Mutation = Create(payload: Payload) | Update(id: string, payload: Payload)

  /** `onSubmit`: the edited transaction is updated under its id, otherwise
    * a new one is created. */
  function Submit(c: Checked, editing: Option<Transaction>): (m: Mutation)
    ensures editing.Some? <==> m.Update?
    ensures m.Update? ==> m.id == editing.value.id
    ensures m.payload == PayloadOf(c)
  {
    if editing.Some? then Update(editing.value.id, PayloadOf(c)) else Create(PayloadOf(c))
  }

  /** Opening a stored transaction and saving it unchanged writes its own
    * fields back, with empty optional texts stored as null. */
  lemma EditUnchangedWritesBack(t: Transaction)
    requires t.amount >= MinAmount && t.date != ""
    ensures var r := Validate(FromTransaction(t));
            r.Valid? &&
            var p := Submit(r.values, Some(t)).payload;
            Submit(r.values, Some(t)) == Update(t.id, p) &&
            p.ttype == t.ttype && p.amount == t.amount && p.date == t.date && p.status == t.status &&
            p.isRecurring == t.isRecurring && p.paymentMethod == t.paymentMethod && p.source == t.source &&
            p.categoryId == OrNull(t.categoryId) && p.subcategory == OrNull(t.subcategory) &&
            p.description == OrNull(t.description)
  {
    var v := FromTransaction(t);
    assert ParseType(TypeKey(t.ttype)) == Some(t.ttype);
    assert ParseStatus(StatusKey(t.status)) == Some(t.status);
    if t.paymentMethod.Some? {
      assert ParsePaymentMethod(PaymentMethodKey(t.paymentMethod.value)) == t.paymentMethod;
    }
    if t.source.Some? {
      assert ParseSource(SourceKey(t.source.value)) == t.source;
    }
  }

  // ---------------------------------------------------------------------
  // Category choices

  /** The categories offered: those of the selected type, in order. */
  function CategoriesFor(categories: seq<Category>, selected: TransactionType): (r: seq<Category>)
    ensures forall c :: c in r <==> c in categories && c.ctype == selected
    ensures |r| <= |categories|
    decreases |categories|
  {
    if categories == [] then []
    else
      var rest := CategoriesFor(categories[1..], selected);
      assert forall c :: c in categories <==> c == categories[0] || c in categories[1..];
      if categories[0].ctype == selected then [categories[0]] + rest else rest
  }

  function FilteredCategories(categories: Option<seq<Category>>, selected: TransactionType): seq<Category> {
    if categories.Some? then CategoriesFor(categories.value, selected) else []
  }
}
