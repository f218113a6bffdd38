// The new-sale dialog: the schema its values must pass, its defaults, the
// creator menu, and the sale record it stores.

module SaleForm {

  import opened Strings
  import opened FinanceTypes
  import Contacts

  /** The values as entered; `creator` is what the creator menu handed over,
    * `None` while untouched. */
  datatype Values = Values(
    buyerName: string,
    buyerEmail: string,
    buyerPhone: Option<string>,
    amount: string,
    date: string,
    source: string,
    creator: Option<string>,
    platform: string,
    notes: Option<string>)

  datatype Field = NameField | EmailField | AmountField | DateField | SourceField | CreatorField | PlatformField

  datatype Checked = Checked(
    buyerName: string,
    buyerEmail: string,
    buyerPhone: Option<string>,
    amount: string,
    date: string,
    source: Source,
    creator: Option<Source>,
    platform: Platform,
    notes: Option<string>)

  datatype Validation = Valid(values: Checked) | Invalid(errors: seq<Field>)

  /** The fields checked before the creator, in the schema's order. */
  const OtherFields: seq<Field> := [NameField, EmailField, AmountField, DateField, SourceField, PlatformField]

  /** Whether the schema rejects field `f` of `v`, the creator as written:
    * present and not a source. */
  predicate Fails(v: Values, f: Field) {
    match f
    case NameField => |v.buyerName| < 1
    case EmailField => !Contacts.IsEmailLike(v.buyerEmail)
    case AmountField => |v.amount| < 1
    case DateField => |v.date| < 1
    case SourceField => ParseSource(v.source).None?
    case CreatorField => v.creator.Some? && ParseSource(v.creator.value).None?
    case PlatformField => ParsePlatform(v.platform).None?
  }

  /** The fields of `fs` that fail, in their order. */
  function Failing(v: Values, fs: seq<Field>): seq<Field> {
    if fs == [] then []
    else (if Fails(v, fs[0]) then [fs[0]] else []) + Failing(v, fs[1..])
  }

  lemma {:induction false} FailingMembers(v: Values, fs: seq<Field>, f: Field)
    ensures f in Failing(v, fs) <==> f in fs && Fails(v, f)
  {
    if fs != [] {
      FailingMembers(v, fs[1..], f);
      assert fs == [fs[0]] + fs[1..];
    }
  }

  /** The schema's verdict on every field but the creator. */
  function OtherProblems(v: Values): seq<Field> {
    Failing(v, OtherFields)
  }

  /** Every field but the creator passes. */
  predicate OthersValid(v: Values) {
    v.buyerName != "" && Contacts.IsEmailLike(v.buyerEmail) && v.amount != "" && v.date != "" &&
    ParseSource(v.source).Some? && ParsePlatform(v.platform).Some?
  }

  /** The fields other than the creator are reported exactly when they fail. */
  lemma OtherProblemsExact(v: Values, f: Field)
    ensures f in OtherProblems(v) <==> f != CreatorField && Fails(v, f)
  {
    FailingMembers(v, OtherFields, f);
    assert f != CreatorField ==> f in OtherFields by {
      match f
      case NameField => assert OtherFields[0] == f;
      case EmailField => assert OtherFields[1] == f;
      case AmountField => assert OtherFields[2] == f;
      case DateField => assert OtherFields[3] == f;
      case SourceField => assert OtherFields[4] == f;
      case PlatformField => assert OtherFields[5] == f;
      case CreatorField =>
    }
  }

  lemma OtherProblemsNone(v: Values)
    ensures OtherProblems(v) == [] <==> OthersValid(v)
  {
    forall f: Field ensures f in OtherProblems(v) <==> f != CreatorField && Fails(v, f) {
      OtherProblemsExact(v, f);
    }
    if OtherProblems(v) != [] {
      assert OtherProblems(v)[0] in OtherProblems(v);
    }
    assert !OthersValid(v) ==> Fails(v, NameField) || Fails(v, EmailField) || Fails(v, AmountField) ||
                               Fails(v, DateField) || Fails(v, SourceField) || Fails(v, PlatformField);
  }

  function CheckedOf(v: Values, creator: Option<Source>): Checked
    requires OthersValid(v)
  {
    Checked(v.buyerName, v.buyerEmail, v.buyerPhone, v.amount, v.date, ParseSource(v.source).value, creator,
            ParsePlatform(v.platform).value, v.notes)
  }

  /** `c` holds the entered values with the source, the platform and a
    * chosen creator resolved to the options whose values were entered. */
  predicate Resolves(v: Values, c: Checked) {
    c.buyerName == v.buyerName && c.buyerEmail == v.buyerEmail && c.buyerPhone == v.buyerPhone &&
    c.amount == v.amount && c.date == v.date && c.notes == v.notes &&
    SourceKey(c.source) == v.source && PlatformKey(c.platform) == v.platform &&
    (c.creator.Some? ==> v.creator.Some? && SourceKey(c.creator.value) == v.creator.value)
  }

  /** `formSchema` as written: the creator is optional, but a creator that
    * is present must be one of the sources. */
  function Validate(v: Values): (r: Validation)
    ensures r.Valid? <==> OthersValid(v) && (v.creator.Some? ==> ParseSource(v.creator.value).Some?)
    ensures r.Valid? ==> Resolves(v, r.values) && (r.values.creator.Some? <==> v.creator.Some?)
    ensures r.Invalid? ==> r.errors != [] &&
                           (NameField in r.errors <==> v.buyerName == "") &&
                           (EmailField in r.errors <==> !Contacts.IsEmailLike(v.buyerEmail)) &&
                           (AmountField in r.errors <==> v.amount == "") &&
                           (DateField in r.errors <==> v.date == "") &&
                           (SourceField in r.errors <==> ParseSource(v.source).None?) &&
                           (PlatformField in r.errors <==> ParsePlatform(v.platform).None?) &&
                           (CreatorField in r.errors <==> v.creator.Some? && ParseSource(v.creator.value).None?)
  {
    OtherProblemsNone(v);
    forall f: Field ensures f in OtherProblems(v) <==> f != CreatorField && Fails(v, f) {
      OtherProblemsExact(v, f);
    }
    var creatorBad := v.creator.Some? && ParseSource(v.creator.value).None?;
    var errs := OtherProblems(v) + (if creatorBad then [CreatorField] else []);
    if errs != [] then Invalid(errs)
    else Valid(CheckedOf(v, if v.creator.Some? then ParseSource(v.creator.value) else None))
  }

  // ---------------------------------------------------------------------
  // Defaults and the creator menu

  function Defaults(today: string): Values {
    Values("", "", Some(""), "", today, SourceKey(Organico), None, PlatformKey(Site), Some(""))
  }

  /** A fresh form proposes an organic sale on the site, and cannot be saved
    * before the buyer and the amount are filled in. */
  lemma DefaultsNeedBuyer(today: string)
    ensures var v := Defaults(today);
            v.source == "organico" && v.platform == "site" && v.creator.None? &&
            Validate(v).Invalid? && NameField in Validate(v).errors && AmountField in Validate(v).errors
  {
    var v := Defaults(today);
    assert !Contacts.IsEmailLike(v.buyerEmail);
  }

  /** The creator menu: "Nenhuma", whose value is the empty string, then
    * the three creators. */
  const CreatorMenu: seq<string> := ["", SourceKey(CriadoraSamira), SourceKey(CriadoraSimone), SourceKey(CriadoraSueli)]

  /** The creators the menu offers by name are exactly the three
    * `criadora_*` sources. */
  lemma CreatorMenuNames(choice: string)
    requires choice in CreatorMenu && choice != ""
    ensures ParseSource(choice).Some? && ParseSource(choice).value in {CriadoraSamira, CriadoraSimone, CriadoraSueli}
  {
  }

  /** Picking "Nenhuma" hands the empty string to the schema, which only
    * accepts a source there: the sale can no longer be saved, with the
    * error on the creator. */
  lemma NoCreatorRejected(v: Values)
    requires OthersValid(v) && v.creator == Some(CreatorMenu[0])
    ensures Validate(v).Invalid? && Validate(v).errors == [CreatorField]
  {
    OtherProblemsNone(v);
  }

  /** The schema with "Nenhuma" read as no creator, the way the payload's
    * `|| null` treats it. */
  function ValidateFixed(v: Values): (r: Validation)
    ensures r.Valid? <==> OthersValid(v) && (Truthy(v.creator) ==> ParseSource(v.creator.value).Some?)
    ensures r.Valid? ==> Resolves(v, r.values) && (r.values.creator.None? <==> !Truthy(v.creator))
  {
    OtherProblemsNone(v);
    var creatorBad := Truthy(v.creator) && ParseSource(v.creator.value).None?;
    var errs := OtherProblems(v) + (if creatorBad then [CreatorField] else []);
    if errs != [] then Invalid(errs)
    else Valid(CheckedOf(v, if Truthy(v.creator) then ParseSource(v.creator.value) else None))
  }

  /** With the fixed schema, every entry of the creator menu can be saved,
    * "Nenhuma" as a sale without a creator. */
  lemma EveryMenuChoiceSaves(v: Values, choice: string)
    requires OthersValid(v) && choice in CreatorMenu
    ensures var r := ValidateFixed(v.(creator := Some(choice)));
            r.Valid? && (choice == "" <==> r.values.creator.None?)
  {
    OtherProblemsNone(v);
    if choice != "" {
      CreatorMenuNames(choice);
    }
  }

  // ---------------------------------------------------------------------
  // The stored sale

  /** The sale inserted. The amount text is turned into a number with
    * `parseFloat`, which is not part of this model. */
  datatype Payload = Payload(
    buyerName: string,
    buyerEmail: string,
    buyerPhone: Option<string>,
    amountText: string,
    date: string,
    source: Source,
    creator: Option<Source>,
    platform: Platform,
    notes: Option<string>,
    transactionId: Option<string>)

  function PayloadOf(c: Checked): (p: Payload)
    ensures p.buyerPhone.Some? <==> Truthy(c.buyerPhone)
    ensures p.notes.Some? <==> Truthy(c.notes)
    ensures p.creator == c.creator && p.transactionId.None?
    ensures p.buyerName == c.buyerName && p.buyerEmail == c.buyerEmail && p.date == c.date &&
            p.source == c.source && p.platform == c.platform && p.amountText == c.amount
  {
    Payload(c.buyerName, c.buyerEmail, OrNull(c.buyerPhone), c.amount, c.date, c.source, c.creator, c.platform,
            OrNull(c.notes), None)
  }
}
