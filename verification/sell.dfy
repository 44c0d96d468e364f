/** The new-listing page: the form state, its per-field error bookkeeping,
    `validateForm`, and the row inserted into `listings` when the form is
    valid. `Number(price)` is a parameter: it maps the price text to its
    number, or to `None` where JavaScript yields NaN. */
module Sell {

  import opened Wrappers
  import opened Effects
  import Text

  datatype ListingForm = ListingForm(
    title: string,
    description: string,
    category: string,
    condition: string,
    price: string,
    imageBase64: string)

  const EmptyListing := ListingForm([], [], [], [], [], [])

  /** The inputs wired to `handleChange`, named by their `name` attribute. */
  datatype InputField = Title | Description | Category | Condition | Price

  /** The keys of the error object. */
  datatype ErrorKey = TitleError | DescriptionError | CategoryError | ConditionError | PriceError | ImageError

  /** The error object: a key maps to its message, or to `undefined` once the
      user has edited that field since the last validation. */
  type Errors = map<ErrorKey, Option<string>>

  /** The page shows an error for `k`. */
  predicate Shows(errors: Errors, k: ErrorKey) {
    k in errors && errors[k].Some?
  }

  datatype PageState = PageState(form: ListingForm, errors: Errors)

  const InitialState := PageState(EmptyListing, map[])

  const TitleRequired := "O título é obrigatório."
  const DescriptionRequired := "A descrição é obrigatória."
  const CategoryRequired := "Selecione uma categoria."
  const ConditionRequired := "Selecione a condição do produto."
  const PriceRequired := "O preço é obrigatório."
  const PriceInvalid := "Informe um preço válido maior que zero."
  const ImageRequired := "Envie ao menos uma foto do produto."

  function KeyOf(f: InputField): ErrorKey {
    match f
    case Title => TitleError
    case Description => DescriptionError
    case Category => CategoryError
    case Condition => ConditionError
    case Price => PriceError
  }

  function Value(form: ListingForm, f: InputField): string {
    match f
    case Title => form.title
    case Description => form.description
    case Category => form.category
    case Condition => form.condition
    case Price => form.price
  }

  /** `{ ...prev, [name]: value }` on the form. */
  function SetValue(form: ListingForm, f: InputField, v: string): ListingForm {
    match f
    case Title => form.(title := v)
    case Description => form.(description := v)
    case Category => form.(category := v)
    case Condition => form.(condition := v)
    case Price => form.(price := v)
  }

  /** The price message, if any: required when blank, invalid when the
      number is NaN or not positive. */
  function PriceMessage(price: string, parse: string -> Option<real>): (m: Option<string>)
    ensures Text.IsBlank(price) ==> m == Some(PriceRequired)
    ensures (!Text.IsBlank(price) && (parse(price).None? || parse(price).value <= 0.0))
              ==> m == Some(PriceInvalid)
    ensures m.None? <==> !Text.IsBlank(price) && parse(price).Some? && parse(price).value > 0.0
  {
    if Text.Trim(price) == [] then Some(PriceRequired)
    else
      var value := parse(price);
      if value.None? || value.value <= 0.0 then Some(PriceInvalid) else None
  }

  const AllKeys: set<ErrorKey> :=
    {TitleError, DescriptionError, CategoryError, ConditionError, PriceError, ImageError}

  /** The message `validateForm` records under `k`, if that check fails. */
  function Message(form: ListingForm, parse: string -> Option<real>, k: ErrorKey): Option<string> {
    match k
    case TitleError => if Text.Trim(form.title) == [] then Some(TitleRequired) else None
    case DescriptionError => if Text.Trim(form.description) == [] then Some(DescriptionRequired) else None
    case CategoryError => if Text.Trim(form.category) == [] then Some(CategoryRequired) else None
    case ConditionError => if Text.Trim(form.condition) == [] then Some(ConditionRequired) else None
    case PriceError => PriceMessage(form.price, parse)
    case ImageError => if form.imageBase64 == [] then Some(ImageRequired) else None
  }

  /** `validateForm`'s new error object: a key is present exactly for the
      fields that fail, always with a message. */
  function ValidationErrors(form: ListingForm, parse: string -> Option<real>): (errors: Errors)
    ensures forall k :: k in errors ==> errors[k].Some?
    ensures TitleError in errors <==> Text.IsBlank(form.title)
    ensures DescriptionError in errors <==> Text.IsBlank(form.description)
    ensures CategoryError in errors <==> Text.IsBlank(form.category)
    ensures ConditionError in errors <==> Text.IsBlank(form.condition)
    ensures PriceError in errors <==> PriceMessage(form.price, parse).Some?
    ensures PriceError in errors ==> errors[PriceError] == PriceMessage(form.price, parse)
    ensures ImageError in errors <==> form.imageBase64 == []
  {
    map k | k in AllKeys && Message(form, parse, k).Some? :: Message(form, parse, k)
  }

  datatype Validation = Validation(errors: Errors, ok: bool)

  /** `validateForm`: the errors it stores and whether the object has no keys. */
  function ValidateForm(form: ListingForm, parse: string -> Option<real>): (v: Validation)
    ensures v.errors == ValidationErrors(form, parse)
    ensures v.ok <==> v.errors == map[]
  {
    var errors := ValidationErrors(form, parse);
    Validation(errors, |errors.Keys| == 0)
  }

  /** What a publishable listing is, field by field. */
  predicate Complete(form: ListingForm, parse: string -> Option<real>) {
    && !Text.IsBlank(form.title)
    && !Text.IsBlank(form.description)
    && !Text.IsBlank(form.category)
    && !Text.IsBlank(form.condition)
    && parse(form.price).Some? && parse(form.price).value > 0.0
    && !Text.IsBlank(form.price)
    && form.imageBase64 != []
  }

  /** `validateForm` accepts exactly the complete listings. */
  lemma ValidateAcceptsComplete(form: ListingForm, parse: string -> Option<real>)
    ensures ValidateForm(form, parse).ok <==> Complete(form, parse)
  {
    var errors := ValidationErrors(form, parse);
    if !Complete(form, parse) {
      var k :=
        if Text.IsBlank(form.title) then TitleError
        else if Text.IsBlank(form.description) then DescriptionError
        else if Text.IsBlank(form.category) then CategoryError
        else if Text.IsBlank(form.condition) then ConditionError
        else if form.imageBase64 == [] then ImageError
        else PriceError;
      assert Message(form, parse, k).Some?;
      assert k in errors;
    } else {
      forall k: ErrorKey
        ensures Message(form, parse, k).None?
      {
        match k
        case TitleError =>
        case DescriptionError =>
        case CategoryError =>
        case ConditionError =>
        case PriceError =>
        case ImageError =>
      }
      assert errors.Keys == {};
    }
  }

  /** The error shown for a text field depends on that field alone. */
  lemma FieldErrorIsLocal(a: ListingForm, b: ListingForm, f: InputField, parse: string -> Option<real>)
    requires Value(a, f) == Value(b, f)
    ensures KeyOf(f) in ValidationErrors(a, parse) <==> KeyOf(f) in ValidationErrors(b, parse)
    ensures KeyOf(f) in ValidationErrors(a, parse) ==>
              ValidationErrors(a, parse)[KeyOf(f)] == ValidationErrors(b, parse)[KeyOf(f)]
  {
    assert Message(a, parse, KeyOf(f)) == Message(b, parse, KeyOf(f));
  }

  /** `handleChange`: store the new value of the edited field and forget its
      error; every other field and error stays as it was. */
  function HandleChange(st: PageState, f: InputField, v: string): (st': PageState)
    ensures Value(st'.form, f) == v
    ensures forall g :: g != f ==> Value(st'.form, g) == Value(st.form, g)
    ensures st'.form.imageBase64 == st.form.imageBase64
    ensures !Shows(st'.errors, KeyOf(f))
    ensures forall k :: k != KeyOf(f) ==> (k in st'.errors <==> k in st.errors)
    ensures forall k :: k != KeyOf(f) && k in st.errors ==> st'.errors[k] == st.errors[k]
  {
    PageState(SetValue(st.form, f, v), st.errors[KeyOf(f) := None])
  }

  /** `handleImage`: no file leaves the page untouched; a file read as the
      data URL `data` becomes the image and forgets only the image error. */
  function HandleImage(st: PageState, file: Option<string>): (st': PageState)
    ensures file.None? ==> st' == st
    ensures file.Some? ==> st'.form == st.form.(imageBase64 := file.value)
    ensures !Shows(st'.errors, ImageError) || file.None?
    ensures forall k :: k != ImageError ==> (k in st'.errors <==> k in st.errors)
    ensures forall k :: k != ImageError && k in st.errors ==> st'.errors[k] == st.errors[k]
  {
    match file
    case None => st
    case Some(data) => PageState(st.form.(imageBase64 := data), st.errors[ImageError := None])
  }

  /** The row `handleSubmit` inserts. The price columns are left out: they
      come from floating-point arithmetic. */
  datatype ListingRow = ListingRow(
    sellerId: string,
    title: string,
    description: string,
    category: string,
    condition: string,
    images: seq<string>,
    location: Option<string>,
    active: bool,
    status: string)

  /** The location the page keeps: it starts null and takes the seller's
      profile location only when that is truthy. */
  function LocationFromProfile(current: Option<string>, profileLocation: Option<string>): (loc: Option<string>)
    ensures Text.Truthy(profileLocation) ==> loc == profileLocation
    ensures !Text.Truthy(profileLocation) ==> loc == current
  {
    if Text.Truthy(profileLocation) then profileLocation else current
  }

  /** `location ? location : null`. */
  function LocationColumn(location: Option<string>): (c: Option<string>)
    ensures c.Some? <==> Text.Truthy(location)
    ensures c.Some? ==> c == location
  {
    if Text.Truthy(location) then location else None
  }

  const IncompleteNotice := "Preencha todos os campos obrigatórios antes de publicar."

  datatype Submission =
    | Blocked(errors: Errors, notice: Notice)
    | Insert(errors: Errors, row: ListingRow)

  /** `handleSubmit`: validation first; only a valid form reaches the insert. */
  function Submit(st: PageState, parse: string -> Option<real>, sellerId: string, location: Option<string>): (s: Submission)
    ensures s.errors == ValidationErrors(st.form, parse)
    ensures s.Insert? <==> Complete(st.form, parse)
    ensures s.Blocked? ==> s.notice == Failure(IncompleteNotice)
    ensures s.Insert? ==>
      && s.row.sellerId == sellerId
      && s.row.title == st.form.title
      && s.row.description == st.form.description
      && s.row.category == st.form.category
      && s.row.condition == st.form.condition
      && s.row.images == [st.form.imageBase64]
      && s.row.location == LocationColumn(location)
      && s.row.active
      && s.row.status == "active"
  {
    ValidateAcceptsComplete(st.form, parse);
    var v := ValidateForm(st.form, parse);
    if !v.ok then Blocked(v.errors, Failure(IncompleteNotice))
    else
      var f := st.form;
      Insert(v.errors, ListingRow(sellerId, f.title, f.description, f.category, f.condition,
                                  [f.imageBase64], LocationColumn(location), true, "active"))
  }

  /** A listing built from the seller's profile has no location exactly when
      the profile had none worth keeping. */
  lemma InsertWithoutProfileLocation(st: PageState, parse: string -> Option<real>, sellerId: string, profileLocation: Option<string>)
    requires Complete(st.form, parse)
    ensures Submit(st, parse, sellerId, LocationFromProfile(None, profileLocation)).Insert?
    ensures var s := Submit(st, parse, sellerId, LocationFromProfile(None, profileLocation));
              s.row.location.None? <==> !Text.Truthy(profileLocation)
  {
  }

  /** How the insert came back: accepted, or an error whose message may be
      missing. A thrown exception is reported the same way. */
  datatype InsertResult = Inserted | InsertFailed(message: Option<string>)

  datatype AfterInsert = AfterInsert(notice: Notice, destination: Option<Navigation>)

  const DefaultInsertError := "Erro ao cadastrar produto."

  /** What the page does once the insert settles: on success it congratulates
      and goes to the profile; on failure it stays and shows the error's
      message, or the default text when that message is missing or empty. */
  function Settle(result: InsertResult): (a: AfterInsert)
    ensures a.destination.Some? <==> result.Inserted?
    ensures a.destination.Some? ==> a.destination.value == Push("/profile")
    ensures a.notice.Success? <==> result.Inserted?
    ensures result.InsertFailed? && Text.Truthy(result.message) ==> a.notice.text == result.message.value
    ensures result.InsertFailed? && !Text.Truthy(result.message) ==> a.notice.text == DefaultInsertError
    ensures a.notice.Failure? ==> a.notice.text != []
  {
    match result
    case Inserted => AfterInsert(Success("Produto cadastrado com sucesso!"), Some(Push("/profile")))
    case InsertFailed(m) =>
      AfterInsert(Failure(if Text.Truthy(m) then m.value else DefaultInsertError), None)
  }
}
