/** The customer profile page: the form filled from the stored profile,
    its validation, saving into the user's document, and cancelling. A
    chosen avatar is represented by the address its upload yields. */
module Profile {
  import opened Wrappers
  import opened Numbers
  import opened JsValue
  import opened Validation
  import opened Forms
  import opened DocStore
  import opened Records

  /** The form's input names. */
  datatype Field = FullName | Phone | Gender | Age | AddressField | Job | ChildOrder | PaymentMethod | Avatar

  /** The form fields. */
  datatype ProfileForm = ProfileForm(
    fullName: string,
    phone: string,
    gender: string,
    age: Value,
    address: Option<Address>,
    job: string,
    childOrder: Value,
    paymentMethod: string)

  /** The page state: the form, the shown errors, the chosen avatar and
      whether the form is open for editing. */
  datatype Page = Page(form: ProfileForm, errors: map<Field, string>, avatar: Option<string>, editing: bool)

  /** `x || ''` for a stored text field. */
  function TextOr(x: Option<string>): (s: string)
    ensures x.Some? ==> s == x.value
    ensures x.None? ==> s == ""
  {
    x.GetOr("")
  }

  /** `x || ''` for a stored number field: a falsy value becomes the empty
      text, anything else is kept. */
  function ValueOr(x: Value): (v: Value)
    ensures Truthy(x) ==> v == x
    ensures !Truthy(x) ==> v == Text("")
  {
    if Truthy(x) then x else Text("")
  }

  /** The form filled from the profile, each field falling back to empty
      (the address to none) when the profile or the field is missing. */
  function FormFrom(userData: Option<UserRecord>): (f: ProfileForm)
    ensures userData.None? ==> f == ProfileForm("", "", "", Text(""), None, "", Text(""), "")
  {
    match userData
    case None => ProfileForm("", "", "", Text(""), None, "", Text(""), "")
    case Some(u) =>
      ProfileForm(TextOr(u.fullName), TextOr(u.phone), TextOr(u.gender), ValueOr(u.age), u.address,
                  TextOr(u.job), ValueOr(u.childOrder), TextOr(u.paymentMethod))
  }

  /** The page as it opens. */
  function Start(userData: Option<UserRecord>): Page {
    Page(FormFrom(userData), map[], None, false)
  }

  /** What an input event carries: typed text, or a chosen avatar file. */
  datatype Input = TextInput(name: Field, value: string) | AvatarFile(url: string)

  /** The value a form input shows: the named field, with text fields as
      text. The address and the avatar are not typed into the form. */
  function ValueOf(f: ProfileForm, name: Field): Option<Value> {
    match name
    case FullName => Some(Text(f.fullName))
    case Phone => Some(Text(f.phone))
    case Gender => Some(Text(f.gender))
    case Age => Some(f.age)
    case Job => Some(Text(f.job))
    case ChildOrder => Some(f.childOrder)
    case PaymentMethod => Some(Text(f.paymentMethod))
    case AddressField => None
    case Avatar => None
  }

  /** Two forms that show the same value in every input and hold the same
      address are the same form. */
  lemma SameValuesSameForm(a: ProfileForm, b: ProfileForm)
    requires forall g :: ValueOf(a, g) == ValueOf(b, g)
    requires a.address == b.address
    ensures a == b
  {
    assert ValueOf(a, FullName) == ValueOf(b, FullName) && ValueOf(a, Phone) == ValueOf(b, Phone);
    assert ValueOf(a, Gender) == ValueOf(b, Gender) && ValueOf(a, Age) == ValueOf(b, Age);
    assert ValueOf(a, Job) == ValueOf(b, Job) && ValueOf(a, ChildOrder) == ValueOf(b, ChildOrder);
    assert ValueOf(a, PaymentMethod) == ValueOf(b, PaymentMethod);
  }

  /** `handleChange`: a chosen avatar is kept aside; typed text lands in the
      named field and every other input and the address keep their values;
      the field's message is cleared and every other message kept. */
  function HandleChange(p: Page, input: Input): (r: Page)
    ensures input.AvatarFile? ==> r.avatar == Some(input.url) && r.form == p.form && Avatar !in r.errors
    ensures input.TextInput? ==> r.avatar == p.avatar && input.name !in r.errors
    ensures input.TextInput? && ValueOf(p.form, input.name).Some? ==>
      ValueOf(r.form, input.name) == Some(Text(input.value))
    ensures input.TextInput? ==> r.form.address == p.form.address
    ensures input.TextInput? ==> forall g :: g != input.name ==> ValueOf(r.form, g) == ValueOf(p.form, g)
    ensures var name := if input.TextInput? then input.name else Avatar;
      forall g :: g != name && g in p.errors ==> g in r.errors && r.errors[g] == p.errors[g]
    ensures r.editing == p.editing
  {
    match input
    case AvatarFile(url) => p.(avatar := Some(url), errors := ClearError(p.errors, Avatar))
    case TextInput(name, value) =>
      var f := p.form;
      var form :=
        if name == FullName then f.(fullName := value)
        else if name == Phone then f.(phone := value)
        else if name == Gender then f.(gender := value)
        else if name == Age then f.(age := Text(value))
        else if name == Job then f.(job := value)
        else if name == ChildOrder then f.(childOrder := Text(value))
        else if name == PaymentMethod then f.(paymentMethod := value)
        else f;
      p.(form := form, errors := ClearError(p.errors, name))
  }

  /** `handleAddressChange`: the picked address replaces the form's. */
  function HandleAddressChange(p: Page, a: Address): (r: Page)
    ensures r.form.address == Some(a) && r.form.(address := p.form.address) == p.form
  {
    p.(form := p.form.(address := Some(a)))
  }

  /** The message of each checked field, `None` when it passes: the name
      must be filled in, the phone well formed and the age must pass its
      check; the other fields are not checked. */
  function CheckField(f: ProfileForm, field: Field): (r: Option<string>)
    ensures field == FullName ==> (r == None <==> Filled(Text(f.fullName)))
    ensures field == Phone ==> (r == None <==> Helpers.PhonePattern(f.phone))
    ensures field == Age ==> r == ValidateAge(f.age)
  {
    match field
    case FullName => ValidateRequired(Text(f.fullName), "Nama lengkap")
    case Phone => ValidatePhone(f.phone)
    case Age => ValidateAge(f.age)
    case _ => None
  }

  const Checked := [FullName, Phone, Age]

  /** `validateForm`. */
  function ValidateForm(f: ProfileForm): (errors: map<Field, string>)
    ensures forall g :: g in errors <==> CheckField(f, g).Some?
    ensures forall g :: g in errors ==> errors[g] == CheckField(f, g).value
  {
    Collect((g: Field) => CheckField(f, g), Checked)
  }

  /** The form passes exactly when the name is filled in, the phone is a
      well-formed number and the age passes its check; gender, job and
      child order are not checked. */
  lemma ValidIff(f: ProfileForm)
    ensures ValidateForm(f) == map[] <==>
      Filled(Text(f.fullName)) && Helpers.PhonePattern(f.phone) && ValidateAge(f.age) == None
  {
    var v := ValidateForm(f);
    if v == map[] {
      assert FullName !in v && Phone !in v && Age !in v;
    } else {
      var g :| g in v;
    }
  }

  /** The stored profile after `updateDocument` merges the save into it:
      the form's fields replace the stored ones, age and child order read by
      `parseInt`, and the avatar only when one was chosen. */
  function Saved(u: UserRecord, f: ProfileForm, avatar: Option<string>): (r: UserRecord)
    ensures r.uid == u.uid && r.email == u.email && r.username == u.username
    ensures r.role == u.role && r.isBlocked == u.isBlocked && r.createdAt == u.createdAt
    ensures r.fullName == Some(f.fullName) && r.phone == Some(f.phone) && r.address == f.address
    ensures r.gender == Some(f.gender) && r.job == Some(f.job) && r.paymentMethod == Some(f.paymentMethod)
    ensures r.age == StoredInt(ParseIntOf(f.age)) && r.childOrder == StoredInt(ParseIntOf(f.childOrder))
    ensures avatar.None? ==> r.avatar == u.avatar
    ensures avatar.Some? ==> r.avatar == avatar
  {
    u.(fullName := Some(f.fullName), phone := Some(f.phone), gender := Some(f.gender),
       age := StoredInt(ParseIntOf(f.age)), address := f.address, job := Some(f.job),
       childOrder := StoredInt(ParseIntOf(f.childOrder)), paymentMethod := Some(f.paymentMethod),
       avatar := if avatar.Some? then avatar else u.avatar)
  }

  /** The page and the `users` collection after saving. */
  datatype Outcome = Outcome(page: Page, store: Collection<UserRecord>)

  /** `handleSave`. With errors nothing is written. Otherwise the user's
      document is updated and editing ends; an update of a missing document
      fails and keeps the form open. */
  function HandleSave(p: Page, store: Collection<UserRecord>, uid: string): (r: Outcome)
    ensures ValidateForm(p.form) != map[] ==> r == Outcome(p.(errors := ValidateForm(p.form)), store)
    ensures ValidateForm(p.form) == map[] && uid in store ==>
      r == Outcome(p.(errors := map[], editing := false, avatar := None),
                   store[uid := Saved(store[uid], p.form, p.avatar)])
    ensures ValidateForm(p.form) == map[] && uid !in store ==> r == Outcome(p.(errors := map[]), store)
  {
    var errors := ValidateForm(p.form);
    if errors != map[] then Outcome(p.(errors := errors), store)
    else
      match Update(store, uid, (u: UserRecord) => Saved(u, p.form, p.avatar))
      case Some(s) => Outcome(p.(errors := map[], editing := false, avatar := None), s)
      case None => Outcome(p.(errors := map[]), store)
  }

  /** A save changes only the user's own document and never the fields the
      profile does not own: e-mail, username, role, blocking and creation
      time stay as stored. */
  lemma SaveKeepsAccountFields(p: Page, store: Collection<UserRecord>, uid: string)
    ensures var after := HandleSave(p, store, uid).store;
      && after.Keys == store.Keys
      && (forall d :: d in store && d != uid ==> after[d] == store[d])
      && (uid in store ==>
            after[uid].email == store[uid].email && after[uid].username == store[uid].username
            && after[uid].role == store[uid].role && after[uid].isBlocked == store[uid].isBlocked
            && after[uid].createdAt == store[uid].createdAt)
  {
  }

  /** A saved age typed as a whole number is stored as that number, and it
      lies between 13 and 100. */
  lemma SavedAgeInRange(p: Page, store: Collection<UserRecord>, uid: string, n: int)
    requires uid in store && p.form.age == Text(IntToDecimal(n))
    requires ValidateForm(p.form) == map[]
    ensures var after := HandleSave(p, store, uid).store;
      uid in after && ToNumber(after[uid].age) == Some(n as real) && 13 <= n <= 100
  {
    ValidIff(p.form);
    StringToNumberRoundTrip(n);
    ParseIntRoundTrip(n);
  }

  /** `handleCancel`: whatever was typed, the form is refilled from the
      profile, the errors and the chosen avatar are dropped and editing
      ends; so the outcome does not depend on the page before. */
  function HandleCancel(p: Page, userData: Option<UserRecord>): (r: Page)
    ensures r == Start(userData)
    ensures r.errors == map[] && r.avatar.None? && !r.editing
  {
    Page(FormFrom(userData), map[], None, false)
  }

  /** Cancelling and then saving without changes writes the stored profile
      back unchanged, when every field is present and non-empty, the phone
      is well formed, and age and child order are stored as whole numbers
      with the age between 13 and 100. */
  lemma CancelThenSaveKeepsProfile(p: Page, store: Collection<UserRecord>, uid: string, age: int, childOrder: int)
    requires uid in store
    requires var u := store[uid];
      && u.fullName.Some? && Filled(Text(u.fullName.value))
      && u.phone.Some? && Helpers.PhonePattern(u.phone.value)
      && u.gender.Some? && u.job.Some? && u.paymentMethod.Some? && u.address.Some?
      && u.age == Number(age as real) && 13 <= age <= 100
      && u.childOrder == Number(childOrder as real) && childOrder != 0
    ensures HandleSave(HandleCancel(p, Some(store[uid])), store, uid).store == store
  {
    var u := store[uid];
    var f := FormFrom(Some(u));
    assert f.age == Number(age as real);
    ValidIff(f);
    assert ParseIntOf(f.age) == Some(Trunc(age as real));
    assert ParseIntOf(f.childOrder) == Some(Trunc(childOrder as real));
    assert Saved(u, f, None) == u;
    assert store[uid := u] == store;
  }
}
