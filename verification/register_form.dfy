/** The three-step registration wizard: the form, the validation of each
    step into an error map, the step machine, field edits and the payload
    handed to registration. */
module RegisterForm {
  import opened Wrappers
  import opened JsValue
  import opened Numbers
  import opened Records
  import opened Validation
  import opened Forms

  datatype Field =
    | FullName | Email | Username | Phone | Gender | Age | AddressField
    | Job | ChildOrder | Password | Avatar | PaymentMethod

  /** The form's state. Every input holds text; the address comes from the
      address picker and the avatar is the chosen file's name. */
  datatype Form = Form(
    fullName: string,
    email: string,
    username: string,
    phone: string,
    gender: string,
    age: string,
    address: Option<Address>,
    job: string,
    childOrder: string,
    password: string,
    avatar: Option<string>,
    paymentMethod: string)

  /** The initial form: every text empty, no address, no avatar. */
  const Initial := Form("", "", "", "", "", "", None, "", "", "", None, "")

  type Errors = map<Field, string>

  /** The fields each step checks. */
  function StepFields(step: int): set<Field> {
    if step == 1 then {FullName, Email, Username}
    else if step == 2 then {Phone, Gender, Age, AddressField}
    else if step == 3 then {Job, ChildOrder, Password}
    else {}
  }

  /** The checks of step 1, by field: the message, `None` when it passes.
      Full name and username must be filled in and the e-mail well formed. */
  function Step1Check(form: Form, f: Field): (r: Option<string>)
    ensures f == FullName ==> (r == None <==> Filled(Text(form.fullName)))
    ensures f == Email ==> (r == None <==> form.email != [] && Helpers.Mailbox(form.email))
    ensures f == Username ==> (r == None <==> Filled(Text(form.username)))
    ensures f !in StepFields(1) ==> r == None
  {
    match f
    case FullName => ValidateRequired(Text(form.fullName), "Nama lengkap")
    case Email => ValidateEmail(form.email)
    case Username => ValidateRequired(Text(form.username), "Username")
    case _ => None
  }

  /** The checks of step 2: a well-formed phone, a chosen gender, an age
      that passes its check and a picked address. */
  function Step2Check(form: Form, f: Field): (r: Option<string>)
    ensures f == Phone ==> (r == None <==> Helpers.PhonePattern(form.phone))
    ensures f == Gender ==> (r == None <==> Filled(Text(form.gender)))
    ensures f == Age ==> r == ValidateAge(Text(form.age))
    ensures f == AddressField ==> (r == None <==> form.address.Some?)
    ensures f !in StepFields(2) ==> r == None
  {
    match f
    case Phone => ValidatePhone(form.phone)
    case Gender => ValidateRequired(Text(form.gender), "Jenis kelamin")
    case Age => ValidateAge(Text(form.age))
    case AddressField => if form.address.None? then Some("Alamat wajib diisi") else None
    case _ => None
  }

  /** The checks of step 3: a job and a child order filled in, and a
      password of at least six characters. */
  function Step3Check(form: Form, f: Field): (r: Option<string>)
    ensures f == Job ==> (r == None <==> Filled(Text(form.job)))
    ensures f == ChildOrder ==> (r == None <==> Filled(Text(form.childOrder)))
    ensures f == Password ==> (r == None <==> |form.password| >= 6)
    ensures f !in StepFields(3) ==> r == None
  {
    match f
    case Job => ValidateRequired(Text(form.job), "Pekerjaan")
    case ChildOrder => ValidateRequired(Text(form.childOrder), "Anak ke")
    case Password => ValidatePassword(form.password)
    case _ => None
  }

  /** `validateStep1`. */
  function ValidateStep1(form: Form): (errors: Errors)
    ensures forall f :: f in errors <==> Step1Check(form, f).Some?
    ensures forall f :: f in errors ==> f in StepFields(1) && errors[f] == Step1Check(form, f).value
  {
    Collect((f: Field) => Step1Check(form, f), [FullName, Email, Username])
  }

  /** `validateStep2`. */
  function ValidateStep2(form: Form): (errors: Errors)
    ensures forall f :: f in errors <==> Step2Check(form, f).Some?
    ensures forall f :: f in errors ==> f in StepFields(2) && errors[f] == Step2Check(form, f).value
  {
    Collect((f: Field) => Step2Check(form, f), [Phone, Gender, Age, AddressField])
  }

  /** `validateStep3`. */
  function ValidateStep3(form: Form): (errors: Errors)
    ensures forall f :: f in errors <==> Step3Check(form, f).Some?
    ensures forall f :: f in errors ==> f in StepFields(3) && errors[f] == Step3Check(form, f).value
  {
    Collect((f: Field) => Step3Check(form, f), [Job, ChildOrder, Password])
  }

  /** Step 1 passes exactly when the full name and username are filled in
      and the e-mail is well formed. */
  lemma Step1Passes(form: Form)
    ensures ValidateStep1(form) == map[] <==>
      Filled(Text(form.fullName)) && Filled(Text(form.username)) && form.email != [] && Helpers.Mailbox(form.email)
  {
    var v := ValidateStep1(form);
    if v == map[] {
      assert FullName !in v && Email !in v && Username !in v;
    } else {
      var f :| f in v;
    }
  }

  /** Step 2 passes exactly when the phone is valid, a gender is chosen,
      the age passes its check and an address is set. */
  lemma Step2Passes(form: Form)
    ensures ValidateStep2(form) == map[] <==>
      Helpers.PhonePattern(form.phone) && Filled(Text(form.gender)) && ValidateAge(Text(form.age)) == None
      && form.address.Some?
  {
    var v := ValidateStep2(form);
    if v == map[] {
      assert Phone !in v && Gender !in v && Age !in v && AddressField !in v;
    } else {
      var f :| f in v;
    }
  }

  /** Step 3 passes exactly when a job and a child order are chosen and the
      password has at least six characters. */
  lemma Step3Passes(form: Form)
    ensures ValidateStep3(form) == map[] <==>
      Filled(Text(form.job)) && Filled(Text(form.childOrder)) && |form.password| >= 6
  {
    var v := ValidateStep3(form);
    if v == map[] {
      assert Job !in v && ChildOrder !in v && Password !in v;
    } else {
      var f :| f in v;
    }
  }

  /** The wizard: the current step, the form and the shown errors. */
  datatype Wizard = Wizard(step: int, form: Form, errors: Errors)

  const Start := Wizard(1, Initial, map[])

  /** `handleNext`: the current step's check replaces the errors; a pass
      below step 3 moves one step on. Any other step counts as passing and
      leaves the errors alone. */
  function HandleNext(w: Wizard): (r: Wizard)
    ensures r.form == w.form
    ensures 1 <= w.step <= 3 ==> r.errors.Keys <= StepFields(w.step)
  {
    var (valid, errors) :=
      if w.step == 1 then var e := ValidateStep1(w.form); (e == map[], e)
      else if w.step == 2 then var e := ValidateStep2(w.form); (e == map[], e)
      else if w.step == 3 then var e := ValidateStep3(w.form); (e == map[], e)
      else (true, w.errors);
    Wizard(if valid && w.step < 3 then w.step + 1 else w.step, w.form, errors)
  }

  /** Whether the current step's check passes. */
  predicate StepPasses(step: int, form: Form) {
    if step == 1 then ValidateStep1(form) == map[]
    else if step == 2 then ValidateStep2(form) == map[]
    else if step == 3 then ValidateStep3(form) == map[]
    else true
  }

  /** Next moves on by exactly one step when the step's check passes and
      the step is below 3, and otherwise stays. */
  lemma NextAdvancesIffValid(w: Wizard)
    ensures HandleNext(w).step == if StepPasses(w.step, w.form) && w.step < 3 then w.step + 1 else w.step
    ensures HandleNext(w).step == w.step + 1 || HandleNext(w).step == w.step
  {
  }

  /** The back button is offered above step 1 and goes one step back. */
  function Back(w: Wizard): (r: Option<Wizard>)
    ensures r.Some? <==> w.step > 1
    ensures r.Some? ==> r.value.step == w.step - 1 && r.value.form == w.form
  {
    if w.step > 1 then Some(w.(step := w.step - 1)) else None
  }

  /** Next and back keep the step within 1 to 3. */
  lemma StepStaysInRange(w: Wizard)
    requires 1 <= w.step <= 3
    ensures 1 <= HandleNext(w).step <= 3
    ensures Back(w).Some? ==> 1 <= Back(w).value.step <= 3
  {
  }

  /** The text an input shows. The address and the avatar are not typed
      into the form. */
  function TextOf(form: Form, f: Field): Option<string> {
    match f
    case FullName => Some(form.fullName)
    case Email => Some(form.email)
    case Username => Some(form.username)
    case Phone => Some(form.phone)
    case Gender => Some(form.gender)
    case Age => Some(form.age)
    case Job => Some(form.job)
    case ChildOrder => Some(form.childOrder)
    case Password => Some(form.password)
    case PaymentMethod => Some(form.paymentMethod)
    case AddressField => None
    case Avatar => None
  }

  /** Two forms that show the same text in every input and hold the same
      address and avatar are the same form. */
  lemma SameTextSameForm(a: Form, b: Form)
    requires forall g :: TextOf(a, g) == TextOf(b, g)
    requires a.address == b.address && a.avatar == b.avatar
    ensures a == b
  {
    assert TextOf(a, FullName) == TextOf(b, FullName) && TextOf(a, Email) == TextOf(b, Email);
    assert TextOf(a, Username) == TextOf(b, Username) && TextOf(a, Phone) == TextOf(b, Phone);
    assert TextOf(a, Gender) == TextOf(b, Gender) && TextOf(a, Age) == TextOf(b, Age);
    assert TextOf(a, Job) == TextOf(b, Job) && TextOf(a, ChildOrder) == TextOf(b, ChildOrder);
    assert TextOf(a, Password) == TextOf(b, Password) && TextOf(a, PaymentMethod) == TextOf(b, PaymentMethod);
  }

  /** `{ ...prev, [name]: value }` for a text input: the named input shows
      the value, and every other input, the address and the avatar keep
      theirs. */
  function SetText(form: Form, f: Field, value: string): (r: Form)
    ensures TextOf(form, f).Some? ==> TextOf(r, f) == Some(value)
    ensures forall g :: g != f ==> TextOf(r, g) == TextOf(form, g)
    ensures r.address == form.address && r.avatar == form.avatar
  {
    match f
    case FullName => form.(fullName := value)
    case Email => form.(email := value)
    case Username => form.(username := value)
    case Phone => form.(phone := value)
    case Gender => form.(gender := value)
    case Age => form.(age := value)
    case Job => form.(job := value)
    case ChildOrder => form.(childOrder := value)
    case Password => form.(password := value)
    case PaymentMethod => form.(paymentMethod := value)
    case AddressField => form
    case Avatar => form
  }

  /** `handleChange` for a text input: the field takes the value and its
      error, if any, is cleared. */
  function HandleChange(w: Wizard, f: Field, value: string): (r: Wizard)
    ensures TextOf(w.form, f).Some? ==> TextOf(r.form, f) == Some(value)
    ensures forall g :: g != f ==> TextOf(r.form, g) == TextOf(w.form, g)
    ensures r.form.address == w.form.address && r.form.avatar == w.form.avatar
    ensures f !in r.errors
    ensures forall g :: g != f ==> (g in r.errors <==> g in w.errors)
    ensures forall g :: g != f && g in w.errors ==> r.errors[g] == w.errors[g]
    ensures r.step == w.step
  {
    Wizard(w.step, SetText(w.form, f, value), ClearError(w.errors, f))
  }

  /** What registration receives: the form with age and child order parsed
      as integers (`None` for NaN). `avatar` is the uploaded avatar's
      address, `None` when the payload has no such key. */
  datatype Payload = Payload(
    fullName: string,
    email: string,
    username: string,
    phone: string,
    gender: string,
    age: Option<int>,
    address: Option<Address>,
    job: string,
    childOrder: Option<int>,
    password: string,
    avatar: Option<string>,
    paymentMethod: string)

  /** The outcome of submitting: the payload, or the step-3 errors. */
  datatype Submission = Submitted(payload: Payload) | Rejected(errors: Errors)

  /** The address the avatar upload yields: the file's, or `''` without a
      file. The storage upload is the parameter `upload`. */
  function AvatarUrl(form: Form, upload: string -> string): string {
    match form.avatar
    case Some(file) => upload(file)
    case None => ""
  }

  /** The payload with the given avatar entry. */
  function PayloadOf(form: Form, avatar: Option<string>): Payload {
    Payload(form.fullName, form.email, form.username, form.phone, form.gender,
            ParseInt(form.age), form.address, form.job, ParseInt(form.childOrder),
            form.password, avatar, form.paymentMethod)
  }

  /** `handleSubmit` as written: only step 3 is checked again; the avatar
      is uploaded and its address put into the payload, and then the
      `avatar` key is deleted again, so the payload never carries it. */
  function HandleSubmitAsWritten(w: Wizard, upload: string -> string): (r: Submission)
    ensures r.Rejected? <==> ValidateStep3(w.form) != map[]
    ensures r.Submitted? ==> r.payload.avatar == None
  {
    var errors := ValidateStep3(w.form);
    if errors != map[] then Rejected(errors)
    else
      var withAvatar := PayloadOf(w.form, Some(AvatarUrl(w.form, upload)));
      Submitted(withAvatar.(avatar := None))
  }

  /** `handleSubmit` as intended: the uploaded avatar's address is kept. */
  function HandleSubmit(w: Wizard, upload: string -> string): (r: Submission)
    ensures r.Rejected? <==> ValidateStep3(w.form) != map[]
    ensures r.Rejected? ==> r.errors.Keys <= StepFields(3)
    ensures r.Submitted? ==> r.payload.age == ParseInt(w.form.age) && r.payload.childOrder == ParseInt(w.form.childOrder)
    ensures r.Submitted? ==> r.payload.email == w.form.email && r.payload.password == w.form.password
    ensures r.Submitted? ==> r.payload.fullName == w.form.fullName && r.payload.username == w.form.username
    ensures r.Submitted? ==> r.payload.phone == w.form.phone && r.payload.gender == w.form.gender
    ensures r.Submitted? ==> r.payload.address == w.form.address && r.payload.job == w.form.job
    ensures r.Submitted? ==> r.payload.paymentMethod == w.form.paymentMethod
    ensures r.Submitted? && w.form.avatar.Some? ==> r.payload.avatar == Some(upload(w.form.avatar.value))
  {
    var errors := ValidateStep3(w.form);
    if errors != map[] then Rejected(errors)
    else Submitted(PayloadOf(w.form, Some(AvatarUrl(w.form, upload))))
  }

  /** As written, a chosen and uploaded avatar is lost: the payload differs
      from the intended one exactly in the avatar entry. */
  lemma UploadedAvatarIsDropped(w: Wizard, upload: string -> string)
    requires ValidateStep3(w.form) == map[] && w.form.avatar.Some?
    ensures HandleSubmitAsWritten(w, upload).payload.avatar == None
    ensures HandleSubmit(w, upload).payload.avatar == Some(upload(w.form.avatar.value))
    ensures HandleSubmitAsWritten(w, upload) == Submitted(HandleSubmit(w, upload).payload.(avatar := None))
  {
  }

  /** Submission re-checks only step 3: a form whose step-1 fields are
      empty is still submitted once step 3 passes. */
  lemma SubmitSkipsSteps1And2(w: Wizard, upload: string -> string)
    requires ValidateStep3(w.form) == map[] && w.form.fullName == ""
    ensures HandleSubmit(w, upload).Submitted?
    ensures ValidateStep1(w.form) != map[]
  {
    assert FullName in ValidateStep1(w.form);
  }

  /** The `users` document registration writes: the payload without the
      password, with role `customer`, not blocked, created now. A NaN age
      or child order is stored as a falsy, non-numeric value. */
  function NewUserRecord(uid: string, p: Payload, now: real): (r: UserRecord)
    ensures r.role == "customer" && !r.isBlocked && r.uid == uid && r.email == Some(p.email)
    ensures r.createdAt == now
    ensures r.fullName == Some(p.fullName) && r.username == Some(p.username) && r.phone == Some(p.phone)
    ensures r.gender == Some(p.gender) && r.job == Some(p.job) && r.paymentMethod == Some(p.paymentMethod)
    ensures r.age == StoredInt(p.age) && r.childOrder == StoredInt(p.childOrder)
    ensures r.address == p.address && r.avatar == p.avatar
  {
    UserRecord(uid, Some(p.fullName), Some(p.email), Some(p.username), Some(p.phone), Some(p.gender),
               StoredInt(p.age), p.address, Some(p.job), StoredInt(p.childOrder), p.avatar,
               Some(p.paymentMethod), "customer", false, now)
  }
}
