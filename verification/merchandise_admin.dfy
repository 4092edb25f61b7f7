/** The admin merchandise page: the search, the product form with its
    validation, saving (a new document or an update merged into the stored
    one), editing, deleting (`DocStore.ConfirmedDelete`) and resetting.
    Chosen images are represented by the addresses their uploads yield;
    the uploads are not modelled. */
module MerchandiseAdmin {
  import opened Wrappers
  import opened Text
  import opened Numbers
  import opened JsValue
  import opened Seqs
  import opened Validation
  import opened Forms
  import opened DocStore

  /** The form's input names. */
  datatype Field = Name | Description | Price | Discount | Stock | IsActive | Images

  /** The form fields. */
  datatype ProductForm = ProductForm(
    name: string,
    description: string,
    price: Value,
    discount: Value,
    stock: Value,
    isActive: bool)

  const Initial := ProductForm("", "", Text(""), Text(""), Text(""), true)

  /** A merchandise document as this page writes it. A number that did not
      parse is stored as NaN, here `None`; images left out of the write are
      `None` too. The page always writes a discount; a document written
      elsewhere may lack one. */
  datatype ProductData = ProductData(
    name: string,
    description: string,
    price: Option<real>,
    discount: Option<real>,
    stock: Option<int>,
    isActive: bool,
    images: Option<seq<string>>)

  /** A listed document: its id next to its data. The page never writes an
      `id` field, so the listed id is the document id. */
  datatype Listed = Listed(id: string, data: ProductData)

  /** The page state the form works with; `images` are the chosen files. */
  datatype Editor = Editor(form: ProductForm, images: seq<string>, errors: map<Field, string>, editing: Option<Listed>)

  /** `resetForm`. */
  const Closed := Editor(Initial, [], map[], None)

  /** `filteredMerchandise`: the name or the description contains the
      term, all folded. */
  predicate Shown(fold: char -> char, term: string, p: Listed) {
    Contains(Lower(fold, p.data.name), Lower(fold, term)) || Contains(Lower(fold, p.data.description), Lower(fold, term))
  }

  function FilteredMerchandise(fold: char -> char, items: seq<Listed>, term: string): (r: seq<Listed>)
    ensures IsSubseq(r, items)
    ensures forall i :: 0 <= i < |r| ==> Shown(fold, term, r[i])
    ensures forall i :: 0 <= i < |items| && Shown(fold, term, items[i]) ==> items[i] in r
  {
    FilterIsSubseq((p: Listed) => Shown(fold, term, p), items);
    Filter((p: Listed) => Shown(fold, term, p), items)
  }

  /** What an input event carries. */
  datatype Input = TextInput(name: Field, value: string) | Checkbox(name: Field, checked: bool)
                 | FileInput(name: Field, urls: seq<string>)

  /** The value a typed input shows; `None` for the checkbox and the
      image input. */
  function TextOf(f: ProductForm, name: Field): Option<Value> {
    match name
    case Name => Some(Text(f.name))
    case Description => Some(Text(f.description))
    case Price => Some(f.price)
    case Discount => Some(f.discount)
    case Stock => Some(f.stock)
    case _ => None
  }

  /** Two forms that agree on every typed input and on the active checkbox
      are the same form. */
  lemma SameInputsSameForm(a: ProductForm, b: ProductForm)
    requires forall g :: TextOf(a, g) == TextOf(b, g)
    requires a.isActive == b.isActive
    ensures a == b
  {
    assert TextOf(a, Name) == TextOf(b, Name) && TextOf(a, Description) == TextOf(b, Description);
    assert TextOf(a, Price) == TextOf(b, Price) && TextOf(a, Discount) == TextOf(b, Discount);
    assert TextOf(a, Stock) == TextOf(b, Stock);
  }

  /** `handleChange`: chosen images replace the earlier choice; any other
      value lands in the named field and every other input keeps its value;
      the field's message is cleared and every other message kept. */
  function HandleChange(e: Editor, input: Input): (r: Editor)
    ensures input.TextInput? && TextOf(e.form, input.name).Some? ==>
      TextOf(r.form, input.name) == Some(Text(input.value))
    ensures input.Checkbox? && input.name == IsActive ==> r.form.isActive == input.checked
    ensures forall g :: g != input.name ==> TextOf(r.form, g) == TextOf(e.form, g)
    ensures input.name != IsActive ==> r.form.isActive == e.form.isActive
    ensures input.name !in r.errors
    ensures forall g :: g != input.name ==> (g in r.errors <==> g in e.errors)
    ensures forall g :: g != input.name && g in e.errors ==> r.errors[g] == e.errors[g]
    ensures r.editing == e.editing
    ensures input.FileInput? && input.name == Images ==> r.images == input.urls && r.form == e.form
    ensures !(input.FileInput? && input.name == Images) ==> r.images == e.images
  {
    var errors := ClearError(e.errors, input.name);
    match input
    case FileInput(name, urls) =>
      if name == Images then e.(images := urls, errors := errors) else e.(errors := errors)
    case Checkbox(name, checked) =>
      e.(form := if name == IsActive then e.form.(isActive := checked) else e.form, errors := errors)
    case TextInput(name, value) =>
      var form :=
        if name == Name then e.form.(name := value)
        else if name == Description then e.form.(description := value)
        else if name == Price then e.form.(price := Text(value))
        else if name == Discount then e.form.(discount := Text(value))
        else if name == Stock then e.form.(stock := Text(value))
        else e.form;
      e.(form := form, errors := errors)
  }

  /** The message of each checked field, with the stock check as intended:
      name and description must be filled in, price and stock must pass
      their checks, and the other fields are not checked. */
  function CheckField(e: Editor, f: Field): (r: Option<string>)
    ensures f == Name ==> (r == None <==> Filled(Text(e.form.name)))
    ensures f == Description ==> (r == None <==> Filled(Text(e.form.description)))
    ensures f == Price ==> r == ValidatePrice(e.form.price)
    ensures f == Stock ==> r == ValidateStockFilled(e.form.stock)
    ensures r.Some? ==> f in Checked
  {
    match f
    case Name => ValidateRequired(Text(e.form.name), "Nama produk")
    case Description => ValidateRequired(Text(e.form.description), "Deskripsi")
    case Price => ValidatePrice(e.form.price)
    case Stock => ValidateStockFilled(e.form.stock)
    case _ => None
  }

  /** The same with the stock check as written. */
  function CheckFieldAsWritten(e: Editor, f: Field): (r: Option<string>)
    ensures f == Stock ==> r == ValidateStock(e.form.stock)
    ensures f != Stock ==> r == CheckField(e, f)
    ensures r.Some? ==> f in Checked
  {
    if f == Stock then ValidateStock(e.form.stock) else CheckField(e, f)
  }

  const Checked := [Name, Description, Price, Stock]

  /** `validateForm` as written. */
  function ValidateFormAsWritten(e: Editor): (errors: map<Field, string>)
    ensures forall f :: f in errors <==> CheckFieldAsWritten(e, f).Some?
    ensures forall f :: f in errors ==> errors[f] == CheckFieldAsWritten(e, f).value
  {
    Collect((f: Field) => CheckFieldAsWritten(e, f), Checked)
  }

  /** `validateForm` with the intended stock check. */
  function ValidateForm(e: Editor): (errors: map<Field, string>)
    ensures forall f :: f in errors <==> CheckField(e, f).Some?
    ensures forall f :: f in errors ==> errors[f] == CheckField(e, f).value
  {
    Collect((f: Field) => CheckField(e, f), Checked)
  }

  /** The form passes exactly when name and description are filled in and
      the price and stock pass their checks. */
  lemma ValidIff(e: Editor)
    ensures ValidateForm(e) == map[] <==>
      Filled(Text(e.form.name)) && Filled(Text(e.form.description))
      && ValidatePrice(e.form.price) == None && ValidateStockFilled(e.form.stock) == None
  {
    ChecksPass(e);
  }

  /** The intended form check passes exactly when each field's does. */
  lemma ChecksPass(e: Editor)
    ensures ValidateForm(e) == map[] <==>
      CheckField(e, Name) == None && CheckField(e, Description) == None
      && CheckField(e, Price) == None && CheckField(e, Stock) == None
  {
    var v := ValidateForm(e);
    if v == map[] {
      assert Name !in v && Description !in v && Price !in v && Stock !in v;
    } else {
      var f :| f in v;
    }
  }

  /** The check as written passes exactly when name and description are
      filled in and price and stock pass the validators as written. */
  lemma AsWrittenIff(e: Editor)
    ensures ValidateFormAsWritten(e) == map[] <==>
      Filled(Text(e.form.name)) && Filled(Text(e.form.description))
      && ValidatePrice(e.form.price) == None && ValidateStock(e.form.stock) == None
  {
    var v := ValidateFormAsWritten(e);
    assert v == map[] <==>
      CheckFieldAsWritten(e, Name) == None && CheckFieldAsWritten(e, Description) == None
      && CheckFieldAsWritten(e, Price) == None && CheckFieldAsWritten(e, Stock) == None
    by {
      if v == map[] {
        assert Name !in v && Description !in v && Price !in v && Stock !in v;
      } else {
        var f :| f in v;
      }
    }
  }

  /** `productData`: the price read by `parseFloat`, the discount read by
      `parseFloat` with NaN and 0 both giving 0, the stock read by
      `parseInt`, and the images only when some were chosen. */
  function ProductDataOf(e: Editor): (d: ProductData)
    ensures d.name == e.form.name && d.description == e.form.description && d.isActive == e.form.isActive
    ensures d.price == ParseFloatOf(e.form.price) && d.stock == ParseIntOf(e.form.stock)
    ensures d.discount == Some(OrElse(ParseFloatOf(e.form.discount), 0.0))
    ensures d.images.Some? <==> e.images != []
    ensures d.images.Some? ==> d.images.value == e.images
  {
    ProductData(e.form.name, e.form.description, ParseFloatOf(e.form.price),
                Some(OrElse(ParseFloatOf(e.form.discount), 0.0)), ParseIntOf(e.form.stock),
                e.form.isActive, if |e.images| > 0 then Some(e.images) else None)
  }

  /** `updateDoc` merges: images left out keep the stored ones. */
  function Merge(stored: ProductData, write: ProductData): (r: ProductData)
    ensures r.(images := write.images) == write
    ensures r.images == (if write.images.Some? then write.images else stored.images)
  {
    if write.images.Some? then write else write.(images := stored.images)
  }

  /** The page and the store after a submit. */
  datatype Submitted = Submitted(editor: Editor, store: Collection<ProductData>)

  /** The part of `handleSubmit` after validation: with errors nothing is
      written; otherwise the product being edited is updated under its id,
      or a new document is created, and the form is reset. An update of a
      document that no longer exists fails and keeps the form. */
  function Save(e: Editor, errors: map<Field, string>, store: Collection<ProductData>, freshId: string): (r: Submitted)
    requires freshId !in store
    ensures errors != map[] ==> r == Submitted(e.(errors := errors), store)
    ensures errors == map[] && e.editing.None? ==>
      r == Submitted(Closed, Create(store, freshId, ProductDataOf(e)))
    ensures errors == map[] && e.editing.Some? && e.editing.value.id in store ==>
      var id := e.editing.value.id;
      r == Submitted(Closed, store[id := Merge(store[id], ProductDataOf(e))])
    ensures errors == map[] && e.editing.Some? && e.editing.value.id !in store ==>
      r == Submitted(e.(errors := map[]), store)
  {
    if errors != map[] then Submitted(e.(errors := errors), store)
    else
      var data := ProductDataOf(e);
      match e.editing
      case None => Submitted(Closed, Create(store, freshId, data))
      case Some(l) =>
        match Update(store, l.id, (stored: ProductData) => Merge(stored, data))
        case Some(s) => Submitted(Closed, s)
        case None => Submitted(e.(errors := map[]), store)
  }

  /** `handleSubmit` as written. */
  function HandleSubmitAsWritten(e: Editor, store: Collection<ProductData>, freshId: string): (r: Submitted)
    requires freshId !in store
    ensures ValidateFormAsWritten(e) != map[] ==> r.store == store
    ensures ValidateFormAsWritten(e) == map[] && e.editing.None? ==>
      r.store == Create(store, freshId, ProductDataOf(e))
  {
    Save(e, ValidateFormAsWritten(e), store, freshId)
  }

  /** `handleSubmit` with the intended stock check. */
  function HandleSubmit(e: Editor, store: Collection<ProductData>, freshId: string): (r: Submitted)
    requires freshId !in store
    ensures ValidateForm(e) != map[] ==> r.store == store && r.editor.errors == ValidateForm(e)
    ensures ValidateForm(e) == map[] && e.editing.None? ==>
      r.store == Create(store, freshId, ProductDataOf(e)) && r.editor == Closed
  {
    Save(e, ValidateForm(e), store, freshId)
  }

  /** As written, a new product whose stock field was left empty passes
      validation and is stored with stock NaN. */
  lemma BlankStockStoredAsNaN(e: Editor, store: Collection<ProductData>, freshId: string)
    requires freshId !in store && e.editing.None?
    requires Filled(Text(e.form.name)) && Filled(Text(e.form.description)) && ValidatePrice(e.form.price) == None
    requires e.form.stock == Text("")
    ensures var s := HandleSubmitAsWritten(e, store, freshId).store;
      freshId in s && s[freshId].stock == None
  {
    assert ValidateFormAsWritten(e) == map[] by {
      AsWrittenIff(e);
      BlankStockPasses("");
    }
    var d := ProductDataOf(e);
    assert d.stock == None by {
      ParseIntOfEmpty();
    }
    assert HandleSubmitAsWritten(e, store, freshId).store == Create(store, freshId, d);
  }

  /** With the intended check, a stock field that is empty or holds a whole
      number in its usual spelling is either refused or stored as that
      number, which is not negative. */
  lemma {:induction false} StockStoredAsNumber(e: Editor, i: int)
    requires e.form.stock == Text("") || e.form.stock == Text(IntToDecimal(i))
    requires ValidateForm(e) == map[]
    ensures e.form.stock == Text(IntToDecimal(i)) && i >= 0
    ensures ProductDataOf(e).stock == Some(i)
  {
    assert ValidateStockFilled(e.form.stock) == None by { ValidIff(e); }
    assert e.form.stock != Text("") by { BlankStockPasses(""); }
    assert ToNumber(e.form.stock) == Some(i as real) by { StringToNumberRoundTrip(i); }
    assert ParseIntOf(e.form.stock) == Some(i) by { ParseIntRoundTrip(i); }
  }

  /** The intended check refuses an empty stock field with its message. */
  lemma BlankStockRefused(e: Editor, store: Collection<ProductData>, freshId: string)
    requires freshId !in store && e.form.stock == Text("")
    ensures var r := HandleSubmit(e, store, freshId);
      r.store == store && Stock in r.editor.errors && r.editor.errors[Stock] == StockRequired
  {
    assert CheckField(e, Stock) == Some(StockRequired);
  }

  /** The form a stored document is put back into by `handleEdit`: numbers
      as their spelling (a stored NaN spells `NaN`), and an absent discount
      as the empty text. */
  function FormOf(d: ProductData): (f: ProductForm)
    ensures f.name == d.name && f.description == d.description && f.isActive == d.isActive
  {
    ProductForm(d.name, d.description,
                if d.price.Some? then NumberText(d.price.value) else Text("NaN"),
                if d.discount.Some? then NumberText(d.discount.value) else Text(""),
                if d.stock.Some? then NumberText(d.stock.value as real) else Text("NaN"),
                d.isActive)
  }

  /** `handleEdit`: the form shows the listed product, which becomes the one
      being edited; the chosen images and the shown errors stay. */
  function HandleEdit(e: Editor, l: Listed): (r: Editor)
    ensures r.editing == Some(l) && r.images == e.images && r.errors == e.errors
  {
    Editor(FormOf(l.data), e.images, e.errors, Some(l))
  }

  /** Opening a stored product for editing and saving it without changes
      writes it back unchanged, provided its name and description are
      filled in, its price is positive and its stock is a number that is
      not negative. */
  lemma EditThenSaveKeepsDocument(e: Editor, store: Collection<ProductData>, freshId: string, l: Listed)
    requires freshId !in store && l.id in store && store[l.id] == l.data
    requires e.images == []
    requires Filled(Text(l.data.name)) && Filled(Text(l.data.description))
    requires l.data.price.Some? && l.data.price.value > 0.0
    requires l.data.stock.Some? && l.data.stock.value >= 0
    requires l.data.discount.Some?
    ensures HandleSubmit(HandleEdit(e, l), store, freshId) == Submitted(Closed, store)
  {
    var ed := HandleEdit(e, l);
    ValidIff(ed);
    var d := l.data;
    assert ParseIntOf(ed.form.stock) == Some(Trunc(d.stock.value as real));
    var w := ProductDataOf(ed);
    assert Merge(d, w) == d;
    assert store[l.id := d] == store;
  }

  /** A product stored without a discount and saved from the edit form
      gets discount 0; so does any empty or unreadable discount field. */
  lemma MissingDiscountSavedAsZero(e: Editor, l: Listed)
    requires l.data.discount.None?
    ensures ProductDataOf(HandleEdit(e, l)).discount == Some(0.0)
  {
    var ed := HandleEdit(e, l);
    assert ed.form.discount == Text("");
    assert ParseFloatOf(ed.form.discount) == None by { ParseIntOfEmpty(); }
  }

  /** The initial form leaves name, description and price empty and the
      stock field blank: each fails its check, and the blank stock passes
      the check as written. */
  lemma InitialFieldChecks(e: Editor)
    requires e.form == Initial
    ensures CheckField(e, Name).Some? && CheckField(e, Description).Some?
    ensures CheckField(e, Price).Some? && CheckField(e, Stock).Some?
    ensures CheckFieldAsWritten(e, Stock).None?
  {
    BlankStockPasses("");
  }

  /** An editor whose name, description, price and stock all fail their
      checks fails on exactly those four. */
  lemma FailsOnFour(e: Editor)
    requires CheckField(e, Name).Some? && CheckField(e, Description).Some?
    requires CheckField(e, Price).Some? && CheckField(e, Stock).Some?
    ensures forall f :: f in ValidateForm(e) <==> f in {Name, Description, Price, Stock}
  {
    var v := ValidateForm(e);
    forall f ensures f in v <==> f in {Name, Description, Price, Stock} {
      match f
      case Name =>
      case Description =>
      case Price =>
      case Stock =>
      case _ =>
    }
  }

  /** The reset form fails the check on name, description, price and, as
      intended, stock: so does any editor holding the initial form. */
  lemma ResetFormIsEmpty(e: Editor)
    requires e.form == Initial
    ensures forall f :: f in ValidateForm(e) <==> f in {Name, Description, Price, Stock}
  {
    InitialFieldChecks(e);
    FailsOnFour(e);
  }

  /** An editor whose name, description and price fail their checks and
      whose stock passes the check as written fails on exactly those three. */
  lemma AsWrittenFailsOnThree(e: Editor)
    requires CheckFieldAsWritten(e, Name).Some? && CheckFieldAsWritten(e, Description).Some?
    requires CheckFieldAsWritten(e, Price).Some? && CheckFieldAsWritten(e, Stock).None?
    ensures forall f :: f in ValidateFormAsWritten(e) <==> f in {Name, Description, Price}
  {
    var v := ValidateFormAsWritten(e);
    forall f ensures f in v <==> f in {Name, Description, Price} {
      match f
      case Name =>
      case Description =>
      case Price =>
      case Stock =>
      case _ =>
    }
  }

  /** As written, the reset form's empty stock passes its check. */
  lemma ResetStockPassesAsWritten(e: Editor)
    requires e.form == Initial
    ensures forall f :: f in ValidateFormAsWritten(e) <==> f in {Name, Description, Price}
  {
    InitialFieldChecks(e);
    AsWrittenFailsOnThree(e);
  }
}
