/** The admin content page: the search, the content form with its
    validation, saving (a new document or an update merged into the stored
    one), editing, deleting (`DocStore.ConfirmedDelete`) and resetting.
    A chosen file is represented by the address its upload yields; the
    upload itself is not modelled. */
module ContentAdmin {
  import opened Wrappers
  import opened Text
  import opened Numbers
  import opened JsValue
  import opened Seqs
  import opened Validation
  import opened Forms
  import opened DocStore

  /** The form's input names, plus `media` for the missing-media message. */
  datatype Field = Title | Description | Duration | Price | IsSubscription | IsActive
                 | Audio | Video | Thumbnail | Media

  /** The form fields. */
  datatype ContentForm = ContentForm(
    title: string,
    description: string,
    duration: Value,
    price: Value,
    isSubscription: bool,
    isActive: bool)

  const Initial := ContentForm("", "", Text(""), Text(""), false, true)

  /** The chosen files, each as the address its upload yields. */
  datatype Files = Files(audio: Option<string>, video: Option<string>, thumbnail: Option<string>)

  const NoFiles := Files(None, None, None)

  /** A content document as this page writes it. A number that did not
      parse is stored as NaN, here `None`; a media address left out of the
      write is `None` too. */
  datatype ContentData = ContentData(
    title: string,
    description: string,
    duration: Option<int>,
    price: Option<real>,
    isSubscription: bool,
    isActive: bool,
    audioUrl: Option<string>,
    videoUrl: Option<string>,
    thumbnail: Option<string>)

  /** A listed document: its id next to its data. The page never writes an
      `id` field, so the listed id is the document id. */
  datatype Listed = Listed(id: string, data: ContentData)

  /** The page state the form works with. */
  datatype Editor = Editor(form: ContentForm, files: Files, errors: map<Field, string>, editing: Option<Listed>)

  /** `resetForm`: empty form, no files, no errors, nothing being edited. */
  const Closed := Editor(Initial, NoFiles, map[], None)

  const MediaRequired := "Minimal upload satu file audio atau video"

  /** `filteredContent`: the title or the description contains the term,
      all folded. */
  predicate Shown(fold: char -> char, term: string, c: Listed) {
    Contains(Lower(fold, c.data.title), Lower(fold, term)) || Contains(Lower(fold, c.data.description), Lower(fold, term))
  }

  function FilteredContent(fold: char -> char, items: seq<Listed>, term: string): (r: seq<Listed>)
    ensures IsSubseq(r, items)
    ensures forall i :: 0 <= i < |r| ==> Shown(fold, term, r[i])
    ensures forall i :: 0 <= i < |items| && Shown(fold, term, items[i]) ==> items[i] in r
  {
    FilterIsSubseq((c: Listed) => Shown(fold, term, c), items);
    Filter((c: Listed) => Shown(fold, term, c), items)
  }

  /** What an input event carries. */
  datatype Input = TextInput(name: Field, value: string) | Checkbox(name: Field, checked: bool)
                 | FileInput(name: Field, url: string)

  /** The value a typed input shows; `None` for the checkboxes and the
      file inputs. */
  function TextOf(f: ContentForm, name: Field): Option<Value> {
    match name
    case Title => Some(Text(f.title))
    case Description => Some(Text(f.description))
    case Duration => Some(f.duration)
    case Price => Some(f.price)
    case _ => None
  }

  /** Whether a checkbox is ticked; `None` for the other inputs. */
  function FlagOf(f: ContentForm, name: Field): Option<bool> {
    match name
    case IsSubscription => Some(f.isSubscription)
    case IsActive => Some(f.isActive)
    case _ => None
  }

  /** The upload chosen for a file input; `None` for the other inputs. */
  function FileOf(files: Files, name: Field): Option<Option<string>> {
    match name
    case Audio => Some(files.audio)
    case Video => Some(files.video)
    case Thumbnail => Some(files.thumbnail)
    case _ => None
  }

  /** Two forms that agree on every typed input and every checkbox are the
      same form. */
  lemma SameInputsSameForm(a: ContentForm, b: ContentForm)
    requires forall g :: TextOf(a, g) == TextOf(b, g) && FlagOf(a, g) == FlagOf(b, g)
    ensures a == b
  {
    assert TextOf(a, Title) == TextOf(b, Title) && TextOf(a, Description) == TextOf(b, Description);
    assert TextOf(a, Duration) == TextOf(b, Duration) && TextOf(a, Price) == TextOf(b, Price);
    assert FlagOf(a, IsSubscription) == FlagOf(b, IsSubscription) && FlagOf(a, IsActive) == FlagOf(b, IsActive);
  }

  /** `handleChange`: the value lands in the named field and that field's
      message is cleared. A file lands in the file slot of its name; only
      the file inputs `audio`, `video` and `thumbnail` occur. Every other
      input, checkbox and file slot keeps its value. */
  function HandleChange(e: Editor, input: Input): (r: Editor)
    ensures input.TextInput? && TextOf(e.form, input.name).Some? ==>
      TextOf(r.form, input.name) == Some(Text(input.value))
    ensures input.Checkbox? && FlagOf(e.form, input.name).Some? ==>
      FlagOf(r.form, input.name) == Some(input.checked)
    ensures input.FileInput? && FileOf(e.files, input.name).Some? ==>
      FileOf(r.files, input.name) == Some(Some(input.url))
    ensures forall g :: g != input.name ==>
      TextOf(r.form, g) == TextOf(e.form, g) && FlagOf(r.form, g) == FlagOf(e.form, g)
      && FileOf(r.files, g) == FileOf(e.files, g)
    ensures input.name !in r.errors
    ensures forall g :: g != input.name ==> (g in r.errors <==> g in e.errors)
    ensures forall g :: g != input.name && g in e.errors ==> r.errors[g] == e.errors[g]
    ensures r.editing == e.editing
    ensures input.FileInput? ==> r.form == e.form
    ensures !input.FileInput? ==> r.files == e.files
  {
    var errors := ClearError(e.errors, input.name);
    match input
    case FileInput(name, url) =>
      var files :=
        if name == Audio then e.files.(audio := Some(url))
        else if name == Video then e.files.(video := Some(url))
        else if name == Thumbnail then e.files.(thumbnail := Some(url))
        else e.files;
      e.(files := files, errors := errors)
    case Checkbox(name, checked) =>
      var form :=
        if name == IsSubscription then e.form.(isSubscription := checked)
        else if name == IsActive then e.form.(isActive := checked)
        else e.form;
      e.(form := form, errors := errors)
    case TextInput(name, value) =>
      var form :=
        if name == Title then e.form.(title := value)
        else if name == Description then e.form.(description := value)
        else if name == Duration then e.form.(duration := Text(value))
        else if name == Price then e.form.(price := Text(value))
        else e.form;
      e.(form := form, errors := errors)
  }

  /** Choosing a file clears that file input's message but not the
      missing-media one, which stays shown until the next submit. */
  lemma ChoosingMediaKeepsMediaMessage(e: Editor, url: string)
    requires Media in e.errors
    ensures var r := HandleChange(e, FileInput(Audio, url));
      Media in r.errors && r.errors[Media] == e.errors[Media] && r.files.audio == Some(url)
  {
  }

  /** A truthy address: present and not empty. */
  predicate Present(url: Option<string>) {
    url.Some? && url.value != ""
  }

  /** The address of the content being edited, for one media slot. */
  function ExistingAudio(e: Editor): Option<string> {
    if e.editing.Some? then e.editing.value.data.audioUrl else None
  }

  function ExistingVideo(e: Editor): Option<string> {
    if e.editing.Some? then e.editing.value.data.videoUrl else None
  }

  function ExistingThumbnail(e: Editor): Option<string> {
    if e.editing.Some? then e.editing.value.data.thumbnail else None
  }

  /** Some audio or video exists already or has been chosen. */
  predicate HasMedia(e: Editor) {
    Present(ExistingAudio(e)) || Present(ExistingVideo(e)) || e.files.audio.Some? || e.files.video.Some?
  }

  /** The message of each checked field, `None` when it passes: title,
      description and duration must be filled in, the price must pass its
      check when the content is sold by subscription, and some audio or
      video must exist or be chosen. */
  function CheckField(e: Editor, f: Field): (r: Option<string>)
    ensures f == Title ==> (r == None <==> Filled(Text(e.form.title)))
    ensures f == Description ==> (r == None <==> Filled(Text(e.form.description)))
    ensures f == Duration ==> (r == None <==> Filled(e.form.duration))
    ensures f == Price ==> (r == None <==> (e.form.isSubscription ==> ValidatePrice(e.form.price) == None))
    ensures f == Media ==> (r == None <==> HasMedia(e))
  {
    match f
    case Title => ValidateRequired(Text(e.form.title), "Judul")
    case Description => ValidateRequired(Text(e.form.description), "Deskripsi")
    case Duration => ValidateRequired(e.form.duration, "Durasi")
    case Price => if e.form.isSubscription then ValidatePrice(e.form.price) else None
    case Media => if HasMedia(e) then None else Some(MediaRequired)
    case _ => None
  }

  const Checked := [Title, Description, Duration, Price, Media]

  /** `validateForm`. */
  function ValidateForm(e: Editor): (errors: map<Field, string>)
    ensures forall f :: f in errors <==> CheckField(e, f).Some?
    ensures forall f :: f in errors ==> errors[f] == CheckField(e, f).value
  {
    Collect((f: Field) => CheckField(e, f), Checked)
  }

  /** The form passes exactly when title, description and duration are
      filled in, the price passes its check if the content is sold by
      subscription, and some audio or video exists or is chosen. */
  lemma ValidIff(e: Editor)
    ensures ValidateForm(e) == map[] <==>
      Filled(Text(e.form.title)) && Filled(Text(e.form.description)) && Filled(e.form.duration)
      && (e.form.isSubscription ==> ValidatePrice(e.form.price) == None)
      && HasMedia(e)
  {
    ChecksPass(e);
  }

  /** The form check passes exactly when each field's does. */
  lemma ChecksPass(e: Editor)
    ensures ValidateForm(e) == map[] <==>
      CheckField(e, Title) == None && CheckField(e, Description) == None && CheckField(e, Duration) == None
      && CheckField(e, Price) == None && CheckField(e, Media) == None
  {
    var v := ValidateForm(e);
    if v == map[] {
      assert Title !in v && Description !in v && Duration !in v && Price !in v && Media !in v;
    } else {
      var f :| f in v;
    }
  }

  /** One media address of the write: a new upload, else the existing
      address if it is truthy, else left out. */
  function MediaUrl(chosen: Option<string>, existing: Option<string>): (r: Option<string>)
    ensures r.Some? <==> chosen.Some? || Present(existing)
    ensures r.Some? ==> r == chosen || r == existing
  {
    if chosen.Some? then chosen else if Present(existing) then existing else None
  }

  /** `contentData`: the form with the duration read by `parseInt`, the
      price read by `parseFloat` for subscription content and 0 otherwise,
      and the media addresses. */
  function ContentDataOf(e: Editor): (d: ContentData)
    ensures d.title == e.form.title && d.description == e.form.description
    ensures d.isSubscription == e.form.isSubscription && d.isActive == e.form.isActive
    ensures !e.form.isSubscription ==> d.price == Some(0.0)
    ensures e.form.isSubscription ==> d.price == ParseFloatOf(e.form.price)
    ensures d.duration == ParseIntOf(e.form.duration)
  {
    ContentData(e.form.title, e.form.description, ParseIntOf(e.form.duration),
                if e.form.isSubscription then ParseFloatOf(e.form.price) else Some(0.0),
                e.form.isSubscription, e.form.isActive,
                MediaUrl(e.files.audio, ExistingAudio(e)),
                MediaUrl(e.files.video, ExistingVideo(e)),
                MediaUrl(e.files.thumbnail, ExistingThumbnail(e)))
  }

  /** `updateDoc` merges the write into the stored document: every written
      field replaces the stored one, and a media address left out keeps
      the stored value. */
  function Merge(stored: ContentData, write: ContentData): (r: ContentData)
    ensures r.(audioUrl := write.audioUrl, videoUrl := write.videoUrl, thumbnail := write.thumbnail) == write
    ensures r.audioUrl == (if write.audioUrl.Some? then write.audioUrl else stored.audioUrl)
    ensures r.videoUrl == (if write.videoUrl.Some? then write.videoUrl else stored.videoUrl)
    ensures r.thumbnail == (if write.thumbnail.Some? then write.thumbnail else stored.thumbnail)
  {
    write.(audioUrl := if write.audioUrl.Some? then write.audioUrl else stored.audioUrl,
           videoUrl := if write.videoUrl.Some? then write.videoUrl else stored.videoUrl,
           thumbnail := if write.thumbnail.Some? then write.thumbnail else stored.thumbnail)
  }

  /** The page and the store after a submit. */
  datatype Submitted = Submitted(editor: Editor, store: Collection<ContentData>)

  /** `handleSubmit`. With errors nothing is written and the errors are
      shown. Otherwise the content being edited is updated under its id,
      or a new document is created; on success the form is reset. An
      update of a document that no longer exists fails and keeps the form. */
  function HandleSubmit(e: Editor, store: Collection<ContentData>, freshId: string): (r: Submitted)
    requires freshId !in store
    ensures ValidateForm(e) != map[] ==> r == Submitted(e.(errors := ValidateForm(e)), store)
    ensures ValidateForm(e) == map[] && e.editing.None? ==>
      r == Submitted(Closed, Create(store, freshId, ContentDataOf(e)))
    ensures ValidateForm(e) == map[] && e.editing.Some? && e.editing.value.id in store ==>
      var id := e.editing.value.id;
      r == Submitted(Closed, store[id := Merge(store[id], ContentDataOf(e))])
    ensures ValidateForm(e) == map[] && e.editing.Some? && e.editing.value.id !in store ==>
      r == Submitted(e.(errors := map[]), store)
  {
    var errors := ValidateForm(e);
    if errors != map[] then Submitted(e.(errors := errors), store)
    else
      var data := ContentDataOf(e);
      match e.editing
      case None => Submitted(Closed, Create(store, freshId, data))
      case Some(l) =>
        match Update(store, l.id, (stored: ContentData) => Merge(stored, data))
        case Some(s) => Submitted(Closed, s)
        case None => Submitted(e.(errors := map[]), store)
  }

  /** Every document a successful submit writes has an audio or a video
      address, and free content is stored with price 0 whatever the price
      field holds. */
  lemma SavedContentHasMediaAndPrice(e: Editor, store: Collection<ContentData>, freshId: string, id: string)
    requires freshId !in store
    requires ValidateForm(e) == map[]
    requires var after := HandleSubmit(e, store, freshId).store;
      id in after && (id !in store || after[id] != store[id])
    ensures var d := HandleSubmit(e, store, freshId).store[id];
      && (d.audioUrl.Some? || d.videoUrl.Some?)
      && (!e.form.isSubscription ==> d.price == Some(0.0))
      && d.title == e.form.title && d.description == e.form.description
  {
    ValidIff(e);
  }

  /** The form a stored document is put back into by `handleEdit`: numbers
      as their spelling (a stored NaN spells `NaN`). */
  function FormOf(d: ContentData): (f: ContentForm)
    ensures f.title == d.title && f.description == d.description
    ensures f.isSubscription == d.isSubscription && f.isActive == d.isActive
  {
    ContentForm(d.title, d.description,
                if d.duration.Some? then NumberText(d.duration.value as real) else Text("NaN"),
                if d.price.Some? then NumberText(d.price.value) else Text("NaN"),
                d.isSubscription, d.isActive)
  }

  /** `handleEdit`: the form shows the listed content, which becomes the
      one being edited. The chosen files and the shown errors are left as
      they were; closing the dialog does not clear them. */
  function HandleEdit(e: Editor, l: Listed): (r: Editor)
    ensures r.editing == Some(l) && r.files == e.files && r.errors == e.errors
  {
    Editor(FormOf(l.data), e.files, e.errors, Some(l))
  }

  /** Opening a stored document for editing and saving it without changes
      writes it back unchanged, provided its title and description are
      filled in, it has a truthy audio or video address, its duration is a
      whole number, and its price is positive if sold by subscription and 0
      otherwise. */
  lemma EditThenSaveKeepsDocument(e: Editor, store: Collection<ContentData>, freshId: string, l: Listed)
    requires freshId !in store && l.id in store && store[l.id] == l.data
    requires e.files == NoFiles
    requires Filled(Text(l.data.title)) && Filled(Text(l.data.description))
    requires Present(l.data.audioUrl) || Present(l.data.videoUrl)
    requires l.data.duration.Some?
    requires l.data.isSubscription ==> l.data.price.Some? && l.data.price.value > 0.0
    requires !l.data.isSubscription ==> l.data.price == Some(0.0)
    ensures HandleSubmit(HandleEdit(e, l), store, freshId) == Submitted(Closed, store)
  {
    var ed := HandleEdit(e, l);
    ValidIff(ed);
    var d := l.data;
    assert ParseIntOf(ed.form.duration) == Some(Trunc(d.duration.value as real));
    var w := ContentDataOf(ed);
    assert Merge(d, w) == d;
    assert store[l.id := d] == store;
  }

  /** The state `resetForm` leaves (initial values, no files, nothing
      being edited) fails validation on every checked field but the price,
      which free content does not check. */
  lemma ResetFormIsEmpty(e: Editor)
    requires e.form == Initial && e.files == NoFiles && e.editing.None?
    ensures ValidateForm(e).Keys == {Title, Description, Duration, Media}
  {
    var errs := ValidateForm(e);
    forall f
      ensures f in errs <==> f in {Title, Description, Duration, Media}
    {
      match f
      case Title => assert CheckField(e, Title).Some?;
      case Description => assert CheckField(e, Description).Some?;
      case Duration => assert CheckField(e, Duration).Some?;
      case Media => assert CheckField(e, Media).Some?;
      case Price => assert CheckField(e, Price).None?;
      case _ =>
    }
  }
}
