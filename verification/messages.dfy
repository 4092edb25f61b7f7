/** The customer "talk to us" page: the message form, sending a message,
    and the sent and replied lists. */
module TalkToUs {
  import opened Wrappers
  import opened JsValue
  import opened Seqs
  import opened Records
  import opened Validation
  import opened DocStore
  import opened Forms

  const Unread := "unread"
  const Read := "read"
  const Replied := "replied"

  datatype MessageField = Subject | Body

  /** The form, the shown errors and the open tab. */
  datatype Page = Page(subject: string, message: string, errors: map<MessageField, string>, tab: string)

  const Start := Page("", "", map[], "create")

  /** `validateForm`: both fields are required. */
  function ValidateForm(p: Page): (errors: map<MessageField, string>)
    ensures Subject in errors <==> !Filled(Text(p.subject))
    ensures Body in errors <==> !Filled(Text(p.message))
    ensures Subject in errors ==> errors[Subject] == RequiredMessage("Subjek")
    ensures Body in errors ==> errors[Body] == RequiredMessage("Pesan")
  {
    var e := match ValidateRequired(Text(p.subject), "Subjek")
      case Some(m) => map[Subject := m]
      case None => map[];
    match ValidateRequired(Text(p.message), "Pesan")
    case Some(m) => e[Body := m]
    case None => e
  }

  /** `handleChange`: the field takes the value and its error is cleared. */
  function HandleChange(p: Page, f: MessageField, value: string): (r: Page)
    ensures f !in r.errors
    ensures forall g :: g != f ==> (g in r.errors <==> g in p.errors)
    ensures f == Subject ==> r.subject == value && r.message == p.message
    ensures f == Body ==> r.message == value && r.subject == p.subject
  {
    var errors := ClearError(p.errors, f);
    if f == Subject then p.(subject := value, errors := errors) else p.(message := value, errors := errors)
  }

  /** The outcome of sending: the page after it and the store. */
  datatype Sent = Sent(page: Page, store: Collection<Message>)

  /** `handleSubmit`. With errors nothing is written. The message is
      written under a fresh document id with the sender's id, e-mail and
      name from the profile, status unread and an empty reply; a profile
      that is missing or lacks the e-mail or the name makes the write
      fail (the store refuses `undefined`), which keeps the form. On
      success the form is emptied and the sent tab opens. */
  function HandleSubmit(p: Page, store: Collection<Message>, uid: string, profile: Option<UserRecord>,
                        freshId: string, now: real): (r: Sent)
    requires freshId !in store
    ensures ValidateForm(p) != map[] ==> r == Sent(p.(errors := ValidateForm(p)), store)
    ensures ValidateForm(p) == map[] && !Complete(profile) ==> r == Sent(p.(errors := map[]), store)
    ensures ValidateForm(p) == map[] && Complete(profile) ==>
      r == Sent(Page("", "", map[], "sent"), Create(store, freshId, NewMessage(p, uid, profile.value, freshId, now)))
  {
    var errors := ValidateForm(p);
    if errors != map[] then Sent(p.(errors := errors), store)
    else if !Complete(profile) then Sent(p.(errors := errors), store)
    else Sent(Page("", "", map[], "sent"), Create(store, freshId, NewMessage(p, uid, profile.value, freshId, now)))
  }

  /** The profile holds the two fields the message copies. */
  predicate Complete(profile: Option<UserRecord>) {
    profile.Some? && profile.value.email.Some? && profile.value.fullName.Some?
  }

  /** The document a sent message becomes. */
  function NewMessage(p: Page, uid: string, profile: UserRecord, freshId: string, now: real): (m: Message)
    ensures m.userId == uid && m.status == Unread && m.reply == ""
    ensures m.subject == p.subject && m.message == p.message
  {
    Message(freshId, uid, profile.email.GetOr(""), profile.fullName.GetOr(""), p.subject, p.message, Unread, "", now)
  }

  /** The sent list: exactly the messages whose sender is the user. */
  function SentMessages(all: seq<Message>, uid: string): (r: seq<Message>)
    ensures forall i :: 0 <= i < |r| ==> r[i].userId == uid && r[i] in all
    ensures forall m :: m in all && m.userId == uid ==> m in r
  {
    Filter((m: Message) => m.userId == uid, all)
  }

  /** The mailbox: exactly the sent messages that have been replied to. */
  function Mailbox(sent: seq<Message>): (r: seq<Message>)
    ensures forall i :: 0 <= i < |r| ==> r[i].status == Replied && r[i] in sent
    ensures forall m :: m in sent && m.status == Replied ==> m in r
  {
    Filter((m: Message) => m.status == Replied, sent)
  }

  /** A sent message shows up in the sender's list, and only in the
      sender's: it reaches the mailbox once it is replied to. */
  lemma SentMessageIsListed(all: seq<Message>, p: Page, uid: string, profile: UserRecord, freshId: string, now: real)
    ensures var m := NewMessage(p, uid, profile, freshId, now);
      && m in SentMessages(all + [m], uid)
      && m !in Mailbox(SentMessages(all + [m], uid))
      && forall other :: other != uid ==> m !in SentMessages(all + [m], other)
  {
    var m := NewMessage(p, uid, profile, freshId, now);
    assert (all + [m])[|all|] == m;
  }

  /** An empty subject or body blocks sending and leaves the store. */
  lemma EmptyFieldBlocksSending(p: Page, store: Collection<Message>, uid: string, profile: Option<UserRecord>,
                                freshId: string, now: real)
    requires freshId !in store && (p.subject == "" || p.message == "")
    ensures HandleSubmit(p, store, uid, profile, freshId, now).store == store
  {
  }
}

/** The admin message page: the search and status filter, reading and
    replying, and the status each message moves through. */
module MessageAdmin {
  import opened Wrappers
  import opened Text
  import opened Seqs
  import opened Records
  import opened DocStore
  import opened TalkToUs

  /** `filteredMessages`: the subject, sender name or sender e-mail
      contains the term, all folded, and the status is the chosen one. */
  predicate Shown(fold: char -> char, term: string, statusFilter: string, m: Message) {
    (Contains(Lower(fold, m.subject), Lower(fold, term))
     || Contains(Lower(fold, m.userName), Lower(fold, term))
     || Contains(Lower(fold, m.userEmail), Lower(fold, term)))
    && (statusFilter == "all" || m.status == statusFilter)
  }

  function FilteredMessages(fold: char -> char, messages: seq<Message>, term: string, statusFilter: string): (r: seq<Message>)
    ensures statusFilter != "all" ==> forall i :: 0 <= i < |r| ==> r[i].status == statusFilter
    ensures IsSubseq(r, messages)
    ensures forall i :: 0 <= i < |r| ==> Shown(fold, term, statusFilter, r[i])
    ensures forall i :: 0 <= i < |messages| && Shown(fold, term, statusFilter, messages[i]) ==> messages[i] in r
  {
    FilterIsSubseq((m: Message) => Shown(fold, term, statusFilter, m), messages);
    Filter((m: Message) => Shown(fold, term, statusFilter, m), messages)
  }

  /** `getStatusText`. */
  function StatusText(status: string): (r: string)
    ensures status !in {Unread, Read, Replied} ==> r == status
  {
    if status == Unread then "Belum Dibaca"
    else if status == Read then "Dibaca"
    else if status == Replied then "Dibalas"
    else status
  }

  /** `getStatusColor`. */
  function StatusColor(status: string): (r: string)
    ensures status !in {Unread, Read, Replied} <==> r == "bg-gray-100 text-gray-800"
  {
    if status == Unread then "bg-blue-100 text-blue-800"
    else if status == Read then "bg-yellow-100 text-yellow-800"
    else if status == Replied then "bg-green-100 text-green-800"
    else "bg-gray-100 text-gray-800"
  }

  /** `handleMarkAsRead`: sets the status to read and nothing else. */
  function MarkAsRead(store: Collection<Message>, id: string): (r: Option<Collection<Message>>)
    ensures r.None? <==> id !in store
    ensures r.Some? ==> r.value.Keys == store.Keys && r.value[id] == store[id].(status := Read)
    ensures r.Some? ==> forall d :: d in store && d != id ==> r.value[d] == store[d]
  {
    Update(store, id, (m: Message) => m.(status := Read))
  }

  /** `handleReply`: a reply that trims to nothing is refused before any
      write; otherwise the reply text, as typed, is stored and the status
      becomes replied. `None` is a refused or failed reply. */
  function HandleReply(store: Collection<Message>, id: string, replyText: string): (r: Option<Collection<Message>>)
    ensures Trim(replyText) == [] ==> r.None?
    ensures r.Some? ==> id in store && r.value.Keys == store.Keys
    ensures r.Some? ==> r.value[id] == store[id].(status := Replied, reply := replyText)
    ensures r.Some? ==> forall d :: d in store && d != id ==> r.value[d] == store[d]
    ensures Trim(replyText) != [] && id in store ==> r.Some?
  {
    if Trim(replyText) == [] then None
    else Update(store, id, (m: Message) => m.(status := Replied, reply := replyText))
  }

  /** Opening a message from the list marks it read if it was unread and
      otherwise writes nothing. */
  function Open(store: Collection<Message>, id: string): (r: Collection<Message>)
    requires id in store
    ensures store[id].status == Unread ==> r == store[id := store[id].(status := Read)]
    ensures store[id].status != Unread ==> r == store
  {
    if store[id].status == Unread then MarkAsRead(store, id).value else store
  }

  /** The mark-as-read button is offered for unread messages, the reply
      form for messages not yet replied to. */
  predicate MarkReadOffered(m: Message) { m.status == Unread }
  predicate ReplyFormShown(m: Message) { m.status != Replied }

  /** What the admin does to one message. */
  datatype Action = OpenIt | MarkRead | Reply(text: string)

  predicate Offered(m: Message, a: Action) {
    match a
    case OpenIt => true
    case MarkRead => MarkReadOffered(m)
    case Reply(_) => ReplyFormShown(m)
  }

  function Perform(store: Collection<Message>, id: string, a: Action): Collection<Message>
    requires id in store
  {
    match a
    case OpenIt => Open(store, id)
    case MarkRead => MarkAsRead(store, id).value
    case Reply(text) => HandleReply(store, id, text).GetOr(store)
  }

  /** How far along a status is: unread, read, replied. */
  function Stage(status: string): int {
    if status == Unread then 0 else if status == Read then 1 else if status == Replied then 2 else -1
  }

  /** Through the actions the page offers, a message only moves forward:
      unread to read or replied, read to replied. A replied message keeps
      its reply, since no reply form is offered for it. */
  lemma StatusOnlyMovesForward(store: Collection<Message>, id: string, a: Action)
    requires id in store && Stage(store[id].status) >= 0 && Offered(store[id], a)
    ensures var after := Perform(store, id, a);
      && id in after && Stage(after[id].status) >= Stage(store[id].status)
      && (store[id].status == Replied ==> after[id].reply == store[id].reply)
      && forall d :: d in store && d != id ==> d in after && after[d] == store[d]
  {
  }

  /** A sent message becomes visible in its sender's mailbox once the
      admin replies, carrying the reply: in any later snapshot of the
      collection that holds the replied message. */
  lemma ReplyReachesMailbox(store: Collection<Message>, id: string, text: string, uid: string, all: seq<Message>)
    requires id in store && store[id].userId == uid && Trim(text) != []
    requires HandleReply(store, id, text).value[id] in all
    ensures var m := HandleReply(store, id, text).value[id];
      m in Mailbox(SentMessages(all, uid)) && m.reply == text && m.status == Replied
  {
    var m := HandleReply(store, id, text).value[id];
    assert m in SentMessages(all, uid);
  }
}
