/** The admin user page: the search and role filter, blocking and role
    changes on the `users` collection, and the CSV export. The date
    formatting of the export is the parameter `formatDate`. */
module UserAdmin {
  import opened Wrappers
  import opened Text
  import opened Seqs
  import opened Records
  import opened DocStore
  import opened RouteGuard

  /** `field?.toLowerCase().includes(term)`: a missing field never
      matches, not even the empty term. */
  predicate FieldMatches(fold: char -> char, field: Option<string>, term: string) {
    field.Some? && Contains(Lower(fold, field.value), Lower(fold, term))
  }

  /** `filteredUsers`. */
  predicate Shown(fold: char -> char, term: string, filterRole: string, u: UserRecord) {
    (FieldMatches(fold, u.fullName, term) || FieldMatches(fold, u.email, term) || FieldMatches(fold, u.username, term))
    && (filterRole == "all" || u.role == filterRole)
  }

  function FilteredUsers(fold: char -> char, users: seq<UserRecord>, term: string, filterRole: string): (r: seq<UserRecord>)
    ensures filterRole != "all" ==> forall i :: 0 <= i < |r| ==> r[i].role == filterRole
    ensures IsSubseq(r, users)
    ensures forall i :: 0 <= i < |r| ==> Shown(fold, term, filterRole, r[i])
    ensures forall i :: 0 <= i < |users| && Shown(fold, term, filterRole, users[i]) ==> users[i] in r
  {
    FilterIsSubseq((u: UserRecord) => Shown(fold, term, filterRole, u), users);
    Filter((u: UserRecord) => Shown(fold, term, filterRole, u), users)
  }

  /** With no search term and every role, a user is listed exactly when
      the document has a name, an e-mail or a username. */
  lemma EmptySearchNeedsSomeField(fold: char -> char, users: seq<UserRecord>, u: UserRecord)
    requires u in users
    ensures u in FilteredUsers(fold, users, "", "all") <==> u.fullName.Some? || u.email.Some? || u.username.Some?
  {
    if u.fullName.Some? { ContainsEmpty(Lower(fold, u.fullName.value)); }
    if u.email.Some? { ContainsEmpty(Lower(fold, u.email.value)); }
    if u.username.Some? { ContainsEmpty(Lower(fold, u.username.value)); }
  }

  /** `handleBlockUser(user.id, user.isBlocked)`: writes the negation of
      the flag as listed. */
  function ToggleBlock(store: Collection<UserRecord>, uid: string, listedBlocked: bool): (r: Option<Collection<UserRecord>>)
    ensures r.None? <==> uid !in store
    ensures r.Some? ==> r.value.Keys == store.Keys && r.value[uid] == store[uid].(isBlocked := !listedBlocked)
    ensures r.Some? ==> forall d :: d in store && d != uid ==> r.value[d] == store[d]
  {
    Update(store, uid, (u: UserRecord) => u.(isBlocked := !listedBlocked))
  }

  /** `handleRoleChange`: writes the chosen role and nothing else. */
  function ChangeRole(store: Collection<UserRecord>, uid: string, newRole: string): (r: Option<Collection<UserRecord>>)
    ensures r.None? <==> uid !in store
    ensures r.Some? ==> r.value.Keys == store.Keys && r.value[uid] == store[uid].(role := newRole)
    ensures r.Some? ==> forall d :: d in store && d != uid ==> r.value[d] == store[d]
  {
    Update(store, uid, (u: UserRecord) => u.(role := newRole))
  }

  /** Toggling with the current flag flips it and nothing else; toggling
      again with the new flag restores the document. */
  lemma ToggleTwiceRestores(store: Collection<UserRecord>, uid: string)
    requires uid in store
    ensures var once := ToggleBlock(store, uid, store[uid].isBlocked).value;
      && once[uid] == store[uid].(isBlocked := !store[uid].isBlocked)
      && ToggleBlock(once, uid, once[uid].isBlocked) == Some(store)
  {
    var once := ToggleBlock(store, uid, store[uid].isBlocked).value;
    assert once[uid := store[uid]] == store;
  }

  /** Once blocked, the user's signed-in visits to customer pages show the
      blocked notice; an admin who is blocked still passes the role check
      of admin pages and sees the notice there too. */
  lemma BlockedUserSeesNotice(store: Collection<UserRecord>, uid: string, adminOnly: bool)
    requires uid in store && !store[uid].isBlocked
    ensures var after := ToggleBlock(store, uid, false).value;
      var a := AuthState(false, Some(uid), Some(after[uid]));
      Decide(a, adminOnly) == (if adminOnly && store[uid].role != "admin" then RedirectHome else ShowBlocked)
  {
  }

  /** Making an unblocked user an admin opens the admin pages to them. */
  lemma PromotionOpensAdminPages(store: Collection<UserRecord>, uid: string)
    requires uid in store && !store[uid].isBlocked
    ensures var after := ChangeRole(store, uid, "admin").value;
      Decide(AuthState(false, Some(uid), Some(after[uid])), true) == RenderChildren
  {
  }

  /** The column titles, joined by commas into the header line. */
  const Titles := ["Nama", "Email", "Username", "Role", "Status", "Tanggal Daftar"]
  const Header := Join(Titles, ',')

  /** `String(x)` of an array element in `join`: a missing value is empty. */
  function Cell(x: Option<string>): string {
    x.GetOr("")
  }

  /** The six cells of a user's row. */
  function Cells(formatDate: real -> string, u: UserRecord): (c: seq<string>)
    ensures |c| == 6
  {
    [Cell(u.fullName), Cell(u.email), Cell(u.username), u.role,
     if u.isBlocked then "Diblokir" else "Aktif", formatDate(u.createdAt)]
  }

  /** A user's line: the cells joined by commas. */
  function Row(formatDate: real -> string, u: UserRecord): string {
    Join(Cells(formatDate, u), ',')
  }

  /** One row per listed user, in order. */
  function Rows(formatDate: real -> string, users: seq<UserRecord>): (rows: seq<string>)
    ensures |rows| == |users|
    ensures forall i :: 0 <= i < |users| ==> rows[i] == Row(formatDate, users[i])
  {
    seq(|users|, i requires 0 <= i < |users| => Row(formatDate, users[i]))
  }

  /** The header, then one row per listed user, in order. */
  function CsvLines(formatDate: real -> string, users: seq<UserRecord>): (lines: seq<string>)
    ensures |lines| == |users| + 1 && lines[0] == Header
    ensures forall i :: 0 <= i < |users| ==> lines[i + 1] == Row(formatDate, users[i])
  {
    [Header] + Rows(formatDate, users)
  }

  /** `exportUsers`' file content. */
  function Csv(formatDate: real -> string, users: seq<UserRecord>): string {
    Join(CsvLines(formatDate, users), '\n')
  }

  /** No cell of the user's row holds `c`. */
  predicate CellsAvoid(formatDate: real -> string, u: UserRecord, c: char) {
    forall k :: 0 <= k < 6 ==> c !in Cells(formatDate, u)[k]
  }

  /** The header is a single line. */
  lemma HeaderHasOneLine()
    ensures '\n' !in Header
  {
    forall k | 0 <= k < |Titles|
      ensures '\n' !in Titles[k]
    {
    }
    JoinAvoids(Titles, ',', '\n');
  }

  /** Reading the export back: when no cell holds a comma or a line break,
      splitting the file at line breaks gives the header and one line per
      user, and splitting a line at commas gives the user's six cells. A
      comma inside a name is not quoted, so the round trip needs it. */
  lemma {:induction false} CsvRoundTrip(formatDate: real -> string, users: seq<UserRecord>)
    requires forall i :: 0 <= i < |users| ==> CellsAvoid(formatDate, users[i], ',') && CellsAvoid(formatDate, users[i], '\n')
    ensures var lines := Split(Csv(formatDate, users), '\n');
      && |lines| == |users| + 1
      && lines[0] == Header
      && forall i :: 0 <= i < |users| ==> Split(lines[i + 1], ',') == Cells(formatDate, users[i])
  {
    var lines := CsvLines(formatDate, users);
    forall i | 0 <= i < |lines| ensures '\n' !in lines[i] {
      if i > 0 {
        JoinAvoids(Cells(formatDate, users[i - 1]), ',', '\n');
      } else {
        HeaderHasOneLine();
      }
    }
    SplitJoin(lines, '\n');
    forall i | 0 <= i < |users| ensures Split(lines[i + 1], ',') == Cells(formatDate, users[i]) {
      SplitJoin(Cells(formatDate, users[i]), ',');
    }
  }

  /** A character in no piece and unequal to the separator is not in the
      joined text. */
  lemma {:induction false} JoinAvoids(parts: seq<string>, sep: char, c: char)
    requires c != sep && forall k :: 0 <= k < |parts| ==> c !in parts[k]
    ensures c !in Join(parts, sep)
  {
    if |parts| > 1 {
      JoinAvoids(parts[1..], sep, c);
    }
  }
}
