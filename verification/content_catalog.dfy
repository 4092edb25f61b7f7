/** The customer content catalogue: the active items, the search and
    free/premium filter, and who counts as subscribed. Case folding is the
    parameter `fold`, the current time the parameter `now`. */
module ContentCatalog {
  import opened Wrappers
  import opened Text
  import opened Seqs
  import opened Records

  /** `activeContent`. */
  function Active(content: seq<ContentRecord>): seq<ContentRecord> {
    Filter((c: ContentRecord) => c.isActive, content)
  }

  /** The title or the description contains the term, both folded. */
  predicate MatchesSearch(fold: char -> char, c: ContentRecord, term: string) {
    Contains(Lower(fold, c.title), Lower(fold, term))
    || Contains(Lower(fold, c.description), Lower(fold, term))
  }

  /** The filter choice: `free`, `premium`, or anything else for all. */
  predicate TypeMatches(filterType: string, c: ContentRecord) {
    if filterType == "free" then !c.isSubscription
    else if filterType == "premium" then c.isSubscription
    else true
  }

  predicate Keep(fold: char -> char, term: string, filterType: string, c: ContentRecord) {
    MatchesSearch(fold, c, term) && TypeMatches(filterType, c)
  }

  /** `filteredContent`. */
  function Filtered(fold: char -> char, content: seq<ContentRecord>, term: string, filterType: string): seq<ContentRecord> {
    Filter((c: ContentRecord) => Keep(fold, term, filterType, c), Active(content))
  }

  /** The listing is an order-preserving subsequence of the active items,
      and every item in it is active and matches the search. */
  lemma FilteredIsActiveSubseq(fold: char -> char, content: seq<ContentRecord>, term: string, filterType: string)
    ensures var r := Filtered(fold, content, term, filterType);
      && IsSubseq(r, Active(content))
      && forall i :: 0 <= i < |r| ==> r[i].isActive && MatchesSearch(fold, r[i], term)
  {
    FilterIsSubseq((c: ContentRecord) => Keep(fold, term, filterType, c), Active(content));
  }

  /** `free` keeps the non-subscription items of the `all` listing and
      `premium` the subscription items, so the two split it between them;
      an unknown filter lists the same as `all`. */
  lemma FreePremiumPartition(fold: char -> char, content: seq<ContentRecord>, term: string, other: string)
    requires other != "free" && other != "premium"
    ensures var all := Filtered(fold, content, term, "all");
      && Filtered(fold, content, term, "free") == Filter((c: ContentRecord) => !c.isSubscription, all)
      && Filtered(fold, content, term, "premium") == Filter((c: ContentRecord) => c.isSubscription, all)
      && |Filtered(fold, content, term, "free")| + |Filtered(fold, content, term, "premium")| == |all|
      && Filtered(fold, content, term, other) == all
  {
    var active := Active(content);
    var search := (c: ContentRecord) => Keep(fold, term, "all", c);
    var free := (c: ContentRecord) => !c.isSubscription;
    var premium := (c: ContentRecord) => c.isSubscription;
    FilterConj(search, free, (c: ContentRecord) => Keep(fold, term, "free", c), active);
    FilterConj(search, premium, (c: ContentRecord) => Keep(fold, term, "premium", c), active);
    FilterSplit(premium, free, Filter(search, active));
    FilterExt((c: ContentRecord) => Keep(fold, term, other, c), search, active);
  }

  /** With an empty search term every active item is listed under `all`. */
  lemma EmptySearchListsAll(fold: char -> char, content: seq<ContentRecord>)
    ensures Filtered(fold, content, "", "all") == Active(content)
  {
    var active := Active(content);
    forall i | 0 <= i < |active|
      ensures Keep(fold, "", "all", active[i])
    {
      ContainsEmpty(Lower(fold, active[i].title));
    }
    FilterAll((c: ContentRecord) => Keep(fold, "", "all", c), active);
  }

  /** `isSubscribed(contentId)`: some subscription for the id is active and
      ends after now. */
  predicate IsSubscribed(subs: seq<Subscription>, contentId: string, now: real) {
    exists i :: 0 <= i < |subs| && subs[i].contentId == contentId && subs[i].isActive && subs[i].endDate > now
  }

  /** The subscriptions the page loads: the signed-in user's, or, with no
      user, the query without a condition, which returns every user's. */
  function LoadedSubscriptions(user: Option<string>, all: seq<Subscription>): seq<Subscription> {
    match user
    case Some(uid) => Filter((s: Subscription) => s.userId == uid, all)
    case None => all
  }

  /** The subscriptions a viewer was meant to see: only their own, and
      none when signed out. */
  function OwnSubscriptions(user: Option<string>, all: seq<Subscription>): (r: seq<Subscription>)
    ensures user == None ==> r == []
    ensures forall i :: 0 <= i < |r| ==> user.Some? && r[i].userId == user.value
  {
    match user
    case Some(uid) => Filter((s: Subscription) => s.userId == uid, all)
    case None => []
  }

  /** As loaded, a signed-out visitor counts as subscribed to premium
      content whenever any user holds a live subscription for it. */
  lemma SignedOutSeesOthersSubscriptions(sub: Subscription, now: real)
    requires sub.isActive && sub.endDate > now
    ensures IsSubscribed(LoadedSubscriptions(None, [sub]), sub.contentId, now)
  {
    assert [sub][0] == sub;
  }

  /** With the intended query a signed-out visitor is subscribed to nothing,
      and a signed-in user only through their own subscriptions. */
  lemma OwnSubscriptionsOnly(user: Option<string>, all: seq<Subscription>, contentId: string, now: real)
    ensures var own := OwnSubscriptions(user, all);
      && (user == None ==> !IsSubscribed(own, contentId, now))
      && (IsSubscribed(own, contentId, now) ==>
            exists i :: 0 <= i < |all| && all[i].userId == user.value && all[i].contentId == contentId
              && all[i].isActive && all[i].endDate > now)
  {
    var own := OwnSubscriptions(user, all);
    if IsSubscribed(own, contentId, now) {
      var i :| 0 <= i < |own| && own[i].contentId == contentId && own[i].isActive && own[i].endDate > now;
      assert own[i] in all;
      var j :| 0 <= j < |all| && all[j] == own[i];
    }
  }
}

/** The content player page: which item is shown, whether the viewer may
    play it, and the guards on play/pause and seek. */
module ContentPlayer {
  import opened Wrappers
  import opened Records
  import opened ContentCatalog
  import opened ContentCardView

  /** `content.find(item => item.id === id)`: the first item with the id. */
  function FindById(content: seq<ContentRecord>, id: string): (r: Option<ContentRecord>)
    ensures r.Some? ==> r.value in content && r.value.id == id
    ensures r.None? ==> forall i :: 0 <= i < |content| ==> content[i].id != id
    ensures r.Some? ==> exists i :: 0 <= i < |content| && content[i] == r.value
                                    && forall j :: 0 <= j < i ==> content[j].id != id
  {
    if content == [] then None
    else if content[0].id == id then Some(content[0])
    else
      var r := FindById(content[1..], id);
      if r.Some? then
        var i :| 0 <= i < |content| - 1 && content[1..][i] == r.value
                 && forall j :: 0 <= j < i ==> content[1..][j].id != id;
        assert forall j :: 0 <= j < i + 1 ==> content[j].id != id by {
          forall j | 0 <= j < i + 1 ensures content[j].id != id {
            if j > 0 { assert content[j] == content[1..][j - 1]; }
          }
        }
        assert content[i + 1] == r.value;
        r
      else r
  }

  /** `isSubscribed` of the page: for subscription content, a live
      subscription for this id; otherwise true. */
  predicate DetailSubscribed(current: Option<ContentRecord>, subs: seq<Subscription>, id: string, now: real) {
    if current.Some? && current.value.isSubscription then IsSubscribed(subs, id, now) else true
  }

  /** `canAccess`. */
  predicate CanAccess(current: Option<ContentRecord>, subs: seq<Subscription>, id: string, now: real) {
    !(current.Some? && current.value.isSubscription) || DetailSubscribed(current, subs, id, now)
  }

  /** Free content is always playable; premium content exactly when a
      subscription for this very id is active and ends after now, so
      subscriptions for other ids never open it. */
  lemma AccessRule(c: ContentRecord, subs: seq<Subscription>, now: real)
    ensures !c.isSubscription ==> CanAccess(Some(c), subs, c.id, now)
    ensures c.isSubscription ==>
      (CanAccess(Some(c), subs, c.id, now) <==>
        exists i :: 0 <= i < |subs| && subs[i].contentId == c.id && subs[i].isActive && subs[i].endDate > now)
  {
  }

  /** The catalogue card offers "listen" exactly when the player page
      grants access. */
  lemma CardAgreesWithPlayer(c: ContentRecord, subs: seq<Subscription>, now: real)
    ensures ActionShown(c, IsSubscribed(subs, c.id, now)) == Listen <==> CanAccess(Some(c), subs, c.id, now)
  {
  }

  /** The player's state that the handlers change. */
  datatype Player = Player(isPlaying: bool, currentTime: real)

  /** `togglePlayPause`: with no media element or no access nothing
      happens; otherwise playing flips. */
  function TogglePlayPause(p: Player, hasMedia: bool, canAccess: bool): (r: Player)
    ensures !hasMedia || !canAccess ==> r == p
    ensures hasMedia && canAccess ==> r.isPlaying == !p.isPlaying && r.currentTime == p.currentTime
  {
    if !hasMedia || !canAccess then p else p.(isPlaying := !p.isPlaying)
  }

  /** Toggling twice with access restores the state. */
  lemma ToggleTwice(p: Player, hasMedia: bool, canAccess: bool)
    ensures TogglePlayPause(TogglePlayPause(p, hasMedia, canAccess), hasMedia, canAccess) == p
  {
  }

  /** `handleSeek`, with the position computed from the click as a
      parameter. */
  function HandleSeek(p: Player, hasMedia: bool, canAccess: bool, newTime: real): (r: Player)
    ensures !hasMedia || !canAccess ==> r == p
    ensures hasMedia && canAccess ==> r == Player(p.isPlaying, newTime)
  {
    if !hasMedia || !canAccess then p else p.(currentTime := newTime)
  }
}
