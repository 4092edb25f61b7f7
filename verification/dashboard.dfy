/** The admin dashboard: the totals it shows, the revenue of paid orders
    and the five newest orders and users. */
module Dashboard {
  import opened Seqs
  import opened Sorting
  import opened Records

  predicate IsPaid(o: Order) {
    o.paymentStatus == "paid"
  }

  /** `totalRevenue`: the amounts of the paid orders, added up. */
  function TotalRevenue(orders: seq<Order>): real {
    Sum((o: Order) => o.totalAmount, Filter(IsPaid, orders))
  }

  /** The revenue is the sum over all orders in which an unpaid order
      counts as zero. */
  lemma RevenueCountsOnlyPaid(orders: seq<Order>)
    ensures TotalRevenue(orders) == Sum((o: Order) => if IsPaid(o) then o.totalAmount else 0.0, orders)
  {
    var paidAmount := (o: Order) => if IsPaid(o) then o.totalAmount else 0.0;
    SumFilterZero(paidAmount, IsPaid, orders);
    SumAgree(Filter(IsPaid, orders));
  }

  /** On paid orders the two ways of counting agree term by term. */
  lemma {:induction false} SumAgree(paid: seq<Order>)
    requires forall i :: 0 <= i < |paid| ==> IsPaid(paid[i])
    ensures Sum((o: Order) => o.totalAmount, paid) == Sum((o: Order) => if IsPaid(o) then o.totalAmount else 0.0, paid)
  {
    if paid != [] {
      SumAgree(paid[..|paid| - 1]);
    }
  }

  /** A new order adds its amount to the revenue when it is paid and
      nothing otherwise. */
  lemma NewOrderRevenue(orders: seq<Order>, o: Order)
    ensures TotalRevenue(orders + [o]) == TotalRevenue(orders) + (if IsPaid(o) then o.totalAmount else 0.0)
  {
    FilterAppend(IsPaid, orders, [o]);
    assert [o][1..] == [];
    SumAppend((o: Order) => o.totalAmount, Filter(IsPaid, orders), Filter(IsPaid, [o]));
    if IsPaid(o) {
      assert [o][..0] == [];
    }
  }

  /** With non-negative amounts the revenue is non-negative. */
  lemma RevenueNonNegative(orders: seq<Order>)
    requires forall i :: 0 <= i < |orders| ==> orders[i].totalAmount >= 0.0
    ensures TotalRevenue(orders) >= 0.0
  {
    SumNonNegative((o: Order) => o.totalAmount, Filter(IsPaid, orders));
  }

  /** The figures of the stat cards. */
  datatype Stats = Stats(users: nat, content: nat, products: nat, orders: nat, unreadMessages: nat, revenue: real)

  function ComputeStats(users: seq<UserRecord>, content: seq<ContentRecord>, products: seq<Product>,
                        orders: seq<Order>, messages: seq<Message>): (s: Stats)
    ensures s.users == |users| && s.content == |content| && s.products == |products| && s.orders == |orders|
    ensures s.unreadMessages == |Filter((m: Message) => m.status == "unread", messages)|
    ensures s.unreadMessages <= |messages|
    ensures s.revenue == TotalRevenue(orders)
  {
    CountIsFilterLength((m: Message) => m.status == "unread", messages);
    Stats(|users|, |content|, |products|, |orders|,
          Count((m: Message) => m.status == "unread", messages), TotalRevenue(orders))
  }

  /** `recentOrders`: the five newest orders, newest first. */
  function RecentOrders(orders: seq<Order>): seq<Order> {
    Take(Sort((o: Order) => -o.createdAt, orders), 5)
  }

  /** `recentUsers`: the five newest users, newest first. */
  function RecentUsers(users: seq<UserRecord>): seq<UserRecord> {
    Take(Sort((u: UserRecord) => -u.createdAt, users), 5)
  }

  /** At most five orders, newest first, all from the list; any order left
      out is no newer than every order shown. */
  lemma RecentOrdersAreNewest(orders: seq<Order>)
    ensures var r := RecentOrders(orders);
      && |r| == (if |orders| < 5 then |orders| else 5)
      && (forall i, j :: 0 <= i < j < |r| ==> r[i].createdAt >= r[j].createdAt)
      && (forall i :: 0 <= i < |r| ==> r[i] in orders)
      && (forall o :: o in orders && o !in r ==> forall i :: 0 <= i < |r| ==> o.createdAt <= r[i].createdAt)
  {
    var key := (o: Order) => -o.createdAt;
    var sorted := Sort(key, orders);
    var r := RecentOrders(orders);
    SortSorted(key, orders);
    forall i | 0 <= i < |r| ensures r[i] in orders {
      assert r[i] == sorted[i];
      SortSameMembers(key, orders, r[i]);
    }
    forall o | o in orders && o !in r ensures forall i :: 0 <= i < |r| ==> o.createdAt <= r[i].createdAt {
      TopIsMinimal(key, orders, 5, o);
    }
  }

  /** The same for users. */
  lemma RecentUsersAreNewest(users: seq<UserRecord>)
    ensures var r := RecentUsers(users);
      && |r| == (if |users| < 5 then |users| else 5)
      && (forall i, j :: 0 <= i < j < |r| ==> r[i].createdAt >= r[j].createdAt)
      && (forall i :: 0 <= i < |r| ==> r[i] in users)
      && (forall u :: u in users && u !in r ==> forall i :: 0 <= i < |r| ==> u.createdAt <= r[i].createdAt)
  {
    var key := (u: UserRecord) => -u.createdAt;
    var sorted := Sort(key, users);
    var r := RecentUsers(users);
    SortSorted(key, users);
    forall i | 0 <= i < |r| ensures r[i] in users {
      assert r[i] == sorted[i];
      SortSameMembers(key, users, r[i]);
    }
    forall u | u in users && u !in r ensures forall i :: 0 <= i < |r| ==> u.createdAt <= r[i].createdAt {
      TopIsMinimal(key, users, 5, u);
    }
  }
}
