/** The admin dashboard's logic: the overview counters, the "Change
    Status" rule for orders, the recent-items panels and the status
    badges. Each data set is `None` until its request has answered. */
module Dashboard {
  import opened Wrappers
  import opened Table
  import opened Schema
  import Storage

  // ---------------------------------------------------------------------
  // Order status cycle
  // ---------------------------------------------------------------------

  predicate IsKnownStatus(status: string) {
    status == "pending" || status == "in-progress" || status == "completed"
  }

  /** "Change Status": pending, then in-progress, then completed, then
      pending again; an unrecognised status restarts at pending. */
  function NextStatus(status: string): (r: string)
    ensures IsKnownStatus(r)
    ensures !IsKnownStatus(status) ==> r == "pending"
    ensures r == "pending" <==> status != "pending" && status != "in-progress"
  {
    if status == "pending" then "in-progress"
    else if status == "in-progress" then "completed"
    else "pending"
  }

  /** Three presses from a known status come back to it, and no fewer do. */
  lemma StatusCycle(status: string)
    requires IsKnownStatus(status)
    ensures NextStatus(NextStatus(NextStatus(status))) == status
    ensures NextStatus(status) != status && NextStatus(NextStatus(status)) != status
  {
  }

  // ---------------------------------------------------------------------
  // Overview counters
  // ---------------------------------------------------------------------

  datatype Analytics = Analytics(
    totalOrders: nat,
    totalFreelancers: nat,
    totalPortfolioItems: nat,
    totalMessages: nat,
    pendingOrders: nat,
    pendingFreelancers: nat,
    unreadMessages: nat)

  /** `xs?.length || 0`. */
  function LengthOr0<T>(xs: Option<seq<T>>): (n: nat)
    ensures xs.None? ==> n == 0
    ensures xs.Some? ==> n == |xs.value|
  {
    match xs
    case None => 0
    case Some(v) => |v|
  }

  /** `xs?.filter(p).length || 0`. */
  function CountOr0<T(==,!new)>(xs: Option<seq<Row<T>>>, p: Row<T> -> bool): (n: nat)
    ensures xs.None? ==> n == 0
    ensures n <= LengthOr0(xs)
    ensures xs.Some? ==> n == |Filter(xs.value, p)|
  {
    match xs
    case None => 0
    case Some(v) => |Filter(v, p)|
  }

  predicate OrderPending(o: Order) { o.data.status == "pending" }
  predicate FreelancerPending(f: Freelancer) { f.data.status == "pending" }
  predicate MessageUnread(m: ContactMessage) { !m.data.read }

  /** The overview counters. A data set that has not arrived counts 0, and
      no sub-count exceeds its total. */
  function ComputeAnalytics(
    portfolioItems: Option<seq<Portfolio>>,
    orders: Option<seq<Order>>,
    freelancers: Option<seq<Freelancer>>,
    contactMessages: Option<seq<ContactMessage>>): (a: Analytics)
    ensures a.pendingOrders <= a.totalOrders
    ensures a.pendingFreelancers <= a.totalFreelancers
    ensures a.unreadMessages <= a.totalMessages
    ensures orders.None? ==> a.totalOrders == 0 && a.pendingOrders == 0
    ensures freelancers.None? ==> a.totalFreelancers == 0 && a.pendingFreelancers == 0
    ensures contactMessages.None? ==> a.totalMessages == 0 && a.unreadMessages == 0
    ensures portfolioItems.None? ==> a.totalPortfolioItems == 0
  {
    Analytics(
      LengthOr0(orders),
      LengthOr0(freelancers),
      LengthOr0(portfolioItems),
      LengthOr0(contactMessages),
      CountOr0(orders, OrderPending),
      CountOr0(freelancers, FreelancerPending),
      CountOr0(contactMessages, MessageUnread))
  }

  /** Every order the server has stored counts as pending until its status
      is changed, so a new order raises both the total and the pending
      count by one. */
  lemma NewOrderIsCountedPending(s: Storage.MemStorage, ins: InsertOrder, createdAt: string)
    ensures var before := ComputeAnalytics(None, Some(Storage.GetOrders(s)), None, None);
      var after := ComputeAnalytics(None, Some(Storage.GetOrders(Storage.CreateOrder(s, ins, createdAt).store)), None, None);
      && after.totalOrders == before.totalOrders + 1
      && after.pendingOrders == before.pendingOrders + 1
  {
    var r := Storage.CreateOrder(s, ins, createdAt);
    FilterAppend(s.orders.rows, r.out, OrderPending);
  }

  // ---------------------------------------------------------------------
  // Recent panels and badges
  // ---------------------------------------------------------------------

  /** `xs.slice(0, 5)`: the first five records, or all of them when there
      are fewer, in list order. */
  function Recent<T>(xs: seq<T>): (r: seq<T>)
    ensures |r| == if |xs| < 5 then |xs| else 5
    ensures forall k :: 0 <= k < |r| ==> r[k] == xs[k]
  {
    if |xs| < 5 then xs else xs[..5]
  }

  datatype Badge = Yellow | Green | Blue | Red | Gray

  /** The colour of an order's status badge. */
  function OrderBadge(status: string): (b: Badge)
    ensures b in {Yellow, Green, Blue}
    ensures b == Yellow <==> status == "pending"
    ensures b == Green <==> status == "completed"
  {
    if status == "pending" then Yellow
    else if status == "completed" then Green
    else Blue
  }

  /** The colour of a freelancer application's status badge. */
  function FreelancerBadge(status: string): (b: Badge)
    ensures b in {Yellow, Green, Red}
    ensures b == Yellow <==> status == "pending"
    ensures b == Green <==> status == "approved"
  {
    if status == "pending" then Yellow
    else if status == "approved" then Green
    else Red
  }

  /** The colour of a message's read badge. */
  function MessageBadge(read: bool): (b: Badge)
    ensures b == Red <==> !read
    ensures b in {Red, Gray}
  {
    if !read then Red else Gray
  }

  /** Going round the status cycle shows yellow, then blue, then green. */
  lemma BadgesAlongTheCycle()
    ensures OrderBadge("pending") == Yellow
    ensures OrderBadge(NextStatus("pending")) == Blue
    ensures OrderBadge(NextStatus(NextStatus("pending"))) == Green
  {
  }

  /** A stored order is shown with the pending badge until its status
      changes, and a stored message with the unread badge until it is
      marked read. */
  lemma NewRecordsBadges(s: Storage.MemStorage, o: InsertOrder, c: InsertContact, t: string)
    ensures OrderBadge(Storage.CreateOrder(s, o, t).out.data.status) == Yellow
    ensures MessageBadge(Storage.CreateContactMessage(s, c, t).out.data.read) == Red
  {
  }
}
