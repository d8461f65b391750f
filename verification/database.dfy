/** The storage interface as a set of calls, `MemStorage` answering them,
    and `DatabaseStorage`, which owns one `MemStorage` and forwards every
    call to it. The server's `storage` object is a `DatabaseStorage`. */
module Database {
  import opened Wrappers
  import opened Table
  import opened Schema
  import Storage

  /** One call of the storage interface with its arguments; the creation
      timestamp is an argument of every create that stamps a record. */
  datatype Call =
    | GetUser(id: int)
    | GetUserByUsername(username: string)
    | CreateUser(insertUser: InsertUser)
    | GetPortfolioItems
    | GetPortfolioItemById(id: int)
    | GetPortfolioItemsByCategory(category: string)
    | GetFeaturedPortfolioItems
    | CreatePortfolioItem(insertItem: InsertPortfolio)
    | UpdatePortfolioItem(id: int, updatedFields: PortfolioPatch)
    | DeletePortfolioItem(id: int)
    | GetOrders
    | GetOrderById(id: int)
    | CreateOrder(insertOrder: InsertOrder, createdAt: string)
    | UpdateOrderStatus(id: int, status: string)
    | GetFreelancers
    | GetFreelancerById(id: int)
    | CreateFreelancer(insertFreelancer: InsertFreelancer, createdAt: string)
    | UpdateFreelancerStatus(id: int, status: string)
    | GetContactMessages
    | GetContactMessageById(id: int)
    | CreateContactMessage(insertMessage: InsertContact, createdAt: string)
    | MarkContactMessageAsRead(id: int)
    | GetNewsletterSubscribers
    | CreateNewsletterSubscriber(insertSubscriber: InsertNewsletter, createdAt: string)
    | IsEmailSubscribed(email: string)

  /** What a call resolves to. */
  datatype Answer =
    | UserOrNone(user: Option<User>)
    | UserRecord(createdUser: User)
    | PortfolioRecords(items: seq<Portfolio>)
    | PortfolioOrNone(item: Option<Portfolio>)
    | PortfolioRecord(createdItem: Portfolio)
    | Flag(flag: bool)
    | OrderRecords(orders: seq<Order>)
    | OrderOrNone(order: Option<Order>)
    | OrderRecord(createdOrder: Order)
    | FreelancerRecords(freelancers: seq<Freelancer>)
    | FreelancerOrNone(freelancer: Option<Freelancer>)
    | FreelancerRecord(createdFreelancer: Freelancer)
    | ContactRecords(messages: seq<ContactMessage>)
    | ContactOrNone(message: Option<ContactMessage>)
    | ContactRecord(createdMessage: ContactMessage)
    | SubscriberRecords(subscribers: seq<NewsletterSubscriber>)
    | SubscriberRecord(subscriber: NewsletterSubscriber)

  /** The calls that only read the store. */
  predicate IsQuery(c: Call) {
    || c.GetUser? || c.GetUserByUsername? || c.GetPortfolioItems? || c.GetPortfolioItemById?
    || c.GetPortfolioItemsByCategory? || c.GetFeaturedPortfolioItems? || c.GetOrders?
    || c.GetOrderById? || c.GetFreelancers? || c.GetFreelancerById? || c.GetContactMessages?
    || c.GetContactMessageById? || c.GetNewsletterSubscribers? || c.IsEmailSubscribed?
  }

  /** No id counter of `t` is behind the same counter of `s`. */
  predicate CountersKept(s: Storage.MemStorage, t: Storage.MemStorage) {
    && s.users.next <= t.users.next
    && s.portfolioItems.next <= t.portfolioItems.next
    && s.orders.next <= t.orders.next
    && s.freelancers.next <= t.freelancers.next
    && s.contactMessages.next <= t.contactMessages.next
    && s.newsletterSubscribers.next <= t.newsletterSubscribers.next
  }

  /** The user and portfolio calls. */
  predicate IsPortfolioCall(c: Call) {
    || c.GetUser? || c.GetUserByUsername? || c.CreateUser? || c.GetPortfolioItems?
    || c.GetPortfolioItemById? || c.GetPortfolioItemsByCategory? || c.GetFeaturedPortfolioItems?
    || c.CreatePortfolioItem? || c.UpdatePortfolioItem? || c.DeletePortfolioItem?
  }

  /** The order calls. */
  predicate IsOrderCall(c: Call) {
    c.GetOrders? || c.GetOrderById? || c.CreateOrder? || c.UpdateOrderStatus?
  }

  /** The freelancer calls. */
  predicate IsFreelancerCall(c: Call) {
    c.GetFreelancers? || c.GetFreelancerById? || c.CreateFreelancer? || c.UpdateFreelancerStatus?
  }

  /** `MemStorage` answering one call. Every call keeps the store
      invariant, no call moves a counter back, and queries change nothing. */
  function Apply(s: Storage.MemStorage, c: Call): (r: Storage.Step<Answer>)
    ensures Storage.Invariant(s) ==> Storage.Invariant(r.store)
    ensures CountersKept(s, r.store)
    ensures IsQuery(c) ==> r.store == s
  {
    if IsPortfolioCall(c) then ApplyPortfolioCall(s, c)
    else if IsOrderCall(c) then ApplyOrderCall(s, c)
    else if IsFreelancerCall(c) then ApplyFreelancerCall(s, c)
    else ApplyMessageCall(s, c)
  }

  /** The user and portfolio calls. */
  function ApplyPortfolioCall(s: Storage.MemStorage, c: Call): (r: Storage.Step<Answer>)
    requires IsPortfolioCall(c)
    ensures Storage.Invariant(s) ==> Storage.Invariant(r.store)
    ensures CountersKept(s, r.store)
    ensures IsQuery(c) ==> r.store == s
  {
    match c
    case GetUser(id) => Storage.Step(UserOrNone(Storage.GetUser(s, id)), s)
    case GetUserByUsername(name) => Storage.Step(UserOrNone(Storage.GetUserByUsername(s, name)), s)
    case CreateUser(ins) =>
      var r := Storage.CreateUser(s, ins);
      Storage.Step(UserRecord(r.out), r.store)
    case GetPortfolioItems => Storage.Step(PortfolioRecords(Storage.GetPortfolioItems(s)), s)
    case GetPortfolioItemById(id) => Storage.Step(PortfolioOrNone(Storage.GetPortfolioItemById(s, id)), s)
    case GetPortfolioItemsByCategory(category) =>
      Storage.Step(PortfolioRecords(Storage.GetPortfolioItemsByCategory(s, category)), s)
    case GetFeaturedPortfolioItems => Storage.Step(PortfolioRecords(Storage.GetFeaturedPortfolioItems(s)), s)
    case CreatePortfolioItem(ins) =>
      var r := Storage.CreatePortfolioItem(s, ins);
      Storage.Step(PortfolioRecord(r.out), r.store)
    case UpdatePortfolioItem(id, patch) =>
      var r := Storage.UpdatePortfolioItem(s, id, patch);
      Storage.Step(PortfolioOrNone(r.out), r.store)
    case DeletePortfolioItem(id) =>
      var r := Storage.DeletePortfolioItem(s, id);
      Storage.Step(Flag(r.out), r.store)
  }

  /** The order calls. */
  function ApplyOrderCall(s: Storage.MemStorage, c: Call): (r: Storage.Step<Answer>)
    requires IsOrderCall(c)
    ensures Storage.Invariant(s) ==> Storage.Invariant(r.store)
    ensures CountersKept(s, r.store)
    ensures IsQuery(c) ==> r.store == s
  {
    match c
    case GetOrders => Storage.Step(OrderRecords(Storage.GetOrders(s)), s)
    case GetOrderById(id) => Storage.Step(OrderOrNone(Storage.GetOrderById(s, id)), s)
    case CreateOrder(ins, createdAt) =>
      var r := Storage.CreateOrder(s, ins, createdAt);
      Storage.Step(OrderRecord(r.out), r.store)
    case UpdateOrderStatus(id, status) =>
      var r := Storage.UpdateOrderStatus(s, id, status);
      Storage.Step(OrderOrNone(r.out), r.store)
  }

  /** The freelancer calls. */
  function ApplyFreelancerCall(s: Storage.MemStorage, c: Call): (r: Storage.Step<Answer>)
    requires IsFreelancerCall(c)
    ensures Storage.Invariant(s) ==> Storage.Invariant(r.store)
    ensures CountersKept(s, r.store)
    ensures IsQuery(c) ==> r.store == s
  {
    match c
    case GetFreelancers => Storage.Step(FreelancerRecords(Storage.GetFreelancers(s)), s)
    case GetFreelancerById(id) => Storage.Step(FreelancerOrNone(Storage.GetFreelancerById(s, id)), s)
    case CreateFreelancer(ins, createdAt) =>
      var r := Storage.CreateFreelancer(s, ins, createdAt);
      Storage.Step(FreelancerRecord(r.out), r.store)
    case UpdateFreelancerStatus(id, status) =>
      var r := Storage.UpdateFreelancerStatus(s, id, status);
      Storage.Step(FreelancerOrNone(r.out), r.store)
  }

  /** The contact and newsletter calls. */
  function ApplyMessageCall(s: Storage.MemStorage, c: Call): (r: Storage.Step<Answer>)
    requires !IsPortfolioCall(c) && !IsOrderCall(c) && !IsFreelancerCall(c)
    ensures Storage.Invariant(s) ==> Storage.Invariant(r.store)
    ensures CountersKept(s, r.store)
    ensures IsQuery(c) ==> r.store == s
  {
    match c
    case GetContactMessages => Storage.Step(ContactRecords(Storage.GetContactMessages(s)), s)
    case GetContactMessageById(id) => Storage.Step(ContactOrNone(Storage.GetContactMessageById(s, id)), s)
    case CreateContactMessage(ins, createdAt) =>
      var r := Storage.CreateContactMessage(s, ins, createdAt);
      Storage.Step(ContactRecord(r.out), r.store)
    case MarkContactMessageAsRead(id) =>
      var r := Storage.MarkContactMessageAsRead(s, id);
      Storage.Step(ContactOrNone(r.out), r.store)
    case GetNewsletterSubscribers => Storage.Step(SubscriberRecords(Storage.GetNewsletterSubscribers(s)), s)
    case CreateNewsletterSubscriber(ins, createdAt) =>
      var r := Storage.CreateNewsletterSubscriber(s, ins, createdAt);
      Storage.Step(SubscriberRecord(r.out), r.store)
    case IsEmailSubscribed(email) => Storage.Step(Flag(Storage.IsEmailSubscribed(s, email)), s)
  }

  /** A sequence of calls against `MemStorage`: the answers in order and the
      final store. The invariant holds throughout and no counter moves back,
      so an id handed out once is never handed out again. */
  function Run(s: Storage.MemStorage, calls: seq<Call>): (r: (seq<Answer>, Storage.MemStorage))
    ensures |r.0| == |calls|
    ensures Storage.Invariant(s) ==> Storage.Invariant(r.1)
    ensures CountersKept(s, r.1)
    ensures (forall i :: 0 <= i < |calls| ==> IsQuery(calls[i])) ==> r.1 == s
    decreases |calls|
  {
    if |calls| == 0 then ([], s)
    else
      var first := Apply(s, calls[0]);
      var rest := Run(first.store, calls[1..]);
      assert forall i :: 0 <= i < |calls[1..]| ==> calls[1..][i] == calls[i + 1];
      ([first.out] + rest.0, rest.1)
  }

  // ---------------------------------------------------------------------
  // DatabaseStorage
  // ---------------------------------------------------------------------

  /** `new DatabaseStorage()` holds a fresh `MemStorage` and nothing else. */
  datatype DatabaseStorage = DatabaseStorage(memStorage: Storage.MemStorage) {

    function GetUser(id: int): Option<User> { Storage.GetUser(memStorage, id) }
    function GetUserByUsername(username: string): Option<User> { Storage.GetUserByUsername(memStorage, username) }
    function CreateUser(ins: InsertUser): (User, DatabaseStorage) {
      var r := Storage.CreateUser(memStorage, ins); (r.out, DatabaseStorage(r.store))
    }

    function GetPortfolioItems(): seq<Portfolio> { Storage.GetPortfolioItems(memStorage) }
    function GetPortfolioItemById(id: int): Option<Portfolio> { Storage.GetPortfolioItemById(memStorage, id) }
    function GetPortfolioItemsByCategory(category: string): seq<Portfolio> {
      Storage.GetPortfolioItemsByCategory(memStorage, category)
    }
    function GetFeaturedPortfolioItems(): seq<Portfolio> { Storage.GetFeaturedPortfolioItems(memStorage) }
    function CreatePortfolioItem(ins: InsertPortfolio): (Portfolio, DatabaseStorage) {
      var r := Storage.CreatePortfolioItem(memStorage, ins); (r.out, DatabaseStorage(r.store))
    }
    function UpdatePortfolioItem(id: int, patch: PortfolioPatch): (Option<Portfolio>, DatabaseStorage) {
      var r := Storage.UpdatePortfolioItem(memStorage, id, patch); (r.out, DatabaseStorage(r.store))
    }
    function DeletePortfolioItem(id: int): (bool, DatabaseStorage) {
      var r := Storage.DeletePortfolioItem(memStorage, id); (r.out, DatabaseStorage(r.store))
    }

    function GetOrders(): seq<Order> { Storage.GetOrders(memStorage) }
    function GetOrderById(id: int): Option<Order> { Storage.GetOrderById(memStorage, id) }
    function CreateOrder(ins: InsertOrder, createdAt: string): (Order, DatabaseStorage) {
      var r := Storage.CreateOrder(memStorage, ins, createdAt); (r.out, DatabaseStorage(r.store))
    }
    function UpdateOrderStatus(id: int, status: string): (Option<Order>, DatabaseStorage) {
      var r := Storage.UpdateOrderStatus(memStorage, id, status); (r.out, DatabaseStorage(r.store))
    }

    function GetFreelancers(): seq<Freelancer> { Storage.GetFreelancers(memStorage) }
    function GetFreelancerById(id: int): Option<Freelancer> { Storage.GetFreelancerById(memStorage, id) }
    function CreateFreelancer(ins: InsertFreelancer, createdAt: string): (Freelancer, DatabaseStorage) {
      var r := Storage.CreateFreelancer(memStorage, ins, createdAt); (r.out, DatabaseStorage(r.store))
    }
    function UpdateFreelancerStatus(id: int, status: string): (Option<Freelancer>, DatabaseStorage) {
      var r := Storage.UpdateFreelancerStatus(memStorage, id, status); (r.out, DatabaseStorage(r.store))
    }

    function GetContactMessages(): seq<ContactMessage> { Storage.GetContactMessages(memStorage) }
    function GetContactMessageById(id: int): Option<ContactMessage> { Storage.GetContactMessageById(memStorage, id) }
    function CreateContactMessage(ins: InsertContact, createdAt: string): (ContactMessage, DatabaseStorage) {
      var r := Storage.CreateContactMessage(memStorage, ins, createdAt); (r.out, DatabaseStorage(r.store))
    }
    function MarkContactMessageAsRead(id: int): (Option<ContactMessage>, DatabaseStorage) {
      var r := Storage.MarkContactMessageAsRead(memStorage, id); (r.out, DatabaseStorage(r.store))
    }

    function GetNewsletterSubscribers(): seq<NewsletterSubscriber> { Storage.GetNewsletterSubscribers(memStorage) }
    function CreateNewsletterSubscriber(ins: InsertNewsletter, createdAt: string): (NewsletterSubscriber, DatabaseStorage) {
      var r := Storage.CreateNewsletterSubscriber(memStorage, ins, createdAt); (r.out, DatabaseStorage(r.store))
    }
    function IsEmailSubscribed(email: string): bool { Storage.IsEmailSubscribed(memStorage, email) }
  }

  /** `DatabaseStorage` answering one call through its own methods. */
  function Forward(d: DatabaseStorage, c: Call): (Answer, DatabaseStorage) {
    match c
    case GetUser(id) => (UserOrNone(d.GetUser(id)), d)
    case GetUserByUsername(name) => (UserOrNone(d.GetUserByUsername(name)), d)
    case CreateUser(ins) => var (u, e) := d.CreateUser(ins); (UserRecord(u), e)
    case GetPortfolioItems => (PortfolioRecords(d.GetPortfolioItems()), d)
    case GetPortfolioItemById(id) => (PortfolioOrNone(d.GetPortfolioItemById(id)), d)
    case GetPortfolioItemsByCategory(category) => (PortfolioRecords(d.GetPortfolioItemsByCategory(category)), d)
    case GetFeaturedPortfolioItems => (PortfolioRecords(d.GetFeaturedPortfolioItems()), d)
    case CreatePortfolioItem(ins) => var (p, e) := d.CreatePortfolioItem(ins); (PortfolioRecord(p), e)
    case UpdatePortfolioItem(id, patch) => var (p, e) := d.UpdatePortfolioItem(id, patch); (PortfolioOrNone(p), e)
    case DeletePortfolioItem(id) => var (b, e) := d.DeletePortfolioItem(id); (Flag(b), e)
    case GetOrders => (OrderRecords(d.GetOrders()), d)
    case GetOrderById(id) => (OrderOrNone(d.GetOrderById(id)), d)
    case CreateOrder(ins, createdAt) => var (o, e) := d.CreateOrder(ins, createdAt); (OrderRecord(o), e)
    case UpdateOrderStatus(id, status) => var (o, e) := d.UpdateOrderStatus(id, status); (OrderOrNone(o), e)
    case GetFreelancers => (FreelancerRecords(d.GetFreelancers()), d)
    case GetFreelancerById(id) => (FreelancerOrNone(d.GetFreelancerById(id)), d)
    case CreateFreelancer(ins, createdAt) => var (f, e) := d.CreateFreelancer(ins, createdAt); (FreelancerRecord(f), e)
    case UpdateFreelancerStatus(id, status) =>
      var (f, e) := d.UpdateFreelancerStatus(id, status); (FreelancerOrNone(f), e)
    case GetContactMessages => (ContactRecords(d.GetContactMessages()), d)
    case GetContactMessageById(id) => (ContactOrNone(d.GetContactMessageById(id)), d)
    case CreateContactMessage(ins, createdAt) =>
      var (m, e) := d.CreateContactMessage(ins, createdAt); (ContactRecord(m), e)
    case MarkContactMessageAsRead(id) => var (m, e) := d.MarkContactMessageAsRead(id); (ContactOrNone(m), e)
    case GetNewsletterSubscribers => (SubscriberRecords(d.GetNewsletterSubscribers()), d)
    case CreateNewsletterSubscriber(ins, createdAt) =>
      var (n, e) := d.CreateNewsletterSubscriber(ins, createdAt); (SubscriberRecord(n), e)
    case IsEmailSubscribed(email) => (Flag(d.IsEmailSubscribed(email)), d)
  }

  /** A sequence of calls against a `DatabaseStorage`. */
  function RunDatabase(d: DatabaseStorage, calls: seq<Call>): (r: (seq<Answer>, DatabaseStorage))
    ensures |r.0| == |calls|
    decreases |calls|
  {
    if |calls| == 0 then ([], d)
    else
      var (a, e) := Forward(d, calls[0]);
      var rest := RunDatabase(e, calls[1..]);
      ([a] + rest.0, rest.1)
  }

  /** One forwarded call answers exactly as the inner `MemStorage` does and
      leaves the wrapper around the store `MemStorage` leaves. */
  lemma ForwardIsApply(m: Storage.MemStorage, c: Call)
    ensures Forward(DatabaseStorage(m), c) == (Apply(m, c).out, DatabaseStorage(Apply(m, c).store))
  {
  }

  /** `DatabaseStorage` is observationally equal to `MemStorage`: any
      sequence of calls gets the same answers, and afterwards the wrapper
      holds the very store a bare `MemStorage` would have reached. */
  lemma {:induction false} DatabaseStorageIsMemStorage(m: Storage.MemStorage, calls: seq<Call>)
    ensures RunDatabase(DatabaseStorage(m), calls).0 == Run(m, calls).0
    ensures RunDatabase(DatabaseStorage(m), calls).1 == DatabaseStorage(Run(m, calls).1)
    decreases |calls|
  {
    if |calls| > 0 {
      ForwardIsApply(m, calls[0]);
      DatabaseStorageIsMemStorage(Apply(m, calls[0]).store, calls[1..]);
    }
  }

  /** `new DatabaseStorage()`: wraps a freshly constructed `MemStorage`,
      so it starts with the seven sample items and nothing else. */
  function NewDatabaseStorage(): (d: DatabaseStorage)
    ensures Storage.Invariant(d.memStorage)
    ensures |d.GetPortfolioItems()| == 7 && |d.GetFeaturedPortfolioItems()| == 4
    ensures d.GetOrders() == [] && d.GetFreelancers() == [] && d.GetContactMessages() == []
    ensures d.GetNewsletterSubscribers() == []
  {
    Storage.NewFeaturedItems();
    DatabaseStorage(Storage.New())
  }
}
