/** `MemStorage`: six id-keyed collections, each with its own id counter,
    and the operations of the storage interface over them. Every
    operation is a pure function from the store (and its arguments) to its
    result and the store after it. The creation timestamp that the source
    takes from the clock is an argument here. */
module Storage {
  import opened Wrappers
  import opened Text
  import opened Table
  import opened Schema

  datatype MemStorage = MemStorage(
    users: Table<UserFields>,
    portfolioItems: Table<PortfolioFields>,
    orders: Table<OrderFields>,
    freelancers: Table<FreelancerFields>,
    contactMessages: Table<ContactFields>,
    newsletterSubscribers: Table<SubscriberFields>)

  /** What an operation returns, with the store after it. */
  datatype Step<+R> = Step(out: R, store: MemStorage)

  ghost predicate EmailsDistinct(rows: seq<NewsletterSubscriber>) {
    forall i, j :: 0 <= i < j < |rows| ==> rows[i].data.email != rows[j].data.email
  }

  /** The store invariant: in every collection ids are positive, unique,
      increasing in insertion order and below the collection's counter;
      subscriber emails are pairwise distinct. */
  ghost predicate Invariant(s: MemStorage) {
    && Valid(s.users)
    && Valid(s.portfolioItems)
    && Valid(s.orders)
    && Valid(s.freelancers)
    && Valid(s.contactMessages)
    && Valid(s.newsletterSubscribers)
    && EmailsDistinct(s.newsletterSubscribers.rows)
  }

  // ---------------------------------------------------------------------
  // Construction and seed data
  // ---------------------------------------------------------------------

  /** The address of an Unsplash photo cropped to `width` pixels, in the
      form every sample image uses. Long literals are written as short
      pieces joined with `+`. */
  function UnsplashUrl(photo: string, width: string): string {
    "https://" + "images.unsplash.com/" + "photo-" + photo
    + "?ixlib=rb-4.0.3" + "&ixid=MnwxMjA3fDB8" + "MHxwaG90by1wYWdlfHx8" + "fGVufDB8fHx8"
    + "&auto=format&fit=crop" + "&w=" + width + "&q=80"
  }

  /** The seven sample items the constructor inserts, in order. */
  const PortfolioSamples: seq<InsertPortfolio> := [
    EveningElegance(),
    UrbanChic(),
    SummerBreeze(),
    EtherealDreams(),
    RubySilkGown(),
    FloralDayDress(),
    ClassicLaceWeddingDress()
  ]

  // The samples, one function each; the first four are featured.

  function EveningElegance(): (p: InsertPortfolio)
    ensures IsFeatured(p)
  {
    PortfolioFields("Evening Elegance", "Formal", UnsplashUrl("1566174053879-31528523f8ae", "870"),
      Some("A stunning evening gown " + "designed for red carpet " + "events."), Some(true))
  }

  function UrbanChic(): (p: InsertPortfolio)
    ensures IsFeatured(p)
  {
    PortfolioFields("Urban Chic", "Cocktail", UnsplashUrl("1575351881847-b3bf188d9d0a", "870"),
      Some("Modern cocktail dress " + "perfect for urban social " + "events."), Some(true))
  }

  function SummerBreeze(): (p: InsertPortfolio)
    ensures IsFeatured(p)
  {
    PortfolioFields("Summer Breeze", "Casual", UnsplashUrl("1525507119028-ed4c629a60a3", "435"),
      Some("Light and airy summer " + "dress for casual " + "outings."), Some(true))
  }

  function EtherealDreams(): (p: InsertPortfolio)
    ensures IsFeatured(p)
  {
    PortfolioFields("Ethereal Dreams", "Bridal", UnsplashUrl("1581044777550-4cfa60707c03", "386"),
      Some("Romantic bridal gown " + "with delicate lace " + "details."), Some(true))
  }

  function RubySilkGown(): (p: InsertPortfolio)
    ensures !IsFeatured(p)
  {
    PortfolioFields("Ruby Silk Gown", "Formal", UnsplashUrl("1585487000160-6ebcfceb0d03", "434"),
      Some("Elegant red silk gown " + "for formal occasions."), Some(false))
  }

  function FloralDayDress(): (p: InsertPortfolio)
    ensures !IsFeatured(p)
  {
    PortfolioFields("Floral Day Dress", "Casual", UnsplashUrl("1499939667766-4afceb292d05", "873"),
      Some("Charming floral print " + "dress for daytime " + "events."), Some(false))
  }

  function ClassicLaceWeddingDress(): (p: InsertPortfolio)
    ensures !IsFeatured(p)
  {
    PortfolioFields("Classic Lace Wedding Dress", "Bridal", UnsplashUrl("1594612076467-8e9a8d6d6825", "387"),
      Some("Traditional lace wedding " + "gown with classic " + "silhouette."), Some(false))
  }

  /** Six empty maps, every counter at 1. */
  function EmptyStore(): (s: MemStorage)
    ensures Invariant(s)
  {
    MemStorage(Empty(), Empty(), Empty(), Empty(), Empty(), Empty())
  }

  /** `items.forEach(item => this.createPortfolioItem(item))`: the items
      are stored in order under consecutive ids starting at the counter. */
  function SeedPortfolio(s: MemStorage, items: seq<InsertPortfolio>): (r: MemStorage)
    ensures r == s.(portfolioItems := r.portfolioItems)
    ensures r.portfolioItems.next == s.portfolioItems.next + |items|
    ensures |r.portfolioItems.rows| == |s.portfolioItems.rows| + |items|
    ensures r.portfolioItems.rows[..|s.portfolioItems.rows|] == s.portfolioItems.rows
    ensures forall k :: 0 <= k < |items| ==>
      r.portfolioItems.rows[|s.portfolioItems.rows| + k] == Row(s.portfolioItems.next + k, items[k])
    ensures Invariant(s) ==> Invariant(r)
    decreases |items|
  {
    if |items| == 0 then s
    else
      var s1 := CreatePortfolioItem(s, items[0]).store;
      var r := SeedPortfolio(s1, items[1..]);
      assert forall k :: 1 <= k < |items| ==> items[1..][k - 1] == items[k];
      assert r.portfolioItems.rows[..|s1.portfolioItems.rows|] == s1.portfolioItems.rows;
      assert r.portfolioItems.rows[..|s.portfolioItems.rows|] == s1.portfolioItems.rows[..|s.portfolioItems.rows|];
      r
  }

  /** The store the constructor leaves, with its sample list as a
      parameter: sample `k` stored under id `k + 1`, in order, the
      portfolio counter just past the last sample, and every other
      collection empty with its counter at 1. */
  function Seeded(items: seq<InsertPortfolio>): (s: MemStorage)
    ensures Invariant(s)
    ensures |s.portfolioItems.rows| == |items| && s.portfolioItems.next == |items| + 1
    ensures forall k :: 0 <= k < |items| ==> s.portfolioItems.rows[k] == Row(k + 1, items[k])
    ensures s.users == Empty() && s.orders == Empty() && s.freelancers == Empty()
    ensures s.contactMessages == Empty() && s.newsletterSubscribers == Empty()
  {
    var rows := seq(|items|, k requires 0 <= k < |items| => Row(k + 1, items[k]));
    EmptyStore().(portfolioItems := Table(rows, |items| + 1))
  }

  /** Six empty maps followed by one create per sample, in order, is the
      seeded store: the constructor's `forEach` hands out the ids 1, 2, ...
      in list order and touches no other collection. */
  lemma ConstructorSeeds(items: seq<InsertPortfolio>)
    ensures SeedPortfolio(EmptyStore(), items) == Seeded(items)
  {
    var r := SeedPortfolio(EmptyStore(), items);
    assert r.portfolioItems.rows == Seeded(items).portfolioItems.rows;
  }

  /** `new MemStorage()`: exactly the seven sample items under ids 1..7 in
      order; every other collection empty and every other counter still
      at 1. */
  function New(): (s: MemStorage)
    ensures Invariant(s)
    ensures |s.portfolioItems.rows| == 7 && s.portfolioItems.next == 8
    ensures forall k :: 0 <= k < 7 ==> s.portfolioItems.rows[k] == Row(k + 1, PortfolioSamples[k])
    ensures s.users == Empty() && s.orders == Empty() && s.freelancers == Empty()
    ensures s.contactMessages == Empty() && s.newsletterSubscribers == Empty()
  {
    Seeded(PortfolioSamples)
  }

  /** When exactly the first `f` samples are flagged as featured, the
      featured listing of the freshly seeded store is its first `f` rows,
      in id order. */
  lemma SeededFeaturedItems(items: seq<InsertPortfolio>, f: nat)
    requires f <= |items|
    requires forall k :: 0 <= k < |items| ==> (IsFeatured(items[k]) <==> k < f)
    ensures GetFeaturedPortfolioItems(Seeded(items)) == Seeded(items).portfolioItems.rows[..f]
  {
    var rows := Seeded(items).portfolioItems.rows;
    assert forall i :: 0 <= i < |rows| ==> rows[i].data == items[i];
    FilterKeepsPrefix(rows, (x: Portfolio) => IsFeatured(x.data), f);
  }

  /** Of the seven sample items exactly the first four are featured, so the
      home page of a fresh server shows ids 1 to 4. */
  lemma NewFeaturedItems()
    ensures GetFeaturedPortfolioItems(New()) == New().portfolioItems.rows[..4]
  {
    SamplesFeatured();
    SeededFeaturedItems(PortfolioSamples, 4);
  }

  /** The first four samples carry `featured: true`, the other three
      `featured: false`. */
  lemma SamplesFeatured()
    ensures |PortfolioSamples| == 7
    ensures forall k :: 0 <= k < |PortfolioSamples| ==> (IsFeatured(PortfolioSamples[k]) <==> k < 4)
  {
  }

  // ---------------------------------------------------------------------
  // Users
  // ---------------------------------------------------------------------

  function GetUser(s: MemStorage, id: int): (r: Option<User>)
    ensures r.Some? ==> r.value in s.users.rows && r.value.id == id
    ensures r.None? <==> id !in Ids(s.users.rows)
  {
    Find(s.users.rows, id)
  }

  /** The first user, in insertion order, with that username. */
  function GetUserByUsername(s: MemStorage, username: string): (r: Option<User>)
    ensures r.Some? ==> r.value in s.users.rows && r.value.data.username == username
    ensures r.Some? ==> exists i :: (0 <= i < |s.users.rows| && s.users.rows[i] == r.value
      && forall j :: 0 <= j < i ==> s.users.rows[j].data.username != username)
    ensures r.None? <==> forall j :: 0 <= j < |s.users.rows| ==> s.users.rows[j].data.username != username
  {
    match FindFirst(s.users.rows, (u: User) => u.data.username == username)
    case Some(i) => Some(s.users.rows[i])
    case None => None
  }

  /** No uniqueness check is made on the username. */
  function CreateUser(s: MemStorage, ins: InsertUser): (r: Step<User>)
    ensures r.out.id == s.users.next && r.out.data == ins
    ensures r.store == s.(users := r.store.users)
    ensures r.store.users.rows == s.users.rows + [r.out]
    ensures r.store.users.next == s.users.next + 1
    ensures Invariant(s) ==> Invariant(r.store) && GetUser(r.store, r.out.id) == Some(r.out)
  {
    var (t, row) := Insert(s.users, ins);
    Step(row, s.(users := t))
  }

  // ---------------------------------------------------------------------
  // Portfolio
  // ---------------------------------------------------------------------

  /** All items in insertion order, which is ascending id order; an item is
      listed exactly when looking up its id yields it. */
  function GetPortfolioItems(s: MemStorage): (r: seq<Portfolio>)
    ensures Invariant(s) ==> IdsIncreasing(r)
    ensures Invariant(s) ==> forall x :: x in r <==> GetPortfolioItemById(s, x.id) == Some(x)
  {
    var rows := s.portfolioItems.rows;
    assert Invariant(s) ==> forall x :: x in rows <==> Find(rows, x.id) == Some(x) by {
      if Invariant(s) {
        forall x ensures x in rows <==> Find(rows, x.id) == Some(x) {
          FindIsMember(rows, x);
        }
      }
    }
    rows
  }

  function GetPortfolioItemById(s: MemStorage, id: int): (r: Option<Portfolio>)
    ensures r.Some? ==> r.value in s.portfolioItems.rows && r.value.id == id
    ensures r.None? <==> id !in Ids(s.portfolioItems.rows)
  {
    Find(s.portfolioItems.rows, id)
  }

  /** Whether an item's category matches `category` ignoring case. */
  predicate InCategory(item: Portfolio, category: string) {
    EqualsIgnoringCase(item.data.category, category)
  }

  /** The items whose lower-cased category equals the lower-cased argument,
      in list order. */
  function GetPortfolioItemsByCategory(s: MemStorage, category: string): (r: seq<Portfolio>)
    ensures forall x :: x in r <==> x in s.portfolioItems.rows && InCategory(x, category)
    ensures |r| <= |s.portfolioItems.rows|
    ensures Invariant(s) ==> IdsIncreasing(r)
  {
    Filter(s.portfolioItems.rows, (x: Portfolio) => InCategory(x, category))
  }

  /** The items whose `featured` flag is set, in list order. */
  function GetFeaturedPortfolioItems(s: MemStorage): (r: seq<Portfolio>)
    ensures forall x :: x in r <==> x in s.portfolioItems.rows && IsFeatured(x.data)
    ensures |r| <= |s.portfolioItems.rows|
    ensures Invariant(s) ==> IdsIncreasing(r)
  {
    Filter(s.portfolioItems.rows, (x: Portfolio) => IsFeatured(x.data))
  }

  /** `{ ...insertItem, id }`: the payload is stored as given (no default
      is filled in for `featured`) under the current counter. */
  function CreatePortfolioItem(s: MemStorage, ins: InsertPortfolio): (r: Step<Portfolio>)
    ensures r.out.id == s.portfolioItems.next && r.out.data == ins
    ensures r.store == s.(portfolioItems := r.store.portfolioItems)
    ensures r.store.portfolioItems.rows == s.portfolioItems.rows + [r.out]
    ensures r.store.portfolioItems.next == s.portfolioItems.next + 1
    ensures Invariant(s) ==> Invariant(r.store) && GetPortfolioItemById(r.store, r.out.id) == Some(r.out)
    ensures Invariant(s) ==> forall id :: id != r.out.id ==>
      GetPortfolioItemById(r.store, id) == GetPortfolioItemById(s, id)
  {
    var (t, row) := Insert(s.portfolioItems, ins);
    Step(row, s.(portfolioItems := t))
  }

  /** `{ ...item, ...updatedFields }` for a stored item; `undefined` and no
      change for an unknown id. Only the patched fields change; the id, the
      item's position in the list and every other item are kept. */
  function UpdatePortfolioItem(s: MemStorage, id: int, patch: PortfolioPatch): (r: Step<Option<Portfolio>>)
    ensures r.out.None? <==> GetPortfolioItemById(s, id).None?
    ensures r.out.None? ==> r.store == s
    ensures r.out.Some? ==> r.out.value == Row(id, ApplyPatch(GetPortfolioItemById(s, id).value.data, patch))
    ensures r.store == s.(portfolioItems := r.store.portfolioItems)
    ensures r.store.portfolioItems.next == s.portfolioItems.next
    ensures |r.store.portfolioItems.rows| == |s.portfolioItems.rows|
    ensures forall i :: 0 <= i < |s.portfolioItems.rows| ==>
      r.store.portfolioItems.rows[i].id == s.portfolioItems.rows[i].id
    ensures Invariant(s) ==> Invariant(r.store) && GetPortfolioItemById(r.store, id) == r.out
    ensures Invariant(s) ==> forall other :: other != id ==>
      GetPortfolioItemById(r.store, other) == GetPortfolioItemById(s, other)
  {
    var (t, out) := Modify(s.portfolioItems, id, (p: PortfolioFields) => ApplyPatch(p, patch));
    Step(out, s.(portfolioItems := t))
  }

  /** `map.delete(id)`: true exactly when the item was there; only that
      item goes, and the counter is kept so the id is not handed out again. */
  function DeletePortfolioItem(s: MemStorage, id: int): (r: Step<bool>)
    ensures r.out <==> GetPortfolioItemById(s, id).Some?
    ensures GetPortfolioItemById(r.store, id) == None
    ensures forall x :: x in r.store.portfolioItems.rows <==> x in s.portfolioItems.rows && x.id != id
    ensures r.store.portfolioItems.next == s.portfolioItems.next
    ensures r.store == s.(portfolioItems := r.store.portfolioItems)
    ensures Invariant(s) ==> Invariant(r.store)
  {
    var (t, present) := Remove(s.portfolioItems, id);
    Step(present, s.(portfolioItems := t))
  }

  // ---------------------------------------------------------------------
  // Orders
  // ---------------------------------------------------------------------

  function GetOrders(s: MemStorage): (r: seq<Order>)
    ensures Invariant(s) ==> IdsIncreasing(r)
    ensures Invariant(s) ==> forall x :: x in r <==> GetOrderById(s, x.id) == Some(x)
  {
    var rows := s.orders.rows;
    assert Invariant(s) ==> forall x :: x in rows <==> Find(rows, x.id) == Some(x) by {
      if Invariant(s) {
        forall x ensures x in rows <==> Find(rows, x.id) == Some(x) {
          FindIsMember(rows, x);
        }
      }
    }
    rows
  }

  function GetOrderById(s: MemStorage, id: int): (r: Option<Order>)
    ensures r.Some? ==> r.value in s.orders.rows && r.value.id == id
    ensures r.None? <==> id !in Ids(s.orders.rows)
  {
    Find(s.orders.rows, id)
  }

  /** `{ ...insertOrder, id, createdAt, status: "pending" }`: whatever the
      payload, the new order is pending, and every payload field is kept. */
  function CreateOrder(s: MemStorage, ins: InsertOrder, createdAt: string): (r: Step<Order>)
    ensures r.out.id == s.orders.next
    ensures OrderInput(r.out.data) == ins
    ensures r.out.data.status == DefaultStatus && r.out.data.createdAt == createdAt
    ensures r.store == s.(orders := r.store.orders)
    ensures r.store.orders.rows == s.orders.rows + [r.out]
    ensures r.store.orders.next == s.orders.next + 1
    ensures Invariant(s) ==> Invariant(r.store) && GetOrderById(r.store, r.out.id) == Some(r.out)
  {
    var (t, row) := Insert(s.orders, NewOrder(ins, createdAt, DefaultStatus));
    Step(row, s.(orders := t))
  }

  /** Sets `status` to any string at all; `undefined` and no change for an
      unknown id. */
  function UpdateOrderStatus(s: MemStorage, id: int, status: string): (r: Step<Option<Order>>)
    ensures r.out.None? <==> GetOrderById(s, id).None?
    ensures r.out.None? ==> r.store == s
    ensures r.out.Some? ==> r.out.value == Row(id, GetOrderById(s, id).value.data.(status := status))
    ensures r.store == s.(orders := r.store.orders)
    ensures r.store.orders.next == s.orders.next
    ensures Invariant(s) ==> Invariant(r.store) && GetOrderById(r.store, id) == r.out
    ensures Invariant(s) ==> forall other :: other != id ==> GetOrderById(r.store, other) == GetOrderById(s, other)
  {
    var (t, out) := Modify(s.orders, id, (o: OrderFields) => o.(status := status));
    Step(out, s.(orders := t))
  }

  // ---------------------------------------------------------------------
  // Freelancers
  // ---------------------------------------------------------------------

  function GetFreelancers(s: MemStorage): (r: seq<Freelancer>)
    ensures Invariant(s) ==> IdsIncreasing(r)
    ensures Invariant(s) ==> forall x :: x in r <==> GetFreelancerById(s, x.id) == Some(x)
  {
    var rows := s.freelancers.rows;
    assert Invariant(s) ==> forall x :: x in rows <==> Find(rows, x.id) == Some(x) by {
      if Invariant(s) {
        forall x ensures x in rows <==> Find(rows, x.id) == Some(x) {
          FindIsMember(rows, x);
        }
      }
    }
    rows
  }

  function GetFreelancerById(s: MemStorage, id: int): (r: Option<Freelancer>)
    ensures r.Some? ==> r.value in s.freelancers.rows && r.value.id == id
    ensures r.None? <==> id !in Ids(s.freelancers.rows)
  {
    Find(s.freelancers.rows, id)
  }

  function CreateFreelancer(s: MemStorage, ins: InsertFreelancer, createdAt: string): (r: Step<Freelancer>)
    ensures r.out.id == s.freelancers.next
    ensures FreelancerInput(r.out.data) == ins
    ensures r.out.data.status == DefaultStatus && r.out.data.createdAt == createdAt
    ensures r.store == s.(freelancers := r.store.freelancers)
    ensures r.store.freelancers.rows == s.freelancers.rows + [r.out]
    ensures r.store.freelancers.next == s.freelancers.next + 1
    ensures Invariant(s) ==> Invariant(r.store) && GetFreelancerById(r.store, r.out.id) == Some(r.out)
  {
    var (t, row) := Insert(s.freelancers, NewFreelancer(ins, createdAt, DefaultStatus));
    Step(row, s.(freelancers := t))
  }

  function UpdateFreelancerStatus(s: MemStorage, id: int, status: string): (r: Step<Option<Freelancer>>)
    ensures r.out.None? <==> GetFreelancerById(s, id).None?
    ensures r.out.None? ==> r.store == s
    ensures r.out.Some? ==> r.out.value == Row(id, GetFreelancerById(s, id).value.data.(status := status))
    ensures r.store == s.(freelancers := r.store.freelancers)
    ensures r.store.freelancers.next == s.freelancers.next
    ensures Invariant(s) ==> Invariant(r.store) && GetFreelancerById(r.store, id) == r.out
    ensures Invariant(s) ==> forall other :: other != id ==> GetFreelancerById(r.store, other) == GetFreelancerById(s, other)
  {
    var (t, out) := Modify(s.freelancers, id, (f: FreelancerFields) => f.(status := status));
    Step(out, s.(freelancers := t))
  }

  // ---------------------------------------------------------------------
  // Contact messages
  // ---------------------------------------------------------------------

  function GetContactMessages(s: MemStorage): (r: seq<ContactMessage>)
    ensures Invariant(s) ==> IdsIncreasing(r)
    ensures Invariant(s) ==> forall x :: x in r <==> GetContactMessageById(s, x.id) == Some(x)
  {
    var rows := s.contactMessages.rows;
    assert Invariant(s) ==> forall x :: x in rows <==> Find(rows, x.id) == Some(x) by {
      if Invariant(s) {
        forall x ensures x in rows <==> Find(rows, x.id) == Some(x) {
          FindIsMember(rows, x);
        }
      }
    }
    rows
  }

  function GetContactMessageById(s: MemStorage, id: int): (r: Option<ContactMessage>)
    ensures r.Some? ==> r.value in s.contactMessages.rows && r.value.id == id
    ensures r.None? <==> id !in Ids(s.contactMessages.rows)
  {
    Find(s.contactMessages.rows, id)
  }

  /** Whatever the payload, a new message is unread. */
  function CreateContactMessage(s: MemStorage, ins: InsertContact, createdAt: string): (r: Step<ContactMessage>)
    ensures r.out.id == s.contactMessages.next
    ensures ContactInput(r.out.data) == ins
    ensures r.out.data.read == DefaultRead && r.out.data.createdAt == createdAt
    ensures r.store == s.(contactMessages := r.store.contactMessages)
    ensures r.store.contactMessages.rows == s.contactMessages.rows + [r.out]
    ensures r.store.contactMessages.next == s.contactMessages.next + 1
    ensures Invariant(s) ==> Invariant(r.store) && GetContactMessageById(r.store, r.out.id) == Some(r.out)
  {
    var (t, row) := Insert(s.contactMessages, NewContact(ins, createdAt, DefaultRead));
    Step(row, s.(contactMessages := t))
  }

  function MarkContactMessageAsRead(s: MemStorage, id: int): (r: Step<Option<ContactMessage>>)
    ensures r.out.None? <==> GetContactMessageById(s, id).None?
    ensures r.out.None? ==> r.store == s
    ensures r.out.Some? ==> r.out.value == Row(id, GetContactMessageById(s, id).value.data.(read := true))
    ensures r.store == s.(contactMessages := r.store.contactMessages)
    ensures r.store.contactMessages.next == s.contactMessages.next
    ensures Invariant(s) ==> Invariant(r.store) && GetContactMessageById(r.store, id) == r.out
    ensures Invariant(s) ==> forall other :: other != id ==>
      GetContactMessageById(r.store, other) == GetContactMessageById(s, other)
  {
    var (t, out) := Modify(s.contactMessages, id, (c: ContactFields) => c.(read := true));
    Step(out, s.(contactMessages := t))
  }

  // ---------------------------------------------------------------------
  // Newsletter subscribers
  // ---------------------------------------------------------------------

  function GetNewsletterSubscribers(s: MemStorage): (r: seq<NewsletterSubscriber>)
    ensures Invariant(s) ==> IdsIncreasing(r)
    ensures Invariant(s) ==> forall i, j :: 0 <= i < j < |r| ==> r[i].data.email != r[j].data.email
  {
    s.newsletterSubscribers.rows
  }

  /** `subscribers.some(sub => sub.email === email)`, exact comparison. */
  function IsEmailSubscribed(s: MemStorage, email: string): (r: bool)
    ensures r <==> (exists i :: 0 <= i < |s.newsletterSubscribers.rows| && s.newsletterSubscribers.rows[i].data.email == email)
  {
    FindFirst(s.newsletterSubscribers.rows, (x: NewsletterSubscriber) => x.data.email == email).Some?
  }

  /** For an email already subscribed, the existing record comes back and
      nothing changes; otherwise a new record is stored under the counter.
      Either way the email is subscribed afterwards. */
  function CreateNewsletterSubscriber(s: MemStorage, ins: InsertNewsletter, createdAt: string)
    : (r: Step<NewsletterSubscriber>)
    ensures IsEmailSubscribed(s, ins.email) ==>
      && r.store == s
      && r.out in s.newsletterSubscribers.rows
      && r.out.data.email == ins.email
    ensures !IsEmailSubscribed(s, ins.email) ==>
      && r.out == Row(s.newsletterSubscribers.next, SubscriberFields(ins.email, createdAt))
      && r.store.newsletterSubscribers.rows == s.newsletterSubscribers.rows + [r.out]
      && r.store.newsletterSubscribers.next == s.newsletterSubscribers.next + 1
    ensures r.store == s.(newsletterSubscribers := r.store.newsletterSubscribers)
    ensures IsEmailSubscribed(r.store, ins.email)
    ensures Invariant(s) ==> Invariant(r.store)
  {
    var rows := s.newsletterSubscribers.rows;
    var existing :=
      if IsEmailSubscribed(s, ins.email)
      then FindFirst(rows, (x: NewsletterSubscriber) => x.data.email == ins.email)
      else None;
    match existing
    case Some(i) => Step(rows[i], s)
    case None =>
      var (t, row) := Insert(s.newsletterSubscribers, SubscriberFields(ins.email, createdAt));
      assert t.rows[|rows|] == row;
      Step(row, s.(newsletterSubscribers := t))
  }

  // ---------------------------------------------------------------------
  // Properties relating several operations
  // ---------------------------------------------------------------------

  /** Deleting twice: the first call reports true, the second false. */
  lemma DeleteTwice(s: MemStorage, id: int)
    requires GetPortfolioItemById(s, id).Some?
    ensures DeletePortfolioItem(s, id).out
    ensures !DeletePortfolioItem(DeletePortfolioItem(s, id).store, id).out
  {
  }

  /** A deleted id is never handed out again: the next item created after
      a delete gets a different id. */
  lemma {:induction false} DeletedIdNotReused(s: MemStorage, id: int, ins: InsertPortfolio)
    requires Invariant(s)
    requires GetPortfolioItemById(s, id).Some?
    ensures CreatePortfolioItem(DeletePortfolioItem(s, id).store, ins).out.id != id
  {
    var x := GetPortfolioItemById(s, id).value;
    var i :| 0 <= i < |s.portfolioItems.rows| && s.portfolioItems.rows[i] == x;
    assert id < s.portfolioItems.next;
  }

  /** Marking a message as read twice leaves the same store as once. */
  lemma MarkAsReadIdempotent(s: MemStorage, id: int)
    requires Invariant(s)
    ensures var once := MarkContactMessageAsRead(s, id).store;
      MarkContactMessageAsRead(once, id).store == once
  {
    var once := MarkContactMessageAsRead(s, id).store;
    var twice := MarkContactMessageAsRead(once, id).store;
    if GetContactMessageById(s, id).Some? {
      assert twice.contactMessages.rows == once.contactMessages.rows;
    }
  }

  /** Subscribing the same email twice creates one record: the second call
      returns the first call's record and changes nothing. */
  lemma SubscribeTwice(s: MemStorage, ins: InsertNewsletter, t1: string, t2: string)
    requires Invariant(s)
    ensures var first := CreateNewsletterSubscriber(s, ins, t1);
      var second := CreateNewsletterSubscriber(first.store, ins, t2);
      && second.store == first.store
      && second.out == first.out
  {
    var first := CreateNewsletterSubscriber(s, ins, t1);
    var rows := first.store.newsletterSubscribers.rows;
    var second := CreateNewsletterSubscriber(first.store, ins, t2);
    assert second.out in rows && second.out.data.email == ins.email;
    assert first.out in rows && first.out.data.email == ins.email;
  }

  /** The category filter sees only the lower-cased argument: two
      arguments that differ only in case select the same items. */
  lemma CategoryFilterIgnoresCase(s: MemStorage, a: string, b: string)
    requires EqualsIgnoringCase(a, b)
    ensures GetPortfolioItemsByCategory(s, a) == GetPortfolioItemsByCategory(s, b)
  {
    FilterExtensional(s.portfolioItems.rows, (x: Portfolio) => InCategory(x, a), (x: Portfolio) => InCategory(x, b));
  }

  /** The id a create returns is looked up as exactly that record until the
      item is deleted: a get right after a create returns the created record. */
  lemma GetAfterCreateOrder(s: MemStorage, ins: InsertOrder, createdAt: string)
    requires Invariant(s)
    ensures var r := CreateOrder(s, ins, createdAt);
      && GetOrderById(r.store, r.out.id) == Some(r.out)
      && GetOrderById(s, r.out.id) == None
  {
  }
}
