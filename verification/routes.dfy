/** The API routes registered on the Express application, and their
    handlers as functions from the request and the storage object to the
    response and the storage object afterwards. Routing follows Express's
    defaults: routes are tried in registration order, literal path
    segments match without regard to case, a `:param` segment matches one
    non-empty segment, and a GET route also answers HEAD. A request no
    route matches is not handled by the API (`None`). */
module Routes {
  import opened Wrappers
  import opened Text
  import opened Table
  import opened Schema
  import Storage
  import opened Database

  datatype Method = Get | Head | Post | Put | Patch | Delete | Options

  /** A request as the handlers see it: the path split at `/` into its
      segments, the parsed JSON body, and the instant it is served (the
      source reads the clock when it stamps a new record). */
  datatype Request = Request(verb: Method, path: seq<string>, body: Json, now: string)

  /** The JSON payload a handler sends. */
  datatype Body =
    | Items(items: seq<Portfolio>)                // an array of portfolio items
    | Item(item: Portfolio)                       // a single portfolio item
    | Message(message: string)                    // `{ message }`
    | Created(idKey: string, id: int)             // `{ success: true, <idKey>: id }`
    | Acknowledged(note: string)                  // `{ success: true, message: note }`

  datatype Response = Response(status: int, body: Body)

  /** The text `fromZodError` formats for a body a schema refuses, one
      function per schema. Whether a body is accepted, and the payload it
      yields, are the schema parsers of `Schema`. */
  datatype ErrorMessages = ErrorMessages(
    order: Json -> string,
    freelancer: Json -> string,
    contact: Json -> string,
    newsletter: Json -> string)

  datatype Handler =
    | ListPortfolio | ListFeatured | PortfolioById | PortfolioByCategory
    | SubmitOrder | SubmitFreelancer | SubmitContact | Subscribe

  const InvalidId := "Invalid ID format"
  const ItemNotFound := "Portfolio item not found"
  const AlreadySubscribed := "Already subscribed"

  // ---------------------------------------------------------------------
  // Routing
  // ---------------------------------------------------------------------

  predicate AnswersGet(m: Method) {
    m == Get || m == Head
  }

  /** A literal path segment matches regardless of case. */
  predicate Segment(seg: string, literal: string) {
    EqualsIgnoringCase(seg, literal)
  }

  predicate IsPortfolioPath(path: seq<string>) {
    |path| >= 2 && Segment(path[0], "api") && Segment(path[1], "portfolio")
  }

  predicate IsPostPath(path: seq<string>, resource: string) {
    |path| == 2 && Segment(path[0], "api") && Segment(path[1], resource)
  }

  /** The first registered route matching the method and path. */
  function RouteOf(m: Method, path: seq<string>): (r: Option<Handler>)
    ensures r == Some(PortfolioById) ==> |path| == 3 && !Segment(path[2], "featured") && path[2] != ""
    ensures r == Some(PortfolioByCategory) ==> |path| == 4 && path[3] != ""
    ensures r.Some? && r.value in {ListPortfolio, ListFeatured, PortfolioById, PortfolioByCategory}
      ==> AnswersGet(m) && IsPortfolioPath(path)
    ensures r.Some? && r.value in {SubmitOrder, SubmitFreelancer, SubmitContact, Subscribe}
      ==> m == Post && |path| == 2
    ensures r.Some? ==> m in {Get, Head, Post}
  {
    if AnswersGet(m) && IsPortfolioPath(path) && |path| == 2 then Some(ListPortfolio)
    else if AnswersGet(m) && IsPortfolioPath(path) && |path| == 3 && Segment(path[2], "featured") then Some(ListFeatured)
    else if AnswersGet(m) && IsPortfolioPath(path) && |path| == 3 && path[2] != "" then Some(PortfolioById)
    else if AnswersGet(m) && IsPortfolioPath(path) && |path| == 4 && Segment(path[2], "category") && path[3] != ""
    then Some(PortfolioByCategory)
    else if m == Post && IsPostPath(path, "orders") then Some(SubmitOrder)
    else if m == Post && IsPostPath(path, "freelancers") then Some(SubmitFreelancer)
    else if m == Post && IsPostPath(path, "contact") then Some(SubmitContact)
    else if m == Post && IsPostPath(path, "newsletter") then Some(Subscribe)
    else None
  }

  // ---------------------------------------------------------------------
  // Handlers
  // ---------------------------------------------------------------------

  /** GET /api/portfolio/:id. A parameter that does not parse is refused
      with 400 before storage is consulted; an id storage does not know
      is 404; otherwise 200 with the item. Storage is never changed. */
  function ItemById(d: DatabaseStorage, param: string): (r: Response)
    ensures r.status in {200, 400, 404}
    ensures r.status == 400 <==> ParseInt(param).None?
    ensures r.status == 400 ==> r.body == Message(InvalidId)
    ensures r.status == 404 <==> ParseInt(param).Some? && Storage.GetPortfolioItemById(d.memStorage, ParseInt(param).value).None?
    ensures r.status == 404 ==> r.body == Message(ItemNotFound)
    ensures r.status == 200 ==>
      && r.body.Item?
      && r.body.item in d.memStorage.portfolioItems.rows
      && r.body.item.id == ParseInt(param).value
  {
    match ParseInt(param)
    case None => Response(400, Message(InvalidId))
    case Some(id) =>
      match d.GetPortfolioItemById(id)
      case None => Response(404, Message(ItemNotFound))
      case Some(item) => Response(200, Item(item))
  }

  /** The three POST handlers that store a submission: 400 with the
      validation message and storage untouched, or 201 with the id storage
      has just allocated. */
  function SubmitOrderHandler(d: DatabaseStorage, v: ErrorMessages, req: Request): (r: (Response, DatabaseStorage))
    ensures r.0.status in {201, 400}
    ensures r.0.status == 400 <==> ParseOrder(req.body).None?
    ensures r.0.status == 400 ==> r.0.body == Message(v.order(req.body)) && r.1 == d
    ensures r.0.status == 201 ==>
      && r.0.body == Created("orderId", d.memStorage.orders.next)
      && r.1.memStorage.orders.next == d.memStorage.orders.next + 1
      && (Storage.Invariant(d.memStorage) ==> (
            var stored := Storage.GetOrderById(r.1.memStorage, r.0.body.id);
            && stored.Some?
            && OrderInput(stored.value.data) == ParseOrder(req.body).value
            && stored.value.data.status == DefaultStatus))
    ensures r.1.memStorage == d.memStorage.(orders := r.1.memStorage.orders)
    ensures Storage.Invariant(d.memStorage) ==> Storage.Invariant(r.1.memStorage)
  {
    match ParseOrder(req.body)
    case None => (Response(400, Message(v.order(req.body))), d)
    case Some(ins) =>
      var (order, e) := d.CreateOrder(ins, req.now);
      (Response(201, Created("orderId", order.id)), e)
  }

  function SubmitFreelancerHandler(d: DatabaseStorage, v: ErrorMessages, req: Request): (r: (Response, DatabaseStorage))
    ensures r.0.status in {201, 400}
    ensures r.0.status == 400 <==> ParseFreelancer(req.body).None?
    ensures r.0.status == 400 ==> r.0.body == Message(v.freelancer(req.body)) && r.1 == d
    ensures r.0.status == 201 ==>
      && r.0.body == Created("freelancerId", d.memStorage.freelancers.next)
      && r.1.memStorage.freelancers.next == d.memStorage.freelancers.next + 1
      && (Storage.Invariant(d.memStorage) ==> (
            var stored := Storage.GetFreelancerById(r.1.memStorage, r.0.body.id);
            && stored.Some?
            && FreelancerInput(stored.value.data) == ParseFreelancer(req.body).value
            && stored.value.data.status == DefaultStatus))
    ensures r.1.memStorage == d.memStorage.(freelancers := r.1.memStorage.freelancers)
    ensures Storage.Invariant(d.memStorage) ==> Storage.Invariant(r.1.memStorage)
  {
    match ParseFreelancer(req.body)
    case None => (Response(400, Message(v.freelancer(req.body))), d)
    case Some(ins) =>
      var (freelancer, e) := d.CreateFreelancer(ins, req.now);
      (Response(201, Created("freelancerId", freelancer.id)), e)
  }

  function SubmitContactHandler(d: DatabaseStorage, v: ErrorMessages, req: Request): (r: (Response, DatabaseStorage))
    ensures r.0.status in {201, 400}
    ensures r.0.status == 400 <==> ParseContact(req.body).None?
    ensures r.0.status == 400 ==> r.0.body == Message(v.contact(req.body)) && r.1 == d
    ensures r.0.status == 201 ==>
      && r.0.body == Created("messageId", d.memStorage.contactMessages.next)
      && r.1.memStorage.contactMessages.next == d.memStorage.contactMessages.next + 1
      && (Storage.Invariant(d.memStorage) ==> (
            var stored := Storage.GetContactMessageById(r.1.memStorage, r.0.body.id);
            && stored.Some?
            && ContactInput(stored.value.data) == ParseContact(req.body).value
            && stored.value.data.read == DefaultRead))
    ensures r.1.memStorage == d.memStorage.(contactMessages := r.1.memStorage.contactMessages)
    ensures Storage.Invariant(d.memStorage) ==> Storage.Invariant(r.1.memStorage)
  {
    match ParseContact(req.body)
    case None => (Response(400, Message(v.contact(req.body))), d)
    case Some(ins) =>
      var (message, e) := d.CreateContactMessage(ins, req.now);
      (Response(201, Created("messageId", message.id)), e)
  }

  /** POST /api/newsletter: 400 for a body without a valid email; 200
      "Already subscribed" and no new record for a known email; otherwise
      201 with the new subscriber's id. */
  function SubscribeHandler(d: DatabaseStorage, v: ErrorMessages, req: Request): (r: (Response, DatabaseStorage))
    ensures r.0.status in {200, 201, 400}
    ensures r.0.status == 400 <==> ParseNewsletter(req.body).None?
    ensures r.0.status == 400 ==> r.0.body == Message(v.newsletter(req.body))
    ensures r.0.status == 200 <==>
      ParseNewsletter(req.body).Some? && Storage.IsEmailSubscribed(d.memStorage, ParseNewsletter(req.body).value.email)
    ensures r.0.status == 200 ==> r.0.body == Acknowledged(AlreadySubscribed)
    ensures r.0.status != 201 ==> r.1 == d
    ensures r.0.status == 201 ==>
      && r.0.body == Created("subscriberId", d.memStorage.newsletterSubscribers.next)
      && r.1.memStorage.newsletterSubscribers.next == d.memStorage.newsletterSubscribers.next + 1
      && r.1.memStorage.newsletterSubscribers.rows ==
           d.memStorage.newsletterSubscribers.rows
           + [Row(r.0.body.id, SubscriberFields(ParseNewsletter(req.body).value.email, req.now))]
    ensures r.1.memStorage == d.memStorage.(newsletterSubscribers := r.1.memStorage.newsletterSubscribers)
    ensures ParseNewsletter(req.body).Some? ==>
      Storage.IsEmailSubscribed(r.1.memStorage, ParseNewsletter(req.body).value.email)
    ensures Storage.Invariant(d.memStorage) ==> Storage.Invariant(r.1.memStorage)
  {
    match ParseNewsletter(req.body)
    case None => (Response(400, Message(v.newsletter(req.body))), d)
    case Some(ins) =>
      if d.IsEmailSubscribed(ins.email) then (Response(200, Acknowledged(AlreadySubscribed)), d)
      else
        var (subscriber, e) := d.CreateNewsletterSubscriber(ins, req.now);
        (Response(201, Created("subscriberId", subscriber.id)), e)
  }

  /** The counter that allocates the ids reported under `idKey`. */
  function CounterFor(s: Storage.MemStorage, idKey: string): int {
    if idKey == "orderId" then s.orders.next
    else if idKey == "freelancerId" then s.freelancers.next
    else if idKey == "messageId" then s.contactMessages.next
    else if idKey == "subscriberId" then s.newsletterSubscribers.next
    else 0
  }

  /** One request against the API. A request no route matches changes
      nothing; a matched one keeps the store invariant and never moves a
      counter back, only a 201 changes storage, and the id a 201 reports is
      the one its counter held before the request. */
  function Dispatch(d: DatabaseStorage, v: ErrorMessages, req: Request): (r: (Option<Response>, DatabaseStorage))
    ensures r.0.Some? <==> RouteOf(req.verb, req.path).Some?
    ensures r.0.Some? ==> r.0.value.status in {200, 201, 400, 404}
    ensures r.0.None? || r.0.value.status != 201 ==> r.1 == d
    ensures Storage.Invariant(d.memStorage) ==> Storage.Invariant(r.1.memStorage)
    ensures CountersKept(d.memStorage, r.1.memStorage)
    ensures r.0.Some? && r.0.value.status == 201 ==>
      && r.0.value.body.Created?
      && r.0.value.body.id == CounterFor(d.memStorage, r.0.value.body.idKey)
      && CounterFor(r.1.memStorage, r.0.value.body.idKey) == r.0.value.body.id + 1
  {
    match RouteOf(req.verb, req.path)
    case None => (None, d)
    case Some(h) =>
      if IsPortfolioHandler(h) then (Some(AnswerPortfolio(d, h, req.path)), d)
      else var (resp, e) := Submit(d, v, h, req); (Some(resp), e)
  }

  predicate IsPortfolioHandler(h: Handler) {
    h in {ListPortfolio, ListFeatured, PortfolioById, PortfolioByCategory}
  }

  /** The four read-only portfolio handlers. */
  function AnswerPortfolio(d: DatabaseStorage, h: Handler, path: seq<string>): (r: Response)
    requires IsPortfolioHandler(h)
    requires h == PortfolioById ==> |path| == 3
    requires h == PortfolioByCategory ==> |path| == 4
    ensures r.status in {200, 400, 404}
  {
    match h
    case ListPortfolio => Response(200, Items(d.GetPortfolioItems()))
    case ListFeatured => Response(200, Items(d.GetFeaturedPortfolioItems()))
    case PortfolioById => ItemById(d, path[2])
    case PortfolioByCategory => Response(200, Items(d.GetPortfolioItemsByCategory(path[3])))
  }

  /** The four form handlers. Only a 201 changes storage, and the id it
      reports is the one its counter held. */
  function Submit(d: DatabaseStorage, v: ErrorMessages, h: Handler, req: Request): (r: (Response, DatabaseStorage))
    requires !IsPortfolioHandler(h)
    ensures r.0.status in {200, 201, 400}
    ensures r.0.status != 201 ==> r.1 == d
    ensures Storage.Invariant(d.memStorage) ==> Storage.Invariant(r.1.memStorage)
    ensures CountersKept(d.memStorage, r.1.memStorage)
    ensures r.0.status == 201 ==>
      && r.0.body.Created?
      && r.0.body.id == CounterFor(d.memStorage, r.0.body.idKey)
      && CounterFor(r.1.memStorage, r.0.body.idKey) == r.0.body.id + 1
  {
    match h
    case SubmitOrder => SubmitOrderHandler(d, v, req)
    case SubmitFreelancer => SubmitFreelancerHandler(d, v, req)
    case SubmitContact => SubmitContactHandler(d, v, req)
    case Subscribe => SubscribeHandler(d, v, req)
  }

  /** A sequence of requests served one after the other. */
  function Serve(d: DatabaseStorage, v: ErrorMessages, reqs: seq<Request>): (r: (seq<Option<Response>>, DatabaseStorage))
    ensures |r.0| == |reqs|
    ensures Storage.Invariant(d.memStorage) ==> Storage.Invariant(r.1.memStorage)
    ensures CountersKept(d.memStorage, r.1.memStorage)
    decreases |reqs|
  {
    if |reqs| == 0 then ([], d)
    else
      var (first, e) := Dispatch(d, v, reqs[0]);
      var rest := Serve(e, v, reqs[1..]);
      ([first] + rest.0, rest.1)
  }

  // ---------------------------------------------------------------------
  // Properties of the API
  // ---------------------------------------------------------------------

  /** The literal segments of the registered paths, spelled as
      registered, match themselves. */
  lemma LiteralSegments()
    ensures Segment("api", "api") && Segment("portfolio", "portfolio") && Segment("featured", "featured")
  {
    LowerOfLowerCase("api");
    LowerOfLowerCase("portfolio");
    LowerOfLowerCase("featured");
  }

  /** A segment that starts with a decimal digit is never "featured". */
  lemma DigitSegmentIsNotFeatured(seg: string)
    requires |seg| > 0 && IsDecimalDigit(seg[0])
    ensures !Segment(seg, "featured")
  {
    assert LowerChar(Lower(seg)[0]) == LowerChar(seg[0]);
    assert LowerChar(Lower("featured")[0]) == LowerChar('f');
  }

  /** `/api/portfolio/featured` is registered before `/api/portfolio/:id`,
      so the segment "featured", in any case, reaches the featured list and
      is never read as an id. */
  lemma FeaturedIsNotAnId(d: DatabaseStorage, v: ErrorMessages, m: Method, path: seq<string>, body: Json, now: string)
    requires AnswersGet(m) && |path| == 3
    requires Segment(path[0], "api") && Segment(path[1], "portfolio") && Segment(path[2], "featured")
    ensures Dispatch(d, v, Request(m, path, body, now))
      == (Some(Response(200, Items(Storage.GetFeaturedPortfolioItems(d.memStorage)))), d)
  {
  }

  /** The category segment is handed to storage as it came, and storage
      compares case-insensitively: `/category/FORMAL` and `/category/formal`
      answer with the same list. */
  lemma CategoryRouteIgnoresCase(d: DatabaseStorage, v: ErrorMessages, m: Method, path: seq<string>, other: string,
                                 body: Json, now: string)
    requires RouteOf(m, path) == Some(PortfolioByCategory)
    requires other != "" && EqualsIgnoringCase(path[3], other)
    ensures RouteOf(m, path[3 := other]) == Some(PortfolioByCategory)
    ensures Dispatch(d, v, Request(m, path, body, now)) == Dispatch(d, v, Request(m, path[3 := other], body, now))
  {
    Storage.CategoryFilterIgnoresCase(d.memStorage, path[3], other);
  }

  /** GET `/api/portfolio/<n>` for the decimal spelling of a non-negative
      `n` reaches the id handler, which answers 200 with item `n` when
      storage holds it and 404 otherwise; storage is left as it was. */
  lemma ItemByDecimalId(d: DatabaseStorage, v: ErrorMessages, n: nat, body: Json, now: string)
    requires Storage.Invariant(d.memStorage)
    ensures var r := Dispatch(d, v, Request(Get, ["api", "portfolio", NatToString(n)], body, now));
      && r.1 == d
      && r.0.Some?
      && (r.0.value.status == 200 <==> Storage.GetPortfolioItemById(d.memStorage, n).Some?)
      && (r.0.value.status == 200 ==> r.0.value.body == Item(Storage.GetPortfolioItemById(d.memStorage, n).value))
      && (r.0.value.status != 200 ==> r.0.value == Response(404, Message(ItemNotFound)))
  {
    var seg := NatToString(n);
    DecimalIdRoutes(seg);
    ParseIntOfNatToString(n);
    var path := ["api", "portfolio", seg];
    assert Dispatch(d, v, Request(Get, path, body, now)) == (Some(ItemById(d, seg)), d);
  }

  /** A segment starting with a decimal digit is routed to the id handler. */
  lemma DecimalIdRoutes(seg: string)
    requires |seg| > 0 && IsDecimalDigit(seg[0])
    ensures RouteOf(Get, ["api", "portfolio", seg]) == Some(PortfolioById)
  {
    LiteralSegments();
    DigitSegmentIsNotFeatured(seg);
  }

  /** An id segment with no decimal digit in it (other than "featured") is
      refused with 400 "Invalid ID format" and storage is not consulted. */
  lemma NonNumericIdIsRefused(d: DatabaseStorage, v: ErrorMessages, seg: string, body: Json, now: string)
    requires seg != "" && !Segment(seg, "featured")
    requires forall i :: 0 <= i < |seg| ==> !IsDecimalDigit(seg[i])
    ensures Dispatch(d, v, Request(Get, ["api", "portfolio", seg], body, now))
      == (Some(Response(400, Message(InvalidId))), d)
  {
    LiteralSegments();
    assert RouteOf(Get, ["api", "portfolio", seg]) == Some(PortfolioById);
    NoDigitIsNaN(seg);
  }

  /** Only four GET paths and four POST paths are served. In particular
      there is no route to list orders, to change an order's status or to
      delete a portfolio item, so those requests change nothing. */
  lemma UnroutedRequests(d: DatabaseStorage, v: ErrorMessages, id: string, body: Json, now: string)
    ensures Dispatch(d, v, Request(Get, ["api", "orders"], body, now)) == (None, d)
    ensures Dispatch(d, v, Request(Patch, ["api", "orders", id], body, now)) == (None, d)
    ensures Dispatch(d, v, Request(Delete, ["api", "portfolio", id], body, now)) == (None, d)
  {
    assert !Segment("orders", "portfolio");
  }

  /** Posting the same email twice: the first post answers 201 exactly
      when the email was new, and the second always answers 200 "Already
      subscribed" and stores nothing. */
  lemma SubscribeTwice(d: DatabaseStorage, v: ErrorMessages, req: Request, later: string)
    requires RouteOf(req.verb, req.path) == Some(Subscribe)
    requires ParseNewsletter(req.body).Some?
    ensures var first := Dispatch(d, v, req);
      var second := Dispatch(first.1, v, req.(now := later));
      && first.0.Some? && second.0.Some?
      && (first.0.value.status == 201 <==> !Storage.IsEmailSubscribed(d.memStorage, ParseNewsletter(req.body).value.email))
      && second.0.value == Response(200, Acknowledged(AlreadySubscribed))
      && second.1 == first.1
  {
  }

  /** The order route stores nothing for a body whose `measurements` is
      missing, is not an object, or lacks one of its six string fields: it
      answers 400 with the schema's message. */
  lemma OrderWithoutMeasurementsIsRefused(d: DatabaseStorage, v: ErrorMessages, req: Request)
    requires RouteOf(req.verb, req.path) == Some(SubmitOrder)
    requires !(req.body.JObject? && "measurements" in req.body.fields
               && ParseMeasurements(req.body.fields["measurements"]).Some?)
    ensures Dispatch(d, v, req) == (Some(Response(400, Message(v.order(req.body)))), d)
  {
  }

  /** Posting the body of any order payload to the order route answers 201
      with the next order id, and that order then holds the payload and is
      pending. */
  lemma PostedOrderIsStored(d: DatabaseStorage, v: ErrorMessages, req: Request, o: InsertOrder)
    requires RouteOf(req.verb, req.path) == Some(SubmitOrder)
    requires req.body == OrderToJson(o)
    requires Storage.Invariant(d.memStorage)
    ensures var r := Dispatch(d, v, req);
      var stored := Storage.GetOrderById(r.1.memStorage, d.memStorage.orders.next);
      && r.0 == Some(Response(201, Created("orderId", d.memStorage.orders.next)))
      && stored.Some? && OrderInput(stored.value.data) == o && stored.value.data.status == DefaultStatus
  {
    ParseOrderRoundTrip(o);
  }

  /** Across any sequence of requests, the ids reported by successive 201
      answers of one kind strictly increase, so no two submissions of a
      kind are ever told the same id. All of them lie between the counter
      before the first request and the counter after the last. */
  lemma {:induction false} CreatedIdsIncrease(d: DatabaseStorage, v: ErrorMessages, reqs: seq<Request>, key: string)
    ensures var r := Serve(d, v, reqs);
      && ReportedWithin(r.0, key, CounterFor(d.memStorage, key), CounterFor(r.1.memStorage, key))
      && ReportedAscending(r.0, key)
    decreases |reqs|
  {
    if |reqs| > 0 {
      var step := Dispatch(d, v, reqs[0]);
      var first := step.0;
      var next := step.1;
      var tail := Serve(next, v, reqs[1..]);
      var e := tail.1;
      assert Serve(d, v, reqs) == ([first] + tail.0, e);
      CreatedIdsIncrease(next, v, reqs[1..], key);
      assert tail == Serve(next, v, reqs[1..]);
      CounterKeptFor(d.memStorage, next.memStorage, key);
      CounterKeptFor(next.memStorage, e.memStorage, key);
      PrependReport(first, tail.0, key,
        CounterFor(d.memStorage, key), CounterFor(next.memStorage, key), CounterFor(e.memStorage, key));
    }
  }

  /** Every id reported under `key` lies in `[lo, hi)`. */
  predicate ReportedWithin(rs: seq<Option<Response>>, key: string, lo: int, hi: int) {
    forall i :: 0 <= i < |rs| && IsCreated(rs[i], key) ==> lo <= rs[i].value.body.id < hi
  }

  /** The ids reported under `key` strictly increase along the answers. */
  predicate ReportedAscending(rs: seq<Option<Response>>, key: string) {
    forall i, j :: 0 <= i < j < |rs| && IsCreated(rs[i], key) && IsCreated(rs[j], key) ==>
      rs[i].value.body.id < rs[j].value.body.id
  }

  /** An answer whose id (if any) lies in `[lo, mid)`, followed by answers
      whose ids ascend within `[mid, hi)`, gives answers whose ids ascend
      within `[lo, hi)`. */
  lemma PrependReport(first: Option<Response>, rest: seq<Option<Response>>, key: string, lo: int, mid: int, hi: int)
    requires lo <= mid <= hi
    requires IsCreated(first, key) ==> lo <= first.value.body.id < mid
    requires ReportedWithin(rest, key, mid, hi) && ReportedAscending(rest, key)
    ensures ReportedWithin([first] + rest, key, lo, hi) && ReportedAscending([first] + rest, key)
  {
    var rs := [first] + rest;
    forall i | 0 <= i < |rs| && IsCreated(rs[i], key) ensures lo <= rs[i].value.body.id < hi {
      if i > 0 {
        assert rs[i] == rest[i - 1];
      }
    }
    forall i, j | 0 <= i < j < |rs| && IsCreated(rs[i], key) && IsCreated(rs[j], key)
      ensures rs[i].value.body.id < rs[j].value.body.id
    {
      assert rs[j] == rest[j - 1];
      if i > 0 {
        assert rs[i] == rest[i - 1];
      }
    }
  }

  /** A 201 answer reporting an id under `key`. */
  predicate IsCreated(r: Option<Response>, key: string) {
    r.Some? && r.value.status == 201 && r.value.body.Created? && r.value.body.idKey == key
  }

  lemma CounterKeptFor(s: Storage.MemStorage, t: Storage.MemStorage, key: string)
    requires CountersKept(s, t)
    ensures CounterFor(s, key) <= CounterFor(t, key)
  {
  }
}
