/** The record shapes of the six tables, the payloads a client may submit
    for each, and the column defaults.

    A stored record is a `Row` (the serial `id` column) around the other
    columns. A nullable column is an `Option`. An insert payload is its own
    datatype, so a field the insert schema does not pick (`id`, `createdAt`,
    `status`, `read`) cannot be supplied by a client at all: the schema's
    parser drops unknown keys. */
module Schema {
  import opened Wrappers
  import opened Table

  /** A JSON value, as a request body or a `jsonb` column holds it. */
  datatype Json =
    | JNull
    | JBool(b: bool)
    | JNumber(n: int)
    | JString(s: string)
    | JArray(items: seq<Json>)
    | JObject(fields: map<string, Json>)

  // ---------------------------------------------------------------------
  // Column defaults
  // ---------------------------------------------------------------------

  /** `status` of orders and freelancers defaults to "pending". */
  const DefaultStatus: string := "pending"

  /** `featured` of a portfolio item defaults to false. */
  const DefaultFeatured: bool := false

  /** `read` of a contact message defaults to false. */
  const DefaultRead: bool := false

  // ---------------------------------------------------------------------
  // users
  // ---------------------------------------------------------------------

  /** The insert payload picks both non-key columns, so it is the record
      without its id. */
  datatype UserFields = UserFields(username: string, password: string)

  type InsertUser = UserFields
  type User = Row<UserFields>

  // ---------------------------------------------------------------------
  // portfolio
  // ---------------------------------------------------------------------

  /** `description` is nullable; `featured` is nullable with default false.
      `None` stands for a missing or null value. */
  datatype PortfolioFields = PortfolioFields(
    name: string,
    category: string,
    imageUrl: string,
    description: Option<string>,
    featured: Option<bool>)

  type InsertPortfolio = PortfolioFields
  type Portfolio = Row<PortfolioFields>

  /** The truthiness test `item.featured`: only a stored `true` counts, an
      absent or null flag reads as the default. */
  predicate IsFeatured(p: PortfolioFields) {
    p.featured.GetOr(DefaultFeatured)
  }

  /** `Partial<InsertPortfolio>`: `None` leaves a field alone; `Some(v)`
      overwrites it (for a nullable field `v` may itself be null). */
  datatype PortfolioPatch = PortfolioPatch(
    name: Option<string>,
    category: Option<string>,
    imageUrl: Option<string>,
    description: Option<Option<string>>,
    featured: Option<Option<bool>>)

  /** `{ ...item, ...patch }`: each field the patch carries wins, every
      other field keeps the item's value. */
  function ApplyPatch(item: PortfolioFields, patch: PortfolioPatch): (r: PortfolioFields)
    ensures patch.name.None? ==> r.name == item.name
    ensures patch.name.Some? ==> r.name == patch.name.value
    ensures patch.category.None? ==> r.category == item.category
    ensures patch.category.Some? ==> r.category == patch.category.value
    ensures patch.imageUrl.None? ==> r.imageUrl == item.imageUrl
    ensures patch.imageUrl.Some? ==> r.imageUrl == patch.imageUrl.value
    ensures patch.description.None? ==> r.description == item.description
    ensures patch.description.Some? ==> r.description == patch.description.value
    ensures patch.featured.None? ==> r.featured == item.featured
    ensures patch.featured.Some? ==> r.featured == patch.featured.value
  {
    PortfolioFields(
      patch.name.GetOr(item.name),
      patch.category.GetOr(item.category),
      patch.imageUrl.GetOr(item.imageUrl),
      patch.description.GetOr(item.description),
      patch.featured.GetOr(item.featured))
  }

  /** The empty patch changes nothing. */
  lemma ApplyEmptyPatch(item: PortfolioFields)
    ensures ApplyPatch(item, PortfolioPatch(None, None, None, None, None)) == item
  {
  }

  // ---------------------------------------------------------------------
  // orders
  // ---------------------------------------------------------------------

  /** The six body measurements, all required strings. */
  datatype Measurements = Measurements(
    bust: string,
    waist: string,
    hips: string,
    height: string,
    shoulderToWaist: string,
    waistToHem: string)

  /** The nine picked columns plus `measurements`. `phone`,
      `specialRequirements` and `referralSource` are nullable. */
  datatype InsertOrder = InsertOrder(
    firstName: string,
    lastName: string,
    email: string,
    phone: Option<string>,
    serviceType: string,
    budget: string,
    timeframe: string,
    measurements: Measurements,
    specialRequirements: Option<string>,
    referralSource: Option<string>)

  datatype OrderFields = OrderFields(
    firstName: string,
    lastName: string,
    email: string,
    phone: Option<string>,
    serviceType: string,
    budget: string,
    timeframe: string,
    measurements: Measurements,
    specialRequirements: Option<string>,
    referralSource: Option<string>,
    createdAt: string,
    status: string)

  type Order = Row<OrderFields>

  /** The client-supplied part of a stored order. */
  function OrderInput(o: OrderFields): InsertOrder {
    InsertOrder(o.firstName, o.lastName, o.email, o.phone, o.serviceType, o.budget,
                o.timeframe, o.measurements, o.specialRequirements, o.referralSource)
  }

  /** `{ ...insertOrder, createdAt, status }`: the payload is copied
      unchanged and the two server-side columns are added. */
  function NewOrder(ins: InsertOrder, createdAt: string, status: string): (o: OrderFields)
    ensures OrderInput(o) == ins
    ensures o.createdAt == createdAt && o.status == status
  {
    OrderFields(ins.firstName, ins.lastName, ins.email, ins.phone, ins.serviceType, ins.budget,
                ins.timeframe, ins.measurements, ins.specialRequirements, ins.referralSource,
                createdAt, status)
  }

  // ---------------------------------------------------------------------
  // freelancers
  // ---------------------------------------------------------------------

  /** Every column but `id`, `createdAt` and `status`; `phone` is required
      here (unlike for orders), `portfolioUrl` is nullable. */
  datatype InsertFreelancer = InsertFreelancer(
    firstName: string,
    lastName: string,
    email: string,
    phone: string,
    specialization: string,
    experience: string,
    location: string,
    portfolioUrl: Option<string>,
    bio: string,
    availability: string)

  datatype FreelancerFields = FreelancerFields(
    firstName: string,
    lastName: string,
    email: string,
    phone: string,
    specialization: string,
    experience: string,
    location: string,
    portfolioUrl: Option<string>,
    bio: string,
    availability: string,
    createdAt: string,
    status: string)

  type Freelancer = Row<FreelancerFields>

  function FreelancerInput(f: FreelancerFields): InsertFreelancer {
    InsertFreelancer(f.firstName, f.lastName, f.email, f.phone, f.specialization,
                     f.experience, f.location, f.portfolioUrl, f.bio, f.availability)
  }

  function NewFreelancer(ins: InsertFreelancer, createdAt: string, status: string): (f: FreelancerFields)
    ensures FreelancerInput(f) == ins
    ensures f.createdAt == createdAt && f.status == status
  {
    FreelancerFields(ins.firstName, ins.lastName, ins.email, ins.phone, ins.specialization,
                     ins.experience, ins.location, ins.portfolioUrl, ins.bio, ins.availability,
                     createdAt, status)
  }

  // ---------------------------------------------------------------------
  // contact messages
  // ---------------------------------------------------------------------

  /** Only name, email, subject and message; `read` is not client-settable. */
  datatype InsertContact = InsertContact(name: string, email: string, subject: string, message: string)

  /** `read` is a nullable column, but the store always writes a boolean
      into it, so the stored value is a plain `bool`. */
  datatype ContactFields = ContactFields(
    name: string,
    email: string,
    subject: string,
    message: string,
    createdAt: string,
    read: bool)

  type ContactMessage = Row<ContactFields>

  function ContactInput(c: ContactFields): InsertContact {
    InsertContact(c.name, c.email, c.subject, c.message)
  }

  function NewContact(ins: InsertContact, createdAt: string, read: bool): (c: ContactFields)
    ensures ContactInput(c) == ins
    ensures c.createdAt == createdAt && c.read == read
  {
    ContactFields(ins.name, ins.email, ins.subject, ins.message, createdAt, read)
  }

  // ---------------------------------------------------------------------
  // newsletter subscribers
  // ---------------------------------------------------------------------

  /** Only `email`, a column declared unique. */
  datatype InsertNewsletter = InsertNewsletter(email: string)

  datatype SubscriberFields = SubscriberFields(email: string, createdAt: string)

  type NewsletterSubscriber = Row<SubscriberFields>

  // ---------------------------------------------------------------------
  // The measurements object
  // ---------------------------------------------------------------------

  const MeasurementKeys: set<string> := {"bust", "waist", "hips", "height", "shoulderToWaist", "waistToHem"}

  predicate HasString(fields: map<string, Json>, key: string) {
    key in fields && fields[key].JString?
  }

  /** The `measurements` object schema: six required string fields; any
      other key is dropped. */
  function ParseMeasurements(v: Json): (r: Option<Measurements>)
    ensures r.Some? <==> v.JObject? && forall k :: k in MeasurementKeys ==> HasString(v.fields, k)
    ensures r.Some? ==> MeasurementsToJson(r.value).fields == map k | k in MeasurementKeys :: v.fields[k]
  {
    match v
    case JObject(f) =>
      if HasString(f, "bust") && HasString(f, "waist") && HasString(f, "hips")
        && HasString(f, "height") && HasString(f, "shoulderToWaist") && HasString(f, "waistToHem")
      then
        var m := Measurements(f["bust"].s, f["waist"].s, f["hips"].s, f["height"].s,
                              f["shoulderToWaist"].s, f["waistToHem"].s);
        assert MeasurementsToJson(m).fields == map k | k in MeasurementKeys :: v.fields[k];
        Some(m)
      else None
    case _ => None
  }

  /** The object a `Measurements` value serialises to: exactly the six keys. */
  function MeasurementsToJson(m: Measurements): (v: Json)
    ensures v.JObject? && v.fields.Keys == MeasurementKeys
  {
    JObject(map[
      "bust" := JString(m.bust),
      "waist" := JString(m.waist),
      "hips" := JString(m.hips),
      "height" := JString(m.height),
      "shoulderToWaist" := JString(m.shoulderToWaist),
      "waistToHem" := JString(m.waistToHem)])
  }

  /** Serialising a measurements value and parsing it back gives it back. */
  lemma ParseMeasurementsRoundTrip(m: Measurements)
    ensures ParseMeasurements(MeasurementsToJson(m)) == Some(m)
  {
  }

  /** Extra keys beside the six are ignored by the parser. */
  lemma ParseMeasurementsIgnoresExtraKeys(m: Measurements, extra: map<string, Json>)
    requires extra.Keys !! MeasurementKeys
    ensures ParseMeasurements(JObject(MeasurementsToJson(m).fields + extra)) == Some(m)
  {
    var f := MeasurementsToJson(m).fields + extra;
    assert f["bust"] == JString(m.bust);
    assert f["waist"] == JString(m.waist);
    assert f["hips"] == JString(m.hips);
    assert f["height"] == JString(m.height);
    assert f["shoulderToWaist"] == JString(m.shoulderToWaist);
    assert f["waistToHem"] == JString(m.waistToHem);
  }

  // ---------------------------------------------------------------------
  // Request bodies: the insert schemas' `safeParse`
  // ---------------------------------------------------------------------

  /** `z.string()`: the key is present and holds a string. */
  function RequiredString(f: map<string, Json>, key: string): (r: Option<string>)
    ensures r.Some? <==> HasString(f, key)
    ensures r.Some? ==> f[key] == JString(r.value)
  {
    if HasString(f, key) then Some(f[key].s) else None
  }

  /** The accepted values of a nullable column: absent, null, or a string. */
  predicate NullableOk(f: map<string, Json>, key: string) {
    key !in f || f[key].JNull? || f[key].JString?
  }

  /** `z.string().nullable().optional()`: an absent key and null both read
      as null, a string as itself, and any other value is refused. */
  function NullableString(f: map<string, Json>, key: string): (r: Option<Option<string>>)
    ensures r.Some? <==> NullableOk(f, key)
    ensures r == Some(None) <==> key !in f || f[key].JNull?
    ensures r.Some? && r.value.Some? ==> f[key] == JString(r.value.value)
  {
    if key !in f || f[key].JNull? then Some(None)
    else if f[key].JString? then Some(Some(f[key].s))
    else None
  }

  /** A nullable column as a JSON value: null or a string. */
  function NullableToJson(x: Option<string>): Json {
    match x
    case None => JNull
    case Some(s) => JString(s)
  }

  /** The columns of each table, and the keys its insert schema picks. */
  const OrderColumns: set<string> := {"id", "firstName", "lastName", "email", "phone", "serviceType",
    "budget", "timeframe", "measurements", "specialRequirements", "referralSource", "createdAt", "status"}
  const OrderRequired: set<string> := {"firstName", "lastName", "email", "serviceType", "budget", "timeframe"}
  const OrderNullable: set<string> := {"phone", "specialRequirements", "referralSource"}
  const OrderInsertKeys: set<string> := OrderRequired + OrderNullable + {"measurements"}

  const FreelancerColumns: set<string> := {"id", "firstName", "lastName", "email", "phone",
    "specialization", "experience", "location", "portfolioUrl", "bio", "availability", "createdAt", "status"}
  const FreelancerRequired: set<string> := {"firstName", "lastName", "email", "phone",
    "specialization", "experience", "location", "bio", "availability"}
  const FreelancerInsertKeys: set<string> := FreelancerRequired + {"portfolioUrl"}

  const ContactColumns: set<string> := {"id", "name", "email", "subject", "message", "createdAt", "read"}
  const ContactInsertKeys: set<string> := {"name", "email", "subject", "message"}

  const NewsletterColumns: set<string> := {"id", "email", "createdAt"}
  const NewsletterInsertKeys: set<string> := {"email"}

  /** `insertOrderSchema.safeParse`: an object whose six required columns
      are strings, whose three nullable columns are absent, null or
      strings, and whose `measurements` parses; other keys are dropped. */
  function ParseOrder(b: Json): (r: Option<InsertOrder>)
    ensures r.Some? <==> (b.JObject?
      && (forall k :: k in OrderRequired ==> HasString(b.fields, k))
      && (forall k :: k in OrderNullable ==> NullableOk(b.fields, k))
      && "measurements" in b.fields && ParseMeasurements(b.fields["measurements"]).Some?)
    ensures r.Some? ==> ParseMeasurements(b.fields["measurements"]) == Some(r.value.measurements)
  {
    match b
    case JObject(f) =>
      var firstName := RequiredString(f, "firstName");
      var lastName := RequiredString(f, "lastName");
      var email := RequiredString(f, "email");
      var phone := NullableString(f, "phone");
      var serviceType := RequiredString(f, "serviceType");
      var budget := RequiredString(f, "budget");
      var timeframe := RequiredString(f, "timeframe");
      var measurements := if "measurements" in f then ParseMeasurements(f["measurements"]) else None;
      var special := NullableString(f, "specialRequirements");
      var referral := NullableString(f, "referralSource");
      if firstName.Some? && lastName.Some? && email.Some? && phone.Some? && serviceType.Some?
        && budget.Some? && timeframe.Some? && measurements.Some? && special.Some? && referral.Some?
      then
        Some(InsertOrder(firstName.value, lastName.value, email.value, phone.value, serviceType.value,
                         budget.value, timeframe.value, measurements.value, special.value, referral.value))
      else None
    case _ => None
  }

  /** The body a client sends for an order payload: exactly the keys the
      insert schema picks. */
  function OrderToJson(o: InsertOrder): (v: Json)
    ensures v.JObject? && v.fields.Keys == OrderInsertKeys
  {
    JObject(map[
      "firstName" := JString(o.firstName),
      "lastName" := JString(o.lastName),
      "email" := JString(o.email),
      "phone" := NullableToJson(o.phone),
      "serviceType" := JString(o.serviceType),
      "budget" := JString(o.budget),
      "timeframe" := JString(o.timeframe),
      "measurements" := MeasurementsToJson(o.measurements),
      "specialRequirements" := NullableToJson(o.specialRequirements),
      "referralSource" := NullableToJson(o.referralSource)])
  }

  /** Parsing the body of an order payload gives the payload back. */
  lemma ParseOrderRoundTrip(o: InsertOrder)
    ensures ParseOrder(OrderToJson(o)) == Some(o)
  {
    ParseMeasurementsRoundTrip(o.measurements);
    OrderNamesRoundTrip(o);
    OrderTermsRoundTrip(o);
    var f := OrderToJson(o).fields;
    NullableRoundTrip(f, "phone", o.phone);
    NullableRoundTrip(f, "specialRequirements", o.specialRequirements);
    NullableRoundTrip(f, "referralSource", o.referralSource);
  }

  lemma OrderNamesRoundTrip(o: InsertOrder)
    ensures var f := OrderToJson(o).fields;
      && RequiredString(f, "firstName") == Some(o.firstName)
      && RequiredString(f, "lastName") == Some(o.lastName)
      && RequiredString(f, "email") == Some(o.email)
  {
  }

  lemma OrderTermsRoundTrip(o: InsertOrder)
    ensures var f := OrderToJson(o).fields;
      && RequiredString(f, "serviceType") == Some(o.serviceType)
      && RequiredString(f, "budget") == Some(o.budget)
      && RequiredString(f, "timeframe") == Some(o.timeframe)
  {
  }

  lemma NullableRoundTrip(f: map<string, Json>, key: string, x: Option<string>)
    requires key in f && f[key] == NullableToJson(x)
    ensures NullableString(f, key) == Some(x)
  {
  }

  /** The order payload is every column except the three the server
      assigns: the nine picked columns plus `measurements`. */
  lemma OrderInsertKeysAreClientColumns(o: InsertOrder)
    ensures OrderToJson(o).fields.Keys == OrderColumns - {"id", "createdAt", "status"}
  {
  }

  /** `insertFreelancerSchema.safeParse`: nine required string columns and
      the nullable `portfolioUrl`; other keys are dropped. */
  function ParseFreelancer(b: Json): (r: Option<InsertFreelancer>)
    ensures r.Some? <==> (b.JObject?
      && (forall k :: k in FreelancerRequired ==> HasString(b.fields, k))
      && NullableOk(b.fields, "portfolioUrl"))
  {
    match b
    case JObject(f) =>
      var firstName := RequiredString(f, "firstName");
      var lastName := RequiredString(f, "lastName");
      var email := RequiredString(f, "email");
      var phone := RequiredString(f, "phone");
      var specialization := RequiredString(f, "specialization");
      var experience := RequiredString(f, "experience");
      var location := RequiredString(f, "location");
      var portfolioUrl := NullableString(f, "portfolioUrl");
      var bio := RequiredString(f, "bio");
      var availability := RequiredString(f, "availability");
      if firstName.Some? && lastName.Some? && email.Some? && phone.Some? && specialization.Some?
        && experience.Some? && location.Some? && portfolioUrl.Some? && bio.Some? && availability.Some?
      then
        Some(InsertFreelancer(firstName.value, lastName.value, email.value, phone.value,
                              specialization.value, experience.value, location.value,
                              portfolioUrl.value, bio.value, availability.value))
      else None
    case _ => None
  }

  function FreelancerToJson(x: InsertFreelancer): (v: Json)
    ensures v.JObject? && v.fields.Keys == FreelancerInsertKeys
  {
    JObject(map[
      "firstName" := JString(x.firstName),
      "lastName" := JString(x.lastName),
      "email" := JString(x.email),
      "phone" := JString(x.phone),
      "specialization" := JString(x.specialization),
      "experience" := JString(x.experience),
      "location" := JString(x.location),
      "portfolioUrl" := NullableToJson(x.portfolioUrl),
      "bio" := JString(x.bio),
      "availability" := JString(x.availability)])
  }

  lemma ParseFreelancerRoundTrip(x: InsertFreelancer)
    ensures ParseFreelancer(FreelancerToJson(x)) == Some(x)
  {
  }

  /** The freelancer payload is every column except id, createdAt and
      status; unlike an order's, its `phone` is required. */
  lemma FreelancerInsertKeysAreClientColumns(x: InsertFreelancer)
    ensures FreelancerToJson(x).fields.Keys == FreelancerColumns - {"id", "createdAt", "status"}
    ensures HasString(FreelancerToJson(x).fields, "phone")
  {
  }

  /** `insertContactSchema.safeParse`: four required string columns. */
  function ParseContact(b: Json): (r: Option<InsertContact>)
    ensures r.Some? <==> b.JObject? && forall k :: k in ContactInsertKeys ==> HasString(b.fields, k)
  {
    match b
    case JObject(f) =>
      var name := RequiredString(f, "name");
      var email := RequiredString(f, "email");
      var subject := RequiredString(f, "subject");
      var message := RequiredString(f, "message");
      if name.Some? && email.Some? && subject.Some? && message.Some?
      then Some(InsertContact(name.value, email.value, subject.value, message.value))
      else None
    case _ => None
  }

  function ContactToJson(x: InsertContact): (v: Json)
    ensures v.JObject? && v.fields.Keys == ContactInsertKeys
  {
    JObject(map[
      "name" := JString(x.name),
      "email" := JString(x.email),
      "subject" := JString(x.subject),
      "message" := JString(x.message)])
  }

  lemma ParseContactRoundTrip(x: InsertContact)
    ensures ParseContact(ContactToJson(x)) == Some(x)
  {
  }

  /** The contact payload is every column except id, createdAt and read. */
  lemma ContactInsertKeysAreClientColumns(x: InsertContact)
    ensures ContactToJson(x).fields.Keys == ContactColumns - {"id", "createdAt", "read"}
  {
  }

  /** The newsletter schema picked down to `email`: a required string. */
  function ParseNewsletter(b: Json): (r: Option<InsertNewsletter>)
    ensures r.Some? <==> b.JObject? && HasString(b.fields, "email")
    ensures r.Some? ==> b.fields["email"] == JString(r.value.email)
  {
    match b
    case JObject(f) =>
      var email := RequiredString(f, "email");
      if email.Some? then Some(InsertNewsletter(email.value)) else None
    case _ => None
  }

  function NewsletterToJson(x: InsertNewsletter): (v: Json)
    ensures v.JObject? && v.fields.Keys == NewsletterInsertKeys
  {
    JObject(map["email" := JString(x.email)])
  }

  lemma ParseNewsletterRoundTrip(x: InsertNewsletter)
    ensures ParseNewsletter(NewsletterToJson(x)) == Some(x)
  {
  }

  /** The newsletter payload is only `email`. */
  lemma NewsletterInsertKeysAreClientColumns(x: InsertNewsletter)
    ensures NewsletterToJson(x).fields.Keys == NewsletterColumns - {"id", "createdAt"}
  {
  }
}
