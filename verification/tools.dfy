/** The mock domain tools: order lookups and cancellation, product lookups and
    filters over the in-memory catalogue, FAQ lookup, ticket creation and the
    contact card. The stores are explicit values so that handlers can be given
    any catalogue; `MockOrders` and `MockProducts` are the shipped data. */
module Tools {
  import opened Common
  import opened Text
  import opened Models

  /** Orders keyed by upper-case order id. */
  type OrderStore = map<string, Order>

  /** The product dict's values in insertion order; each product is stored
      under its own `productId`. */
  type ProductStore = seq<Product>

  /** The random part of a ticket id: `random.randint(10000, 99999)`. */
  type TicketRoll = n: int | 10000 <= n <= 99999 witness 10000

  const MockOrders: OrderStore := map[
    "ORD-001" := Order("ORD-001", "shipped", [OrderItem("Wireless Headphones", 1)],
                       "123 Main St, Istanbul, TR", Some("TRK123456789")),
    "ORD-002" := Order("ORD-002", "processing", [OrderItem("USB-C Cable", 2), OrderItem("Phone Case", 1)],
                       "456 Oak Ave, Ankara, TR", None),
    "ORD-003" := Order("ORD-003", "delivered", [OrderItem("Laptop Stand", 1)],
                       "789 Pine Rd, Izmir, TR", Some("TRK987654321"))
  ]

  const MockProducts: ProductStore := [
    Product("PROD-001", "Wireless Headphones Pro",
            "Premium wireless headphones with active noise cancellation", "Electronics", true,
            [("battery_life", "30 hours"), ("driver_size", "40mm"), ("bluetooth", "5.3")]),
    Product("PROD-002", "USB-C Fast Charging Cable",
            "2m braided USB-C cable with 100W fast charging support", "Accessories", true,
            [("length", "2m"), ("max_power", "100W"), ("material", "braided nylon")]),
    Product("PROD-003", "Ergonomic Laptop Stand",
            "Adjustable aluminum laptop stand with cooling design", "Accessories", false,
            [("material", "aluminum"), ("adjustable_height", "15-25cm"), ("max_weight", "10kg")]),
    Product("PROD-004", "Mechanical Keyboard RGB",
            "Full-size mechanical keyboard with RGB backlighting", "Electronics", true,
            [("switch_type", "Cherry MX Red"), ("layout", "Full-size"), ("connectivity", "USB/Wireless")])
  ]

  // ---------------------------------------------------------------------------
  // OrderTools
  // ---------------------------------------------------------------------------

  /** `get_order`: look the id up after upper-casing it. */
  function GetOrder(store: OrderStore, orderId: string): (r: Option<Order>)
    ensures r.Some? <==> Upper(orderId) in store
    ensures r.Some? ==> r.value == store[Upper(orderId)]
  {
    var key := Upper(orderId);
    if key in store then Some(store[key]) else None
  }

  /** Ids that differ only in letter case find the same order. */
  lemma OrderLookupIgnoresCase(store: OrderStore, a: string, b: string)
    requires Lower(a) == Lower(b)
    ensures GetOrder(store, a) == GetOrder(store, b)
  {
    assert Upper(a) == Upper(b) by {
      forall i | 0 <= i < |a|
        ensures Upper(a)[i] == Upper(b)[i]
      {
        assert LowerChar(a[i]) == LowerChar(b[i]);
      }
    }
  }

  /** `get_order_status` */
  function GetOrderStatus(store: OrderStore, orderId: string): (r: Option<string>)
    ensures r.Some? <==> GetOrder(store, orderId).Some?
    ensures r.Some? ==> r.value == GetOrder(store, orderId).value.status
  {
    match GetOrder(store, orderId)
    case Some(o) => Some(o.status)
    case None => None
  }

  /** `get_tracking_info`: only for a known order that has a tracking number. */
  function GetTrackingInfo(store: OrderStore, orderId: string): (r: Option<TrackingInfo>)
    ensures r.Some? <==> GetOrder(store, orderId).Some? && Present(GetOrder(store, orderId).value.trackingNumber)
    ensures r.Some? ==>
      var o := GetOrder(store, orderId).value;
      r.value.trackingNumber == o.trackingNumber.value && r.value.status == o.status
      && r.value.carrier == "FastShip"
  {
    match GetOrder(store, orderId)
    case Some(o) =>
      if Present(o.trackingNumber) then
        Some(TrackingInfo(o.trackingNumber.value, "FastShip", o.status, "2-3 business days"))
      else None
    case None => None
  }

  const CannotCancelDelivered := "Cannot cancel delivered orders"
  const ReturnInstead := "Order already shipped. Please initiate a return instead."

  /** `cancel_order`: the cancellation decision table. */
  function CancelOrder(store: OrderStore, orderId: string): (r: CancelResult)
    ensures r.success <==>
      GetOrder(store, orderId).Some?
      && GetOrder(store, orderId).value.status != "delivered"
      && GetOrder(store, orderId).value.status != "shipped"
    ensures GetOrder(store, orderId).None? ==> r.message == "Order not found"
    ensures GetOrder(store, orderId).Some? && GetOrder(store, orderId).value.status == "delivered" ==>
      r.message == CannotCancelDelivered
    ensures GetOrder(store, orderId).Some? && GetOrder(store, orderId).value.status == "shipped" ==>
      r.message == ReturnInstead
    ensures r.success ==> r.message == "Order " + orderId + " has been cancelled"
  {
    match GetOrder(store, orderId)
    case None => CancelResult(false, "Order not found")
    case Some(o) =>
      if o.status == "delivered" then CancelResult(false, CannotCancelDelivered)
      else if o.status == "shipped" then CancelResult(false, ReturnInstead)
      else CancelResult(true, "Order " + orderId + " has been cancelled")
  }

  /** The cancellation outcomes on the shipped mock orders. */
  lemma MockCancellations()
    ensures !CancelOrder(MockOrders, "ORD-001").success   // shipped
    ensures CancelOrder(MockOrders, "ORD-002").success    // processing
    ensures !CancelOrder(MockOrders, "ORD-003").success   // delivered
    ensures CancelOrder(MockOrders, "ORD-999") == CancelResult(false, "Order not found")
  {
    assert Upper("ORD-001") == "ORD-001";
    assert Upper("ORD-002") == "ORD-002";
    assert Upper("ORD-003") == "ORD-003";
    assert Upper("ORD-999") == "ORD-999";
  }

  // ---------------------------------------------------------------------------
  // ProductTools
  // ---------------------------------------------------------------------------

  /** `MOCK_PRODUCTS.get(product_id.upper())` */
  function FindProduct(store: ProductStore, productId: string): (r: Option<Product>)
    ensures r.Some? ==> r.value in store && r.value.productId == Upper(productId)
    ensures r.None? <==> forall i :: 0 <= i < |store| ==> store[i].productId != Upper(productId)
  {
    var key := Upper(productId);
    match FirstWhere(store, (p: Product) => p.productId == key)
    case Some(i) => Some(store[i])
    case None => None
  }

  /** `get_product_details` */
  function GetProductDetails(store: ProductStore, productId: string): (r: Option<Product>)
    ensures r.Some? ==> r.value in store && r.value.productId == Upper(productId)
    ensures r.None? <==> forall i :: 0 <= i < |store| ==> store[i].productId != Upper(productId)
    // the details exist exactly when an availability answer does
    ensures r.Some? <==> CheckAvailability(store, productId).Some?
  {
    FindProduct(store, productId)
  }

  /** `check_availability`: the message says "Available" exactly when in stock. */
  function CheckAvailability(store: ProductStore, productId: string): (r: Option<Availability>)
    ensures r.Some? <==> FindProduct(store, productId).Some?
    ensures r.Some? ==>
      var p := FindProduct(store, productId).value;
      r.value.productId == p.productId && r.value.inStock == p.inStock
      && (r.value.message == "Available" <==> p.inStock)
  {
    match FindProduct(store, productId)
    case Some(p) =>
      Some(Availability(p.productId, p.name, p.inStock,
                        if p.inStock then "Available" else "Currently out of stock"))
    case None => None
  }

  /** The local filter of `search_products`. */
  predicate SearchMatches(p: Product, query: string, category: Option<string>) {
    (Contains(Lower(p.name), Lower(query)) || Contains(Lower(p.description), Lower(query)))
    && (category.None? || Lower(p.category) == Lower(category.value))
  }

  /** The local part of `search_products`: the products, in store order, whose
      name or description contains the query case-insensitively and whose
      category matches when one is given. */
  function SearchLocal(store: ProductStore, query: string, category: Option<string>): (r: seq<Product>)
    ensures forall p :: p in r <==> p in store && SearchMatches(p, query, category)
  {
    Filter(store, (p: Product) => SearchMatches(p, query, category))
  }

  /** Searching a catalogue split in two searches each part in turn, so results
      keep the catalogue order. */
  lemma SearchKeepsStoreOrder(s1: ProductStore, s2: ProductStore, query: string, category: Option<string>)
    ensures SearchLocal(s1 + s2, query, category) == SearchLocal(s1, query, category) + SearchLocal(s2, query, category)
  {
    FilterAppend(s1, s2, (p: Product) => SearchMatches(p, query, category));
  }

  function Summary(p: Product): ProductSummary {
    ProductSummary(p.productId, p.name, p.inStock, p.category)
  }

  function Summaries(ps: seq<Product>): (r: seq<ProductSummary>)
    ensures |r| == |ps|
    ensures forall i :: 0 <= i < |ps| ==> r[i] == Summary(ps[i])
  {
    seq(|ps|, i requires 0 <= i < |ps| => Summary(ps[i]))
  }

  /** `search_products`. The semantic-search source is opaque: `rag` is what it
      contributed (`None` when it is unavailable or failed). It is consulted
      only when the local search found nothing. */
  function SearchProducts(store: ProductStore, rag: Option<seq<ProductSummary>>,
                          query: string, category: Option<string>): (r: seq<ProductSummary>)
    ensures SearchLocal(store, query, category) != [] ==> r == Summaries(SearchLocal(store, query, category))
    ensures SearchLocal(store, query, category) == [] ==> r == rag.GetOr([])
  {
    var local := Summaries(SearchLocal(store, query, category));
    if local == [] && rag.Some? then rag.value else local
  }

  predicate InCategory(p: Product, category: string) {
    Lower(p.category) == Lower(category)
  }

  /** `get_products_by_category`: exactly the products of that category,
      compared case-insensitively, in store order. */
  function GetProductsByCategory(store: ProductStore, category: string): (r: seq<CategoryEntry>)
    ensures |r| <= |store|
    ensures forall e :: e in r <==> exists p :: p in store && InCategory(p, category) && e == CategoryEntry(p.productId, p.name, p.inStock)
  {
    var ps := Filter(store, (p: Product) => InCategory(p, category));
    var r := seq(|ps|, i requires 0 <= i < |ps| => CategoryEntry(ps[i].productId, ps[i].name, ps[i].inStock));
    assert forall e :: e in r ==> exists p :: p in store && InCategory(p, category) && e == CategoryEntry(p.productId, p.name, p.inStock) by {
      forall e | e in r
        ensures exists p :: p in store && InCategory(p, category) && e == CategoryEntry(p.productId, p.name, p.inStock)
      {
        var i :| 0 <= i < |r| && r[i] == e;
        assert ps[i] in ps;
      }
    }
    assert forall p :: p in store && InCategory(p, category) ==> CategoryEntry(p.productId, p.name, p.inStock) in r by {
      forall p | p in store && InCategory(p, category)
        ensures CategoryEntry(p.productId, p.name, p.inStock) in r
      {
        var i :| 0 <= i < |ps| && ps[i] == p;
        assert r[i] == CategoryEntry(p.productId, p.name, p.inStock);
      }
    }
    r
  }

  // ---------------------------------------------------------------------------
  // SupportTools
  // ---------------------------------------------------------------------------

  /** The FAQ table in declaration order. */
  const FaqKeys: seq<string> := ["return", "shipping", "warranty", "payment"]

  const FaqTable: seq<FaqEntry> := [
    FaqEntry("Returns & Refunds",
             "You can return most items within 30 days of delivery for a full refund. Items must be unused and in original packaging."),
    FaqEntry("Shipping Information",
             "We offer standard shipping (5-7 business days) and express shipping (2-3 business days). Free shipping on orders over 200 TL."),
    FaqEntry("Warranty Information",
             "Most electronics come with a 2-year manufacturer warranty. Accessories have a 1-year warranty."),
    FaqEntry("Payment Methods",
             "We accept credit cards (Visa, Mastercard), debit cards, and bank transfers. Installment options available for orders over 500 TL.")
  ]

  /** `get_faq`: the entry of the first key, in declaration order, that occurs
      in the lower-cased topic. */
  function GetFaq(topic: string): (r: Option<FaqEntry>)
    ensures r.None? <==> forall j :: 0 <= j < |FaqKeys| ==> !Contains(Lower(topic), FaqKeys[j])
    ensures r.Some? ==> exists j :: 0 <= j < |FaqKeys| && Contains(Lower(topic), FaqKeys[j]) && r.value == FaqTable[j]
                                    && (forall k :: 0 <= k < j ==> !Contains(Lower(topic), FaqKeys[k]))
  {
    match FirstContained(Lower(topic), FaqKeys)
    case Some(j) => Some(FaqTable[j])
    case None => None
  }

  /** `create_support_ticket`, with the random draw supplied by the caller. */
  function CreateSupportTicket(subject: string, description: string, roll: TicketRoll): (r: Ticket)
    ensures |r.ticketId| == 9 && r.ticketId[..4] == "TKT-"
    ensures forall i :: 4 <= i < 9 ==> IsDigit(r.ticketId[i])
    ensures DecimalValue(r.ticketId[4..]) == roll
    ensures r.subject == subject && r.status == "open"
  {
    var id := "TKT-" + NatToString(roll);
    NatToStringFiveDigits(roll);
    NatToStringRoundTrip(roll);
    assert id[4..] == NatToString(roll);
    Ticket(id, subject, "open", "Support ticket " + id + " created. Our team will respond within 24 hours.")
  }

  const SupportContact := ContactInfo(
    "+90 212 555 0123",
    "support@techstore.com",
    "Monday-Friday 9:00-18:00, Saturday 10:00-14:00",
    "Available on website during business hours")

  /** `get_contact_info` */
  function GetContactInfo(): (r: ContactInfo)
    ensures '@' in r.email && |r.phone| > 0 && |r.hours| > 0 && |r.liveChat| > 0
  {
    SupportContact
  }
}
