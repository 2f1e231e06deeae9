/**
 * The catalogue page: the filter that selects the visible products, the price
 * buckets it offers, and the per-product stock decision that picks the control
 * shown under each product.
 */
module Home {
  import opened Wrappers
  import opened Strings
  import opened Products
  import Sequences
  import Cart

  /** The five filter settings; the empty string means "unset". */
  datatype Filters = Filters(search: string, color: string, gender: string, price: string, kind: string)

  const Unfiltered := Filters("", "", "", "", "")

  /** `PRICE_RANGES`: each radio button's label and the value it sets the price filter to. */
  const PriceRanges: seq<(string, string)> :=
    [("All", ""), ("0 - 250", "0-250"), ("251 - 450", "251-450"), ("451 - 850", "451-850")]

  /** The search term, lower-cased, occurs in the lower-cased name, colour or type. */
  predicate MatchesSearch(p: Product, term: string)
    ensures MatchesSearch(p, term) ==> |term| <= |p.name| || |term| <= |p.color| || |term| <= |p.kind|
  {
    var t := Lower(term);
    Includes(Lower(p.name), t) || Includes(Lower(p.color), t) || Includes(Lower(p.kind), t)
  }

  /** An unset filter passes everything; a set one needs a case-insensitive exact match. */
  predicate MatchesExactly(field: string, setting: string)
    ensures setting == "" ==> MatchesExactly(field, setting)
    ensures MatchesExactly(field, setting) && setting != "" ==> |field| == |setting|
  {
    setting == "" || Lower(field) == Lower(setting)
  }

  /** `const [min, max] = range.split("-").map(Number)`; a bound with no piece is `undefined` (None). */
  function Bounds(range: string): (r: (Option<int>, Option<int>))
    ensures r.0.Some? ==> r.0.value >= 0
    ensures r.1.Some? ==> r.1.value >= 0
    ensures '-' !in range ==> r.0 == NumberOf(range) && r.1.None?
  {
    SplitWithoutSeparator(range, '-');
    var parts := SplitOn(range, '-');
    (NumberOf(parts[0]), if |parts| >= 2 then NumberOf(parts[1]) else None)
  }

  /** `!(price < min || price > max)`; a NaN or undefined bound compares false and excludes nothing. */
  predicate WithinBounds(price: int, bounds: (Option<int>, Option<int>))
    ensures WithinBounds(price, bounds) <==>
      (bounds.0.None? || bounds.0.value <= price) && (bounds.1.None? || price <= bounds.1.value)
  {
    !((bounds.0.Some? && price < bounds.0.value) || (bounds.1.Some? && price > bounds.1.value))
  }

  predicate MatchesPrice(price: int, range: string)
    ensures range == "" ==> MatchesPrice(price, range)
    ensures price < 0 && range != "" && Bounds(range).0.Some? ==> !MatchesPrice(price, range)
  {
    range == "" || WithinBounds(price, Bounds(range))
  }

  /** The predicate handed to `products.filter`: all five conditions at once. */
  predicate Matches(p: Product, f: Filters)
    ensures f == Unfiltered ==> Matches(p, f)
  {
    EmptySearchMatches(p);
    && MatchesSearch(p, f.search)
    && MatchesExactly(p.color, f.color)
    && MatchesExactly(p.gender, f.gender)
    && MatchesExactly(p.kind, f.kind)
    && MatchesPrice(p.price, f.price)
  }

  function Selector(f: Filters): Product -> bool {
    p => Matches(p, f)
  }

  /** `filteredProducts`. */
  function FilteredProducts(products: seq<Product>, f: Filters): (r: seq<Product>)
    ensures |r| <= |products|
    ensures forall i :: 0 <= i < |r| ==> r[i] in products && Matches(r[i], f)
  {
    Sequences.FilterMembers(products, Selector(f));
    Sequences.Filter(products, Selector(f))
  }

  /**
   * The visible products are an order-preserving selection from the catalogue
   * holding every occurrence of each product that satisfies all the filters,
   * and nothing else.
   */
  lemma FilteredExactly(products: seq<Product>, f: Filters)
    ensures Sequences.IsSubsequence(FilteredProducts(products, f), products)
    ensures forall p :: p in FilteredProducts(products, f) <==> p in products && Matches(p, f)
    ensures forall p ::
      multiset(FilteredProducts(products, f))[p] == (if Matches(p, f) then multiset(products)[p] else 0)
  {
    Sequences.FilterIsSubsequence(products, Selector(f));
    Sequences.FilterMembers(products, Selector(f));
    Sequences.FilterCounts(products, Selector(f));
  }

  /** The empty search term matches every product. */
  lemma EmptySearchMatches(p: Product)
    ensures MatchesSearch(p, "")
  {
    assert Lower("") == "";
    IncludesEmpty(Lower(p.name));
  }

  /** With no search term and no filter set, the whole catalogue is shown in its order. */
  lemma UnfilteredShowsAll(products: seq<Product>)
    ensures FilteredProducts(products, Unfiltered) == products
  {
    Sequences.FilterKeepsAll(products, Selector(Unfiltered));
  }

  /** The search matches exactly when the lower-cased term is a substring of the lower-cased name, colour or type. */
  lemma SearchIsSubstring(p: Product, term: string)
    ensures MatchesSearch(p, term) <==>
      (exists i: nat :: OccursAt(Lower(p.name), Lower(term), i)) ||
      (exists i: nat :: OccursAt(Lower(p.color), Lower(term), i)) ||
      (exists i: nat :: OccursAt(Lower(p.kind), Lower(term), i))
  {
    IncludesIffOccurs(Lower(p.name), Lower(term));
    IncludesIffOccurs(Lower(p.color), Lower(term));
    IncludesIffOccurs(Lower(p.kind), Lower(term));
  }

  /** Two search terms that differ only in the case of their letters select the same products. */
  lemma SearchIgnoresCase(p: Product, t1: string, t2: string)
    requires EqualIgnoringCase(t1, t2)
    ensures MatchesSearch(p, t1) == MatchesSearch(p, t2)
  {
    LowerIgnoresCase(t1, t2);
  }

  /**
   * A colour, gender or type filter compares without regard to case, on either
   * side: the product's field and the setting may each change case freely.
   */
  lemma ExactMatchIgnoresCase(field1: string, field2: string, setting1: string, setting2: string)
    requires EqualIgnoringCase(field1, field2) && EqualIgnoringCase(setting1, setting2)
    ensures MatchesExactly(field1, setting1) == MatchesExactly(field2, setting2)
  {
    LowerIgnoresCase(field1, field2);
    LowerIgnoresCase(setting1, setting2);
  }

  /** Searching "RED" finds a product whose colour is "Red". */
  lemma SearchRedFindsRed(p: Product)
    requires p.color == "Red"
    ensures MatchesSearch(p, "RED")
  {
    assert Lower("RED") == "red";
    assert Lower("Red") == "red";
    assert StartsWith("red", "red");
  }

  /** A set colour, gender or type filter lets through only products whose field equals it, ignoring case. */
  lemma SetFiltersMatchExactly(products: seq<Product>, f: Filters, p: Product)
    requires p in FilteredProducts(products, f)
    ensures f.color != "" ==> Lower(p.color) == Lower(f.color)
    ensures f.gender != "" ==> Lower(p.gender) == Lower(f.gender)
    ensures f.kind != "" ==> Lower(p.kind) == Lower(f.kind)
    ensures f.price != "" ==> WithinBounds(p.price, Bounds(f.price))
  {
    Sequences.FilterMembers(products, Selector(f));
  }

  lemma DigitsOf250()
    ensures NumberOf("250") == Some(250)
  {
    assert "250"[..2] == "25" && "25"[..1] == "2" && "2"[..0] == "";
  }

  lemma DigitsOf251()
    ensures NumberOf("251") == Some(251)
  {
    assert "251"[..2] == "25" && "25"[..1] == "2" && "2"[..0] == "";
  }

  lemma DigitsOf450()
    ensures NumberOf("450") == Some(450)
  {
    assert "450"[..2] == "45" && "45"[..1] == "4" && "4"[..0] == "";
  }

  lemma DigitsOf451()
    ensures NumberOf("451") == Some(451)
  {
    assert "451"[..2] == "45" && "45"[..1] == "4" && "4"[..0] == "";
  }

  lemma DigitsOf850()
    ensures NumberOf("850") == Some(850)
  {
    assert "850"[..2] == "85" && "85"[..1] == "8" && "8"[..0] == "";
  }

  lemma DigitsOf0()
    ensures NumberOf("0") == Some(0)
  {
    assert "0"[..0] == "";
  }

  /** Splitting "lo-hi" at the dash gives back the two pieces. */
  lemma SplitRange(lo: string, hi: string)
    requires '-' !in lo && '-' !in hi
    ensures SplitOn(lo + "-" + hi, '-') == [lo, hi]
  {
    assert Join([lo, hi], '-') == lo + "-" + hi by {
      assert [lo, hi][1..] == [hi];
    }
    SplitJoin([lo, hi], '-');
  }

  /** A range `"lo-hi"` with dash-free bounds parses to `Number(lo)` and `Number(hi)`. */
  lemma BoundsOfRange(lo: string, hi: string)
    requires '-' !in lo && '-' !in hi
    ensures Bounds(lo + "-" + hi) == (NumberOf(lo), NumberOf(hi))
  {
    SplitRange(lo, hi);
  }

  /** Each price range of the page parses to its two inclusive bounds. */
  lemma PriceRangeBounds()
    ensures Bounds("0-250") == (Some(0), Some(250))
    ensures Bounds("251-450") == (Some(251), Some(450))
    ensures Bounds("451-850") == (Some(451), Some(850))
  {
    assert "0-250" == "0" + "-" + "250";
    assert "251-450" == "251" + "-" + "450";
    assert "451-850" == "451" + "-" + "850";
    BoundsOfRange("0", "250");
    BoundsOfRange("251", "450");
    BoundsOfRange("451", "850");
    DigitsOf0();
    DigitsOf250();
    DigitsOf251();
    DigitsOf450();
    DigitsOf451();
    DigitsOf850();
  }

  /** Each bucket keeps exactly the prices between its bounds, both ends included. */
  lemma PriceBucketsInclusive(price: int)
    ensures MatchesPrice(price, "0-250") <==> 0 <= price <= 250
    ensures MatchesPrice(price, "251-450") <==> 251 <= price <= 450
    ensures MatchesPrice(price, "451-850") <==> 451 <= price <= 850
  {
    PriceRangeBounds();
  }

  /** 250 is in the "0-250" bucket and 251 is not. */
  lemma PriceBucketEdge()
    ensures MatchesPrice(250, "0-250") && !MatchesPrice(251, "0-250")
  {
    PriceBucketsInclusive(250);
    PriceBucketsInclusive(251);
  }

  /** The buckets of the page do not overlap, and together they cover the prices 0 to 850. */
  lemma PriceBucketsPartition(price: int)
    ensures |PriceRanges| == 4 && PriceRanges[0].1 == ""
    ensures 0 <= price <= 850 <==>
      MatchesPrice(price, PriceRanges[1].1) || MatchesPrice(price, PriceRanges[2].1) || MatchesPrice(price, PriceRanges[3].1)
    ensures !(MatchesPrice(price, PriceRanges[1].1) && MatchesPrice(price, PriceRanges[2].1))
    ensures !(MatchesPrice(price, PriceRanges[1].1) && MatchesPrice(price, PriceRanges[3].1))
    ensures !(MatchesPrice(price, PriceRanges[2].1) && MatchesPrice(price, PriceRanges[3].1))
  {
    assert PriceRanges[1].1 == "0-250" && PriceRanges[2].1 == "251-450" && PriceRanges[3].1 == "451-850";
    PriceBucketsInclusive(price);
  }

  /** Filtering the visible products again with the same settings changes nothing. */
  lemma FilterIdempotent(products: seq<Product>, f: Filters)
    ensures FilteredProducts(FilteredProducts(products, f), f) == FilteredProducts(products, f)
  {
    Sequences.FilterIdempotent(products, Selector(f));
  }

  /** `g` sets every setting that `f` sets, to the same value, and perhaps more. */
  predicate Narrows(g: Filters, f: Filters) {
    && (f.search == "" || f.search == g.search)
    && (f.color == "" || f.color == g.color)
    && (f.gender == "" || f.gender == g.gender)
    && (f.price == "" || f.price == g.price)
    && (f.kind == "" || f.kind == g.kind)
  }

  /** Setting more filters never brings a product back: the result narrows in place. */
  lemma MoreFiltersNarrow(products: seq<Product>, f: Filters, g: Filters)
    requires Narrows(g, f)
    ensures FilteredProducts(FilteredProducts(products, f), g) == FilteredProducts(products, g)
    ensures Sequences.IsSubsequence(FilteredProducts(products, g), FilteredProducts(products, f))
  {
    forall p | Selector(g)(p) ensures Selector(f)(p) {
      EmptySearchMatches(p);
    }
    Sequences.FilterNarrows(products, Selector(f), Selector(g));
    Sequences.FilterMonotone(products, Selector(f), Selector(g));
  }

  // ---------------------------------------------------------------------------
  // Stock and the control under each product

  /**
   * `product.quantity || 0`. `||` also replaces a present 0, but by 0 itself,
   * so `GetOr(0)` agrees with it on every number.
   */
  function StockOf(p: Product): (r: int)
    ensures p.quantity.Some? ==> r == p.quantity.value
    ensures r == 0 <==> p.quantity.None? || p.quantity.value == 0
    ensures (p.quantity.None? || p.quantity.value >= 0) ==> r >= 0
  {
    p.quantity.GetOr(0)
  }

  /** `cart.find(item => item.id === product.id)`. */
  function CartLineFor(cart: seq<Cart.Line>, p: Product): (r: Option<Cart.Line>)
    ensures r.Some? ==> r.value in cart && r.value.item.id == p.id
    ensures r.None? <==> forall i :: 0 <= i < |cart| ==> cart[i].item.id != p.id
  {
    match Cart.IndexOf(cart, p.id)
    case Some(k) => Some(cart[k])
    case None => None
  }

  /** With unique ids, the line found for a product is the one holding its id. */
  lemma CartLineForUnique(cart: seq<Cart.Line>, p: Product)
    ensures forall k :: 0 <= k < |cart| && Cart.UniqueIds(cart) && cart[k].item.id == p.id ==>
      CartLineFor(cart, p) == Some(cart[k])
  {
    forall k | 0 <= k < |cart| && Cart.UniqueIds(cart) && cart[k].item.id == p.id
      ensures CartLineFor(cart, p) == Some(cart[k])
    {
      Cart.IndexOfUnique(cart, k);
    }
  }

  /** `stock === 0 || (cartItem && cartItem.quantity >= stock)`. */
  predicate IsOutOfStock(p: Product, cart: seq<Cart.Line>)
    ensures CartLineFor(cart, p).None? ==> (IsOutOfStock(p, cart) <==> StockOf(p) == 0)
    ensures forall k :: 0 <= k < |cart| && Cart.UniqueIds(cart) && cart[k].item.id == p.id ==>
      (IsOutOfStock(p, cart) <==> StockOf(p) == 0 || cart[k].quantity >= StockOf(p))
  {
    CartLineForUnique(cart, p);
    StockOf(p) == 0 || (CartLineFor(cart, p).Some? && CartLineFor(cart, p).value.quantity >= StockOf(p))
  }

  /** The record "Add to cart" passes: the product with its stock attached. */
  function AddPayload(p: Product): (r: Product)
    ensures r.stock == Some(StockOf(p))
    ensures r.(stock := p.stock) == p
  {
    p.(stock := Some(StockOf(p)))
  }

  /** What the page shows under a product. */
  datatype Control =
    | Stepper(quantity: int, plusDisabled: bool)  // the "-" count "+" buttons of a product in the cart
    | OutOfStockBadge
    | AddButton

  function ControlFor(p: Product, cart: seq<Cart.Line>): (r: Control)
    ensures r.AddButton? <==> Cart.IndexOf(cart, p.id).None? && StockOf(p) != 0
    ensures r.OutOfStockBadge? <==> Cart.IndexOf(cart, p.id).None? && StockOf(p) == 0
    ensures r.Stepper? <==> Cart.IndexOf(cart, p.id).Some?
  {
    match CartLineFor(cart, p)
    case Some(line) => Stepper(line.quantity, line.quantity >= StockOf(p))
    case None => if IsOutOfStock(p, cart) then OutOfStockBadge else AddButton
  }

  /**
   * The control depends only on the cart line and the stock: the cart clause of
   * `isOutOfStock` is never what decides, because it is only consulted when the
   * product has no line.
   */
  lemma ControlChoice(p: Product, cart: seq<Cart.Line>)
    requires Cart.AllPositive(cart)
    ensures ControlFor(p, cart).Stepper? ==>
      (ControlFor(p, cart).plusDisabled <==> IsOutOfStock(p, cart))
  {
    match Cart.IndexOf(cart, p.id)
    case None =>
    case Some(k) => assert cart[k].quantity >= 1;
  }

  /**
   * Pressing "Add to cart" appends one unit of the product, with the
   * catalogue's stock as its ceiling, and keeps every line within its ceiling.
   */
  lemma AddButtonKeepsCeiling(p: Product, cart: seq<Cart.Line>)
    requires Cart.UniqueIds(cart) && Cart.WithinStock(cart)
    requires StockOf(p) >= 0
    requires ControlFor(p, cart) == AddButton
    ensures Cart.Added(cart, AddPayload(p)) == Cart.Step(cart + [Cart.Line(AddPayload(p), 1)], false)
    ensures Cart.WithinStock(Cart.Added(cart, AddPayload(p)).lines)
  {
    Cart.AddNew(cart, AddPayload(p));
    Cart.AddKeepsCeiling(cart, AddPayload(p));
  }

  /**
   * Pressing an enabled "+" passes the catalogue record, which carries no
   * ceiling; the line still stays within its ceiling, because the button is
   * enabled only below the stock the line captured.
   */
  lemma PlusButtonKeepsCeiling(p: Product, cart: seq<Cart.Line>, k: nat)
    requires Cart.UniqueIds(cart) && Cart.WithinStock(cart)
    requires p.stock.None?
    requires k < |cart| && cart[k].item.id == p.id && cart[k].item.stock == Some(StockOf(p))
    requires ControlFor(p, cart) == Stepper(cart[k].quantity, false)
    ensures Cart.Incremented(cart, p) == Cart.Step(cart[k := Cart.Bump(cart[k])], false)
    ensures Cart.WithinStock(Cart.Incremented(cart, p).lines)
  {
    Cart.IndexOfUnique(cart, k);
    Cart.IncrementExisting(cart, p, k);
  }

  /**
   * The disabled "+" is the only guard on the catalogue page: were the
   * increment issued for a line at its ceiling, the store would raise no alert
   * and would push the line past its ceiling.
   */
  lemma DisabledPlusIsTheGuard(p: Product, cart: seq<Cart.Line>, k: nat)
    requires Cart.UniqueIds(cart)
    requires p.stock.None?
    requires k < |cart| && cart[k].item.id == p.id && cart[k].item.stock == Some(StockOf(p))
    requires ControlFor(p, cart) == Stepper(cart[k].quantity, true)
    ensures !Cart.Incremented(cart, p).alerted
    ensures !Cart.WithinStock(Cart.Incremented(cart, p).lines)
  {
    Cart.IndexOfUnique(cart, k);
    Cart.IncrementExisting(cart, p, k);
    Cart.IncrementPastCeiling(cart, p, k);
  }

  /**
   * A product priced 300 with two in stock, added twice and then incremented
   * from the cart view: the line holds two, the third request raises the alert,
   * and the total is 600.
   */
  lemma TeeScenario()
    ensures
      var tee := Product(1, "Tee", "Red", "Men", "Polo", 300, Some(2), None);
      var once := Cart.Added([], AddPayload(tee));
      var twice := Cart.Added(once.lines, AddPayload(tee));
      var third := Cart.Incremented(twice.lines, twice.lines[0].item);
      && !once.alerted && !twice.alerted && third.alerted
      && third.lines == [Cart.Line(AddPayload(tee), 2)]
      && Cart.Total(third.lines) == 600
  {
    var tee := Product(1, "Tee", "Red", "Men", "Polo", 300, Some(2), None);
    var payload := AddPayload(tee);
    assert payload.stock == Some(2) && payload.price == 300;
    var one, two := [Cart.Line(payload, 1)], [Cart.Line(payload, 2)];
    Cart.AddNew([], payload);
    assert [] + one == one;
    assert Cart.Added([], payload) == Cart.Step(one, false);
    Cart.AddExisting(one, payload, 0);
    assert one[0 := Cart.Bump(one[0])] == two;
    assert Cart.Added(one, payload) == Cart.Step(two, false);
    Cart.IncrementAtCeiling(two, payload, 0);
    assert Cart.Incremented(two, payload) == Cart.Step(two, true);
    Cart.TotalSingle(two[0]);
  }
}
