/**
 * The product list of src/pages/CatalogPage.tsx: the lead-time parser, the
 * five filter stages (category, badge, price range, availability, lead-time
 * cap), the stable sort with four orders, the badge toggle and the category
 * the display mode selects.
 */
module Catalog {
  import opened Products
  import opened Seqs
  import opened Sorting
  import opened Text
  import Theme

  // ---------------------------------------------------------------------------
  // Lead time

  /** A parsed lead time: a day count, or positive infinity when none can be read. */
  datatype LT = Days(n: nat) | Infinite

  predicate NoDigit(s: string)
  {
    forall k :: 0 <= k < |s| ==> !IsDigit(s[k])
  }

  predicate AllDigits(s: string)
  {
    forall k :: 0 <= k < |s| ==> IsDigit(s[k])
  }

  /** The positional value of a digit string, most significant digit first. */
  function DecimalValue(ds: string): nat
    requires AllDigits(ds)
  {
    if ds == [] then 0
    else DecimalValue(ds[..|ds| - 1]) * 10 + (ds[|ds| - 1] as int - '0' as int)
  }

  /** The digits at the start of `s`, read one at a time into the accumulator `acc`. */
  function LeadingValue(s: string, acc: nat): nat
  {
    if s != [] && IsDigit(s[0]) then LeadingValue(s[1..], acc * 10 + (s[0] as int - '0' as int))
    else acc
  }

  /** `s.match(/(\d+)/)` then `Number(...)`: the value of the first digit run, scanning from the left. */
  function FirstRun(s: string): LT
  {
    if s == [] then Infinite
    else if IsDigit(s[0]) then Days(LeadingValue(s, 0))
    else FirstRun(s[1..])
  }

  /** parseLeadTime: undefined and "" give infinity, so does text without a digit. */
  function ParseLeadTime(leadTime: Option<string>): LT
  {
    match leadTime
    case None => Infinite
    case Some(s) => if s == "" then Infinite else FirstRun(s)
  }

  lemma {:induction false} FirstRunNone(s: string)
    ensures FirstRun(s) == Infinite <==> NoDigit(s)
  {
    if s != [] && !IsDigit(s[0]) {
      FirstRunNone(s[1..]);
      assert NoDigit(s) <==> NoDigit(s[1..]) by {
        if NoDigit(s[1..]) {
          forall k | 0 <= k < |s| ensures !IsDigit(s[k]) {
            if k > 0 { assert s[k] == s[1..][k - 1]; }
          }
        }
      }
    }
  }

  /** The lead time is infinite exactly when it is missing or holds no digit. */
  lemma ParseLeadTimeInfinite(leadTime: Option<string>)
    ensures ParseLeadTime(leadTime) == Infinite <==> leadTime == None || NoDigit(leadTime.value)
  {
    if leadTime.Some? {
      FirstRunNone(leadTime.value);
    }
  }

  /** When the first digit of `s` is at index k, the result is read from there. */
  lemma {:induction false} FirstRunAt(s: string, k: nat)
    requires k < |s| && IsDigit(s[k]) && NoDigit(s[..k])
    ensures FirstRun(s) == Days(LeadingValue(s[k..], 0))
  {
    if k > 0 {
      assert !IsDigit(s[..k][0]);
      assert s[1..][..k - 1] == s[..k][1..];
      assert s[1..][k - 1..] == s[k..];
      FirstRunAt(s[1..], k - 1);
    }
  }

  /** Reading stops at the first character that is not a digit. */
  lemma {:induction false} LeadingValueStops(s: string, m: nat, acc: nat)
    requires m <= |s| && AllDigits(s[..m]) && (m == |s| || !IsDigit(s[m]))
    ensures LeadingValue(s, acc) == LeadingValue(s[..m], acc)
  {
    if m > 0 {
      assert s[0] == s[..m][0];
      assert s[1..][..m - 1] == s[..m][1..];
      LeadingValueStops(s[1..], m - 1, acc * 10 + (s[0] as int - '0' as int));
    }
  }

  /** Reading one more digit multiplies what was read by ten and adds it. */
  lemma {:induction false} LeadingValueSnoc(ds: string, acc: nat)
    requires ds != [] && AllDigits(ds)
    ensures LeadingValue(ds, acc) == LeadingValue(ds[..|ds| - 1], acc) * 10 + (ds[|ds| - 1] as int - '0' as int)
  {
    var d0 := ds[0] as int - '0' as int;
    if |ds| == 1 {
      assert ds[1..] == [];
      assert ds[..0] == [];
    } else {
      LeadingValueSnoc(ds[1..], acc * 10 + d0);
      assert ds[1..][..|ds| - 2] == ds[..|ds| - 1][1..];
      assert ds[..|ds| - 1][0] == ds[0];
    }
  }

  /**
   * parseLeadTime in one statement: when the first digit stands at index k and
   * the run of digits from there ends at m, the result is the decimal value of
   * `s[k..m]`.
   */
  lemma ParseFirstRun(s: string, k: nat, m: nat)
    requires k < m <= |s| && NoDigit(s[..k]) && AllDigits(s[k..m]) && (m == |s| || !IsDigit(s[m]))
    ensures ParseLeadTime(Some(s)) == Days(DecimalValue(s[k..m]))
  {
    assert s[k] == s[k..m][0];
    FirstRunAt(s, k);
    var t := s[k..];
    assert t[..m - k] == s[k..m];
    assert m - k == |t| || !IsDigit(t[m - k]);
    LeadingValueStops(t, m - k, 0);
    LeadingValueIsDecimal(s[k..m]);
  }

  /** Reading a digit string from the left gives its positional value. */
  lemma {:induction false} LeadingValueIsDecimal(ds: string)
    requires AllDigits(ds)
    ensures LeadingValue(ds, 0) == DecimalValue(ds)
  {
    if ds != [] {
      LeadingValueIsDecimal(ds[..|ds| - 1]);
      LeadingValueSnoc(ds, 0);
    }
  }

  lemma ParseEntregaDays(s: string, d1: char, d2: char)
    requires s == Entrega([d1, d2]) && IsDigit(d1) && IsDigit(d2)
    ensures ParseLeadTime(Some(s)) == Days((d1 as int - '0' as int) * 10 + (d2 as int - '0' as int))
  {
    assert s[8] == d1;
    assert NoDigit(s[..8]) by {
      assert s[..8] == "Entrega ";
    }
    FirstRunAt(s, 8);
    var rest := s[8..];
    var v1, v2 := d1 as int - '0' as int, d2 as int - '0' as int;
    assert rest == [d1, d2] + " días";
    assert rest[1..] == [d2] + " días";
    assert rest[1..][1..] == " días";
    calc {
      LeadingValue(rest, 0);
      LeadingValue(rest[1..], v1);
      LeadingValue(rest[1..][1..], v1 * 10 + v2);
      v1 * 10 + v2;
    }
  }

  /** The text the fixture uses is read as its day count. */
  lemma BirreteLeadTime()
    ensures ParseLeadTime(BirreteSignature.leadTime) == Days(10)
  {
    ParseEntregaDays(Entrega("10"), '1', '0');
  }

  lemma StoleLeadTime()
    ensures ParseLeadTime(StoleMagna.leadTime) == Days(15)
  {
    ParseEntregaDays(Entrega("15"), '1', '5');
  }

  lemma TunicaLeadTime()
    ensures ParseLeadTime(TunicaCeremonial.leadTime) == Days(20)
  {
    ParseEntregaDays(Entrega("20"), '2', '0');
  }

  /** A digit run that is not at the start of the text is found too. */
  lemma ParseFindsInnerDigits()
    ensures ParseLeadTime(Some("x7")) == Days(7)
  {
    var s := "x7";
    assert NoDigit(s[..1]) by { assert s[..1] == "x"; }
    FirstRunAt(s, 1);
    assert s[1..] == "7" && "7"[1..] == [];
  }

  // ---------------------------------------------------------------------------
  // Filter configuration

  /** The price-range select: 'all' | 'under-15000' | '15000-25000' | 'above-25000'. */
  datatype PriceRange = AllPrices | Under15000 | From15000To25000 | Above25000

  /** The availability select: 'all' or one availability. */
  datatype AvailabilityFilter = AnyAvailability | Only(availability: Availability)

  /** The lead-time select: 'all' or a cap in days ('10', '15', '20'). */
  datatype LeadTimeFilter = AnyLeadTime | UpTo(days: nat)

  /** The sort select: 'relevance' | 'price-asc' | 'price-desc' | 'lead-time'. */
  datatype SortOption = Relevance | PriceAsc | PriceDesc | LeadTimeAsc

  /** The page's filter state. */
  datatype Filters = Filters(
    category: Category,
    badges: seq<Badge>,
    priceRange: PriceRange,
    availability: AvailabilityFilter,
    leadTime: LeadTimeFilter,
    sort: SortOption)

  // ---------------------------------------------------------------------------
  // The five stages

  predicate InPriceRange(price: int, range: PriceRange)
  {
    match range
    case Under15000 => price < 15000
    case From15000To25000 => 15000 <= price && price <= 25000
    case Above25000 => price > 25000
    case AllPrices => true
  }

  /** A defined badge that the filter list includes. */
  predicate BadgeListed(p: Product, badges: seq<Badge>)
  {
    p.badge.Some? && p.badge.value in badges
  }

  /** The lead-time comparison `parseLeadTime(leadTime) <= cap`; infinity is above every cap. */
  predicate WithinDays(p: Product, cap: nat)
  {
    match ParseLeadTime(p.leadTime)
    case Days(n) => n <= cap
    case Infinite => false
  }

  function ByCategory(ps: seq<Product>, c: Category): (r: seq<Product>)
    ensures forall i :: 0 <= i < |r| ==> r[i].category == c && r[i] in ps
    ensures forall i :: 0 <= i < |ps| && ps[i].category == c ==> ps[i] in r
  {
    Filter(ps, (p: Product) => p.category == c)
  }

  /** An empty badge list keeps everything; otherwise a product needs a listed badge. */
  function ByBadge(ps: seq<Product>, badges: seq<Badge>): (r: seq<Product>)
    ensures |badges| == 0 ==> r == ps
    ensures forall i :: 0 <= i < |r| ==> r[i] in ps && (|badges| > 0 ==> BadgeListed(r[i], badges))
    ensures forall i :: 0 <= i < |ps| && (|badges| == 0 || BadgeListed(ps[i], badges)) ==> ps[i] in r
  {
    if |badges| > 0 then Filter(ps, (p: Product) => BadgeListed(p, badges)) else ps
  }

  function ByPrice(ps: seq<Product>, range: PriceRange): (r: seq<Product>)
    ensures forall i :: 0 <= i < |r| ==> r[i] in ps && InPriceRange(r[i].price, range)
    ensures forall i :: 0 <= i < |ps| && InPriceRange(ps[i].price, range) ==> ps[i] in r
  {
    Filter(ps, (p: Product) => InPriceRange(p.price, range))
  }

  function ByAvailability(ps: seq<Product>, a: AvailabilityFilter): (r: seq<Product>)
    ensures a == AnyAvailability ==> r == ps
    ensures forall i :: 0 <= i < |r| ==> r[i] in ps && (a.Only? ==> r[i].availability == Some(a.availability))
    ensures a.Only? ==> forall i :: 0 <= i < |ps| && ps[i].availability == Some(a.availability) ==> ps[i] in r
  {
    match a
    case AnyAvailability => ps
    case Only(v) => Filter(ps, (p: Product) => p.availability == Some(v))
  }

  function ByLeadTime(ps: seq<Product>, l: LeadTimeFilter): (r: seq<Product>)
    ensures l == AnyLeadTime ==> r == ps
    ensures forall i :: 0 <= i < |r| ==> r[i] in ps && (l.UpTo? ==> WithinDays(r[i], l.days))
    ensures l.UpTo? ==> forall i :: 0 <= i < |ps| && WithinDays(ps[i], l.days) ==> ps[i] in r
    ensures l.UpTo? ==> forall i :: 0 <= i < |r| ==> ParseLeadTime(r[i].leadTime) != Infinite
  {
    match l
    case AnyLeadTime => ps
    case UpTo(d) => Filter(ps, (p: Product) => WithinDays(p, d))
  }

  // ---------------------------------------------------------------------------
  // All stages as one predicate

  predicate KeepCategory(f: Filters, p: Product) { p.category == f.category }
  predicate KeepBadge(f: Filters, p: Product) { |f.badges| == 0 || BadgeListed(p, f.badges) }
  predicate KeepPrice(f: Filters, p: Product) { InPriceRange(p.price, f.priceRange) }
  predicate KeepAvailability(f: Filters, p: Product)
  {
    f.availability.Only? ==> p.availability == Some(f.availability.availability)
  }
  predicate KeepLeadTime(f: Filters, p: Product) { f.leadTime.UpTo? ==> WithinDays(p, f.leadTime.days) }

  /** A product survives the five stages exactly when it satisfies all five predicates. */
  predicate Matches(f: Filters, p: Product)
  {
    KeepCategory(f, p) && KeepBadge(f, p) && KeepPrice(f, p) && KeepAvailability(f, p) && KeepLeadTime(f, p)
  }

  lemma {:induction false} FilterSame<T>(s: seq<T>, f: T -> bool, g: T -> bool)
    requires forall i :: 0 <= i < |s| ==> f(s[i]) == g(s[i])
    ensures Filter(s, f) == Filter(s, g)
  {
    if s != [] {
      FilterSame(s[1..], f, g);
    }
  }

  /** `Matches` as a value that `Filter` can take. */
  function Matching(f: Filters): Product -> bool
  {
    (p: Product) => Matches(f, p)
  }

  /** The stages before the sort, in source order. */
  function Staged(catalog: seq<Product>, f: Filters): seq<Product>
  {
    ByLeadTime(ByAvailability(ByPrice(ByBadge(ByCategory(catalog, f.category), f.badges), f.priceRange), f.availability), f.leadTime)
  }

  lemma CategoryStage(ps: seq<Product>, f: Filters)
    ensures ByCategory(ps, f.category) == Filter(ps, (p: Product) => KeepCategory(f, p))
  {
    FilterSame(ps, (p: Product) => p.category == f.category, (p: Product) => KeepCategory(f, p));
  }

  /** An empty badge list is a filter that keeps everything. */
  lemma BadgeStage(ps: seq<Product>, f: Filters)
    ensures ByBadge(ps, f.badges) == Filter(ps, (p: Product) => KeepBadge(f, p))
  {
    if |f.badges| > 0 {
      FilterSame(ps, (p: Product) => BadgeListed(p, f.badges), (p: Product) => KeepBadge(f, p));
    } else {
      FilterKeepsAll(ps, (p: Product) => KeepBadge(f, p));
    }
  }

  lemma PriceStage(ps: seq<Product>, f: Filters)
    ensures ByPrice(ps, f.priceRange) == Filter(ps, (p: Product) => KeepPrice(f, p))
  {
    FilterSame(ps, (p: Product) => InPriceRange(p.price, f.priceRange), (p: Product) => KeepPrice(f, p));
  }

  lemma AvailabilityStage(ps: seq<Product>, f: Filters)
    ensures ByAvailability(ps, f.availability) == Filter(ps, (p: Product) => KeepAvailability(f, p))
  {
    match f.availability {
      case AnyAvailability =>
        FilterKeepsAll(ps, (p: Product) => KeepAvailability(f, p));
      case Only(v) =>
        FilterSame(ps, (p: Product) => p.availability == Some(v), (p: Product) => KeepAvailability(f, p));
    }
  }

  lemma LeadTimeStage(ps: seq<Product>, f: Filters)
    ensures ByLeadTime(ps, f.leadTime) == Filter(ps, (p: Product) => KeepLeadTime(f, p))
  {
    match f.leadTime {
      case AnyLeadTime =>
        FilterKeepsAll(ps, (p: Product) => KeepLeadTime(f, p));
      case UpTo(d) =>
        FilterSame(ps, (p: Product) => WithinDays(p, d), (p: Product) => KeepLeadTime(f, p));
    }
  }

  /** The chain of stages is one filter of the catalog by `Matches`: catalog order is kept. */
  lemma StagedIsOneFilter(catalog: seq<Product>, f: Filters)
    ensures Staged(catalog, f) == Filter(catalog, Matching(f))
  {
    var c := (p: Product) => KeepCategory(f, p);
    var b := (p: Product) => KeepBadge(f, p);
    var pr := (p: Product) => KeepPrice(f, p);
    var a := (p: Product) => KeepAvailability(f, p);
    var l := (p: Product) => KeepLeadTime(f, p);
    var cb := (p: Product) => KeepCategory(f, p) && KeepBadge(f, p);
    var cbp := (p: Product) => KeepCategory(f, p) && KeepBadge(f, p) && KeepPrice(f, p);
    var cbpa := (p: Product) => KeepCategory(f, p) && KeepBadge(f, p) && KeepPrice(f, p) && KeepAvailability(f, p);
    var all := Matching(f);

    var s1 := ByCategory(catalog, f.category);
    CategoryStage(catalog, f);
    assert s1 == Filter(catalog, c);

    var s2 := ByBadge(s1, f.badges);
    BadgeStage(s1, f);
    FilterTwice(catalog, c, b, cb);
    assert s2 == Filter(catalog, cb);

    var s3 := ByPrice(s2, f.priceRange);
    PriceStage(s2, f);
    FilterTwice(catalog, cb, pr, cbp);
    assert s3 == Filter(catalog, cbp);

    var s4 := ByAvailability(s3, f.availability);
    AvailabilityStage(s3, f);
    FilterTwice(catalog, cbp, a, cbpa);
    assert s4 == Filter(catalog, cbpa);

    var s5 := ByLeadTime(s4, f.leadTime);
    LeadTimeStage(s4, f);
    FilterTwice(catalog, cbpa, l, all);
  }

  // ---------------------------------------------------------------------------
  // Sort keys

  /**
   * The key each sort option's comparator subtracts: 'relevance' returns 0 for
   * every pair, 'price-desc' subtracts in the other order, and 'lead-time'
   * compares parsed lead times, infinite ones tying with each other.
   */
  function RankOf(o: SortOption, p: Product): Rank
  {
    match o
    case Relevance => Finite(0)
    case PriceAsc => Finite(p.price)
    case PriceDesc => Finite(-p.price)
    case LeadTimeAsc => LeadRank(ParseLeadTime(p.leadTime))
  }

  function LeadRank(t: LT): Rank
  {
    match t
    case Days(n) => Finite(n)
    case Infinite => Top
  }

  function Key(o: SortOption): Product -> Rank
  {
    (p: Product) => RankOf(o, p)
  }

  // ---------------------------------------------------------------------------
  // The pipeline

  lemma FilteredMembers(catalog: seq<Product>, f: Filters)
    ensures var r := SortBy(Staged(catalog, f), Key(f.sort));
      (forall i :: 0 <= i < |r| ==> r[i] in catalog && Matches(f, r[i])) &&
      (forall i :: 0 <= i < |catalog| && Matches(f, catalog[i]) ==> catalog[i] in r) &&
      |r| <= |catalog|
  {
    StagedIsOneFilter(catalog, f);
    var staged := Filter(catalog, Matching(f));
    var r := SortBy(staged, Key(f.sort));
    SortSameElements(staged, Key(f.sort));
    forall i | 0 <= i < |r| ensures r[i] in catalog && Matches(f, r[i]) {
      FilterMember(catalog, Matching(f), r[i]);
    }
    forall i | 0 <= i < |catalog| && Matches(f, catalog[i]) ensures catalog[i] in r {
      FilterMember(catalog, Matching(f), catalog[i]);
    }
  }

  /** filteredProducts: the five stages, then the sort. */
  function FilteredProducts(catalog: seq<Product>, f: Filters): (r: seq<Product>)
    ensures |r| <= |catalog|
    ensures forall i :: 0 <= i < |r| ==> r[i] in catalog && Matches(f, r[i])
    ensures forall i :: 0 <= i < |catalog| && Matches(f, catalog[i]) ==> catalog[i] in r
  {
    FilteredMembers(catalog, f);
    SortBy(Staged(catalog, f), Key(f.sort))
  }

  /** No product is listed more often than the catalog has it. */
  lemma FilteredSubMultiset(catalog: seq<Product>, f: Filters)
    ensures multiset(FilteredProducts(catalog, f)) <= multiset(catalog)
  {
    StagedIsOneFilter(catalog, f);
    FilterSubMultiset(catalog, Matching(f));
  }

  /** The output is the one-filter result, reordered by the sort. */
  lemma FilteredIsSortedFilter(catalog: seq<Product>, f: Filters)
    ensures FilteredProducts(catalog, f) == SortBy(Filter(catalog, Matching(f)), Key(f.sort))
  {
    StagedIsOneFilter(catalog, f);
  }

  /** Every category in the output is the selected one, and so on for each stage. */
  lemma FilteredStages(catalog: seq<Product>, f: Filters)
    ensures forall p :: p in FilteredProducts(catalog, f) ==>
      p.category == f.category &&
      (|f.badges| > 0 ==> p.badge.Some? && p.badge.value in f.badges) &&
      InPriceRange(p.price, f.priceRange) &&
      (f.availability.Only? ==> p.availability == Some(f.availability.availability)) &&
      (f.leadTime.UpTo? ==> ParseLeadTime(p.leadTime).Days? && ParseLeadTime(p.leadTime).n <= f.leadTime.days)
  {
    var r := FilteredProducts(catalog, f);
    forall p | p in r
      ensures p.category == f.category
      ensures |f.badges| > 0 ==> p.badge.Some? && p.badge.value in f.badges
      ensures InPriceRange(p.price, f.priceRange)
      ensures f.availability.Only? ==> p.availability == Some(f.availability.availability)
      ensures f.leadTime.UpTo? ==> ParseLeadTime(p.leadTime).Days? && ParseLeadTime(p.leadTime).n <= f.leadTime.days
    {
      var i :| 0 <= i < |r| && r[i] == p;
      assert Matches(f, r[i]);
    }
  }

  /** 'relevance' keeps the order of the catalog. */
  lemma RelevanceKeepsCatalogOrder(catalog: seq<Product>, f: Filters)
    requires f.sort == Relevance
    ensures FilteredProducts(catalog, f) == Filter(catalog, Matching(f))
  {
    FilteredIsSortedFilter(catalog, f);
    SortAllTied(Filter(catalog, Matching(f)), Key(Relevance), Finite(0));
  }

  lemma PriceAscOrder(catalog: seq<Product>, f: Filters)
    requires f.sort == PriceAsc
    ensures var r := FilteredProducts(catalog, f);
      forall i, j :: 0 <= i < j < |r| ==> r[i].price <= r[j].price
  {
    FilteredIsSortedFilter(catalog, f);
    SortSorted(Filter(catalog, Matching(f)), Key(f.sort));
  }

  lemma PriceDescOrder(catalog: seq<Product>, f: Filters)
    requires f.sort == PriceDesc
    ensures var r := FilteredProducts(catalog, f);
      forall i, j :: 0 <= i < j < |r| ==> r[i].price >= r[j].price
  {
    FilteredIsSortedFilter(catalog, f);
    SortSorted(Filter(catalog, Matching(f)), Key(f.sort));
  }

  /** The order of two lead times under 'lead-time': day counts ascending, infinity last. */
  predicate LeadTimeLe(a: LT, b: LT)
  {
    b == Infinite || (a.Days? && a.n <= b.n)
  }

  /** 'lead-time': day counts never decrease, and products without one come last. */
  lemma LeadTimeOrder(catalog: seq<Product>, f: Filters)
    requires f.sort == LeadTimeAsc
    ensures var r := FilteredProducts(catalog, f);
      forall i, j :: 0 <= i < j < |r| ==> LeadTimeLe(ParseLeadTime(r[i].leadTime), ParseLeadTime(r[j].leadTime))
  {
    var r := FilteredProducts(catalog, f);
    FilteredIsSortedFilter(catalog, f);
    SortSorted(Filter(catalog, Matching(f)), Key(f.sort));
    forall i, j | 0 <= i < j < |r|
      ensures LeadTimeLe(ParseLeadTime(r[i].leadTime), ParseLeadTime(r[j].leadTime))
    {
      LeadRankLe(ParseLeadTime(r[i].leadTime), ParseLeadTime(r[j].leadTime));
    }
  }

  lemma LeadRankLe(a: LT, b: LT)
    ensures RankLe(LeadRank(a), LeadRank(b)) <==> LeadTimeLe(a, b)
  {
  }

  /** In every order, products that tie keep their catalog order. */
  lemma TiesKeepCatalogOrder(catalog: seq<Product>, f: Filters, k: Rank)
    ensures OfRank(FilteredProducts(catalog, f), Key(f.sort), k) ==
      OfRank(Filter(catalog, Matching(f)), Key(f.sort), k)
  {
    FilteredIsSortedFilter(catalog, f);
    SortStable(Filter(catalog, Matching(f)), Key(f.sort), k);
  }

  // ---------------------------------------------------------------------------
  // Narrowing

  /** A configuration that admits fewer products never yields more. */
  lemma Narrower(catalog: seq<Product>, f: Filters, g: Filters)
    requires forall p :: Matches(f, p) ==> Matches(g, p)
    ensures multiset(FilteredProducts(catalog, f)) <= multiset(FilteredProducts(catalog, g))
    ensures |FilteredProducts(catalog, f)| <= |FilteredProducts(catalog, g)|
  {
    FilteredIsSortedFilter(catalog, f);
    FilteredIsSortedFilter(catalog, g);
    FilterMonotone(catalog, Matching(f), Matching(g));
  }

  /** Lowering the lead-time cap never enlarges the result. */
  lemma LowerCapNarrows(catalog: seq<Product>, f: Filters, low: nat, high: nat)
    requires low <= high
    ensures |FilteredProducts(catalog, f.(leadTime := UpTo(low)))| <= |FilteredProducts(catalog, f.(leadTime := UpTo(high)))|
  {
    var lo, hi := f.(leadTime := UpTo(low)), f.(leadTime := UpTo(high));
    forall p ensures Matches(lo, p) ==> Matches(hi, p) {
      assert WithinDays(p, low) ==> WithinDays(p, high);
    }
    Narrower(catalog, lo, hi);
  }

  /** Any lead-time cap is narrower than none. */
  lemma CapNarrows(catalog: seq<Product>, f: Filters, cap: nat)
    ensures |FilteredProducts(catalog, f.(leadTime := UpTo(cap)))| <= |FilteredProducts(catalog, f.(leadTime := AnyLeadTime))|
  {
    var capped, any := f.(leadTime := UpTo(cap)), f.(leadTime := AnyLeadTime);
    forall p ensures Matches(capped, p) ==> Matches(any, p) {
      assert KeepLeadTime(any, p);
    }
    Narrower(catalog, capped, any);
  }

  /** Choosing badges never enlarges the result. */
  lemma BadgesNarrow(catalog: seq<Product>, f: Filters)
    ensures |FilteredProducts(catalog, f)| <= |FilteredProducts(catalog, f.(badges := []))|
  {
    var g := f.(badges := []);
    forall p ensures Matches(f, p) ==> Matches(g, p) {
      assert KeepBadge(g, p);
    }
    Narrower(catalog, f, g);
  }

  /** Choosing a price range never enlarges the result. */
  lemma PriceRangeNarrows(catalog: seq<Product>, f: Filters)
    ensures |FilteredProducts(catalog, f)| <= |FilteredProducts(catalog, f.(priceRange := AllPrices))|
  {
    var g := f.(priceRange := AllPrices);
    forall p ensures Matches(f, p) ==> Matches(g, p) {
      assert KeepPrice(g, p);
    }
    Narrower(catalog, f, g);
  }

  /** Choosing an availability never enlarges the result. */
  lemma AvailabilityNarrows(catalog: seq<Product>, f: Filters)
    ensures |FilteredProducts(catalog, f)| <= |FilteredProducts(catalog, f.(availability := AnyAvailability))|
  {
    var g := f.(availability := AnyAvailability);
    forall p ensures Matches(f, p) ==> Matches(g, p) {
      assert KeepAvailability(g, p);
    }
    Narrower(catalog, f, g);
  }

  /** The sample configuration: graduation products within 15 days, cheapest first. */
  const GraduationWithin15 := Filters(Graduaciones, [], AllPrices, AnyAvailability, UpTo(15), PriceAsc)

  lemma OtherCategory(f: Filters, p: Product)
    requires p.category != f.category
    ensures !Matching(f)(p)
  {
  }

  /**
   * A catalog of six entries whose last three lie outside the selected category
   * is filtered as its first three.
   */
  lemma FirstThreeOfSix(f: Filters, s: Product, b: Product, t: Product, x: Product, y: Product, z: Product)
    requires x.category != f.category && y.category != f.category && z.category != f.category
    ensures Filter([s, b, t, x, y, z], Matching(f)) ==
      (if Matching(f)(s) then [s] else []) + (if Matching(f)(b) then [b] else []) + (if Matching(f)(t) then [t] else [])
  {
    SplitSix(s, b, t, x, y, z);
    OtherCategory(f, x);
    OtherCategory(f, y);
    OtherCategory(f, z);
    FilterDropTail([s, b, t, x, y, z], [s, b, t], [x, y, z], Matching(f));
    FilterOfThree(s, b, t, Matching(f));
  }

  /** The sample configuration on any catalog laid out like the fixture. */
  lemma Within15Order(s: Product, b: Product, t: Product, x: Product, y: Product, z: Product)
    requires s.category == Graduaciones && b.category == Graduaciones
    requires x.category != Graduaciones && y.category != Graduaciones && z.category != Graduaciones
    requires ParseLeadTime(s.leadTime) == Days(15) && ParseLeadTime(b.leadTime) == Days(10)
    requires ParseLeadTime(t.leadTime) == Days(20)
    requires b.price < s.price
    ensures FilteredProducts([s, b, t, x, y, z], GraduationWithin15) == [b, s]
  {
    Within15Filter(s, b, t, x, y, z);
    FilteredIsSortedFilter([s, b, t, x, y, z], GraduationWithin15);
    SortPair(s, b, Key(PriceAsc));
  }

  lemma Within15Filter(s: Product, b: Product, t: Product, x: Product, y: Product, z: Product)
    requires s.category == Graduaciones && b.category == Graduaciones
    requires x.category != Graduaciones && y.category != Graduaciones && z.category != Graduaciones
    requires ParseLeadTime(s.leadTime) == Days(15) && ParseLeadTime(b.leadTime) == Days(10)
    requires ParseLeadTime(t.leadTime) == Days(20)
    ensures Filter([s, b, t, x, y, z], Matching(GraduationWithin15)) == [s, b]
  {
    var f := GraduationWithin15;
    FirstThreeOfSix(f, s, b, t, x, y, z);
    assert Matching(f)(s) && Matching(f)(b) && !Matching(f)(t);
  }

  /** On the catalog: the birrete (14990) and then the stole (22990); the tunic takes 20 days. */
  lemma GraduationWithin15Example()
    ensures FilteredProducts(Catalog, GraduationWithin15) == [BirreteSignature, StoleMagna]
  {
    StoleLeadTime();
    BirreteLeadTime();
    TunicaLeadTime();
    Within15Order(StoleMagna, BirreteSignature, TunicaCeremonial, KitBienvenida, TextilEco, KitEscritura);
  }

  /** Once some badge is chosen, choosing one more never shrinks the result: the list is a disjunction. */
  lemma BadgeAddedWidens(catalog: seq<Product>, f: Filters, b: Badge)
    requires |f.badges| > 0
    ensures |FilteredProducts(catalog, f)| <= |FilteredProducts(catalog, f.(badges := f.badges + [b]))|
  {
    var g := f.(badges := f.badges + [b]);
    forall p ensures Matches(f, p) ==> Matches(g, p) {
      if BadgeListed(p, f.badges) {
        assert p.badge.value in g.badges;
      }
    }
    Narrower(catalog, f, g);
  }

  const NewOnly := Filters(Graduaciones, [Nuevo], AllPrices, AnyAvailability, AnyLeadTime, Relevance)
  const NewOrTop := NewOnly.(badges := [Nuevo, TopVentas])

  lemma NewOnlyFilter(s: Product, b: Product, t: Product, x: Product, y: Product, z: Product)
    requires s.category == Graduaciones && b.category == Graduaciones
    requires x.category != Graduaciones && y.category != Graduaciones && z.category != Graduaciones
    requires s.badge == Some(TopVentas) && b.badge == Some(Nuevo) && t.badge == Some(EdicionLimitada)
    ensures Filter([s, b, t, x, y, z], Matching(NewOnly)) == [b]
  {
    FirstThreeOfSix(NewOnly, s, b, t, x, y, z);
    assert !Matching(NewOnly)(s) && Matching(NewOnly)(b) && !Matching(NewOnly)(t);
  }

  lemma NewOrTopFilter(s: Product, b: Product, t: Product, x: Product, y: Product, z: Product)
    requires s.category == Graduaciones && b.category == Graduaciones
    requires x.category != Graduaciones && y.category != Graduaciones && z.category != Graduaciones
    requires s.badge == Some(TopVentas) && b.badge == Some(Nuevo) && t.badge == Some(EdicionLimitada)
    ensures Filter([s, b, t, x, y, z], Matching(NewOrTop)) == [s, b]
  {
    FirstThreeOfSix(NewOrTop, s, b, t, x, y, z);
    assert Matching(NewOrTop)(s) && Matching(NewOrTop)(b) && !Matching(NewOrTop)(t);
  }

  /** On the catalog, adding 'Top ventas' to 'Nuevo' among graduation products turns one match into two. */
  lemma SecondBadgeWidens()
    ensures FilteredProducts(Catalog, NewOnly) == [BirreteSignature]
    ensures FilteredProducts(Catalog, NewOrTop) == [StoleMagna, BirreteSignature]
  {
    var cat := [StoleMagna, BirreteSignature, TunicaCeremonial, KitBienvenida, TextilEco, KitEscritura];
    NewOnlyFilter(StoleMagna, BirreteSignature, TunicaCeremonial, KitBienvenida, TextilEco, KitEscritura);
    RelevanceKeepsCatalogOrder(cat, NewOnly);
    NewOrTopFilter(StoleMagna, BirreteSignature, TunicaCeremonial, KitBienvenida, TextilEco, KitEscritura);
    RelevanceKeepsCatalogOrder(cat, NewOrTop);
  }

  // ---------------------------------------------------------------------------
  // Badge toggle and mode

  function Without(bs: seq<Badge>, b: Badge): seq<Badge>
  {
    Filter(bs, (y: Badge) => y != b)
  }

  /** handleFilterToggle: remove the badge if listed, append it otherwise. */
  function BadgeToggled(current: seq<Badge>, b: Badge): (r: seq<Badge>)
    ensures b in r <==> b !in current
    ensures forall y :: y != b ==> (y in r <==> y in current)
  {
    if b in current then Without(current, b) else current + [b]
  }

  /** The other badges stay listed in the same order. */
  lemma BadgeToggledKeepsOthers(current: seq<Badge>, b: Badge)
    ensures Without(BadgeToggled(current, b), b) == Without(current, b)
  {
    if b in current {
      FilterTwice(current, (y: Badge) => y != b, (y: Badge) => y != b, (y: Badge) => y != b);
    } else {
      FilterAppend(current, [b], (y: Badge) => y != b);
      FilterSingleton(b, (y: Badge) => y != b);
      assert Without(current, b) + [] == Without(current, b);
    }
  }

  /** Toggling the same badge twice restores which badges are listed. */
  lemma BadgeToggledTwice(current: seq<Badge>, b: Badge)
    ensures forall y :: y in BadgeToggled(BadgeToggled(current, b), b) <==> y in current
  {
  }

  /** The category the current mode prefers. */
  function PreferredCategory(m: Theme.Mode): (c: Category)
    ensures c == Graduaciones <==> m == Theme.Graduation
  {
    if m == Theme.Graduation then Graduaciones else Marketing
  }

  /** The mode effect: switch to the preferred category unless it is already selected. */
  function CategoryForMode(current: Category, m: Theme.Mode): (c: Category)
    ensures c == PreferredCategory(m)
  {
    var preferred := PreferredCategory(m);
    if current == preferred then current else preferred
  }
}
