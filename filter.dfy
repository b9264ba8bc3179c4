/**
 * The catalog filter of the search page (src/pages/Filter.tsx): an order-preserving
 * selection of cars by five criteria that must all hold.
 */
module CatalogFilter {
  import opened Wrappers
  import opened Text
  import Seqs

  datatype ListingType = Sale | Rent | Both

  /** A car record as the REST client declares it (the fields the filter reads). */
  datatype Car = Car(
    id: Option<string>,
    title: string,
    carType: Option<string>,
    model: Option<string>,
    manufactureYear: int,
    listingType: ListingType,
    salePrice: Option<real>,
    dailyRentPrice: Option<real>,
    weeklyRentPrice: Option<real>,
    monthlyRentPrice: Option<real>)

  /**
   * The page's six criteria, already parsed: an empty text field is "", an empty
   * year, mode or price field is None.
   */
  datatype Criteria = Criteria(
    searchName: string,
    category: string,
    year: Option<int>,
    mode: Option<ListingType>,
    minPrice: Option<real>,
    maxPrice: Option<real>)

  function PresentValue(p: Option<real>): seq<real> {
    if p.Some? then [p.value] else []
  }

  /** The car's non-null prices: sale, daily, weekly and monthly, in that order. */
  function Prices(car: Car): (r: seq<real>)
    ensures |r| <= 4
    ensures forall p :: p in r <==> Some(p) in [car.salePrice, car.dailyRentPrice, car.weeklyRentPrice, car.monthlyRentPrice]
  {
    PresentValue(car.salePrice) + PresentValue(car.dailyRentPrice)
      + PresentValue(car.weeklyRentPrice) + PresentValue(car.monthlyRentPrice)
  }

  /** A text field that is present, non-empty and contains `needle` after lower-casing. */
  predicate FieldIncludes(field: Option<string>, needle: string) {
    field.Some? && field.value != "" && Contains(Lower(field.value), needle)
  }

  predicate NamePasses(car: Car, c: Criteria) {
    c.searchName == "" || Contains(Lower(car.title), Lower(c.searchName))
  }

  predicate CategoryPasses(car: Car, c: Criteria) {
    c.category == "" || FieldIncludes(car.carType, Lower(c.category)) || FieldIncludes(car.model, Lower(c.category))
  }

  predicate YearPasses(car: Car, c: Criteria) {
    c.year.None? || car.manufactureYear == c.year.value
  }

  predicate ModePasses(car: Car, c: Criteria) {
    match c.mode
    case None => true
    case Some(Both) => true
    case Some(Sale) => car.listingType != Rent
    case Some(Rent) => car.listingType != Sale
  }

  /** Lower bound of the price range: the entered minimum, 0 when empty. */
  function MinBound(c: Criteria): real {
    c.minPrice.GetOr(0.0)
  }

  /** `p >= min && p <= max`, the maximum being +Infinity when empty. */
  predicate InRange(p: real, c: Criteria) {
    MinBound(c) <= p && (c.maxPrice.None? || p <= c.maxPrice.value)
  }

  predicate PricePasses(car: Car, c: Criteria) {
    var prices := Prices(car);
    |prices| == 0 || exists p :: p in prices && InRange(p, c)
  }

  /** The `cars.filter` predicate: the five stages, each of which may reject the car. */
  predicate Matches(car: Car, c: Criteria) {
    NamePasses(car, c) && CategoryPasses(car, c) && YearPasses(car, c) && ModePasses(car, c) && PricePasses(car, c)
  }

  function Admits(c: Criteria): Car -> bool {
    car => Matches(car, c)
  }

  /** The cars shown by the search page. */
  function FilterCars(cars: seq<Car>, c: Criteria): seq<Car> {
    Seqs.Filter(cars, Admits(c))
  }

  /** The criteria after the reset button: every field back to empty. */
  function Reset(): (r: Criteria)
    ensures r.searchName == "" && r.category == "" && r.year.None?
    ensures r.mode.None? && r.minPrice.None? && r.maxPrice.None?
    ensures forall car :: Matches(car, r) <==> (Prices(car) == [] || exists p :: p in Prices(car) && p >= 0.0)
  {
    Criteria("", "", None, None, None, None)
  }

  // ---------------------------------------------------------------------------
  // Properties of the filter over a whole list

  /** The result keeps exactly the matching cars, each as often as in the input, in input order. */
  lemma FilterCarsIsStableSelection(cars: seq<Car>, c: Criteria)
    ensures Seqs.Subsequence(FilterCars(cars, c), cars)
    ensures forall car :: car in FilterCars(cars, c) <==> car in cars && Matches(car, c)
    ensures forall car :: multiset(FilterCars(cars, c))[car] == if Matches(car, c) then multiset(cars)[car] else 0
  {
    Seqs.FilterIsSubsequence(cars, Admits(c));
    Seqs.FilterMembers(cars, Admits(c));
    Seqs.FilterMultiset(cars, Admits(c));
  }

  /** With all criteria empty, every car with no price or some price at or above 0 is shown. */
  lemma ResetShowsEveryCar(cars: seq<Car>)
    requires forall car :: car in cars ==> Prices(car) == [] || exists p :: p in Prices(car) && p >= 0.0
    ensures FilterCars(cars, Reset()) == cars
  {
    Seqs.FilterKeepsAll(cars, Admits(Reset()));
  }

  function TitleIncludes(needle: string): Car -> bool {
    (car: Car) => Contains(Lower(car.title), needle)
  }

  function TypeOrModelIncludes(needle: string): Car -> bool {
    (car: Car) => FieldIncludes(car.carType, needle) || FieldIncludes(car.model, needle)
  }

  function BuiltIn(year: int): Car -> bool {
    (car: Car) => car.manufactureYear == year
  }

  /** A non-empty name keeps, of what the other criteria select, the cars whose lower-cased title contains it. */
  lemma NameCriterion(cars: seq<Car>, c: Criteria)
    requires c.searchName != ""
    ensures FilterCars(cars, c) == Seqs.Filter(FilterCars(cars, c.(searchName := "")), TitleIncludes(Lower(c.searchName)))
  {
    Seqs.FilterConjunction(cars, Admits(c.(searchName := "")), TitleIncludes(Lower(c.searchName)), Admits(c));
  }

  /** A non-empty category keeps the cars whose non-empty type or model contains it, both lower-cased. */
  lemma CategoryCriterion(cars: seq<Car>, c: Criteria)
    requires c.category != ""
    ensures FilterCars(cars, c) == Seqs.Filter(FilterCars(cars, c.(category := "")), TypeOrModelIncludes(Lower(c.category)))
  {
    Seqs.FilterConjunction(cars, Admits(c.(category := "")), TypeOrModelIncludes(Lower(c.category)), Admits(c));
  }

  /** A year keeps exactly the cars manufactured in that year. */
  lemma YearCriterion(cars: seq<Car>, c: Criteria, year: int)
    requires c.year == Some(year)
    ensures FilterCars(cars, c) == Seqs.Filter(FilterCars(cars, c.(year := None)), BuiltIn(year))
  {
    Seqs.FilterConjunction(cars, Admits(c.(year := None)), BuiltIn(year), Admits(c));
  }

  /** A car that passes the other stages and has a price in [min, max] is shown. */
  lemma PriceInRangeIsShown(cars: seq<Car>, c: Criteria, car: Car, p: real)
    requires car in cars
    requires NamePasses(car, c) && CategoryPasses(car, c) && YearPasses(car, c) && ModePasses(car, c)
    requires p in Prices(car) && InRange(p, c)
    ensures car in FilterCars(cars, c)
  {
    Seqs.FilterMembers(cars, Admits(c));
  }

  predicate NotRent(car: Car) { car.listingType != Rent }

  predicate NotSale(car: Car) { car.listingType != Sale }

  /** Choosing 'sale' removes exactly the 'rent' cars from what the other criteria select. */
  lemma SaleModeExcludesExactlyRent(cars: seq<Car>, c: Criteria)
    ensures FilterCars(cars, c.(mode := Some(Sale))) == Seqs.Filter(FilterCars(cars, c.(mode := None)), NotRent)
  {
    Seqs.FilterConjunction(cars, Admits(c.(mode := None)), NotRent, Admits(c.(mode := Some(Sale))));
  }

  /** Choosing 'rent' removes exactly the 'sale' cars from what the other criteria select. */
  lemma RentModeExcludesExactlySale(cars: seq<Car>, c: Criteria)
    ensures FilterCars(cars, c.(mode := Some(Rent))) == Seqs.Filter(FilterCars(cars, c.(mode := None)), NotSale)
  {
    Seqs.FilterConjunction(cars, Admits(c.(mode := None)), NotSale, Admits(c.(mode := Some(Rent))));
  }

  /** The mode 'both' selects the same cars as an empty mode. */
  lemma BothModeExcludesNothing(cars: seq<Car>, c: Criteria)
    ensures FilterCars(cars, c.(mode := Some(Both))) == FilterCars(cars, c.(mode := None))
  {
    Seqs.FilterCongruent(cars, Admits(c.(mode := Some(Both))), Admits(c.(mode := None)));
  }

  /** A car listed as 'both' is never removed by the mode criterion. */
  lemma BothCarsSurviveAnyMode(cars: seq<Car>, c: Criteria, car: Car)
    requires car.listingType == Both
    ensures car in FilterCars(cars, c) <==> car in FilterCars(cars, c.(mode := None))
  {
    var c0 := c.(mode := None);
    assert Matches(car, c) <==> Matches(car, c0) by {
      assert ModePasses(car, c) && ModePasses(car, c0);
      assert MinBound(c) == MinBound(c0);
    }
    Seqs.FilterMembers(cars, Admits(c));
    Seqs.FilterMembers(cars, Admits(c0));
  }

  /** The price range has no say over cars that carry no price at all. */
  lemma UnpricedCarsIgnorePriceRange(cars: seq<Car>, c: Criteria, lo: Option<real>, hi: Option<real>)
    requires forall car :: car in cars ==> Prices(car) == []
    ensures FilterCars(cars, c) == FilterCars(cars, c.(minPrice := lo, maxPrice := hi))
  {
    Seqs.FilterCongruent(cars, Admits(c), Admits(c.(minPrice := lo, maxPrice := hi)));
  }

  /** Every shown car that has a price has one inside [min, max]. */
  lemma ShownPricedCarsHavePriceInRange(cars: seq<Car>, c: Criteria)
    ensures forall car :: car in FilterCars(cars, c) && Prices(car) != [] ==> exists p :: p in Prices(car) && InRange(p, c)
  {
    Seqs.FilterMembers(cars, Admits(c));
  }

  // ---------------------------------------------------------------------------
  // Scenarios

  const Civic := Car(Some("1"), "Civic", None, None, 2020, Sale, Some(20000.0), None, None, None)
  const Corolla := Car(Some("2"), "Corolla", None, None, 2021, Rent, None, Some(50.0), None, None)

  /** Mode 'rent' over a sale Civic and a rent Corolla shows only the Corolla. */
  lemma RentScenario()
    ensures FilterCars([Civic, Corolla], Reset().(mode := Some(Rent))) == [Corolla]
  {
    var c := Reset().(mode := Some(Rent));
    assert !Matches(Civic, c);
    assert Prices(Corolla) == [50.0];
    assert Matches(Corolla, c);
    assert [Civic, Corolla][1..] == [Corolla];
    assert [Corolla][1..] == [];
    assert Seqs.Filter([Corolla], Admits(c)) == [Corolla];
  }

  /** A car with only a monthly price of 150 is inside the range [100, 200]. */
  lemma MonthlyPriceScenario(car: Car)
    requires car.salePrice.None? && car.dailyRentPrice.None? && car.weeklyRentPrice.None?
    requires car.monthlyRentPrice == Some(150.0)
    ensures Matches(car, Reset().(minPrice := Some(100.0), maxPrice := Some(200.0)))
  {
    assert Prices(car) == [150.0];
  }
}
