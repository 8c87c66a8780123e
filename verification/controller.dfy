/**
 The page's two entry points, without the document: start-up (validate the
 loaded rows, then either show them with the brand count or report that
 nothing valid was found) and the filter form (build criteria from the two
 inputs and filter the data set with them).

 The form's price range becomes a function criterion, which the strict
 equality of `FilterLaptops` never matches. `ApplyFilters` models the page
 as written; `ApplyFiltersIntended` models the evidently intended filter
 that calls function criteria on the laptop.
 */
module Controller {
  import opened Seqs
  import opened Laptops
  import opened Validation
  import opened Query

  /** What start-up leaves on the page. */
  datatype Page = NoValidData | Showing(dataset: seq<Record>, totalBrands: nat)

  /** Validate the parsed rows; show them and their brand count when any
      remain, otherwise report that no valid data was found. */
  function Startup(rows: seq<Record>): (p: Page)
    ensures p.Showing? <==> exists i :: 0 <= i < |rows| && IsCompleteRow(rows[i])
    ensures p.Showing? ==> p.dataset == Validate(rows)
    ensures p.Showing? ==> 1 <= p.totalBrands <= |p.dataset|
    ensures p.Showing? ==> p.totalBrands == TotalBrands(p.dataset)
    ensures p.Showing? ==> forall i :: 0 <= i < |p.dataset| ==> IsCompleteRow(p.dataset[i])
  {
    var validated := Validate(rows);
    if |validated| > 0 then
      assert validated[0] in validated;
      Showing(validated, TotalBrands(validated))
    else
      NoValidData
  }

  /** Two full rows and the blank row of a trailing newline: the page shows
      the two rows and counts two brands. */
  lemma StartupExample()
    ensures
      var dell: Record := map["Company" := Str("Dell"), "Price_euros" := Num(750.0)];
      var hp: Record := map["Company" := Str("HP"), "Price_euros" := Num(450.0)];
      var blank: Record := map["Company" := Str("")];
      Startup([dell, hp, blank]) == Showing([dell, hp], 2)
  {
    var dell: Record := map["Company" := Str("Dell"), "Price_euros" := Num(750.0)];
    var hp: Record := map["Company" := Str("HP"), "Price_euros" := Num(450.0)];
    TrailingBlankRowDropped();
    assert Company(dell) == Str("Dell") && Company(hp) == Str("HP");
    assert Brands([hp]) == {Str("HP")} by { assert |[hp][1..]| == 0; }
    assert Brands([dell, hp]) == {Str("Dell"), Str("HP")} by { assert [dell, hp][1..] == [hp]; }
  }

  /** The price-range predicate the form builds:
      `parseFloat(laptop.Price_euros)` lies between the two bounds. */
  predicate InPriceRange(laptop: Record, minPrice: Number, maxPrice: Number) {
    Between(ParseFloat(Field(laptop, "Price_euros")), minPrice, maxPrice)
  }

  /** The criteria built from the form. A non-empty manufacturer becomes an
      exact `Company` value; a non-empty price range becomes a function on
      `Price_euros`. The bounds are the two halves of the range string
      already converted with `Number`. */
  function BuildCriteria(manufacturer: string, priceRange: string, minPrice: Number, maxPrice: Number): (c: Criteria)
    ensures "Company" in c <==> manufacturer != ""
    ensures "Price_euros" in c <==> priceRange != ""
    ensures forall key :: key in c ==> key == "Company" || key == "Price_euros"
    ensures "Company" in c ==> c["Company"].Lit? && c["Company"].value == Str(manufacturer)
    ensures "Price_euros" in c ==>
              c["Price_euros"].Func? &&
              forall laptop :: c["Price_euros"].pred(laptop) == InPriceRange(laptop, minPrice, maxPrice)
  {
    var byCompany: Criteria := if manufacturer != "" then map["Company" := Lit(Str(manufacturer))] else map[];
    if priceRange != "" then
      byCompany["Price_euros" := Func((laptop: Record) => InPriceRange(laptop, minPrice, maxPrice))]
    else
      byCompany
  }

  /** Submitting the form, as the page does it: any price range empties the
      result; otherwise the manufacturer, when given, is matched exactly. */
  function ApplyFilters(dataset: seq<Record>, manufacturer: string, priceRange: string,
                        minPrice: Number, maxPrice: Number): (r: seq<Record>)
    ensures priceRange != "" ==> r == []
    ensures priceRange == "" && manufacturer == "" ==> r == dataset
    ensures forall i :: 0 <= i < |r| ==> r[i] in dataset
    ensures manufacturer != "" ==> forall i :: 0 <= i < |r| ==> Company(r[i]) == Str(manufacturer)
    ensures priceRange == "" ==>
              forall i :: 0 <= i < |dataset| && Company(dataset[i]) == Str(manufacturer) ==> dataset[i] in r
  {
    var criteria := BuildCriteria(manufacturer, priceRange, minPrice, maxPrice);
    if priceRange != "" then
      FilterLaptopsFunctionCriterion(dataset, criteria, "Price_euros");
      FilterLaptops(dataset, criteria)
    else if manufacturer == "" then
      assert criteria == map[];
      FilterLaptopsNoCriteria(dataset);
      FilterLaptops(dataset, criteria)
    else
      assert "Company" in criteria;
      FilterLaptops(dataset, criteria)
  }

  /** `laptop[key] === value` for plain values, and the function applied to
      the laptop for function criteria: the test the page evidently means. */
  predicate MeetsAllIntended(laptop: Record, criteria: Criteria) {
    forall key :: key in criteria ==>
      match criteria[key]
      case Lit(v) => Field(laptop, key) == v
      case Func(p) => p(laptop)
  }

  /** Filtering with function criteria called on each laptop. */
  function FilterIntended(laptops: seq<Record>, criteria: Criteria): (r: seq<Record>)
    ensures IsSubsequence(r, laptops)
    ensures forall i :: 0 <= i < |r| ==> r[i] in laptops && MeetsAllIntended(r[i], criteria)
    ensures forall i :: 0 <= i < |laptops| && MeetsAllIntended(laptops[i], criteria) ==> laptops[i] in r
  {
    var p := (laptop: Record) => MeetsAllIntended(laptop, criteria);
    FilterIsSubsequence(laptops, p);
    Filter(laptops, p)
  }

  /** Without function criteria the intended filter and the filter as
      written agree, so the correction changes only function criteria. */
  lemma FilterIntendedAgreesOnValues(laptops: seq<Record>, criteria: Criteria)
    requires forall key :: key in criteria ==> criteria[key].Lit?
    ensures FilterIntended(laptops, criteria) == FilterLaptops(laptops, criteria)
  {
    var p := (laptop: Record) => MeetsAllIntended(laptop, criteria);
    var q := (laptop: Record) => MeetsAll(laptop, criteria);
    assert forall laptop :: p(laptop) == q(laptop);
    FilterSameTest(laptops, p, q);
  }

  /** Submitting the form with the intended filter. */
  function ApplyFiltersIntended(dataset: seq<Record>, manufacturer: string, priceRange: string,
                                minPrice: Number, maxPrice: Number): (r: seq<Record>)
    ensures IsSubsequence(r, dataset)
  {
    FilterIntended(dataset, BuildCriteria(manufacturer, priceRange, minPrice, maxPrice))
  }

  /** With the intended filter a laptop is shown exactly when it matches the
      manufacturer (if one was entered) and its price lies in the range (if
      one was entered), both bounds included. */
  lemma ApplyFiltersIntendedMembership(dataset: seq<Record>, manufacturer: string, priceRange: string,
                                       minPrice: Number, maxPrice: Number, laptop: Record)
    ensures laptop in ApplyFiltersIntended(dataset, manufacturer, priceRange, minPrice, maxPrice) <==>
            laptop in dataset &&
            (manufacturer != "" ==> Company(laptop) == Str(manufacturer)) &&
            (priceRange != "" ==> InPriceRange(laptop, minPrice, maxPrice))
  {
    var c := BuildCriteria(manufacturer, priceRange, minPrice, maxPrice);
    var r := ApplyFiltersIntended(dataset, manufacturer, priceRange, minPrice, maxPrice);
    var wanted := (manufacturer != "" ==> Company(laptop) == Str(manufacturer)) &&
                  (priceRange != "" ==> InPriceRange(laptop, minPrice, maxPrice));
    assert MeetsAllIntended(laptop, c) <==> wanted by {
      if MeetsAllIntended(laptop, c) {
        if manufacturer != "" {
          assert "Company" in c;
        }
        if priceRange != "" {
          assert "Price_euros" in c;
        }
      }
    }
    if laptop in r {
      var i :| 0 <= i < |r| && r[i] == laptop;
    }
    if laptop in dataset && wanted {
      var j :| 0 <= j < |dataset| && dataset[j] == laptop;
    }
  }

  /** A range whose text does not convert (`"abc-def"` gives NaN bounds)
      shows nothing, even with the intended filter. */
  lemma MalformedRangeShowsNothing(dataset: seq<Record>, manufacturer: string, priceRange: string,
                                   minPrice: Number, maxPrice: Number)
    requires priceRange != "" && (minPrice.NaN? || maxPrice.NaN?)
    ensures ApplyFiltersIntended(dataset, manufacturer, priceRange, minPrice, maxPrice) == []
  {
    var r := ApplyFiltersIntended(dataset, manufacturer, priceRange, minPrice, maxPrice);
    if |r| > 0 {
      ApplyFiltersIntendedMembership(dataset, manufacturer, priceRange, minPrice, maxPrice, r[0]);
    }
  }

  /** The discrepancy on one input: a 750-euro laptop and the range
      "500-1000". The page as written shows nothing; the intended filter
      shows the laptop. */
  lemma PriceRangeFinding()
    ensures
      var laptop: Record := map["Company" := Str("HP"), "Price_euros" := Num(750.0)];
      && ApplyFilters([laptop], "", "500-1000", Real(500.0), Real(1000.0)) == []
      && ApplyFiltersIntended([laptop], "", "500-1000", Real(500.0), Real(1000.0)) == [laptop]
  {
    var laptop: Record := map["Company" := Str("HP"), "Price_euros" := Num(750.0)];
    var c := BuildCriteria("", "500-1000", Real(500.0), Real(1000.0));
    assert InPriceRange(laptop, Real(500.0), Real(1000.0));
    assert MeetsAllIntended(laptop, c);
    assert |[laptop][1..]| == 0;
  }
}
