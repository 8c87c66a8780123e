/**
 The query functions over the data set: criteria filtering and the count of
 distinct manufacturers.
 */
module Query {
  import opened Seqs
  import opened Laptops

  /** A criterion value: a plain value, or a function (a predicate over a
      laptop). Filtering compares a function criterion by identity, and no
      field value is ever a function, so it never matches. */
  datatype Criterion = Lit(value: Value) | Func(pred: Record -> bool)

  /** Field name to criterion. */
  type Criteria = map<string, Criterion>

  /** `laptop[key] === criteria[key]`. */
  predicate StrictlyEquals(v: Value, c: Criterion) {
    c.Lit? && c.value == v
  }

  /** Every key of the criteria passes the strict-equality test. */
  predicate MeetsAll(laptop: Record, criteria: Criteria) {
    forall key :: key in criteria ==> StrictlyEquals(Field(laptop, key), criteria[key])
  }

  /** The laptops that equal every criterion on its key, in their original order. */
  function FilterLaptops(laptops: seq<Record>, criteria: Criteria): (r: seq<Record>)
    ensures |r| <= |laptops|
    ensures forall i, key :: 0 <= i < |r| && key in criteria ==>
              criteria[key].Lit? && Field(r[i], key) == criteria[key].value
    ensures forall i :: 0 <= i < |r| ==> r[i] in laptops
    ensures forall i :: 0 <= i < |laptops| && MeetsAll(laptops[i], criteria) ==> laptops[i] in r
  {
    var r := Filter(laptops, (laptop: Record) => MeetsAll(laptop, criteria));
    assert forall i :: 0 <= i < |r| ==> MeetsAll(r[i], criteria);
    r
  }

  /** Membership in both directions: a laptop is in the result exactly when
      it is in the input and every criterion is a plain value equal to the
      laptop's field. */
  lemma FilterLaptopsMembership(laptops: seq<Record>, criteria: Criteria, laptop: Record)
    ensures laptop in FilterLaptops(laptops, criteria) <==>
            laptop in laptops &&
            forall key :: key in criteria ==> criteria[key].Lit? && Field(laptop, key) == criteria[key].value
  {
    var r := FilterLaptops(laptops, criteria);
    if laptop in r {
      var i :| 0 <= i < |r| && r[i] == laptop;
    }
    if laptop in laptops && MeetsAll(laptop, criteria) {
      var j :| 0 <= j < |laptops| && laptops[j] == laptop;
    }
  }

  /** The result is a subsequence of the input, and each matching laptop is
      kept as many times as it occurs. */
  lemma FilterLaptopsSubsequence(laptops: seq<Record>, criteria: Criteria, laptop: Record)
    ensures IsSubsequence(FilterLaptops(laptops, criteria), laptops)
    ensures multiset(FilterLaptops(laptops, criteria))[laptop] ==
            if MeetsAll(laptop, criteria) then multiset(laptops)[laptop] else 0
  {
    var p := (x: Record) => MeetsAll(x, criteria);
    FilterIsSubsequence(laptops, p);
    FilterCounts(laptops, p, laptop);
  }

  /** With no criteria every laptop passes and the list comes back unchanged. */
  lemma FilterLaptopsNoCriteria(laptops: seq<Record>)
    ensures FilterLaptops(laptops, map[]) == laptops
  {
    FilterAllPass(laptops, (x: Record) => MeetsAll(x, map[]));
  }

  /** Any function-valued criterion, such as the price-range predicate,
      makes the result empty. */
  lemma FilterLaptopsFunctionCriterion(laptops: seq<Record>, criteria: Criteria, key: string)
    requires key in criteria && criteria[key].Func?
    ensures FilterLaptops(laptops, criteria) == []
  {
    FilterNonePass(laptops, (x: Record) => MeetsAll(x, criteria));
  }

  /** Of Dell, Dell, HP, Asus, HP, the manufacturer criterion "HP" keeps the
      two HP laptops in their original order. */
  lemma FilterByManufacturerExample()
    ensures
      var dell1: Record := map["Company" := Str("Dell"), "Price_euros" := Num(900.0)];
      var dell2: Record := map["Company" := Str("Dell"), "Price_euros" := Num(1200.0)];
      var hp1: Record := map["Company" := Str("HP"), "Price_euros" := Num(450.0)];
      var asus: Record := map["Company" := Str("Asus"), "Price_euros" := Num(600.0)];
      var hp2: Record := map["Company" := Str("HP"), "Price_euros" := Num(1500.0)];
      FilterLaptops([dell1, dell2, hp1, asus, hp2], map["Company" := Lit(Str("HP"))]) == [hp1, hp2]
  {
    var dell1: Record := map["Company" := Str("Dell"), "Price_euros" := Num(900.0)];
    var dell2: Record := map["Company" := Str("Dell"), "Price_euros" := Num(1200.0)];
    var hp1: Record := map["Company" := Str("HP"), "Price_euros" := Num(450.0)];
    var asus: Record := map["Company" := Str("Asus"), "Price_euros" := Num(600.0)];
    var hp2: Record := map["Company" := Str("HP"), "Price_euros" := Num(1500.0)];
    var c: Criteria := map["Company" := Lit(Str("HP"))];
    var p := (x: Record) => MeetsAll(x, c);
    assert !p(dell1) by { assert Field(dell1, "Company") == Str("Dell"); }
    assert !p(dell2) by { assert Field(dell2, "Company") == Str("Dell"); }
    assert !p(asus) by { assert Field(asus, "Company") == Str("Asus"); }
    assert p(hp1) && p(hp2);
    var s := [dell1, dell2, hp1, asus, hp2];
    assert Filter([hp2], p) == [hp2] by { assert |[hp2][1..]| == 0; }
    assert Filter([asus, hp2], p) == [hp2] by { assert [asus, hp2][1..] == [hp2]; }
    assert Filter([hp1, asus, hp2], p) == [hp1, hp2] by { assert [hp1, asus, hp2][1..] == [asus, hp2]; }
    assert Filter([dell2, hp1, asus, hp2], p) == [hp1, hp2] by { assert [dell2, hp1, asus, hp2][1..] == [hp1, asus, hp2]; }
    assert Filter(s, p) == [hp1, hp2] by { assert s[1..] == [dell2, hp1, asus, hp2]; }
  }

  /** The manufacturer of each laptop, `laptop.Company` (undefined when absent). */
  function Company(laptop: Record): Value {
    Field(laptop, "Company")
  }

  /** The set of manufacturers of `laptops`: `new Set(laptops.map(l => l.Company))`. */
  function Brands(laptops: seq<Record>): (b: set<Value>)
    ensures |b| <= |laptops|
    ensures forall i :: 0 <= i < |laptops| ==> Company(laptops[i]) in b
    ensures forall v :: v in b ==> exists i :: 0 <= i < |laptops| && Company(laptops[i]) == v
  {
    if |laptops| == 0 then {}
    else
      var rest := Brands(laptops[1..]);
      assert forall v :: v in rest ==> exists i :: 0 <= i < |laptops| && Company(laptops[i]) == v by {
        forall v | v in rest
          ensures exists i :: 0 <= i < |laptops| && Company(laptops[i]) == v
        {
          var j :| 0 <= j < |laptops[1..]| && Company(laptops[1..][j]) == v;
          assert Company(laptops[j + 1]) == v;
        }
      }
      {Company(laptops[0])} + rest
  }

  /** Appending a laptop adds its manufacturer to the brand set. */
  lemma {:induction false} BrandsSnoc(laptops: seq<Record>, laptop: Record)
    ensures Brands(laptops + [laptop]) == Brands(laptops) + {Company(laptop)}
  {
    if |laptops| > 0 {
      assert (laptops + [laptop])[1..] == laptops[1..] + [laptop];
      BrandsSnoc(laptops[1..], laptop);
    } else {
      assert laptops + [laptop] == [laptop];
      assert |[laptop][1..]| == 0;
    }
  }

  /** The number of distinct manufacturers. Values are compared exactly, so
      "Dell" and "dell" are two brands. */
  function TotalBrands(laptops: seq<Record>): (n: nat)
    ensures n <= |laptops|
    ensures |laptops| == 0 <==> n == 0
  {
    assert |laptops| > 0 ==> Company(laptops[0]) in Brands(laptops);
    |Brands(laptops)|
  }

  /** The count as the page computes it: walk the list once, collecting
      manufacturers into a set, and report the size of that set. */
  method CountBrands(laptops: seq<Record>) returns (n: nat)
    ensures n == TotalBrands(laptops)
  {
    var seen: set<Value> := {};
    var i := 0;
    while i < |laptops|
      invariant 0 <= i <= |laptops|
      invariant seen == Brands(laptops[..i])
    {
      assert laptops[..i + 1] == laptops[..i] + [laptops[i]];
      BrandsSnoc(laptops[..i], laptops[i]);
      seen := seen + {Company(laptops[i])};
      i := i + 1;
    }
    assert laptops[..i] == laptops;
    n := |seen|;
  }

  /** Dell, HP, Dell, Lenovo: three brands. */
  lemma TotalBrandsExample()
    ensures
      TotalBrands([map["Company" := Str("Dell")], map["Company" := Str("HP")],
                   map["Company" := Str("Dell")], map["Company" := Str("Lenovo")]]) == 3
  {
    var dell: Record := map["Company" := Str("Dell")];
    var hp: Record := map["Company" := Str("HP")];
    var lenovo: Record := map["Company" := Str("Lenovo")];
    assert Company(dell) == Str("Dell") && Company(hp) == Str("HP") && Company(lenovo) == Str("Lenovo");
    assert Brands([lenovo]) == {Str("Lenovo")} by { assert |[lenovo][1..]| == 0; }
    assert Brands([dell, lenovo]) == {Str("Dell"), Str("Lenovo")} by { assert [dell, lenovo][1..] == [lenovo]; }
    assert Brands([hp, dell, lenovo]) == {Str("HP"), Str("Dell"), Str("Lenovo")} by {
      assert [hp, dell, lenovo][1..] == [dell, lenovo];
    }
    assert Brands([dell, hp, dell, lenovo]) == {Str("HP"), Str("Dell"), Str("Lenovo")} by {
      assert [dell, hp, dell, lenovo][1..] == [hp, dell, lenovo];
    }
  }

  /** Brands are compared exactly: "Dell" and "dell" are two brands. */
  lemma TotalBrandsCaseSensitive()
    ensures TotalBrands([map["Company" := Str("Dell")], map["Company" := Str("dell")]]) == 2
  {
    var upper: Record := map["Company" := Str("Dell")];
    var lower: Record := map["Company" := Str("dell")];
    assert Company(upper) == Str("Dell") && Company(lower) == Str("dell");
    assert Brands([lower]) == {Str("dell")} by { assert |[lower][1..]| == 0; }
    assert Brands([upper, lower]) == {Str("Dell"), Str("dell")} by { assert [upper, lower][1..] == [lower]; }
    assert Str("Dell") != Str("dell") by { assert "Dell"[0] != "dell"[0]; }
  }
}
