/**
 Categorisation by an ordered rule list: each laptop gets the label of the
 first rule whose condition holds. When no rule holds, `find` yields
 `undefined` and reading `.result` from it throws, which ends the whole
 mapping at that laptop; the model reports that as `NoMatchingRule`.
 */
module Categorization {
  import opened Laptops

  /** A rule: a condition over a laptop and the label it assigns. */
  datatype Rule = Rule(condition: Record -> bool, result: string)

  /** Outcome of searching the rules for one laptop. */
  datatype Found = NotFound | FoundAt(index: nat)

  /** `rules.find(rule => rule.condition(laptop))`, as a position. */
  function FindRule(rules: seq<Rule>, laptop: Record): (k: Found)
    ensures k.FoundAt? ==> k.index < |rules| && rules[k.index].condition(laptop)
    ensures k.FoundAt? ==> forall j :: 0 <= j < k.index ==> !rules[j].condition(laptop)
    ensures k.NotFound? <==> forall j :: 0 <= j < |rules| ==> !rules[j].condition(laptop)
  {
    if |rules| == 0 then NotFound
    else if rules[0].condition(laptop) then FoundAt(0)
    else
      match FindRule(rules[1..], laptop)
      case NotFound => NotFound
      case FoundAt(i) => FoundAt(i + 1)
  }

  /** `{ ...laptop, category }`: every field of the laptop, plus (or
      replacing) the `category` field. */
  function WithCategory(laptop: Record, category: string): (r: Record)
    ensures r.Keys == laptop.Keys + {"category"}
    ensures r["category"] == Str(category)
    ensures forall key :: key in laptop && key != "category" ==> r[key] == laptop[key]
  {
    laptop["category" := Str(category)]
  }

  /** Result of categorising a list: every laptop labelled, or the position
      of the first laptop no rule matches (where the source throws). */
  datatype Outcome = Categorized(laptops: seq<Record>) | NoMatchingRule(index: nat)

  /** The label the first matching rule gives, when one matches. */
  ghost predicate LabelledBy(rules: seq<Rule>, laptop: Record, out: Record)
  {
    exists k :: 0 <= k < |rules| && rules[k].condition(laptop) &&
      (forall j :: 0 <= j < k ==> !rules[j].condition(laptop)) &&
      out == WithCategory(laptop, rules[k].result)
  }

  /** `laptops.map(...)`: one labelled copy per laptop, in the same order. */
  function CategorizeLaptops(laptops: seq<Record>, rules: seq<Rule>): (r: Outcome)
    ensures r.Categorized? <==>
            forall i :: 0 <= i < |laptops| ==> exists k :: 0 <= k < |rules| && rules[k].condition(laptops[i])
    ensures r.Categorized? ==> |r.laptops| == |laptops|
    ensures r.Categorized? ==> forall i :: 0 <= i < |laptops| ==> LabelledBy(rules, laptops[i], r.laptops[i])
    ensures r.NoMatchingRule? ==>
            r.index < |laptops| &&
            (forall k :: 0 <= k < |rules| ==> !rules[k].condition(laptops[r.index])) &&
            (forall i :: 0 <= i < r.index ==> FindRule(rules, laptops[i]).FoundAt?)
  {
    if |laptops| == 0 then Categorized([])
    else
      match FindRule(rules, laptops[0])
      case NotFound => NoMatchingRule(0)
      case FoundAt(k) =>
        var head := WithCategory(laptops[0], rules[k].result);
        assert LabelledBy(rules, laptops[0], head);
        match CategorizeLaptops(laptops[1..], rules)
        case Categorized(rest) =>
          assert forall i :: 1 <= i < |laptops| ==> laptops[i] == laptops[1..][i - 1];
          Categorized([head] + rest)
        case NoMatchingRule(e) =>
          assert laptops[1..][e] == laptops[e + 1];
          NoMatchingRule(e + 1)
  }

  /** Every labelled copy keeps all of its laptop's fields and carries the
      label of the first matching rule. */
  lemma CategorizedFields(laptops: seq<Record>, rules: seq<Rule>, i: nat)
    requires CategorizeLaptops(laptops, rules).Categorized?
    requires i < |laptops|
    ensures
      var out := CategorizeLaptops(laptops, rules).laptops[i];
      var k := FindRule(rules, laptops[i]);
      && k.FoundAt?
      && out.Keys == laptops[i].Keys + {"category"}
      && out["category"] == Str(rules[k.index].result)
      && forall key :: key in laptops[i] && key != "category" ==> out[key] == laptops[i][key]
  {
    var out := CategorizeLaptops(laptops, rules).laptops[i];
    assert LabelledBy(rules, laptops[i], out);
    var k :| 0 <= k < |rules| && rules[k].condition(laptops[i]) &&
      (forall j :: 0 <= j < k ==> !rules[j].condition(laptops[i])) &&
      out == WithCategory(laptops[i], rules[k].result);
    var f := FindRule(rules, laptops[i]);
    assert f.FoundAt? && f.index == k;
  }

  /** The price as the rules compare it: `laptop.Price_euros` coerced to a number. */
  function Price(laptop: Record): Number {
    ToNumber(Field(laptop, "Price_euros"))
  }

  /** The three price rules, in their order. */
  const PriceRules: seq<Rule> := [
    Rule((laptop: Record) => Below(Price(laptop), 500.0), "budget"),
    Rule((laptop: Record) => AtLeast(Price(laptop), 500.0) && Below(Price(laptop), 1000.0), "mid-range"),
    Rule((laptop: Record) => AtLeast(Price(laptop), 1000.0), "high-end")
  ]

  /** The price tier as the thresholds state it: below 500 budget, from 500
      up to but not including 1000 mid-range, from 1000 up high-end. */
  function PriceTier(p: real): string {
    if p < 500.0 then "budget" else if p < 1000.0 then "mid-range" else "high-end"
  }

  /** For a numeric price the first matching price rule gives the price
      tier; for a NaN price (undefined, text) no price rule matches. */
  lemma PriceRulesGiveTier(laptop: Record)
    ensures Price(laptop).Real? ==>
              FindRule(PriceRules, laptop).FoundAt? &&
              PriceRules[FindRule(PriceRules, laptop).index].result == PriceTier(Price(laptop).x)
    ensures Price(laptop).NaN? <==> FindRule(PriceRules, laptop).NotFound?
  {
    var f := FindRule(PriceRules, laptop);
    if Price(laptop).Real? {
      var p := Price(laptop).x;
      if p < 500.0 {
        assert PriceRules[0].condition(laptop);
      } else if p < 1000.0 {
        assert !PriceRules[0].condition(laptop);
        assert PriceRules[1].condition(laptop);
      } else {
        assert !PriceRules[0].condition(laptop);
        assert !PriceRules[1].condition(laptop);
        assert PriceRules[2].condition(laptop);
      }
    } else {
      assert !PriceRules[0].condition(laptop);
      assert !PriceRules[1].condition(laptop);
      assert !PriceRules[2].condition(laptop);
    }
  }

  /** At most one price rule holds for any laptop, so their order does not
      change the outcome. */
  lemma PriceRulesExclusive(laptop: Record, j: nat, k: nat)
    requires j < k < |PriceRules|
    ensures !(PriceRules[j].condition(laptop) && PriceRules[k].condition(laptop))
  {
  }

  /** Categorising with the price rules succeeds exactly when every price
      converts to a number. */
  lemma CategorizeByPriceSucceeds(laptops: seq<Record>)
    ensures CategorizeLaptops(laptops, PriceRules).Categorized? <==>
            forall i :: 0 <= i < |laptops| ==> Price(laptops[i]).Real?
  {
    forall i | 0 <= i < |laptops|
      ensures Price(laptops[i]).Real? <==>
              exists k :: 0 <= k < |PriceRules| && PriceRules[k].condition(laptops[i])
    {
      PriceRulesGiveTier(laptops[i]);
    }
  }

  /** When price categorisation succeeds, each laptop's `category` is its
      price tier. */
  lemma CategorizeByPriceTier(laptops: seq<Record>, i: nat)
    requires CategorizeLaptops(laptops, PriceRules).Categorized?
    requires i < |laptops|
    ensures Price(laptops[i]).Real?
    ensures CategorizeLaptops(laptops, PriceRules).laptops[i]["category"] == Str(PriceTier(Price(laptops[i]).x))
  {
    CategorizedFields(laptops, PriceRules, i);
    PriceRulesGiveTier(laptops[i]);
  }

  /** The position of the first price rule a laptop priced `p` matches. */
  lemma PriceRuleIndex(laptop: Record, p: real)
    requires Price(laptop) == Real(p)
    ensures FindRule(PriceRules, laptop) == FoundAt(if p < 500.0 then 0 else if p < 1000.0 then 1 else 2)
  {
    PriceRulesGiveTier(laptop);
    var f := FindRule(PriceRules, laptop);
    if p < 500.0 {
      assert PriceRules[0].condition(laptop);
    } else if p < 1000.0 {
      assert PriceRules[1].condition(laptop);
    } else {
      assert PriceRules[2].condition(laptop);
    }
  }

  /** The listed price points: 450 budget, 500 and 750 mid-range, 1000 and
      1500 high-end, so both thresholds belong to the higher tier. */
  lemma PriceTierExamples()
    ensures FindRule(PriceRules, map["Price_euros" := Num(450.0)]) == FoundAt(0)
    ensures FindRule(PriceRules, map["Price_euros" := Num(500.0)]) == FoundAt(1)
    ensures FindRule(PriceRules, map["Price_euros" := Num(750.0)]) == FoundAt(1)
    ensures FindRule(PriceRules, map["Price_euros" := Num(1000.0)]) == FoundAt(2)
    ensures FindRule(PriceRules, map["Price_euros" := Num(1500.0)]) == FoundAt(2)
    ensures PriceRules[0].result == "budget" && PriceRules[1].result == "mid-range"
    ensures PriceRules[2].result == "high-end"
  {
    PriceRuleIndex(map["Price_euros" := Num(450.0)], 450.0);
    PriceRuleIndex(map["Price_euros" := Num(500.0)], 500.0);
    PriceRuleIndex(map["Price_euros" := Num(750.0)], 750.0);
    PriceRuleIndex(map["Price_euros" := Num(1000.0)], 1000.0);
    PriceRuleIndex(map["Price_euros" := Num(1500.0)], 1500.0);
  }

  /** A missing or textual price matches no rule, so categorising such a
      laptop fails; a `null` price compares as 0 and is budget. */
  lemma PriceCoercionExamples()
    ensures FindRule(PriceRules, map[]) == NotFound
    ensures FindRule(PriceRules, map["Price_euros" := Str("n/a")]) == NotFound
    ensures FindRule(PriceRules, map["Price_euros" := Null]) == FoundAt(0)
  {
    PriceRulesGiveTier(map[]);
    PriceRulesGiveTier(map["Price_euros" := Str("n/a")]);
    PriceRuleIndex(map["Price_euros" := Null], 0.0);
  }
}
