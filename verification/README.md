# Laptop catalogue queries in Dafny

This project models the query logic of a small client-side laptop catalogue. The page
loads a CSV of laptop specifications and drops incomplete rows. It counts the distinct
manufacturers and filters the list by manufacturer and price range. A rule list also
sorts laptops into price tiers. All of this lives in `script.js`.

Modules:

- `Laptops` (laptops.dfy): a record is a `map<string, Value>`. A value is `undefined`,
  `null`, text, a number (`real`) or a boolean. Reading an absent key gives `undefined`.
  `Number` (NaN or a real) is a JavaScript number as comparisons see it.
- `Seqs` (seqs.dfy): order-preserving `Filter`, the shape of `Array.prototype.filter`.
  It comes with its facts: membership, multiplicity, subsequence, concatenation and
  idempotence.
- `Validation` (validation.dfy): `validateData`.
- `Query` (query.dfy): `filterLaptops` and `getTotalBrands`.
- `Categorization` (categorize.dfy): the `rules` list and `categorizeLaptops`.
- `Controller` (controller.dfy): the start-up branch of `initializeWebsite` and the
  criteria that `applyFilters` builds. It also holds the corrected filter described
  under Findings.

The price-range criterion built at script.js:89-92 is a predicate meant to be called on
the laptop. But script.js:42 compares every criterion with `===`, so that criterion never
matches. `Query.FilterLaptops` and `Controller.ApplyFilters` follow the code as written.
The version that calls the predicate is `Controller.FilterIntended`.

## Model

| member | source | states |
|---|---|---|
| Validation.Validate | script.js:23-27 | The output is no longer than the input and every kept row comes from the input. No kept row has a `null` or `""` field. Every complete input row is kept. |
| Validation.ValidateMembership | script.js:25 | A row is kept if and only if it is in the input and no field it has is `null` or `""`. One bad field is enough to drop it. `undefined` and `0` pass. |
| Validation.ValidateSubsequence | script.js:25 | The output is a subsequence of the input. Each complete row keeps its number of occurrences; every other row occurs zero times. |
| Validation.ValidateIdempotent | script.js:25 | Validating validated data returns it unchanged. |
| Validation.ValidateByRow | script.js:25 | Validation distributes over concatenation. A single row is kept exactly when it is complete. |
| Validation.TrailingBlankRowDropped | script.js:23-25 | Two full rows followed by a blank row validate to the two full rows. |
| Query.FilterLaptops | script.js:40-44 | Every returned laptop comes from the input and strictly equals each criterion on its key. Every input laptop that passes all criteria is returned. |
| Query.FilterLaptopsMembership | script.js:41-42 | A laptop is returned if and only if it is in the input and every criterion is a plain value equal to its field. |
| Query.FilterLaptopsSubsequence | script.js:41-42 | The result is a subsequence of the input. A matching laptop keeps its number of occurrences and a non-matching one occurs zero times. |
| Query.FilterLaptopsNoCriteria | script.js:42 | With an empty criteria map the input comes back unchanged. |
| Query.FilterLaptopsFunctionCriterion | script.js:42 | Any function-valued criterion makes the result empty. |
| Query.FilterByManufacturerExample | script.js:40-44 | Of Dell, Dell, HP, Asus, HP, the criterion `Company = "HP"` returns the two HP laptops in input order. |
| Query.Brands | script.js:48-49 | The manufacturer set holds every laptop's `Company` and nothing else. It has at most as many elements as there are laptops. |
| Query.BrandsSnoc | script.js:48-49 | Appending a laptop adds exactly its manufacturer to the set. |
| Query.TotalBrands | script.js:47-50 | The brand count is at most the list length. It is 0 exactly for the empty list, so it is at least 1 for any other list. |
| Query.CountBrands | script.js:47-50 | One pass that collects manufacturers into a set gives the distinct-manufacturer count. |
| Query.TotalBrandsExample | script.js:47-50 | Dell, HP, Dell, Lenovo count as 3 brands. |
| Query.TotalBrandsCaseSensitive | script.js:47-50 | "Dell" and "dell" count as 2 brands. |
| Categorization.FindRule | script.js:108 | The result is the first rule whose condition holds: it holds, and no earlier one does. No rule is found exactly when no condition holds. |
| Categorization.WithCategory | script.js:109 | The copy has the laptop's keys plus `category`, which holds the label. Every other field is unchanged. |
| Categorization.CategorizeLaptops | script.js:106-111 | Categorising succeeds if and only if every laptop matches some rule. On success the output has the same length and entry i is laptop i labelled by its first matching rule. On failure the index is the first laptop with no matching rule, where the source throws. |
| Categorization.CategorizedFields | script.js:107-109 | Output entry i has all the fields of input laptop i, plus `category` set to the label of laptop i's first matching rule. |
| Categorization.PriceRulesGiveTier | script.js:100-104 | A numeric price gets budget below 500, mid-range from 500 to below 1000, and high-end from 1000. A NaN price matches no rule, and only a NaN price matches none. |
| Categorization.PriceRuleIndex | script.js:100-104 | Price p matches rule 0 below 500, rule 1 below 1000, and rule 2 otherwise. |
| Categorization.PriceRulesExclusive | script.js:101-103 | No two price rules hold for the same laptop. |
| Categorization.CategorizeByPriceSucceeds | script.js:100-111 | Price categorisation succeeds if and only if every price converts to a number. |
| Categorization.CategorizeByPriceTier | script.js:100-111 | After a successful price categorisation, output i's `category` is the price tier of laptop i. |
| Categorization.PriceTierExamples | script.js:101-103 | 450 is budget. 500 and 750 are mid-range. 1000 and 1500 are high-end. |
| Categorization.PriceCoercionExamples | script.js:101-103 | A missing or textual price matches no rule. A `null` price counts as budget. |
| Controller.Startup | script.js:29-37 | The page shows data if and only if some row is complete. The shown data is the validated rows, all complete. The brand count is the number of distinct manufacturers among them, so it lies between 1 and their number. |
| Controller.StartupExample | script.js:29-33 | Two full rows and a trailing blank row show two rows and two brands. |
| Controller.BuildCriteria | script.js:81-93 | `Company` is a key exactly when a manufacturer was entered, and it holds that exact text. `Price_euros` is a key exactly when a range was entered, and it holds a function that tests whether the parsed price lies between the bounds. There are no other keys. |
| Controller.ApplyFilters | script.js:78-97 | Any price range gives an empty result. With no inputs the full data set comes back. Otherwise exactly the laptops of the entered manufacturer are returned. |
| Controller.FilterIntended | script.js:39-44 | The corrected filter returns a subsequence of the input: the laptops that pass every criterion, with function criteria applied to the laptop. |
| Controller.FilterIntendedAgreesOnValues | script.js:42 | With no function criteria, the corrected filter and the filter as written give the same result. |
| Controller.ApplyFiltersIntended | script.js:87-95 | The corrected form submission returns a subsequence of the data set. |
| Controller.ApplyFiltersIntendedMembership | script.js:83-95 | With the corrected filter, a laptop is shown if and only if it matches any entered manufacturer and its price lies within any entered range, bounds included. |
| Controller.MalformedRangeShowsNothing | script.js:88-91 | A range whose bounds are NaN shows nothing, even with the corrected filter. |
| Controller.PriceRangeFinding | script.js:89-95 | For a 750-euro laptop and the range 500-1000, the page as written shows nothing. The corrected filter shows the laptop. |

## Left out

- Fetching and parsing the CSV (script.js:2-14) is I/O and a foreign library. The model starts from parsed rows.
- DOM wiring is left out: `DOMContentLoaded`, the form's `submit` handler, `alert` and `textContent` (script.js:1, 16-20, 29-37). Only the start-up branch is kept, as `Controller.Startup`.
- `displayLaptops` (script.js:53-75) only writes HTML, so it is left out.
- Reading the form inputs and converting the range text with `split` and `Number` (script.js:79-80, 88) is left out. The model takes the input text and the two converted bounds as parameters.
- The example call at script.js:115-116 uses an undeclared global and logs to the console, so it is left out.
- Laptops.ToNumber: text is treated as NaN. JavaScript would convert numeric text such as "750" or "+750" to a number and blank text to 0, so for such text the price rules here match nothing where the page would assign a tier. Ordinary numeric cells arrive as numbers.
- Laptops.ParseFloat: text is treated as NaN. `parseFloat` would read a leading numeric prefix of text.
- Numbers are reals: there is no rounding and no Infinity, and NaN exists only as `Number.NaN`, never as a stored field value.
- Controller.ApplyFilters: the `dataset` parameter stands for the global `window.laptops` read at script.js:95, as set by a successful start-up (script.js:31, `Controller.Startup` returning `Showing`). Submitting the form in any other state (after `NoValidData`, or before loading finishes) reads an unset global and throws at `.filter`; that error path is not modelled.
- Laptops.Field: properties inherited from `Object.prototype` (such as `constructor`) read as absent.
- Categorization.CategorizeLaptops: the `TypeError` thrown when no rule matches becomes the `NoMatchingRule` outcome with that laptop's position. No partial result is returned, which matches the throw.

## Findings

| source | as written | input that shows it | evidently intended | confidence | as-written member | corrected member |
|---|---|---|---|---|---|---|
| script.js:42 | Every criterion is compared with `===` to the laptop's field. The price-range function built at script.js:89-92 is never called, so any price range returns no laptops. | One laptop priced 750 and the range "500-1000": the result is empty. | Function criteria are called on the laptop, as the comment at script.js:39 and the predicate built at script.js:89-92 show. The laptop priced 750 is then shown. | high; not executed | Controller.PriceRangeFinding | Controller.ApplyFiltersIntended |
