# Grocery price comparison: a verified model of its core

This project models, in Dafny, the parts of a Thai grocery price comparison
service that turn scraped product cards into comparable offers:

- **Reading product cards.** This is `retailer_scraper.py`:
  - `clean_text` collapses whitespace;
  - `clean_product_name` strips promotion and price noise from a product name;
  - `extract_price` picks a promotion price, then a currency-marked price, then the smallest plausible number;
  - `extract_egg_quantity` counts eggs;
  - `normalize_unit_data` turns a quantity text such as "3 x 100g" into an amount in kg, L, pcs or egg, plus a price per base unit.
- **Matching a query to products.** This is `ai_matcher.py`:
  - `_norm`;
  - `SmartMatcher.calculate_similarity`;
  - the `_is_trap` placeholder;
  - `SmartMatcher.find_matches`, which scores every record, keeps those at or above a threshold, and returns the best twenty, best first.
- **Choosing the best deal per retailer.** This is `best_per_retailer` in `grocery_api.py`.
  - It folds the deals into a dictionary keyed by retailer and keeps the strictly cheapest unit price.
  - It then lists one entry per retailer and sorts the list stably by unit price.

Every regular expression of the scraper is modelled character by character:

- Each pattern becomes a matcher at a position (module `PyText`, with `Search`, `Alternatives` and `Substitute`).
- Alternation order and leftmost matching are kept, so the patterns' quirks are reproduced rather than smoothed over. Examples: "eggplant" takes the egg branch, "12 12" is read as "12", and "1ก.ก." is read as grams because "ก." comes first in the unit alternation.

Where the code and its comments or documentation point different ways, the model follows the code:

- **Egg count.** The egg count is returned as found, even when it is 0. In that case the unit price is the raw price (`retailer_scraper.py:70-73`). No count of 0 is turned into 1.
- **Fresh-food correction.** It looks only at the product *name*, not at the quantity text (`retailer_scraper.py:119-125`).
- **Missing unit price.** When choosing, a missing unit price compares as 999999 (`grocery_api.py:57-60`). The listing, however, reads a missing unit price as 0.0 (`grocery_api.py:70-71`), so such an entry sorts *first*.
- **Unreadable stored unit price.** `float()` on an unreadable unit price of a deal already kept raises (`grocery_api.py:61`, `:69-71`). The model returns this as an `Err` naming the field.

Modules:

| file | module | models |
|---|---|---|
| `wrappers.dfy` | `Wrappers` | `Option`, `Result` |
| `py_text.dfy` | `PyText` | Python string operations and regular-expression building blocks (`\s`, `\d`, `lower()`, `strip()`, `in`, `re.search`, `re.sub`) |
| `scraper_text.dfy` | `ScraperText` | `clean_text`, `clean_product_name` |
| `scraper_price.dfy` | `ScraperPrice` | `extract_price` |
| `scraper_units.dfy` | `ScraperUnits` | `round(x, 2)`, `extract_egg_quantity`, `normalize_unit_data` |
| `scraper_examples.dfy` | `ScraperExamples` | worked inputs of `normalize_unit_data` |
| `matcher.dfy` | `AiMatcher` | `_norm`, `SmartMatcher` |
| `best_deals.dfy` | `GroceryApi` | `best_per_retailer` |

## Model

| member | source | states |
|---|---|---|
| ScraperText.CleanText | retailer_scraper.py:25-26 | Empty text gives "". The result is the text's whitespace-separated words, in order, joined by single blanks. So it has no leading, trailing or repeated whitespace and keeps every non-whitespace character of the input. |
| ScraperText.CleanTextIdempotent | retailer_scraper.py:25-26 | Cleaning a cleaned text changes nothing. |
| ScraperText.RemoveCurrency | retailer_scraper.py:142 | After the currency substitution no ฿ sign is left. |
| PyText.SubstituteWithoutMatch | retailer_scraper.py:136-143 | A substitution whose pattern matches nowhere leaves the text unchanged. |
| ScraperText.DropLeadingPunctuation | retailer_scraper.py:144 | The result is the input with its longest prefix of disallowed characters removed. It is a suffix of the input, and every dropped character is disallowed. It is empty or starts with an allowed character: an ASCII letter or digit, a Thai character, a quote or "(". |
| ScraperText.CleanProductName | retailer_scraper.py:133-145 | An empty name gives "". The result has at most 120 characters and no leading or trailing whitespace. It starts with an allowed first character and contains no ฿. |
| ScraperPrice.FirstPromo | retailer_scraper.py:33-39 | A returned amount is what some pattern's search finds, and every pattern listed before that one finds nothing. When none is returned, no pattern matches. |
| ScraperPrice.Plausible | retailer_scraper.py:47 | Keeps exactly the numbers of at least 5. |
| ScraperPrice.Min | retailer_scraper.py:48 | The minimum of a non-empty list is one of its elements and no larger than any of them. |
| ScraperPrice.Fallback | retailer_scraper.py:45-48 | The smallest number of at least 5. It is 0 when every number is below 5. |
| ScraperPrice.ExtractPrice | retailer_scraper.py:28-48 | Empty text gives 0. Otherwise, in the text without commas and stripped, the first matching promotion pattern wins, then the currency-marked price, then the fallback. The price is never negative. |
| ScraperUnits.Round2 | retailer_scraper.py:72 | Rounding to cents moves a value by at most half a cent and keeps non-negative values non-negative. |
| ScraperUnits.Round2OfCents | retailer_scraper.py:130 | A whole number of cents is left unchanged. |
| ScraperUnits.Round2Idempotent | retailer_scraper.py:130 | Rounding a rounded value changes nothing. |
| ScraperUnits.EggQuantity | retailer_scraper.py:51-57 | The egg count is a whole, non-negative number. Which count is chosen is stated by the three lemmas below. |
| ScraperUnits.EggWordCountWins | retailer_scraper.py:52-54 | In the lower-cased text without blanks, the leftmost number followed by an egg word is the count. It wins even over a pack count written before it. |
| ScraperUnits.PackCountWithoutEggWord | retailer_scraper.py:52-56 | When no number is followed by an egg word, the leftmost number right after a pack word is the count. |
| ScraperUnits.PackCountIs | retailer_scraper.py:55 | A pack word followed by a number gives that number at that position. |
| ScraperUnits.EggQuantityDefault | retailer_scraper.py:51-57 | When neither kind of count is written, the count is 1. |
| ScraperUnits.EggQuantityWithoutDigits | retailer_scraper.py:51-57 | A text without digits counts as 1 egg. |
| ScraperUnits.DedupNumbers | retailer_scraper.py:63 | Collapsing repeated numbers never lengthens the text or adds a character. |
| ScraperUnits.RepeatedNumberWrittenOnce | retailer_scraper.py:63 | A number, whitespace and the same number again, as in "12 12", collapse to the number written once. |
| ScraperUnits.DedupWithoutRepeats | retailer_scraper.py:63 | A text in which no number is followed by whitespace and itself is left unchanged. |
| ScraperUnits.DedupWithoutDigits | retailer_scraper.py:63 | A text without digits is left unchanged. |
| ScraperUnits.QuantityText | retailer_scraper.py:62-64 | The prepared quantity text is lower-case, has no blanks, and is no longer than the raw text. QuantityTextWithoutRepeats and RepeatedQuantityReadOnce fix its content. |
| ScraperUnits.QuantityTextWithoutRepeats | retailer_scraper.py:62-64 | With no repeated number, the prepared text is the raw text lower-cased with every blank removed. |
| ScraperUnits.RepeatedQuantityReadOnce | retailer_scraper.py:62-64 | A quantity written as a number, whitespace and the same number again is prepared as the number alone. |
| ScraperUnits.QuantityTextDigits | retailer_scraper.py:62-64 | Preparing a text without digits introduces none. |
| ScraperUnits.UnitAt | retailer_scraper.py:77 | Gives the first unit word, in alternation order, that occurs at the position. None is returned only when no unit word occurs there. |
| ScraperUnits.ReadQuantity | retailer_scraper.py:79-97 | The reading is either the default (1, "pcs") or a captured non-negative quantity with a listed unit. Which shape decides is stated by the four lemmas below. |
| ScraperUnits.FirstShapeWins | retailer_scraper.py:83-91 | The leftmost `N[x*]M unit` gives N × M of its unit, whatever the other shapes find, even further left. |
| ScraperUnits.LastShapeWithoutFirst | retailer_scraper.py:85-94 | With no `N[x*]M unit` anywhere, the leftmost `N unit[x*]M` gives N × M of the first unit alternative after which a times sign and a number follow. |
| ScraperUnits.LastShapeAt | retailer_scraper.py:85 | At one position, the `N unit[x*]M` shape takes the first unit alternative that a times sign and a number follow. |
| ScraperUnits.SingleShapeOnly | retailer_scraper.py:87-97 | With neither multipack shape anywhere, the leftmost `N unit` gives N of its unit. |
| ScraperUnits.NoShapeReadsDefault | retailer_scraper.py:79-97 | With no shape anywhere, the reading is the default (1, "pcs"). |
| ScraperUnits.ReadQuantityWithoutTimes | retailer_scraper.py:89-97 | Without x or *, neither multipack shape matches, so the single "N unit" search decides. |
| ScraperUnits.ReadQuantityWithoutDigits | retailer_scraper.py:79-97 | A text without digits reads as (1, "pcs"). |
| ScraperUnits.ToBase | retailer_scraper.py:99-115 | Gram units become kg ÷ 1000 and millilitre units become L ÷ 1000. Any other unit keeps its number, and becomes pcs exactly when it contains no kilo or litre marker. It never gives egg. |
| ScraperUnits.ToBaseVolumeOrMass | retailer_scraper.py:109-115 | A unit with a litre marker becomes L. One with a kilo marker and no litre marker becomes kg. |
| ScraperUnits.DefaultIsOnePiece | retailer_scraper.py:79-80 | The default reading converts to 1 pcs. |
| ScraperUnits.KiloIsLitres | retailer_scraper.py:109-113 | "kilo" contains "l", so it converts to litres. |
| ScraperUnits.ThaiLitreWithoutPointIsPieces | retailer_scraper.py:103-115 | "ล" without its point matches no marker, so it converts to pieces. |
| ScraperUnits.FreshFoodCorrection | retailer_scraper.py:119-125 | Non-piece amounts are unchanged. A piece amount becomes exactly 1 kg when the name has both a fresh-food word and a kilo word, and is unchanged otherwise. |
| ScraperUnits.StandardAmount | retailer_scraper.py:79-128 | Outside the egg branch the quantity is positive and the unit is never egg. NormalizeKeepsReading states which amount it is. |
| ScraperUnits.NormalizeKeepsReading | retailer_scraper.py:79-131 | Outside the egg branch and the fresh-food correction, a positive amount read from the text is kept and priced per unit, and a quantity of zero or less becomes one of the same unit at the rounded whole price. |
| ScraperUnits.Normalize | retailer_scraper.py:60-131 | The unit is egg exactly when the lower-cased name contains "egg" or "ไข่". Egg quantities come from the egg counter, and their price is rounded only when the count is positive. Otherwise the quantity is positive and the unit price is the rounded price per unit. The quantity is never negative. |
| ScraperUnits.NormalizeKeepsWeightOrVolume | retailer_scraper.py:99-130 | A positive weight or volume read from the quantity text is returned as read. |
| ScraperUnits.FreshFoodPricedPerKg | retailer_scraper.py:119-130 | A fresh-food name with a kilo word and no unit in the quantity text is priced per 1 kg. |
| ScraperUnits.NormalizeWithoutDigits | retailer_scraper.py:79-130 | A quantity text without digits gives 1 pcs at the rounded price, unless the egg branch or the fresh-food correction applies. |
| ScraperUnits.ReadShapes | retailer_scraper.py:79-97 | The three searches in priority order give exactly `ReadQuantity`. So the first shape found decides, in the priority order that FirstShapeWins, LastShapeWithoutFirst, SingleShapeOnly and NoShapeReadsDefault state. |
| ScraperUnits.ConvertToBase | retailer_scraper.py:99-115 | The conversion step gives exactly the base amount `ToBase` specifies. |
| ScraperUnits.CorrectFreshFood | retailer_scraper.py:117-125 | Using only the lower-cased name, the step gives exactly the corrected amount `FreshFoodCorrection` specifies. |
| ScraperUnits.NormalizeUnitData | retailer_scraper.py:60-131 | The stage-by-stage method returns exactly what `Normalize` specifies. |
| ScraperExamples.Milk | retailer_scraper.py:60-131 | "Milk 1L" with "1L" at 55 gives 1 L at 55. |
| ScraperExamples.SpacedLitreText | retailer_scraper.py:62-64 | The quantity text "1 L" is prepared as "1l". |
| ScraperExamples.Pork | retailer_scraper.py:117-130 | "Fresh Pork Belly /kg" with no quantity at 120 gives 1 kg at 120. |
| ScraperExamples.Eggs | retailer_scraper.py:68-73 | "Eggs 10 pcs" with "10 eggs" at 45 gives 10 eggs at 4.50 each. |
| ScraperExamples.EggplantIsCountedInEggs | retailer_scraper.py:69 | "eggplant" takes the egg branch. |
| ScraperExamples.RepeatedNumberReadOnce | retailer_scraper.py:62-64 | "12 12" is prepared as "12". |
| ScraperExamples.ThreePacksOfHundredGrams | retailer_scraper.py:83-104 | "3x100g" reads as 300 g, that is 0.3 kg. |
| ScraperExamples.FirstShapeBeatsEarlierLastShape | retailer_scraper.py:83-94 | In "1gx2/3x4g" the shape `N unit[x*]M` matches at the start, yet the reading is 12 g from the later `N[x*]M unit`. |
| ScraperExamples.EggWordCountBeatsEarlierPack | retailer_scraper.py:52-54 | "pack6/10eggs" counts 10 eggs, not the pack count 6. |
| ScraperExamples.BlankRemovalJoinsCounts | retailer_scraper.py:52-54 | "pack6 10eggs" counts 610 eggs: blanks are removed before counting, so the two numbers run together. |
| ScraperExamples.ThaiKilogramSingle | retailer_scraper.py:77 | In "1ก.ก." the unit alternation picks "ก.", which is listed before "ก.ก.". |
| ScraperExamples.ThaiKilogramWithPointsReadAsGrams | retailer_scraper.py:77-104 | "1ก.ก." is therefore read as 1 gram, that is 0.001 kg. |
| AiMatcher.Norm | ai_matcher.py:13-14 | None and "" give "". The result is the input's whitespace-separated words, lower-cased and joined by single blanks. So it is clean and lower-case, and keeps the lower-cased non-whitespace characters in order. |
| AiMatcher.NormIdempotent | ai_matcher.py:13-14 | Normalising a normalised string changes nothing. |
| AiMatcher.CalculateSimilarity | ai_matcher.py:37-40 | The similarity lies in [0, 1]. |
| AiMatcher.SimilarityIgnoresCase | ai_matcher.py:37-40 | Lower-casing either argument first does not change the similarity. |
| AiMatcher.IsTrap | ai_matcher.py:30-32 | No record is ever a trap. |
| AiMatcher.UntrappedKeepsAll | ai_matcher.py:30-32 | Filtering by the trap rules keeps every record, so the commented-out call at line 52 would change nothing. |
| AiMatcher.Score | ai_matcher.py:55-59 | The score lies in [0, 1.4]. It is at least 0.4 when the query occurs in the name, and exceeds 1 only then. |
| AiMatcher.BlankQueryBonus | ai_matcher.py:45-59 | A query that strips to "" gives every name the 0.4 bonus. |
| AiMatcher.BlankQueryKeepsEveryRow | ai_matcher.py:45-63 | With such a query and a threshold of at most 0.4, every record passes. |
| AiMatcher.ContainedNamePassesDefault | ai_matcher.py:42-63 | Under the default threshold 0.25, every record whose name contains the query passes, since the 0.4 bonus alone reaches it. |
| AiMatcher.Passing | ai_matcher.py:46-63 | The loop keeps no more entries than there are records. |
| AiMatcher.PassingSound | ai_matcher.py:46-63 | Each passing entry is an input record with its own score, at or above the threshold. |
| AiMatcher.PassingComplete | ai_matcher.py:46-63 | Every record scoring at or above the threshold is among the passing entries, with its score. |
| AiMatcher.SortByScore | ai_matcher.py:69 | The ranking is by score, non-increasing, and is a permutation of its input. |
| AiMatcher.TopIsBest | ai_matcher.py:68-69 | The first twenty of the ranking are sorted and drawn from the input, and there are min(20, n) of them. |
| AiMatcher.TopBeatsRest | ai_matcher.py:68-69 | No entry left out of the first twenty scores higher than one kept. |
| AiMatcher.TopOfPassing | ai_matcher.py:48-69 | The first twenty of the passing records are min(20, number passing) of them, best first. Each is an input record with its own score, at or above the threshold. |
| AiMatcher.SmartMatcher.constructor | ai_matcher.py:20-21 | The matcher holds the scraped records. |
| AiMatcher.SmartMatcher.FindMatches | ai_matcher.py:42-71 | No records give []. There are at most 20 results, and min(20, number passing) of them. Each is an input record with its score for the stripped query, at or above the threshold. Results run best first. No passing record left out scores higher than a result. |
| GroceryApi.IncomingPrice | grocery_api.py:57-60 | An incoming deal's unit price is its number, or 999999 when missing or unreadable. |
| GroceryApi.Step | grocery_api.py:56-62 | One turn fails exactly when the retailer is already kept with an unreadable unit price. Otherwise the retailer's key is added and other entries are unchanged. A new retailer is appended to the key order with its deal. A known one keeps its place, and its deal is replaced only by a strictly cheaper one. |
| GroceryApi.Fold | grocery_api.py:54-62 | The dictionary's insertion order lists exactly its keys. |
| GroceryApi.FoldErrorPersists | grocery_api.py:61 | Once the loop has raised, later deals do not matter. |
| GroceryApi.FoldValid | grocery_api.py:54-62 | Each retailer maps to one of its own deals, and every deal's retailer is present. The kept deal has the lowest unit price of its retailer. Keys are in order of first appearance. |
| GroceryApi.KeptIsFirstCheapest | grocery_api.py:61-62 | The kept deal is its retailer's first cheapest: earlier deals cost strictly more, later ones no less. |
| GroceryApi.MakeOffer | grocery_api.py:66-73 | An entry carries the retailer, the product name, the query item, and the price, unit price and base unit (default "unit"). A missing price reads as 0. It fails exactly when a price cannot be read. |
| GroceryApi.Offers | grocery_api.py:64-73 | One entry per key, in insertion order, each built from that key's kept deal. |
| GroceryApi.SortByUnitPrice | grocery_api.py:74 | The entries are sorted by unit price, ascending, as a permutation of the list. |
| GroceryApi.SortKeepsTieOrder | grocery_api.py:74 | The sort is stable: entries of equal unit price stay in first-appearance order. |
| GroceryApi.BestPerRetailer | grocery_api.py:53-75 | The loop-and-sort method returns exactly `BestDeals`. An empty deals list gives an empty listing. |
| GroceryApi.BestDealsListing | grocery_api.py:61-74 | The listing is sorted by unit price and names no retailer twice. Ties are listed in the retailers' first-appearance order. |
| GroceryApi.BestDealsDrawn | grocery_api.py:55-73 | Every entry is for the retailer (or "Unknown") of some deal, and carries the query item. |
| GroceryApi.BestDealsCoverage | grocery_api.py:55-73 | Every deal's retailer (or "Unknown") has an entry. |
| GroceryApi.OfferFromFirstCheapest | grocery_api.py:61-73 | Each entry is built from its retailer's first cheapest deal. |
| GroceryApi.NoJunkNoError | grocery_api.py:57-71 | Without unreadable prices the listing never fails. |
| GroceryApi.JunkKeptPriceFailsOnRepeat | grocery_api.py:53-61 | After any prefix of deals that keeps a deal with an unreadable unit price, the next deal of that retailer raises, and the listing fails whatever deals follow. |
| GroceryApi.JunkFirstFailsSecond | grocery_api.py:53-61 | Two deals of one retailer, the first with an unreadable unit price, make the listing fail. |

## Left out

- Browser automation is not modelled: `scrape_search`, `heuristic_scrape`, `scrape_all_retailers` and the user agents. They involve the network, asynchronous code and the HTML DOM.
- The API wiring is not modelled: `compare_prices`, `startup`, `home`, the FastAPI and uvicorn setup, and the database cache. These are I/O and orchestration.
- `find_best_deals` is not modelled. It returns its argument.
- `SequenceMatcher.ratio` is any function into [0, 1] (the type `AiMatcher.Ratio`). Its matching-blocks algorithm is a library internal.
- pandas mechanics are not modelled: building frames, `iterrows` copies and `to_dict`. A record is its "Product Name" (as `str()` gives it) plus its other columns.
- A missing "Product Name" column (a `KeyError`) and NaN values are not modelled.
- AiMatcher.SmartMatcher.FindMatches: does not say how records of equal score are ordered. pandas' default sort is not stable, so the source fixes no such order; the model's insertion sort is one admissible order.
- Prices are exact rationals. `round(x, 2)` is round-half-even on the exact value, so binary floating-point representation effects are not modelled.
- Formatting is not modelled. The "฿%.2f" strings are kept as the numbers they format, and an entry's "Unit Price" string is `rawUnitPrice` and `baseUnit` together.
- `str.lower()` is modelled for ASCII letters only.
- The regex classes are modelled as follows: `\s` is the full set of characters Python treats as whitespace; `\d` covers ASCII and Thai digits; `\w` covers ASCII letters, digits and "_" plus Thai letters and digits. Other scripts' letters and digits are not modelled.
- A "WINNER" value that is present but not a string is not modelled. Neither are `float()` on booleans, infinities or NaN. A cell is missing, a number, or something `float()` rejects.
- The matchers for single patterns are not listed in the table. Their contracts only place a match inside the text, and their definitions fix what they match. These are the `…At` functions of `ScraperText`, `ScraperPrice` and `ScraperUnits`, `AllAmounts` and `DedupNumbers`' helper `RepeatAt`. The functions and lemmas above state what the patterns decide together.
- The substitutions of `clean_product_name` other than the currency one have no contract of their own: `ScraperText.RemoveBuyOffers`, `RemovePointsOffers`, `RemoveTodayTags`, `RemoveBulkDiscounts`, `RemoveLeadingPrice` and `RemoveTrailingNumber` (`retailer_scraper.py:136-141`). Each is a single `re.sub` over its pattern's matcher. `PyText.Substitute` and `SubstituteWithoutMatch` state what such a substitution does.
- GroceryApi.BestDeals has no contract of its own. It is the fold, the entries and the sort composed, and BestDealsListing, BestDealsDrawn, BestDealsCoverage, OfferFromFirstCheapest, NoJunkNoError and JunkKeptPriceFailsOnRepeat state what it gives.
- AiMatcher.Top (`.head(20)`) has no contract of its own. TopIsBest and TopBeatsRest state what it keeps.
- ScraperText.CleanProductName: states the shape of the cleaned name (length, trimming, first character, no ฿). It does not state which text each substitution removes; the substitution functions model those exactly.
- The `price` argument of `clean_product_name` is unused by the source and likewise unused by the model.
- The trap rules, meat-cut rules, name-start boosts and semantic matching named in comments are not modelled, because the code contains none of them.
