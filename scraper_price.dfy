/**
 * Reading a shelf price out of a product card's text (`extract_price` in
 * retailer_scraper.py). A promotion price wins over a price marked with a
 * currency sign, which wins over the smallest plausible number in the text.
 */
module ScraperPrice {
  import opened Wrappers
  import opened PyText

  /** The keywords that announce a promotion price (the first promotion pattern). */
  const PromoWords: seq<string> := ["promo", "promotion", "special", "ลดเหลือ", "เหลือเพียง"]

  /** The words that follow a crossed-out "was" price (the second promotion pattern). */
  const WasWords: seq<string> := ["from", "แทน"]

  /** The currency markers of the standard price pattern. */
  const CurrencyWords: seq<string> := ["฿", "บาท", "thb"]

  /** Numbers below this are taken for quantities or counters, not prices. */
  const MinPlausiblePrice: real := 5.0

  /** The two promotion patterns, tried in this order. */
  datatype PromoPattern =
    | PromoKeyword    // (?:promo|promotion|special|ลดเหลือ|เหลือเพียง)\s*฿?\s*(\d+(?:\.\d+)?)
    | BahtBeforeWas   // ฿\s*(\d+(?:\.\d+)?)\s*(?:from|แทน)

  const PromoPatterns: seq<PromoPattern> := [PromoKeyword, BahtBeforeWas]

  /** `\s*฿?\s*(\d+(?:\.\d+)?)` from `j`: the amount after a promotion keyword. */
  function AmountAfterKeyword(t: string, j: nat): (r: Option<real>)
    ensures r.Some? ==> r.value >= 0.0
  {
    if j > |t| then None
    else
      var a := RunEnd(t, j, IsSpace);
      var b := if a < |t| && t[a] == '฿' then a + 1 else a;
      var c := RunEnd(t, b, IsSpace);
      match Decimal(t, c)
      case Some(n) => Some(n.value)
      case None => None
  }

  /** The amount captured by promotion pattern `p` when it matches at `i`. */
  function PromoAt(p: PromoPattern, t: string, i: nat): (r: Option<real>)
    ensures r.Some? ==> r.value >= 0.0
  {
    match p
    case PromoKeyword =>
      Alternatives(PromoWords, w => if AtNoCase(t, i, w) then AmountAfterKeyword(t, i + |w|) else None)
    case BahtBeforeWas =>
      if i < |t| && t[i] == '฿' then
        match Decimal(t, RunEnd(t, i + 1, IsSpace))
        case Some(n) =>
          var b := RunEnd(t, n.end, IsSpace);
          if Alternatives(WasWords, w => if AtNoCase(t, b, w) then Some(b) else None).Some?
          then Some(n.value) else None
        case None => None
      else None
  }

  /** `re.search(p, t, flags=re.I)` for a promotion pattern. */
  function PromoSearch(p: PromoPattern, t: string): (r: Option<real>)
    ensures r.Some? ==> r.value >= 0.0
  {
    Search(i => PromoAt(p, t, i), t)
  }

  /** The amount of the first pattern of `ps`, in order, that matches somewhere in `t`. */
  function FirstPromo(t: string, ps: seq<PromoPattern>): (r: Option<real>)
    ensures r.Some? ==> r.value >= 0.0
    ensures r.Some? ==> exists k :: (0 <= k < |ps| && PromoSearch(ps[k], t) == r
      && forall j :: 0 <= j < k ==> PromoSearch(ps[j], t).None?)
    ensures r.None? ==> forall k :: 0 <= k < |ps| ==> PromoSearch(ps[k], t).None?
  {
    if ps == [] then None
    else if PromoSearch(ps[0], t).Some? then PromoSearch(ps[0], t)
    else FirstPromo(t, ps[1..])
  }

  /** `(?:฿|บาท|THB)\s*(\d+(?:\.\d{1,2})?)` at `i`. */
  function MarkedAt(t: string, i: nat): (r: Option<real>)
    ensures r.Some? ==> r.value >= 0.0
  {
    Alternatives(CurrencyWords, w =>
      if AtNoCase(t, i, w) then
        match PriceDecimal(t, RunEnd(t, i + |w|, IsSpace))
        case Some(n) => Some(n.value)
        case None => None
      else None)
  }

  /** The standard, currency-marked price of `t`, if any. */
  function MarkedPrice(t: string): (r: Option<real>)
    ensures r.Some? ==> r.value >= 0.0
  {
    Search(i => MarkedAt(t, i), t)
  }

  /** `re.findall(r"\d+(?:\.\d{1,2})?", t[i..])`, read as floats. */
  function AllAmounts(t: string, i: nat): (r: seq<real>)
    ensures forall k :: 0 <= k < |r| ==> r[k] >= 0.0
    decreases |t| - i
  {
    if i >= |t| then []
    else match PriceDecimal(t, i)
      case Some(n) => [n.value] + AllAmounts(t, n.end)
      case None => AllAmounts(t, i + 1)
  }

  /** `[n for n in nums if n >= 5]`. */
  function Plausible(nums: seq<real>): (r: seq<real>)
    ensures forall x :: x in r <==> x in nums && x >= MinPlausiblePrice
  {
    if nums == [] then []
    else if nums[0] >= MinPlausiblePrice then [nums[0]] + Plausible(nums[1..])
    else Plausible(nums[1..])
  }

  /** `min(xs)`. */
  function Min(xs: seq<real>): (m: real)
    requires xs != []
    ensures m in xs
    ensures forall x :: x in xs ==> m <= x
  {
    if |xs| == 1 then xs[0]
    else
      var rest := Min(xs[1..]);
      assert xs == [xs[0]] + xs[1..];
      if xs[0] <= rest then xs[0] else rest
  }

  /** What the fallback must return: the smallest number of at least 5, or 0 when there is none. */
  ghost predicate IsFallbackPrice(price: real, nums: seq<real>) {
    || (price == 0.0 && forall k :: 0 <= k < |nums| ==> nums[k] < MinPlausiblePrice)
    || (price in nums && price >= MinPlausiblePrice
        && forall k :: 0 <= k < |nums| && nums[k] >= MinPlausiblePrice ==> price <= nums[k])
  }

  /** The fallback of `extract_price`: the smallest number that could be a price. */
  function Fallback(nums: seq<real>): (price: real)
    ensures IsFallbackPrice(price, nums)
  {
    var plausible := Plausible(nums);
    if plausible == [] then
      assert forall k :: 0 <= k < |nums| ==> nums[k] !in plausible;
      0.0
    else
      assert forall k :: 0 <= k < |nums| && nums[k] >= MinPlausiblePrice ==> nums[k] in plausible;
      Min(plausible)
  }

  /** `text.replace(",", "").strip()`. */
  function Prepared(text: string): string {
    Strip(Without(text, ','))
  }

  /**
   * `extract_price`: the promotion patterns are tried in turn, then the
   * currency-marked price, then the smallest number of at least 5.
   */
  method ExtractPrice(text: string) returns (price: real)
    ensures price >= 0.0
    ensures text == [] ==> price == 0.0
    ensures text != [] ==>
      var t := Prepared(text);
      && (FirstPromo(t, PromoPatterns).Some? ==> price == FirstPromo(t, PromoPatterns).value)
      && (FirstPromo(t, PromoPatterns).None? && MarkedPrice(t).Some? ==> price == MarkedPrice(t).value)
      && (FirstPromo(t, PromoPatterns).None? && MarkedPrice(t).None? ==> IsFallbackPrice(price, AllAmounts(t, 0)))
  {
    if text == [] {
      return 0.0;
    }
    var t := Prepared(text);
    for k := 0 to |PromoPatterns|
      invariant FirstPromo(t, PromoPatterns) == FirstPromo(t, PromoPatterns[k..])
    {
      var m := PromoSearch(PromoPatterns[k], t);
      if m.Some? {
        return m.value;
      }
      assert PromoPatterns[k..][1..] == PromoPatterns[k + 1..];
    }
    var m := MarkedPrice(t);
    if m.Some? {
      return m.value;
    }
    price := Fallback(AllAmounts(t, 0));
  }
}
