/**
 * Tidying scraped text (`clean_text` and `clean_product_name` in
 * retailer_scraper.py): whitespace normalisation, and the removal of promotion
 * banners, loyalty-point offers, price prefixes, trailing counters and currency
 * markers from a product name.
 */
module ScraperText {
  import opened Wrappers
  import opened PyText

  /**
   * `clean_text`: runs of whitespace become one blank and the ends are trimmed,
   * which writes the words of the text separated by single blanks.
   */
  function CleanText(text: string): (r: string)
    ensures text == [] ==> r == []
    ensures r == Join(Words(text))
    ensures IsClean(r)
    ensures NonSpace(r) == NonSpace(text)
  {
    CollapseAndStripIsJoinedWords(text);
    CollapseAndStripIsClean(text);
    if text == [] then []
    else CollapseAndStrip(text)
  }

  /** Cleaning twice is cleaning once. */
  lemma CleanTextIdempotent(text: string)
    ensures CleanText(CleanText(text)) == CleanText(text)
  {
    var once := CleanText(text);
    if once != [] {
      CollapseAndStripOfClean(once);
    }
  }

  // ---------------------------------------------------------------------
  // The patterns that clean_product_name removes, each as a matcher giving
  // the end of a match that starts at a given position
  // ---------------------------------------------------------------------

  /** `[\d,.]`: the characters of a written amount. */
  predicate IsAmountChar(c: char) {
    IsDigit(c) || c == ',' || c == '.'
  }

  /** The first alternative of `ws` found at `i`, ignoring case, and the index after it. */
  function WordAt(x: string, i: nat, ws: seq<string>): (r: Option<nat>)
    ensures r.Some? ==> i < r.value <= |x|
  {
    Alternatives(ws, w => if w != [] && AtNoCase(x, i, w) then Some(i + |w|) else None)
  }

  /** `\s*[\d,.]+\s*` from `j`: the index after the blanks that follow the amount. */
  function AmountFrom(x: string, j: nat): (r: Option<nat>)
    ensures r.Some? ==> j < r.value <= |x|
  {
    if j > |x| then None
    else
      var a := RunEnd(x, j, IsSpace);
      var b := RunEnd(x, a, IsAmountChar);
      if b == a then None else Some(RunEnd(x, b, IsSpace))
  }

  /** `\s*[\d,.]+\s*(?:B|฿|บาท)\s*(?:\+\d+)?` from `j`. */
  function BuyOfferRest(x: string, j: nat): (r: Option<nat>)
    ensures r.Some? ==> j < r.value <= |x|
  {
    match AmountFrom(x, j)
    case None => None
    case Some(c) =>
      match WordAt(x, c, ["b", "฿", "บาท"])
      case None => None
      case Some(d) =>
        var e := RunEnd(x, d, IsSpace);
        if e + 1 < |x| && x[e] == '+' && IsDigit(x[e + 1]) then Some(RunEnd(x, e + 1, IsDigit))
        else Some(e)
  }

  /**
   * `(?:buy|ซื้อ)\s*[\d,.]+\s*(?:B|฿|บาท)\s*(?:\+\d+)?`, as in "Buy 2 ฿99 +1".
   * Each greedy part is followed by something that cannot begin with what it
   * consumes, so taking the longest run is what the regex engine settles on.
   */
  function BuyOfferAt(x: string, i: nat): (r: Option<nat>)
    ensures r.Some? ==> i < r.value <= |x|
  {
    Alternatives(["buy", "ซื้อ"], w => if AtNoCase(x, i, w) then BuyOfferRest(x, i + |w|) else None)
  }

  /** `\s*[\d,.]+\s*(?:points|pts|คะแนน)` from `j`. */
  function PointsOfferRest(x: string, j: nat): (r: Option<nat>)
    ensures r.Some? ==> j < r.value <= |x|
  {
    match AmountFrom(x, j)
    case None => None
    case Some(c) => WordAt(x, c, ["points", "pts", "คะแนน"])
  }

  /** `(?:get|รับ|earn|ฟรี)\s*[\d,.]+\s*(?:points|pts|คะแนน)`, as in "Earn 20 points". */
  function PointsOfferAt(x: string, i: nat): (r: Option<nat>)
    ensures r.Some? ==> i < r.value <= |x|
  {
    Alternatives(["get", "รับ", "earn", "ฟรี"], w => if AtNoCase(x, i, w) then PointsOfferRest(x, i + |w|) else None)
  }

  /** `\bToday\s*[\d,.]*`: the word "today" (at a word start) and the amount after it. */
  function TodayTagAt(x: string, i: nat): (r: Option<nat>)
    ensures r.Some? ==> i < r.value <= |x|
  {
    if (i == 0 || (i <= |x| && !IsWordChar(x[i - 1]))) && AtNoCase(x, i, "today") then
      Some(RunEnd(x, RunEnd(x, i + 5, IsSpace), IsAmountChar))
    else None
  }

  /** `\d+\+\s*units\s*-\d+%`, as in "3+ units -10%". */
  function BulkDiscountAt(x: string, i: nat): (r: Option<nat>)
    ensures r.Some? ==> i < r.value <= |x|
  {
    if i < |x| && IsDigit(x[i]) then
      var a := RunEnd(x, i, IsDigit);
      if a < |x| && x[a] == '+' then
        var b := RunEnd(x, a + 1, IsSpace);
        if AtNoCase(x, b, "units") then
          var c := RunEnd(x, b + 5, IsSpace);
          if c + 1 < |x| && x[c] == '-' && IsDigit(x[c + 1]) then
            var d := RunEnd(x, c + 1, IsDigit);
            if d < |x| && x[d] == '%' then Some(d + 1) else None
          else None
        else None
      else None
    else None
  }

  /**
   * `^[\d,.]+\s*(?:/|-|บาท|THB|B)\s*(?:pack|pcs|ชิ้น|แพ็ค|kg|g|ขวด|กระป๋อง)?\s*`:
   * a price written at the very start of the name, as in "35.00 / pack".
   */
  function LeadingPriceAt(x: string, i: nat): (r: Option<nat>)
    ensures r.Some? ==> i < r.value <= |x|
  {
    if i != 0 then None
    else
      var a := RunEnd(x, 0, IsAmountChar);
      if a == 0 then None
      else match WordAt(x, RunEnd(x, a, IsSpace), ["/", "-", "บาท", "thb", "b"])
        case None => None
        case Some(c) =>
          var d := RunEnd(x, c, IsSpace);
          var e := WordAt(x, d, ["pack", "pcs", "ชิ้น", "แพ็ค", "kg", "g", "ขวด", "กระป๋อง"]).GetOr(d);
          Some(RunEnd(x, e, IsSpace))
  }

  /**
   * `\s+\d{2,}\s*\d*\s*$`: a trailing counter such as " 12 34". The pattern is
   * anchored at the end, so it matches at `i` exactly when the rest of the
   * string has this shape, which the longest runs decide.
   */
  function TrailingNumberAt(x: string, i: nat): (r: Option<nat>)
    ensures r.Some? ==> i < r.value <= |x|
  {
    if i < |x| && IsSpace(x[i]) then
      var a := RunEnd(x, i, IsSpace);
      var b := RunEnd(x, a, IsDigit);
      var e := RunEnd(x, RunEnd(x, RunEnd(x, b, IsSpace), IsDigit), IsSpace);
      if b - a >= 2 && e == |x| then Some(|x|) else None
    else None
  }

  /** `(฿|THB|บาท)`. */
  function CurrencyAt(x: string, i: nat): (r: Option<nat>)
    ensures r.Some? ==> i < r.value <= |x|
  {
    WordAt(x, i, ["฿", "thb", "บาท"])
  }

  /** `re.sub(pattern, repl, x)` for a matcher of non-empty matches. */
  function Sub(x: string, at: nat -> Option<nat>, repl: string): (r: string)
    requires ValidMatcher(x, at)
    ensures forall c :: c in r ==> c in x || c in repl
  {
    Substitute(x, at, repl, 0)
  }

  function RemoveBuyOffers(x: string): string {
    Sub(x, k => BuyOfferAt(x, k), " ")
  }

  function RemovePointsOffers(x: string): string {
    Sub(x, k => PointsOfferAt(x, k), " ")
  }

  function RemoveTodayTags(x: string): string {
    Sub(x, k => TodayTagAt(x, k), " ")
  }

  function RemoveBulkDiscounts(x: string): string {
    Sub(x, k => BulkDiscountAt(x, k), " ")
  }

  function RemoveLeadingPrice(x: string): string {
    Sub(x, k => LeadingPriceAt(x, k), " ")
  }

  function RemoveTrailingNumber(x: string): string {
    Sub(x, k => TrailingNumberAt(x, k), "")
  }

  function RemoveCurrency(x: string): (r: string)
    ensures '฿' !in r
  {
    NoBahtAfterCurrencyRemoval(x, 0);
    Sub(x, k => CurrencyAt(x, k), "")
  }

  /** Removing every currency marker leaves no baht sign. */
  lemma {:induction false} NoBahtAfterCurrencyRemoval(x: string, i: nat)
    requires i <= |x|
    requires ValidMatcher(x, k => CurrencyAt(x, k))
    ensures '฿' !in Substitute(x, k => CurrencyAt(x, k), "", i)
    decreases |x| - i
  {
    if i < |x| {
      var m := CurrencyAt(x, i);
      if m.Some? {
        NoBahtAfterCurrencyRemoval(x, m.value);
      } else {
        assert !AtNoCase(x, i, "฿");
        assert x[i..i + 1] == [x[i]];
        NoBahtAfterCurrencyRemoval(x, i + 1);
      }
    }
  }

  /** The characters a cleaned name may start with: `[a-zA-Z0-9ก-๙"'(]`. */
  predicate IsNameStart(c: char) {
    || ('a' <= c <= 'z') || ('A' <= c <= 'Z') || ('0' <= c <= '9')
    || ('\U{0E01}' <= c <= '\U{0E59}') || c == '"' || c == '\'' || c == '('
  }

  /** No character a cleaned name may start with is whitespace. */
  lemma NameStartIsNotSpace(c: char)
    requires IsNameStart(c)
    ensures !IsSpace(c)
  {
  }

  /** `re.sub(r"^[^a-zA-Z0-9ก-๙\"'(]+", "", x)`. */
  function DropLeadingPunctuation(x: string): (r: string)
    ensures r == [] || IsNameStart(r[0])
    ensures |r| <= |x| && r == x[|x| - |r|..]
    ensures forall k :: 0 <= k < |x| - |r| ==> !IsNameStart(x[k])
  {
    if x != [] && !IsNameStart(x[0]) then DropLeadingPunctuation(x[1..]) else x
  }

  /** The longest length `clean_product_name` returns. */
  const MaxNameLength: nat := 120

  /**
   * `clean_product_name`: the promotional noise is replaced pattern by pattern,
   * whitespace is normalised, leading punctuation is dropped and the result is
   * cut to 120 characters and trimmed. The price argument is not used.
   */
  method CleanProductName(name: string, price: real) returns (x: string)
    ensures name == [] ==> x == []
    ensures |x| <= MaxNameLength
    ensures x == [] || (!IsSpace(x[0]) && !IsSpace(x[|x| - 1]))
    ensures x == [] || IsNameStart(x[0])
    ensures '฿' !in x
  {
    if name == [] {
      return [];
    }
    x := name;
    x := RemoveBuyOffers(x);
    x := RemovePointsOffers(x);
    x := RemoveTodayTags(x);
    x := RemoveBulkDiscounts(x);
    x := RemoveLeadingPrice(x);
    x := RemoveTrailingNumber(x);
    x := RemoveCurrency(x);
    x := CollapseAndStrip(x);
    assert '฿' !in x;
    x := DropLeadingPunctuation(x);
    assert '฿' !in x;
    var cut := x[..if |x| < MaxNameLength then |x| else MaxNameLength];
    assert '฿' !in cut;
    if cut != [] {
      assert cut[0] == x[0];
      NameStartIsNotSpace(cut[0]);
      StripKeepsFirst(cut);
    }
    x := Strip(cut);
  }
}
