/**
 * Turning a product's name, its quantity text and its price into a base
 * quantity, a base unit and a unit price (`normalize_unit_data` and
 * `extract_egg_quantity` in retailer_scraper.py).
 */
module ScraperUnits {
  import opened Wrappers
  import opened PyText

  // ---------------------------------------------------------------------
  // round(x, 2)
  // ---------------------------------------------------------------------

  /**
   * `round(x, 2)` on an exact real: the nearest multiple of 0.01, halves going
   * to the even neighbour as Python's `round` does.
   */
  function Round2(x: real): (r: real)
    ensures -0.005 <= r - x <= 0.005
    ensures x >= 0.0 ==> r >= 0.0
  {
    var y := x * 100.0;
    var f := y.Floor;
    var d := y - f as real;
    var k := if d > 0.5 then f + 1 else if d < 0.5 then f else if f % 2 == 0 then f else f + 1;
    k as real / 100.0
  }

  /** A whole number of hundredths is left as it is. */
  lemma Round2OfCents(k: int)
    ensures Round2(k as real / 100.0) == k as real / 100.0
  {
    var y := (k as real / 100.0) * 100.0;
    assert y == k as real;
    assert y.Floor == k;
  }

  /** Rounding a rounded value changes nothing. */
  lemma Round2Idempotent(x: real)
    ensures Round2(Round2(x)) == Round2(x)
  {
    var y := x * 100.0;
    var f := y.Floor;
    var d := y - f as real;
    var k := if d > 0.5 then f + 1 else if d < 0.5 then f else if f % 2 == 0 then f else f + 1;
    assert Round2(x) == k as real / 100.0;
    Round2OfCents(k);
  }

  // ---------------------------------------------------------------------
  // extract_egg_quantity
  // ---------------------------------------------------------------------

  /** The words that may follow an egg count. */
  const EggWords: seq<string> := ["ฟอง", "egg", "eggs", "pcs", "ใบ"]

  /** The words that may precede a pack size. */
  const PackWords: seq<string> := ["pack", "แพ็ค", "x"]

  /** `(\d+)(?:ฟอง|egg|eggs|pcs|ใบ)` at `i`: the count. */
  function EggCountAt(s: string, i: nat): (r: Option<real>)
    ensures r.Some? ==> i < |s| && IsDigit(s[i])
    ensures r.Some? ==> r.value >= 0.0 && r.value == r.value.Floor as real
  {
    match Integer(s, i)
    case None => None
    case Some(n) => if FirstAt(s, n.end, EggWords).Some? then Some(n.value) else None
  }

  /** `(?:pack|แพ็ค|x)(\d+)` at `i`: the pack size. */
  function PackCountAt(s: string, i: nat): (r: Option<real>)
    ensures r.Some? ==> r.value >= 0.0 && r.value == r.value.Floor as real
  {
    Alternatives(PackWords, w => PackAfter(s, i, w))
  }

  /** The pack word `w` at `i` and the count written right after it. */
  function PackAfter(s: string, i: nat, w: string): (r: Option<real>)
    ensures r.Some? ==> r.value >= 0.0 && r.value == r.value.Floor as real
  {
    if At(s, i, w) then
      match Integer(s, i + |w|)
      case Some(n) => Some(n.value)
      case None => None
    else None
  }

  /**
   * `extract_egg_quantity`: blanks are removed from the lowered text, then a
   * count written before an egg word is taken, else a number written after a
   * pack word, else one egg.
   */
  function EggQuantity(text: string): (r: real)
    ensures r >= 0.0 && r == r.Floor as real
  {
    var s := Without(Lower(text), ' ');
    SearchFindsWhole((i: nat) => EggCountAt(s, i), s);
    SearchFindsWhole((i: nat) => PackCountAt(s, i), s);
    match Search((i: nat) => EggCountAt(s, i), s)
    case Some(v) => v
    case None =>
      match Search((i: nat) => PackCountAt(s, i), s)
      case Some(v) => v
      case None => 1.0
  }

  /**
   * A count written before an egg word decides, wherever it stands and whatever
   * pack count comes before it: the leftmost one is the egg quantity.
   */
  lemma EggWordCountWins(text: string, s: string, i: nat, n: Numeral, w: string)
    requires s == Without(Lower(text), ' ')
    requires forall k :: 0 <= k < i ==> EggCountAt(s, k).None?
    requires Integer(s, i) == Some(n) && w in EggWords && At(s, n.end, w)
    ensures EggQuantity(text) == n.value
  {
    assert FirstAt(s, n.end, EggWords).Some?;
    SearchFirst((k: nat) => EggCountAt(s, k), s, i);
  }

  /** Where no count is followed by an egg word, the leftmost count after a pack word decides. */
  lemma PackCountWithoutEggWord(text: string, s: string, i: nat, w: string, n: Numeral)
    requires s == Without(Lower(text), ' ')
    requires forall k :: 0 <= k <= |s| ==> EggCountAt(s, k).None?
    requires forall k :: 0 <= k < i ==> PackCountAt(s, k).None?
    requires w in PackWords && At(s, i, w) && Integer(s, i + |w|) == Some(n)
    ensures EggQuantity(text) == n.value
  {
    PackCountIs(s, i, w, n);
    SearchNothing((k: nat) => EggCountAt(s, k), s);
    SearchFirst((k: nat) => PackCountAt(s, k), s, i);
  }

  /** The pack words start with different characters, so at most one is written at a position. */
  lemma PackCountIs(s: string, i: nat, w: string, n: Numeral)
    requires w in PackWords && At(s, i, w) && Integer(s, i + |w|) == Some(n)
    ensures PackCountAt(s, i) == Some(n.value) && i < |s|
  {
    var k :| 0 <= k < |PackWords| && PackWords[k] == w;
    assert s[i..i + |w|][0] == s[i];
    forall j | 0 <= j < k
      ensures PackAfter(s, i, PackWords[j]).None?
    {
      assert PackWords[j][0] != w[0];
      NotAtByChar(s, i, PackWords[j], 0);
    }
    AlternativesIndex(PackWords, (v: string) => PackAfter(s, i, v), k);
  }

  /** Without a count after an egg word or a pack word, there is one egg. */
  lemma EggQuantityDefault(text: string, s: string)
    requires s == Without(Lower(text), ' ')
    requires forall k :: 0 <= k <= |s| ==> EggCountAt(s, k).None? && PackCountAt(s, k).None?
    ensures EggQuantity(text) == 1.0
  {
    SearchNothing((k: nat) => EggCountAt(s, k), s);
    SearchNothing((k: nat) => PackCountAt(s, k), s);
  }

  /** A count: a whole number, never negative. */
  predicate WholeCount(o: Option<real>) {
    o.Some? ==> o.value >= 0.0 && o.value == o.value.Floor as real
  }

  /** A search with a matcher that reports only counts finds a count. */
  lemma SearchFindsWhole(at: nat -> Option<real>, s: string)
    requires forall j: nat :: WholeCount(at(j))
    ensures WholeCount(Search(at, s))
  {
  }

  /** A text without digits holds one egg. */
  lemma EggQuantityWithoutDigits(text: string)
    requires forall k :: 0 <= k < |text| ==> !IsDigit(text[k])
    ensures EggQuantity(text) == 1.0
  {
    var s := Without(Lower(text), ' ');
    WithoutChars(Lower(text), ' ');
    forall k | 0 <= k < |s|
      ensures !IsDigit(s[k])
    {
      assert s[k] in Lower(text);
    }
    forall i: nat | i <= |s|
      ensures PackCountAt(s, i).None?
    {
      NoPackCount(s, i);
    }
    SearchNothing((i: nat) => EggCountAt(s, i), s);
    SearchNothing((i: nat) => PackCountAt(s, i), s);
  }

  lemma NoPackCount(s: string, i: nat)
    requires forall k :: 0 <= k < |s| ==> !IsDigit(s[k])
    ensures PackCountAt(s, i).None?
  {
    forall w | w in PackWords
      ensures Integer(s, i + |w|).None?
    {
    }
  }

  // ---------------------------------------------------------------------
  // Preparing the quantity text
  // ---------------------------------------------------------------------

  /**
   * `\b(\d+)\s+\1\b` at `i`: a whole run of digits, blanks, and the same digits
   * again ending a word, as in "12 12". The digits must be followed by blanks,
   * so the group is the whole run; the repetition starts with a digit, so the
   * blanks are the whole run of blanks. The result is the end of the match.
   */
  function RepeatAt(s: string, i: nat): (r: Option<nat>)
    ensures r.Some? ==> i < |s| && IsDigit(s[i])
    ensures r.Some? ==> RunEnd(s, i, IsDigit) < r.value <= |s|
    ensures r.Some? ==> r.value - RunEnd(s, i, IsDigit) > RunEnd(s, i, IsDigit) - i
  {
    if i < |s| && IsDigit(s[i]) && (i == 0 || !IsWordChar(s[i - 1])) then
      var d := RunEnd(s, i, IsDigit);
      var w := RunEnd(s, d, IsSpace);
      var e := w + (d - i);
      if w > d && At(s, w, s[i..d]) && (e == |s| || !IsWordChar(s[e])) then Some(e) else None
    else None
  }

  /** `re.sub(r"\b(\d+)\s+\1\b", r"\1", s[i..])`: a repeated number is written once. */
  function DedupNumbers(s: string, i: nat): (r: string)
    requires i <= |s|
    ensures |r| <= |s| - i
    ensures forall c :: c in r ==> c in s[i..]
    decreases |s| - i
  {
    if i == |s| then []
    else match RepeatAt(s, i)
      case Some(e) => s[i..RunEnd(s, i, IsDigit)] + DedupNumbers(s, e)
      case None => [s[i]] + DedupNumbers(s, i + 1)
  }

  /** Where no repeated number starts, the text is kept as it is. */
  lemma {:induction false} DedupWithoutRepeats(s: string, i: nat)
    requires i <= |s|
    requires forall k :: i <= k < |s| ==> RepeatAt(s, k).None?
    ensures DedupNumbers(s, i) == s[i..]
    decreases |s| - i
  {
    if i < |s| {
      DedupWithoutRepeats(s, i + 1);
      assert s[i..] == [s[i]] + s[i + 1..];
    }
  }

  /** Without digits there is nothing to deduplicate. */
  lemma DedupWithoutDigits(s: string, i: nat)
    requires i <= |s|
    requires forall k :: i <= k < |s| ==> !IsDigit(s[k])
    ensures DedupNumbers(s, i) == s[i..]
  {
    DedupWithoutRepeats(s, i);
  }

  /** A number, whitespace, and the same number again is written once. */
  lemma RepeatedNumberWrittenOnce(d: string, w: string)
    requires d != [] && forall k :: 0 <= k < |d| ==> IsDigit(d[k])
    requires w != [] && forall k :: 0 <= k < |w| ==> IsSpace(w[k])
    ensures DedupNumbers(d + w + d, 0) == d
  {
    var s := d + w + d;
    RepeatAtStart(d, w);
    RunEndIs(s, 0, |d|, IsDigit);
    assert s[0..|d|] == d;
    assert DedupNumbers(s, |s|) == [];
  }

  lemma RepeatAtStart(d: string, w: string)
    requires d != [] && forall k :: 0 <= k < |d| ==> IsDigit(d[k])
    requires w != [] && forall k :: 0 <= k < |w| ==> IsSpace(w[k])
    ensures RepeatAt(d + w + d, 0) == Some(|d + w + d|)
  {
    var s := d + w + d;
    var a := |d|;
    var b := |d| + |w|;
    assert s[a] == w[0] && !IsDigit(s[a]);
    RunEndIs(s, 0, a, IsDigit);
    assert s[b] == d[0] && !IsSpace(s[b]);
    RunEndIs(s, a, b, IsSpace);
    assert s[0..a] == d;
    assert s[b..b + a] == d;
  }

  /** `raw_qty.lower()`, then the repeated numbers written once, then `.replace(" ", "")`. */
  function QuantityText(raw: string): (s: string)
    ensures ' ' !in s
    ensures forall c :: c in s ==> !('A' <= c <= 'Z')
    ensures |s| <= |raw|
  {
    WithoutChars(DedupNumbers(Lower(raw), 0), ' ');
    LowerHasNoCapitals(raw);
    assert Lower(raw)[0..] == Lower(raw);
    Without(DedupNumbers(Lower(raw), 0), ' ')
  }

  /** A quantity written as a number repeated after whitespace, as in "12 12", is read once. */
  lemma RepeatedQuantityReadOnce(d: string, w: string)
    requires d != [] && forall k :: 0 <= k < |d| ==> IsDigit(d[k])
    requires w != [] && forall k :: 0 <= k < |w| ==> IsSpace(w[k])
    ensures QuantityText(d + w + d) == d
  {
    var s := d + w + d;
    assert Lower(s) == s;
    RepeatedNumberWrittenOnce(d, w);
    assert ' ' !in d;
    WithoutAbsent(d, ' ');
  }

  /** With no repeated number to collapse, preparation is lower-casing and removing the blanks. */
  lemma QuantityTextWithoutRepeats(raw: string)
    requires forall k :: 0 <= k < |Lower(raw)| ==> RepeatAt(Lower(raw), k).None?
    ensures QuantityText(raw) == Without(Lower(raw), ' ')
  {
    DedupWithoutRepeats(Lower(raw), 0);
    assert Lower(raw)[0..] == Lower(raw);
  }

  /** Preparing the quantity text brings in no digit. */
  lemma QuantityTextDigits(raw: string)
    requires forall k :: 0 <= k < |raw| ==> !IsDigit(raw[k])
    ensures forall k :: 0 <= k < |QuantityText(raw)| ==> !IsDigit(QuantityText(raw)[k])
  {
    var lowered := Lower(raw);
    var d := DedupNumbers(lowered, 0);
    WithoutChars(d, ' ');
    forall k | 0 <= k < |QuantityText(raw)|
      ensures !IsDigit(QuantityText(raw)[k])
    {
      var c := QuantityText(raw)[k];
      assert c in d;
      assert lowered[0..] == lowered;
      var j :| 0 <= j < |lowered| && lowered[j] == c;
    }
  }

  // ---------------------------------------------------------------------
  // The three quantity shapes
  // ---------------------------------------------------------------------

  /**
   * The alternatives of the unit group, in the order the alternation tries
   * them. An optional final point (`กก\.?`, `ก\.ก\.?`, `มล\.?`, `ล\.?`) is
   * greedy, so the form with the point comes first.
   */
  const UnitWords: seq<string> := [
    "kg", "kgs", "kilo", "g", "gm", "ml", "l", "liter", "pack", "packs", "pcs",
    "piece", "pieces", "ขวด", "แพ็ค", "แพค", "ชิ้น", "กระป๋อง", "กล่อง", "กรัม",
    "ก.", "กิโลกรัม", "กิโล", "กก.", "กก", "ก.ก.", "ก.ก", "มล.", "มล", "ลิตร",
    "ล.", "ล"]

  /** The unit group at `i`: the first alternative written there. */
  function UnitAt(s: string, i: nat): (r: Option<string>)
    ensures r.Some? ==> r.value in UnitWords && At(s, i, r.value)
    ensures r.None? ==> forall k :: 0 <= k < |UnitWords| ==> !At(s, i, UnitWords[k])
  {
    FirstAt(s, i, UnitWords)
  }

  /** The product of two captured numbers, as in `float(m.group(1)) * float(m.group(2))`. */
  function Times(a: real, b: real): (r: real)
    requires a >= 0.0 && b >= 0.0
    ensures r >= 0.0
  {
    a * b
  }

  /** A quantity as written: the number and the unit word that followed it. */
  datatype Reading = Reading(qty: real, unit: string)

  /** The reading used when no shape matches. */
  const DefaultReading: Reading := Reading(1.0, "pcs")

  /** `[x\*]`. */
  predicate IsTimes(c: char) {
    c == 'x' || c == '*'
  }

  /** A reading taken from the quantity text. */
  ghost predicate Captured(r: Reading) {
    r.qty >= 0.0 && r.unit in UnitWords
  }

  /** The shapes that hold a times sign. */
  ghost predicate HasTimes(s: string) {
    exists k :: 0 <= k < |s| && IsTimes(s[k])
  }

  /** Pattern A, `N[x*]M unit` at `i`, as in "3x100g": `N * M` of the unit. */
  function MultipackFirstAt(s: string, i: nat): (r: Option<Reading>)
    ensures r.Some? ==> i < |s| && IsDigit(s[i]) && Captured(r.value)
    ensures r.Some? ==> HasTimes(s)
  {
    match Decimal(s, i)
    case None => None
    case Some(n) => TimesThenUnit(s, n)
  }

  /** `[x*]M unit` right after the number `n`: the reading `n * M` of the unit. */
  function TimesThenUnit(s: string, n: Numeral): (r: Option<Reading>)
    requires n.value >= 0.0
    ensures r.Some? ==> n.end < |s| && IsTimes(s[n.end]) && Captured(r.value)
  {
    if n.end < |s| && IsTimes(s[n.end]) then
      match Decimal(s, n.end + 1)
      case None => None
      case Some(m) =>
        match UnitAt(s, m.end)
        case None => None
        case Some(u) => Some(Reading(Times(n.value, m.value), u))
    else None
  }

  /**
   * Pattern B, `N unit[x*]M` at `i`, as in "100gx3": `N * M` of the unit. The
   * unit is the first alternative that a times sign and a number follow.
   */
  function MultipackLastAt(s: string, i: nat): (r: Option<Reading>)
    ensures r.Some? ==> i < |s| && IsDigit(s[i]) && Captured(r.value)
  {
    match Decimal(s, i)
    case None => None
    case Some(n) =>
      Alternatives(UnitWords, w => TimesAfterUnit(s, n.end, n.value, w))
  }

  /** `w[x*]M` at `j` after the number `nq`: the reading `nq * M` of unit `w`. */
  function TimesAfterUnit(s: string, j: nat, nq: real, w: string): (r: Option<Reading>)
    requires nq >= 0.0
    ensures r.Some? ==> r.value.unit == w && r.value.qty >= 0.0
    ensures r.Some? ==> j + |w| < |s| && IsTimes(s[j + |w|])
  {
    var k := j + |w|;
    if At(s, j, w) && k < |s| && IsTimes(s[k]) then
      match Decimal(s, k + 1)
      case None => None
      case Some(m) => Some(Reading(Times(nq, m.value), w))
    else None
  }

  /** Pattern C, `N unit` at `i`, as in "100g". */
  function SingleAt(s: string, i: nat): (r: Option<Reading>)
    ensures r.Some? ==> i < |s| && IsDigit(s[i]) && Captured(r.value)
  {
    match Decimal(s, i)
    case None => None
    case Some(n) =>
      match UnitAt(s, n.end)
      case None => None
      case Some(u) => Some(Reading(n.value, u))
  }

  /** The three shapes in priority order, each searched for leftmost, then the default. */
  function ReadQuantity(s: string): (r: Reading)
    ensures r == DefaultReading || Captured(r)
  {
    match Search((i: nat) => MultipackFirstAt(s, i), s)
    case Some(a) => a
    case None =>
      match Search((i: nat) => MultipackLastAt(s, i), s)
      case Some(b) => b
      case None =>
        match Search((i: nat) => SingleAt(s, i), s)
        case Some(c) => c
        case None => DefaultReading
  }

  /** Without a times sign only the single shape can match. */
  lemma ReadQuantityWithoutTimes(s: string)
    requires !HasTimes(s)
    ensures ReadQuantity(s) == Search((i: nat) => SingleAt(s, i), s).GetOr(DefaultReading)
  {
    forall i: nat | i <= |s|
      ensures MultipackLastAt(s, i).None?
    {
      match Decimal(s, i)
      case None =>
      case Some(n) =>
        forall k | 0 <= k < |UnitWords|
          ensures TimesAfterUnit(s, n.end, n.value, UnitWords[k]).None?
        {
        }
    }
    assert Search((i: nat) => MultipackFirstAt(s, i), s).None?;
    assert Search((i: nat) => MultipackLastAt(s, i), s).None?;
  }

  /** A quantity text without digits reads as one piece. */
  lemma ReadQuantityWithoutDigits(s: string)
    requires forall k :: 0 <= k < |s| ==> !IsDigit(s[k])
    ensures ReadQuantity(s) == DefaultReading
  {
    assert Search((i: nat) => MultipackFirstAt(s, i), s).None?;
    assert Search((i: nat) => MultipackLastAt(s, i), s).None?;
    assert Search((i: nat) => SingleAt(s, i), s).None?;
  }

  /**
   * The leftmost `N[x*]M unit` decides: its product is the reading, whatever
   * the other two shapes would have found, even to its left.
   */
  lemma FirstShapeWins(s: string, i: nat, n: Numeral, m: Numeral, u: string)
    requires forall k :: 0 <= k < i ==> MultipackFirstAt(s, k).None?
    requires Decimal(s, i) == Some(n) && n.end < |s| && IsTimes(s[n.end])
    requires Decimal(s, n.end + 1) == Some(m) && UnitAt(s, m.end) == Some(u)
    ensures n.value >= 0.0 && m.value >= 0.0
    ensures ReadQuantity(s) == Reading(Times(n.value, m.value), u)
  {
    FirstShapeAt(s, i, n, m, u);
    SearchFirst((k: nat) => MultipackFirstAt(s, k), s, i);
  }

  lemma FirstShapeAt(s: string, i: nat, n: Numeral, m: Numeral, u: string)
    requires Decimal(s, i) == Some(n) && n.end < |s| && IsTimes(s[n.end])
    requires Decimal(s, n.end + 1) == Some(m) && UnitAt(s, m.end) == Some(u)
    ensures n.value >= 0.0 && m.value >= 0.0
    ensures MultipackFirstAt(s, i) == Some(Reading(Times(n.value, m.value), u))
  {
    TimesThenUnitIs(s, n, m, u);
  }

  lemma TimesThenUnitIs(s: string, n: Numeral, m: Numeral, u: string)
    requires n.value >= 0.0 && n.end < |s| && IsTimes(s[n.end])
    requires Decimal(s, n.end + 1) == Some(m) && UnitAt(s, m.end) == Some(u)
    ensures TimesThenUnit(s, n) == Some(Reading(Times(n.value, m.value), u))
  {
  }

  /**
   * Where no `N[x*]M unit` is written, the leftmost `N unit[x*]M` decides, with
   * the first unit alternative `w`, at index `k`, that a times sign and a number follow.
   */
  lemma LastShapeWithoutFirst(s: string, i: nat, n: Numeral, k: nat, w: string, m: Numeral)
    requires forall j :: 0 <= j <= |s| ==> MultipackFirstAt(s, j).None?
    requires forall j :: 0 <= j < i ==> MultipackLastAt(s, j).None?
    requires Decimal(s, i) == Some(n) && k < |UnitWords| && UnitWords[k] == w
    requires forall j :: 0 <= j < k ==> TimesAfterUnit(s, n.end, n.value, UnitWords[j]).None?
    requires At(s, n.end, w) && n.end + |w| < |s| && IsTimes(s[n.end + |w|])
    requires Decimal(s, n.end + |w| + 1) == Some(m)
    ensures n.value >= 0.0 && m.value >= 0.0
    ensures ReadQuantity(s) == Reading(Times(n.value, m.value), w)
  {
    LastShapeAt(s, i, n, k, w, m);
    SearchNothing((j: nat) => MultipackFirstAt(s, j), s);
    SearchFirst((j: nat) => MultipackLastAt(s, j), s, i);
  }

  lemma LastShapeAt(s: string, i: nat, n: Numeral, k: nat, w: string, m: Numeral)
    requires Decimal(s, i) == Some(n) && k < |UnitWords| && UnitWords[k] == w
    requires forall j :: 0 <= j < k ==> TimesAfterUnit(s, n.end, n.value, UnitWords[j]).None?
    requires At(s, n.end, w) && n.end + |w| < |s| && IsTimes(s[n.end + |w|])
    requires Decimal(s, n.end + |w| + 1) == Some(m)
    ensures n.value >= 0.0 && m.value >= 0.0
    ensures MultipackLastAt(s, i) == Some(Reading(Times(n.value, m.value), w))
  {
    TimesAfterUnitIs(s, n.end, n.value, w, m);
    AlternativesIndex(UnitWords, (v: string) => TimesAfterUnit(s, n.end, n.value, v), k);
  }

  lemma TimesAfterUnitIs(s: string, j: nat, nq: real, w: string, m: Numeral)
    requires nq >= 0.0
    requires At(s, j, w) && j + |w| < |s| && IsTimes(s[j + |w|])
    requires Decimal(s, j + |w| + 1) == Some(m)
    ensures m.value >= 0.0
    ensures TimesAfterUnit(s, j, nq, w) == Some(Reading(Times(nq, m.value), w))
  {
  }

  /** Where neither multipack shape is written, the leftmost `N unit` decides. */
  lemma SingleShapeOnly(s: string, i: nat, n: Numeral, u: string)
    requires forall j :: 0 <= j <= |s| ==> MultipackFirstAt(s, j).None? && MultipackLastAt(s, j).None?
    requires forall j :: 0 <= j < i ==> SingleAt(s, j).None?
    requires Decimal(s, i) == Some(n) && UnitAt(s, n.end) == Some(u)
    ensures ReadQuantity(s) == Reading(n.value, u)
  {
    SearchNothing((j: nat) => MultipackFirstAt(s, j), s);
    SearchNothing((j: nat) => MultipackLastAt(s, j), s);
    SearchFirst((j: nat) => SingleAt(s, j), s, i);
  }

  /** Where no shape is written anywhere, the reading is one piece. */
  lemma NoShapeReadsDefault(s: string)
    requires forall j :: 0 <= j <= |s| ==>
      MultipackFirstAt(s, j).None? && MultipackLastAt(s, j).None? && SingleAt(s, j).None?
    ensures ReadQuantity(s) == DefaultReading
  {
    SearchNothing((j: nat) => MultipackFirstAt(s, j), s);
    SearchNothing((j: nat) => MultipackLastAt(s, j), s);
    SearchNothing((j: nat) => SingleAt(s, j), s);
  }

  // ---------------------------------------------------------------------
  // Base units
  // ---------------------------------------------------------------------

  /** The base units a price is compared in. */
  datatype BaseUnit = Kg | L | Pcs | Egg {
    /** The name the scraper records. */
    function Name(): string {
      match this
      case Kg => "kg"
      case L => "L"
      case Pcs => "pcs"
      case Egg => "egg"
    }
  }

  /** A quantity in a base unit. */
  datatype Amount = Amount(qty: real, unit: BaseUnit)

  const GramUnits: seq<string> := ["g", "gm", "กรัม", "ก."]
  const MillilitreUnits: seq<string> := ["ml", "มล."]

  /** Units holding one of these are read as kilograms or litres without scaling. */
  const MassOrVolumeMarkers: seq<string> := ["kg", "kilo", "กิโล", "กก", "l", "liter", "ลิตร", "ล."]

  /** Of those, units holding one of these are litres. */
  const VolumeMarkers: seq<string> := ["l", "liter", "ลิตร", "ล."]

  /** The conversion table of `normalize_unit_data`. */
  function ToBase(r: Reading): (a: Amount)
    ensures a.unit != Egg
    ensures r.unit in GramUnits ==> a == Amount(r.qty / 1000.0, Kg)
    ensures r.unit in MillilitreUnits ==> a == Amount(r.qty / 1000.0, L)
    ensures r.unit !in GramUnits && r.unit !in MillilitreUnits ==> a.qty == r.qty
    ensures r.unit !in GramUnits && r.unit !in MillilitreUnits ==>
      (a.unit == Pcs <==> !ContainsAny(r.unit, MassOrVolumeMarkers))
  {
    if r.unit in GramUnits then Amount(r.qty / 1000.0, Kg)
    else if r.unit in MillilitreUnits then Amount(r.qty / 1000.0, L)
    else if ContainsAny(r.unit, MassOrVolumeMarkers) then
      Amount(r.qty, if ContainsAny(r.unit, VolumeMarkers) then L else Kg)
    else Amount(r.qty, Pcs)
  }

  /** A litre marker always makes litres; a unit with a kilogram marker and none is kilograms. */
  lemma ToBaseVolumeOrMass(r: Reading)
    requires r.unit !in GramUnits && r.unit !in MillilitreUnits
    ensures ContainsAny(r.unit, VolumeMarkers) ==> ToBase(r) == Amount(r.qty, L)
    ensures ContainsAny(r.unit, MassOrVolumeMarkers) && !ContainsAny(r.unit, VolumeMarkers) ==>
      ToBase(r) == Amount(r.qty, Kg)
  {
    if ContainsAny(r.unit, VolumeMarkers) {
      var k :| 0 <= k < |VolumeMarkers| && Contains(r.unit, VolumeMarkers[k]);
      assert VolumeMarkers[k] == MassOrVolumeMarkers[k + 4];
    }
  }

  /** The default reading is one piece. */
  lemma DefaultIsOnePiece()
    ensures ToBase(DefaultReading) == Amount(1.0, Pcs)
  {
    forall k | 0 <= k < |MassOrVolumeMarkers|
      ensures !Contains("pcs", MassOrVolumeMarkers[k])
    {
      var w := MassOrVolumeMarkers[k];
      assert w[0] in w;
      if Contains("pcs", w) {
        ContainsChars("pcs", w);
      }
    }
  }

  /** "kilo" holds the letter l and so is read as litres. */
  lemma KiloIsLitres(q: real)
    ensures ToBase(Reading(q, "kilo")) == Amount(q, L)
  {
    assert Contains("kilo", "l") by {
      assert "kilo"[1..][1..][..1] == "l";
    }
    assert VolumeMarkers[0] == "l";
    ToBaseVolumeOrMass(Reading(q, "kilo"));
  }

  /** The Thai "ล" without a point holds no litre marker, so it counts pieces. */
  lemma ThaiLitreWithoutPointIsPieces(q: real)
    ensures ToBase(Reading(q, "ล")) == Amount(q, Pcs)
  {
    assert !Contains("ล", "l") by {
      assert "ล"[0] == 'ล';
      assert "ล"[1..] == [];
    }
    forall k | 0 <= k < |MassOrVolumeMarkers|
      ensures !Contains("ล", MassOrVolumeMarkers[k])
    {
      if k != 4 {
        assert |MassOrVolumeMarkers[k]| > 1;
      }
    }
  }

  // ---------------------------------------------------------------------
  // normalize_unit_data
  // ---------------------------------------------------------------------

  /** The marks of an egg product in the lowered name. */
  const EggMarks: seq<string> := ["egg", "ไข่"]

  /** Names of fresh meat and fish. */
  const FreshWords: seq<string> := ["pork", "chicken", "salmon", "fish", "meat", "beef", "หมู", "ไก่", "ปลา", "เนื้อ", "แซลมอน"]

  /** Words that say a product is priced by the kilogram. */
  const KgWords: seq<string> := ["kg", "kilo", "กก", "กิโล", "/kg", "ต่อกก"]

  /** The egg branch is taken for a name whose lowered form holds "egg" or "ไข่". */
  predicate IsEggName(name: string) {
    Contains(Lower(name), "egg") || Contains(Lower(name), "ไข่")
  }

  /** A fresh meat or fish name that says "per kilogram". */
  predicate SoldByWeight(name: string) {
    ContainsAny(Lower(name), FreshWords) && ContainsAny(Lower(name), KgWords)
  }

  /**
   * The fresh-food correction: a count of pieces of fresh meat or fish whose
   * name says it is sold per kilogram becomes one kilogram. Only the name is
   * consulted, never the quantity text.
   */
  function FreshFoodCorrection(name: string, a: Amount): (b: Amount)
    ensures a.unit != Pcs ==> b == a
    ensures a.unit == Pcs ==> (b == Amount(1.0, Kg) <==> SoldByWeight(name)) && (b != a ==> b == Amount(1.0, Kg))
  {
    if a.unit == Pcs && SoldByWeight(name) then Amount(1.0, Kg) else a
  }

  /** The standard unit logic: shapes, conversion, correction, and the positive-quantity guard. */
  function StandardAmount(name: string, s: string): (a: Amount)
    ensures a.qty > 0.0 && a.unit != Egg
  {
    var b := FreshFoodCorrection(name, ToBase(ReadQuantity(s)));
    if b.qty <= 0.0 then Amount(1.0, b.unit) else b
  }

  /** The result of `normalize_unit_data`. */
  datatype Normalized = Normalized(qty: real, unit: BaseUnit, unitPrice: real)

  /** What `normalize_unit_data` returns for a name, a quantity text and a price. */
  function Normalize(name: string, raw: string, price: real): (r: Normalized)
    ensures r.unit == Egg <==> IsEggName(name)
    ensures r.unit == Egg ==> r.qty == EggQuantity(name + " " + QuantityText(raw))
    ensures r.unit == Egg ==> r.unitPrice == if r.qty > 0.0 then Round2(price / r.qty) else price
    ensures r.unit != Egg ==> r.qty > 0.0 && r.unitPrice == Round2(price / r.qty)
    ensures r.qty >= 0.0
  {
    var s := QuantityText(raw);
    if IsEggName(name) then
      var q := EggQuantity(name + " " + s);
      Normalized(q, Egg, if q > 0.0 then Round2(price / q) else price)
    else
      var a := StandardAmount(name, s);
      Normalized(a.qty, a.unit, Round2(price / a.qty))
  }

  /** Outside the egg branch a positive weight or volume read from the text is kept as read. */
  lemma NormalizeKeepsWeightOrVolume(name: string, raw: string, price: real)
    requires !IsEggName(name)
    requires ToBase(ReadQuantity(QuantityText(raw))).unit != Pcs
    requires ToBase(ReadQuantity(QuantityText(raw))).qty > 0.0
    ensures Normalize(name, raw, price).qty == ToBase(ReadQuantity(QuantityText(raw))).qty
    ensures Normalize(name, raw, price).unit == ToBase(ReadQuantity(QuantityText(raw))).unit
  {
  }

  /**
   * Outside the egg branch and the fresh-food correction, the amount read from
   * the text is kept: a positive quantity prices per unit, and a quantity of
   * zero or less becomes one of the same unit at the whole price.
   */
  lemma NormalizeKeepsReading(name: string, raw: string, price: real, b: Amount)
    requires !IsEggName(name) && b == ToBase(ReadQuantity(QuantityText(raw)))
    requires !(b.unit == Pcs && SoldByWeight(name))
    ensures b.qty > 0.0 ==> Normalize(name, raw, price) == Normalized(b.qty, b.unit, Round2(price / b.qty))
    ensures b.qty <= 0.0 ==> Normalize(name, raw, price) == Normalized(1.0, b.unit, Round2(price))
  {
    assert price / 1.0 == price;
  }

  /** Fresh meat sold by the kilogram with no weight read is priced per kilogram. */
  lemma FreshFoodPricedPerKg(name: string, raw: string, price: real)
    requires !IsEggName(name)
    requires ToBase(ReadQuantity(QuantityText(raw))).unit == Pcs && SoldByWeight(name)
    ensures Normalize(name, raw, price) == Normalized(1.0, Kg, Round2(price))
  {
    var s := QuantityText(raw);
    assert FreshFoodCorrection(name, ToBase(ReadQuantity(s))) == Amount(1.0, Kg);
    assert StandardAmount(name, s) == Amount(1.0, Kg);
    assert price / 1.0 == price;
  }

  /**
   * With no number in the quantity text and no egg or fresh-meat name, the
   * product is one piece priced at its (rounded) price.
   */
  lemma NormalizeWithoutDigits(name: string, raw: string, price: real)
    requires forall k :: 0 <= k < |raw| ==> !IsDigit(raw[k])
    requires !IsEggName(name) && !SoldByWeight(name)
    ensures Normalize(name, raw, price) == Normalized(1.0, Pcs, Round2(price))
  {
    var s := QuantityText(raw);
    QuantityTextDigits(raw);
    ReadQuantityWithoutDigits(s);
    DefaultIsOnePiece();
    assert StandardAmount(name, s) == Amount(1.0, Pcs);
    assert price / 1.0 == price;
  }

  /** The three quantity shapes of `normalize_unit_data`, tried in order; the default is one piece. */
  method ReadShapes(s: string) returns (reading: Reading)
    ensures reading == ReadQuantity(s)
  {
    reading := DefaultReading;
    var m1 := Search((i: nat) => MultipackFirstAt(s, i), s);
    var m2 := Search((i: nat) => MultipackLastAt(s, i), s);
    var m3 := Search((i: nat) => SingleAt(s, i), s);
    if m1.Some? {
      reading := m1.value;
    } else if m2.Some? {
      reading := m2.value;
    } else if m3.Some? {
      reading := m3.value;
    }
  }

  /** The conversion table of `normalize_unit_data` into kg, L or pcs. */
  method ConvertToBase(reading: Reading) returns (qty: real, unit: BaseUnit)
    ensures Amount(qty, unit) == ToBase(reading)
  {
    qty := reading.qty;
    unit := Pcs;
    if reading.unit in GramUnits {
      qty := reading.qty / 1000.0;
      unit := Kg;
    } else if reading.unit in MillilitreUnits {
      qty := reading.qty / 1000.0;
      unit := L;
    } else if ContainsAny(reading.unit, MassOrVolumeMarkers) {
      unit := if ContainsAny(reading.unit, VolumeMarkers) then L else Kg;
    }
  }

  /** The fresh-food correction of `normalize_unit_data`, on the lowered name. */
  method CorrectFreshFood(nameLower: string, qty0: real, unit0: BaseUnit) returns (qty: real, unit: BaseUnit)
    ensures forall name :: Lower(name) == nameLower ==>
      Amount(qty, unit) == FreshFoodCorrection(name, Amount(qty0, unit0))
  {
    qty, unit := qty0, unit0;
    if unit == Pcs {
      var isFreshFood := ContainsAny(nameLower, FreshWords);
      var hasKgKeyword := ContainsAny(nameLower, KgWords);
      if isFreshFood && hasKgKeyword {
        unit := Kg;
        qty := 1.0;
      }
    }
  }

  /**
   * `normalize_unit_data`, stage by stage: the quantity text is prepared, the
   * egg branch returns early, the shapes are tried in order, the unit is
   * converted, fresh meat is corrected and the quantity is kept positive.
   */
  method NormalizeUnitData(name: string, rawQty: string, price: real)
    returns (qty: real, unit: BaseUnit, unitPrice: real)
    ensures Normalized(qty, unit, unitPrice) == Normalize(name, rawQty, price)
  {
    var s := Lower(rawQty);
    s := DedupNumbers(s, 0);
    s := Without(s, ' ');
    assert s == QuantityText(rawQty);
    var nameLower := Lower(name);

    if Contains(nameLower, "egg") || Contains(nameLower, "ไข่") {
      qty := EggQuantity(name + " " + s);
      unit := Egg;
      unitPrice := if qty > 0.0 then Round2(price / qty) else price;
      return;
    }

    var reading := ReadShapes(s);
    qty, unit := ConvertToBase(reading);
    qty, unit := CorrectFreshFood(nameLower, qty, unit);
    if qty <= 0.0 {
      qty := 1.0;
    }
    assert Amount(qty, unit) == StandardAmount(name, s);
    unitPrice := Round2(price / qty);
  }
}
