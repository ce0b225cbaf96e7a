/**
 * Worked cases of `normalize_unit_data`: the documented examples, and the
 * quirks that the order of the unit alternatives and the substring tests of
 * the conversion table produce.
 */
module ScraperExamples {
  import opened Wrappers
  import opened PyText
  import opened ScraperUnits

  // ---------------------------------------------------------------------
  // "Milk 1L" with quantity "1L" at 55 baht: one litre at 55 baht a litre
  // ---------------------------------------------------------------------

  lemma MilkText()
    ensures QuantityText("1L") == "1l"
  {
    assert Lower("1L") == "1l";
    assert RepeatAt("1l", 0).None?;
    assert RepeatAt("1l", 1).None?;
    assert DedupNumbers("1l", 2) == [];
    assert DedupNumbers("1l", 0) == "1l";
  }

  /** The blank inside "1 L" is removed and the letter lowered. */
  lemma SpacedLitreText()
    ensures QuantityText("1 L") == "1l"
  {
    var t := "1 l";
    assert Lower("1 L") == t;
    RunEndIs(t, 0, 1, IsDigit);
    RunEndIs(t, 1, 2, IsSpace);
    assert !At(t, 2, t[0..1]);
    forall k | 0 <= k < |t|
      ensures RepeatAt(t, k).None?
    {
      assert k == 0 || !IsDigit(t[k]);
    }
    QuantityTextWithoutRepeats("1 L");
    assert Without(t, ' ') == "1l";
  }

  lemma OneAt(s: string)
    requires |s| >= 2 && s[0] == '1' && !IsDigit(s[1]) && s[1] != '.'
    ensures Decimal(s, 0) == Some(Numeral(1.0, 1))
  {
    assert RunEnd(s, 0, IsDigit) == 1;
    assert s[0..1] == "1";
    assert NatValue("1") == 1;
  }

  lemma MilkUnit()
    ensures UnitAt("1l", 1) == Some("l")
  {
    var s := "1l";
    assert UnitWords[6] == "l";
    assert At(s, 1, "l");
    forall j | 0 <= j < 6
      ensures !At(s, 1, UnitWords[j])
    {
      assert j == 0 || j == 1 || j == 2 || j == 3 || j == 4 || j == 5;
      NotAtByChar(s, 1, UnitWords[j], 0);
    }
    FirstAtIndex(s, 1, UnitWords, 6);
  }

  lemma MilkSingle()
    ensures SingleAt("1l", 0) == Some(Reading(1.0, "l"))
  {
    OneAt("1l");
    MilkUnit();
  }

  lemma MilkHasNoTimes()
    ensures !HasTimes("1l")
  {
    var s := "1l";
    forall k | 0 <= k < |s|
      ensures !IsTimes(s[k])
    {
      assert k == 0 || k == 1;
    }
  }

  lemma MilkReading()
    ensures ReadQuantity("1l") == Reading(1.0, "l")
  {
    var s := "1l";
    MilkHasNoTimes();
    ReadQuantityWithoutTimes(s);
    MilkSingle();
    SearchFirst((i: nat) => SingleAt(s, i), s, 0);
  }

  lemma MilkLower()
    ensures Lower("Milk 1L") == "milk 1l"
  {
  }

  lemma NoEggIn(n: string)
    requires n == "milk 1l"
    ensures !Contains(n, "egg") && !Contains(n, "ไข่")
  {
    forall i: nat | i < |n|
      ensures !At(n, i, "egg") && !At(n, i, "ไข่")
    {
      assert i == 0 || i == 1 || i == 2 || i == 3 || i == 4 || i == 5 || i == 6;
      NotAtByChar(n, i, "egg", 1);
      NotAtByChar(n, i, "ไข่", 0);
    }
    ContainsAt(n, "egg");
    ContainsAt(n, "ไข่");
  }

  lemma NoEggInMilk()
    ensures !IsEggName("Milk 1L")
  {
    MilkLower();
    NoEggIn("milk 1l");
  }

  lemma LitreBase()
    ensures ToBase(Reading(1.0, "l")) == Amount(1.0, L)
  {
    assert VolumeMarkers[0] == "l";
    assert Contains("l", "l");
    ToBaseVolumeOrMass(Reading(1.0, "l"));
  }

  lemma MilkAmount()
    ensures StandardAmount("Milk 1L", "1l") == Amount(1.0, L)
  {
    MilkReading();
    LitreBase();
  }

  /** A litre of milk at 55 baht costs 55 baht a litre. */
  lemma Milk()
    ensures Normalize("Milk 1L", "1L", 55.0) == Normalized(1.0, L, 55.0)
  {
    MilkText();
    NoEggInMilk();
    MilkAmount();
    Round2OfCents(5500);
  }

  // ---------------------------------------------------------------------
  // "Fresh Pork Belly /kg" with no quantity at 120 baht: priced per kilogram
  // ---------------------------------------------------------------------

  lemma PorkLower()
    ensures Lower("Fresh Pork Belly /kg") == "fresh pork belly /kg"
  {
  }

  lemma PorkByWeight()
    ensures SoldByWeight("Fresh Pork Belly /kg")
  {
    PorkLower();
    var n := "fresh pork belly /kg";
    AtContains(n, 6, "pork");
    AtContains(n, 18, "kg");
    assert FreshWords[0] == "pork" && KgWords[0] == "kg";
  }

  lemma NoEggInPork()
    ensures !Contains("fresh pork belly /kg", "egg")
  {
    var n := "fresh pork belly /kg";
    forall i: nat | i + 3 <= |n|
      ensures !At(n, i, "egg")
    {
      assert n[i..i + 3][0] == n[i] && n[i..i + 3][1] == n[i + 1];
      assert i == 0 || i == 1 || i == 2 || i == 3 || i == 4 || i == 5 || i == 6 || i == 7 || i == 8 || i == 9
        || i == 10 || i == 11 || i == 12 || i == 13 || i == 14 || i == 15 || i == 16 || i == 17;
    }
    ContainsAt(n, "egg");
  }

  lemma NoThaiEggInPork()
    ensures !Contains("fresh pork belly /kg", "ไข่")
  {
    assert "ไข่"[0] !in "fresh pork belly /kg";
    MissingFirstChar("fresh pork belly /kg", "ไข่");
  }

  /** Fresh pork sold "/kg" with no quantity is one kilogram at its price. */
  lemma Pork()
    ensures Normalize("Fresh Pork Belly /kg", "", 120.0) == Normalized(1.0, Kg, 120.0)
  {
    assert QuantityText("") == "";
    ReadQuantityWithoutDigits("");
    DefaultIsOnePiece();
    PorkLower();
    NoEggInPork();
    NoThaiEggInPork();
    PorkByWeight();
    FreshFoodPricedPerKg("Fresh Pork Belly /kg", "", 120.0);
    Round2OfCents(12000);
  }

  // ---------------------------------------------------------------------
  // "Eggs 10 pcs" with quantity "10 eggs" at 45 baht: 4.50 baht an egg
  // ---------------------------------------------------------------------

  lemma EggsDedup(s: string)
    requires s == "10 eggs"
    ensures DedupNumbers(s, 0) == s
  {
    assert s[3..5][0] == 'e';
    assert RepeatAt(s, 0).None?;
    assert RepeatAt(s, 1).None?;
    forall k | 2 <= k < |s|
      ensures !IsDigit(s[k])
    {
      assert k == 2 || k == 3 || k == 4 || k == 5 || k == 6;
    }
    DedupWithoutDigits(s, 2);
  }

  lemma BlankJoin(a: string, b: string)
    ensures Without(a + " " + b, ' ') == Without(a, ' ') + Without(b, ' ')
  {
    WithoutAppend(a + " ", b, ' ');
    WithoutAppend(a, " ", ' ');
  }

  lemma JoinTwo(a: string, b: string)
    requires ' ' !in a && ' ' !in b
    ensures Without(a + " " + b, ' ') == a + b
  {
    BlankJoin(a, b);
    WithoutAbsent(a, ' ');
    WithoutAbsent(b, ' ');
  }

  lemma JoinFour(a: string, b: string, c: string, d: string)
    requires ' ' !in a && ' ' !in b && ' ' !in c && ' ' !in d
    ensures Without(a + " " + b + " " + c + " " + d, ' ') == a + b + c + d
  {
    BlankJoin(a + " " + b + " " + c, d);
    BlankJoin(a + " " + b, c);
    JoinTwo(a, b);
    WithoutAbsent(c, ' ');
    WithoutAbsent(d, ' ');
  }

  lemma EggsLowered(raw: string)
    requires raw == "10 eggs"
    ensures Lower(raw) == raw
  {
  }

  lemma EggsText(raw: string)
    requires raw == "10 eggs"
    ensures QuantityText(raw) == "10eggs"
  {
    EggsLowered(raw);
    EggsDedup(raw);
    EggsWithoutBlank(raw);
  }

  lemma EggsWithoutBlank(raw: string)
    requires raw == "10 eggs"
    ensures Without(raw, ' ') == "10eggs"
  {
    assert raw == "10" + " " + "eggs";
    JoinTwo("10", "eggs");
  }

  lemma EggsCountLower(t: string)
    requires t == "Eggs 10 pcs" + " " + "10eggs"
    ensures Lower(t) == "eggs" + " " + "10" + " " + "pcs" + " " + "10eggs"
  {
  }

  lemma EggsCountText(t: string)
    requires t == "Eggs 10 pcs" + " " + "10eggs"
    ensures Without(Lower(t), ' ') == "eggs10pcs10eggs"
  {
    EggsCountLower(t);
    JoinFour("eggs", "10", "pcs", "10eggs");
  }

  lemma EggsCountAtFour(s: string)
    requires s == "eggs10pcs10eggs"
    ensures EggCountAt(s, 4) == Some(10.0)
  {
    assert IsDigit(s[4]) && IsDigit(s[5]) && !IsDigit(s[6]);
    assert RunEnd(s, 4, IsDigit) == 6;
    assert s[4..6] == "10";
    assert NatValue("10") == 10;
    assert Integer(s, 4) == Some(Numeral(10.0, 6));
    assert At(s, 6, "pcs");
    assert EggWords[3] == "pcs";
  }

  /** No count starts before the first digit. */
  lemma NoCountBeforeDigits(s: string, n: nat)
    requires n <= |s| && forall k :: 0 <= k < n ==> !IsDigit(s[k])
    ensures forall k :: 0 <= k < n ==> EggCountAt(s, k).None?
  {
  }

  lemma EggsCount(t: string)
    requires t == "Eggs 10 pcs" + " " + "10eggs"
    ensures EggQuantity(t) == 10.0
  {
    var s := Without(Lower(t), ' ');
    EggsCountText(t);
    EggsCountAtFour(s);
    NoCountBeforeDigits(s, 4);
    SearchFirst((i: nat) => EggCountAt(s, i), s, 4);
  }

  lemma EggsName(name: string)
    requires name == "Eggs 10 pcs"
    ensures IsEggName(name)
  {
    assert Lower(name) == "eggs 10 pcs";
    AtContains(Lower(name), 0, "egg");
  }

  lemma EggsPrice()
    ensures Round2(45.0 / 10.0) == 4.5
  {
    assert 45.0 / 10.0 == 450 as real / 100.0;
    Round2OfCents(450);
  }

  /** Ten eggs at 45 baht cost 4.50 baht an egg. */
  lemma Eggs(name: string, raw: string)
    requires name == "Eggs 10 pcs" && raw == "10 eggs"
    ensures Normalize(name, raw, 45.0) == Normalized(10.0, Egg, 4.5)
  {
    EggsText(raw);
    EggsName(name);
    EggsCount(name + " " + QuantityText(raw));
    EggsPrice();
  }

  // ---------------------------------------------------------------------
  // Quirks
  // ---------------------------------------------------------------------

  /** "eggplant" holds "egg", so an aubergine is counted in eggs. */
  lemma EggplantIsCountedInEggs(raw: string, price: real)
    ensures Normalize("eggplant", raw, price).unit == Egg
  {
    assert Lower("eggplant") == "eggplant";
    AtContains("eggplant", 0, "egg");
  }

  /** No egg word starts with '/'. */
  lemma NoEggWordAfter(s: string, i: nat)
    requires i < |s| && s[i] == '/'
    ensures FirstAt(s, i, EggWords).None?
  {
    forall k | 0 <= k < |EggWords|
      ensures !At(s, i, EggWords[k])
    {
      NotAtByChar(s, i, EggWords[k], 0);
    }
  }

  lemma SixBeforeSlash(s: string)
    requires s == "pack6/10eggs"
    ensures Integer(s, 4) == Some(Numeral(6.0, 5))
  {
    assert IsDigit(s[4]) && !IsDigit(s[5]);
    assert RunEnd(s, 4, IsDigit) == 5;
    assert s[4..5] == "6";
    assert NatValue("6") == 6;
  }

  lemma TenBeforeEggs(s: string)
    requires s == "pack6/10eggs"
    ensures Integer(s, 6) == Some(Numeral(10.0, 8)) && At(s, 8, "egg")
  {
    assert IsDigit(s[6]) && IsDigit(s[7]) && !IsDigit(s[8]);
    assert RunEnd(s, 6, IsDigit) == 8;
    assert s[6..8] == "10";
    assert NatValue("10") == 10;
    assert s[8..11] == "egg";
  }

  lemma NoEggCountBeforeSix(s: string)
    requires s == "pack6/10eggs"
    ensures forall k :: 0 <= k < 6 ==> EggCountAt(s, k).None?
  {
    SixBeforeSlash(s);
    NoEggWordAfter(s, 5);
    forall k | 0 <= k < 6
      ensures EggCountAt(s, k).None?
    {
      assert k == 0 || k == 1 || k == 2 || k == 3 || k == 4 || k == 5;
    }
  }

  /** A count before an egg word wins over the pack count written before it. */
  lemma EggWordCountBeatsEarlierPack(t: string)
    requires t == "pack6/10eggs"
    ensures EggQuantity(t) == 10.0
  {
    assert Without(Lower(t), ' ') == t by {
      assert Lower(t) == t;
      WithoutAbsent(t, ' ');
    }
    TenBeforeEggs(t);
    NoEggCountBeforeSix(t);
    EggWordCountWins(t, t, 6, Numeral(10.0, 8), "egg");
  }

  lemma SixTenBeforeEggs(s: string)
    requires s == "pack610eggs"
    ensures Integer(s, 4) == Some(Numeral(610.0, 7)) && At(s, 7, "egg")
  {
    assert IsDigit(s[4]) && IsDigit(s[5]) && IsDigit(s[6]) && !IsDigit(s[7]);
    assert RunEnd(s, 4, IsDigit) == 7;
    assert s[4..7] == "610";
    assert "610"[..2] == "61" && "61"[..1] == "6";
    assert NatValue("61") == 61;
    assert NatValue("610") == 610;
    assert s[7..10] == "egg";
  }

  lemma PackSixTenText(t: string)
    requires t == "pack6 10eggs"
    ensures Without(Lower(t), ' ') == "pack610eggs"
  {
    assert Lower(t) == t;
    assert t == "pack6" + " " + "10eggs";
    JoinTwo("pack6", "10eggs");
  }

  /**
   * Blanks are removed before the counts are read, so a pack count and an
   * egg count written next to each other run together into one number.
   */
  lemma BlankRemovalJoinsCounts(t: string)
    requires t == "pack6 10eggs"
    ensures EggQuantity(t) == 610.0
  {
    var s := "pack610eggs";
    PackSixTenText(t);
    SixTenBeforeEggs(s);
    forall k | 0 <= k < 4
      ensures EggCountAt(s, k).None?
    {
      assert k == 0 || k == 1 || k == 2 || k == 3;
    }
    EggWordCountWins(t, s, 4, Numeral(610.0, 7), "egg");
  }

  // ---------------------------------------------------------------------
  // The multipack shapes: "3x100g", and a pack of the first shape written
  // after one of the second
  // ---------------------------------------------------------------------

  /** A one-digit number at `i`, with no further digit or point after it. */
  lemma OneDigitAt(s: string, i: nat)
    requires i < |s| && IsDigit(s[i])
    requires i + 1 < |s| ==> !IsDigit(s[i + 1]) && s[i + 1] != '.'
    ensures Decimal(s, i) == Some(Numeral(DigitValue(s[i]) as real, i + 1))
  {
    RunEndIs(s, i, i + 1, IsDigit);
    assert s[i..i + 1] == [s[i]];
    assert [s[i]][..0] == [];
    assert NatValue([s[i]]) == DigitValue(s[i]);
  }

  lemma HundredAt(s: string)
    requires s == "3x100g"
    ensures Decimal(s, 2) == Some(Numeral(100.0, 5))
  {
    RunEndIs(s, 2, 5, IsDigit);
    assert s[2..5] == "100";
    assert "100"[..2] == "10" && "10"[..1] == "1";
    assert NatValue("10") == 10;
  }

  /** The first unit alternative written at `i` is "g" when a 'g' stands there. */
  lemma GramsAt(s: string, i: nat)
    requires i < |s| && s[i] == 'g'
    ensures UnitAt(s, i) == Some("g")
  {
    assert UnitWords[3] == "g";
    assert s[i..i + 1] == "g";
    forall j | 0 <= j < 3
      ensures !At(s, i, UnitWords[j])
    {
      NotAtByChar(s, i, UnitWords[j], 0);
    }
    FirstAtIndex(s, i, UnitWords, 3);
  }

  lemma ThreePacksReading(s: string)
    requires s == "3x100g"
    ensures ReadQuantity(s) == Reading(Times(3.0, 100.0), "g")
  {
    assert Decimal(s, 0) == Some(Numeral(3.0, 1)) by {
      OneDigitAt(s, 0);
    }
    assert Decimal(s, 2) == Some(Numeral(100.0, 5)) by {
      HundredAt(s);
    }
    assert UnitAt(s, 5) == Some("g") by {
      GramsAt(s, 5);
    }
    FirstShapeWins(s, 0, Numeral(3.0, 1), Numeral(100.0, 5), "g");
  }

  /** "3x100g": three packs of 100 grams, that is 300 grams or 0.3 kg. */
  lemma ThreePacksOfHundredGrams()
    ensures ReadQuantity("3x100g") == Reading(300.0, "g")
    ensures ToBase(ReadQuantity("3x100g")) == Amount(0.3, Kg)
  {
    ThreePacksReading("3x100g");
    assert GramUnits[0] == "g";
  }

  lemma NoFirstShapeBeforeFive(s: string)
    requires s == "1gx2/3x4g"
    ensures forall k :: 0 <= k < 5 ==> MultipackFirstAt(s, k).None?
  {
    OneDigitAt(s, 0);
    OneDigitAt(s, 3);
    forall k | 0 <= k < 5
      ensures MultipackFirstAt(s, k).None?
    {
      assert k == 0 || k == 1 || k == 2 || k == 3 || k == 4;
    }
  }

  lemma LastShapeAtStart(s: string)
    requires s == "1gx2/3x4g"
    ensures MultipackLastAt(s, 0) == Some(Reading(Times(1.0, 2.0), "g"))
  {
    OneDigitAt(s, 0);
    OneDigitAt(s, 3);
    assert s[1..2] == "g";
    forall j | 0 <= j < 3
      ensures TimesAfterUnit(s, 1, 1.0, UnitWords[j]).None?
    {
      NotAtByChar(s, 1, UnitWords[j], 0);
    }
    LastShapeAt(s, 0, Numeral(1.0, 1), 3, "g", Numeral(2.0, 4));
  }

  lemma FirstShapeAtFive(s: string)
    requires s == "1gx2/3x4g"
    ensures ReadQuantity(s) == Reading(Times(3.0, 4.0), "g")
  {
    OneDigitAt(s, 5);
    OneDigitAt(s, 7);
    GramsAt(s, 8);
    NoFirstShapeBeforeFive(s);
    FirstShapeWins(s, 5, Numeral(3.0, 6), Numeral(4.0, 8), "g");
  }

  /**
   * In "1gx2/3x4g" the shape `N unit[x*]M` matches first, at "1gx2", but the
   * shape `N[x*]M unit` is tried first and matches further on: 12 grams.
   */
  lemma FirstShapeBeatsEarlierLastShape()
    ensures MultipackLastAt("1gx2/3x4g", 0).Some?
    ensures ReadQuantity("1gx2/3x4g") == Reading(12.0, "g")
  {
    LastShapeAtStart("1gx2/3x4g");
    FirstShapeAtFive("1gx2/3x4g");
  }

  /** A number written twice, as in "12 12", is read once. */
  lemma RepeatedNumberReadOnce()
    ensures QuantityText("12 12") == "12"
  {
    assert "12 12" == "12" + " " + "12";
    RepeatedQuantityReadOnce("12", " ");
  }

  lemma ThaiKilogramHasNoTimes()
    ensures !HasTimes("1ก.ก.")
  {
    var s := "1ก.ก.";
    forall k | 0 <= k < |s|
      ensures !IsTimes(s[k])
    {
      assert k == 0 || k == 1 || k == 2 || k == 3 || k == 4;
    }
  }

  lemma ThaiKilogramUnit()
    ensures UnitAt("1ก.ก.", 1) == Some("ก.")
  {
    var s := "1ก.ก.";
    assert UnitWords[20] == "ก.";
    assert At(s, 1, "ก.");
    forall j | 0 <= j < 20
      ensures !At(s, 1, UnitWords[j])
    {
      assert j == 0 || j == 1 || j == 2 || j == 3 || j == 4 || j == 5 || j == 6 || j == 7 || j == 8 || j == 9
        || j == 10 || j == 11 || j == 12 || j == 13 || j == 14 || j == 15 || j == 16 || j == 17 || j == 18 || j == 19;
      if j < 17 {
        NotAtByChar(s, 1, UnitWords[j], 0);
      } else {
        NotAtByChar(s, 1, UnitWords[j], 1);
      }
    }
    FirstAtIndex(s, 1, UnitWords, 20);
  }

  lemma ThaiKilogramSingle()
    ensures SingleAt("1ก.ก.", 0) == Some(Reading(1.0, "ก."))
  {
    OneAt("1ก.ก.");
    ThaiKilogramUnit();
  }

  /**
   * In "1ก.ก." (one kilogram) the alternative "ก." is tried before "ก.ก.", so
   * the unit read is "ก.", which the table takes for grams.
   */
  lemma ThaiKilogramWithPointsReadAsGrams()
    ensures ReadQuantity("1ก.ก.") == Reading(1.0, "ก.")
    ensures ToBase(ReadQuantity("1ก.ก.")) == Amount(1.0 / 1000.0, Kg)
  {
    var s := "1ก.ก.";
    ThaiKilogramHasNoTimes();
    ReadQuantityWithoutTimes(s);
    ThaiKilogramSingle();
    assert Search((i: nat) => SingleAt(s, i), s) == Some(Reading(1.0, "ก."));
    assert GramUnits[3] == "ก.";
  }
}
