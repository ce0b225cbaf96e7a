/**
 * Choosing the cheapest deal per retailer for one shopping-list item: deals are
 * folded into a table keyed by retailer that keeps the strictly cheaper unit
 * price, then listed in the retailers' first-appearance order and sorted,
 * stably, by unit price.
 */
module GroceryApi {
  import opened Wrappers

  /** A cell of a deal record as `float()` sees it: missing, a number, or something it rejects. */
  datatype Cell = Absent | Number(value: real) | Junk

  /** A scraped deal: the record fields that choosing and listing read. */
  datatype Deal = Deal(
    winner: Option<string>,
    productName: Option<string>,
    price: Cell,
    unitPrice: Cell,
    baseUnit: Option<string>)

  /**
   * One output entry. "Best Price" is `bestPrice` written as ฿ with two
   * decimals, "Unit Price" is `rawUnitPrice` written the same way followed by
   * "/" and `baseUnit`, and "_raw_unit_price" is `rawUnitPrice` itself.
   */
  datatype Offer = Offer(
    winner: string,
    productName: Option<string>,
    bestPrice: real,
    rawUnitPrice: real,
    baseUnit: string,
    queryItem: string)

  const Sentinel: real := 999999.0
  const UnknownRetailer: string := "Unknown"
  const DefaultBaseUnit: string := "unit"
  /** The field whose `float()` raised, as the error outcome names it. */
  const PriceField: string := "Price"
  const UnitPriceField: string := "Unit Price"

  /** `d.get("WINNER", "Unknown")`. */
  function Key(d: Deal): string {
    d.winner.GetOr(UnknownRetailer)
  }

  /** `float(d.get(field, default))`; `None` where `float()` raises. */
  function ToFloat(c: Cell, default: real): Option<real> {
    match c
    case Absent => Some(default)
    case Number(v) => Some(v)
    case Junk => None
  }

  /** The unit price an incoming deal is compared with: a missing or unreadable one counts as the sentinel. */
  function IncomingPrice(d: Deal): (p: real)
    ensures d.unitPrice.Number? ==> p == d.unitPrice.value
    ensures !d.unitPrice.Number? ==> p == Sentinel
  {
    ToFloat(d.unitPrice, Sentinel).GetOr(Sentinel)
  }

  // ---------------------------------------------------------------------
  // The fold into the `best` dictionary
  // ---------------------------------------------------------------------

  /** The dictionary `best`: its entries, and its keys in insertion order. */
  datatype Table = Table(best: map<string, Deal>, order: seq<string>)

  /** One turn of the loop: a new retailer is added, a known one is replaced only by a strictly lower price. */
  function Step(t: Table, d: Deal): (res: Result<Table, string>)
    ensures res.Err? <==> Key(d) in t.best && t.best[Key(d)].unitPrice.Junk?
    ensures res.Ok? ==> res.value.best.Keys == t.best.Keys + {Key(d)}
    ensures res.Ok? ==> forall k :: k in t.best && k != Key(d) ==> res.value.best[k] == t.best[k]
    ensures res.Ok? && Key(d) !in t.best ==> res.value.best[Key(d)] == d && res.value.order == t.order + [Key(d)]
    ensures res.Ok? && Key(d) in t.best ==> res.value.order == t.order
    ensures res.Ok? && Key(d) in t.best ==>
      (res.value.best[Key(d)] == d || res.value.best[Key(d)] == t.best[Key(d)])
    ensures res.Ok? && Key(d) in t.best && res.value.best[Key(d)] != t.best[Key(d)] ==>
      IncomingPrice(d) < IncomingPrice(t.best[Key(d)])
  {
    var r := Key(d);
    if r !in t.best then Ok(Table(t.best[r := d], t.order + [r]))
    else
      match ToFloat(t.best[r].unitPrice, Sentinel)
      case None => Err(UnitPriceField)
      case Some(p) => if IncomingPrice(d) < p then Ok(Table(t.best[r := d], t.order)) else Ok(t)
  }

  /** The table after the loop has seen every deal, or the error the loop raised. */
  function Fold(deals: seq<Deal>): (r: Result<Table, string>)
    ensures r.Ok? ==> forall k :: k in r.value.order <==> k in r.value.best
  {
    if deals == [] then Ok(Table(map[], []))
    else
      match Fold(deals[..|deals| - 1])
      case Err(e) => Err(e)
      case Ok(t) => Step(t, deals[|deals| - 1])
  }

  /** Once the loop has raised, later deals do not matter. */
  lemma {:induction false} FoldErrorPersists(deals: seq<Deal>, i: nat)
    requires i <= |deals| && Fold(deals[..i]).Err?
    ensures Fold(deals) == Fold(deals[..i])
    decreases |deals|
  {
    if i < |deals| {
      var pre := deals[..|deals| - 1];
      assert pre[..i] == deals[..i];
      FoldErrorPersists(pre, i);
    } else {
      assert deals[..i] == deals;
    }
  }

  /** One more deal is one more step of the loop. */
  lemma FoldNext(deals: seq<Deal>, i: nat)
    requires i < |deals| && Fold(deals[..i]).Ok?
    ensures Fold(deals[..i + 1]) == Step(Fold(deals[..i]).value, deals[i])
  {
    assert deals[..i + 1][..i] == deals[..i];
  }

  /** The retailer key of each deal, in input order. */
  function Keys(deals: seq<Deal>): (ks: seq<string>)
    ensures |ks| == |deals|
    ensures forall i :: 0 <= i < |deals| ==> ks[i] == Key(deals[i])
  {
    seq(|deals|, i requires 0 <= i < |deals| => Key(deals[i]))
  }

  /** Where `k` first occurs in `ks`, or `|ks|` if it does not. */
  function Position(ks: seq<string>, k: string): (p: nat)
    ensures p <= |ks|
    ensures p < |ks| <==> k in ks
    ensures p < |ks| ==> ks[p] == k
    ensures forall j :: 0 <= j < p ==> ks[j] != k
  {
    if ks == [] then 0 else if ks[0] == k then 0 else 1 + Position(ks[1..], k)
  }

  lemma PositionAppend(ks: seq<string>, k: string, x: string)
    ensures x in ks ==> Position(ks + [k], x) == Position(ks, x)
    ensures x !in ks && x == k ==> Position(ks + [k], x) == |ks|
  {
    var p := Position(ks + [k], x);
    if x in ks {
      var q := Position(ks, x);
      assert (ks + [k])[q] == x;
    } else if x == k {
      assert (ks + [k])[|ks|] == x;
    }
  }

  /**
   * What the table holds after a prefix of the deals: each key maps to one of
   * its own deals, every deal's key is present, each kept deal is the cheapest
   * of its retailer, and the keys are listed in order of first appearance.
   */
  predicate Valid(deals: seq<Deal>, t: Table) {
    && (forall r :: r in t.best ==> Key(t.best[r]) == r && t.best[r] in deals)
    && (forall d :: d in deals ==> Key(d) in t.best)
    && (forall d :: d in deals && Key(d) in t.best ==> IncomingPrice(t.best[Key(d)]) <= IncomingPrice(d))
    && (forall k :: k in t.order ==> k in Keys(deals))
    && (forall a, b :: 0 <= a < b < |t.order| ==>
          Position(Keys(deals), t.order[a]) < Position(Keys(deals), t.order[b]))
  }

  lemma {:induction false} FoldValid(deals: seq<Deal>)
    requires Fold(deals).Ok?
    ensures Valid(deals, Fold(deals).value)
    decreases |deals|
  {
    if deals != [] {
      var pre := deals[..|deals| - 1];
      var d := deals[|deals| - 1];
      assert deals == pre + [d];
      FoldValid(pre);
      StepValid(pre, Fold(pre).value, d);
    }
  }

  /** One turn of the loop keeps the table valid. */
  lemma StepValid(pre: seq<Deal>, t: Table, d: Deal)
    requires Valid(pre, t) && Step(t, d).Ok?
    ensures Valid(pre + [d], Step(t, d).value)
  {
    PrefixKeys(pre, t, d);
    StepOrderValid(pre, t, d);
    StepBestValid(pre, t, d);
  }

  /** Appending a deal moves no earlier retailer's first position. */
  lemma PrefixKeys(pre: seq<Deal>, t: Table, d: Deal)
    requires Valid(pre, t)
    ensures forall x :: x in Keys(pre) ==>
      x in t.best && Position(Keys(pre + [d]), x) == Position(Keys(pre), x)
  {
    assert Keys(pre + [d]) == Keys(pre) + [Key(d)];
    forall x | x in Keys(pre)
      ensures x in t.best
      ensures Position(Keys(pre + [d]), x) == Position(Keys(pre), x)
    {
      var i :| 0 <= i < |pre| && Keys(pre)[i] == x;
      assert pre[i] in pre;
      PositionAppend(Keys(pre), Key(d), x);
    }
  }

  lemma StepOrderValid(pre: seq<Deal>, t: Table, d: Deal)
    requires Valid(pre, t) && Step(t, d).Ok?
    requires forall x :: x in Keys(pre) ==> Position(Keys(pre + [d]), x) == Position(Keys(pre), x)
    ensures var order := Step(t, d).value.order;
      && (forall k :: k in order ==> k in Keys(pre + [d]))
      && (forall a, b :: 0 <= a < b < |order| ==>
            Position(Keys(pre + [d]), order[a]) < Position(Keys(pre + [d]), order[b]))
  {
    var r := Key(d);
    assert Keys(pre + [d]) == Keys(pre) + [r];
    if r !in t.best {
      PositionAppend(Keys(pre), r, r);
      assert Keys(pre + [d])[|pre|] == r;
      AppendOrderValid(pre, t, d);
    } else {
      assert Step(t, d).value.order == t.order;
      KeepOrderValid(pre, t, d);
    }
  }

  lemma AppendOrderValid(pre: seq<Deal>, t: Table, d: Deal)
    requires Valid(pre, t) && Key(d) !in t.best
    requires forall x :: x in Keys(pre) ==> Position(Keys(pre + [d]), x) == Position(Keys(pre), x)
    requires Position(Keys(pre + [d]), Key(d)) == |pre|
    ensures var order := t.order + [Key(d)];
      forall a, b :: 0 <= a < b < |order| ==>
        Position(Keys(pre + [d]), order[a]) < Position(Keys(pre + [d]), order[b])
  {
  }

  lemma KeepOrderValid(pre: seq<Deal>, t: Table, d: Deal)
    requires Valid(pre, t)
    requires Keys(pre + [d]) == Keys(pre) + [Key(d)]
    requires forall x :: x in Keys(pre) ==> Position(Keys(pre + [d]), x) == Position(Keys(pre), x)
    ensures forall k :: k in t.order ==> k in Keys(pre + [d])
    ensures forall a, b :: 0 <= a < b < |t.order| ==>
      Position(Keys(pre + [d]), t.order[a]) < Position(Keys(pre + [d]), t.order[b])
  {
  }

  lemma StepBestValid(pre: seq<Deal>, t: Table, d: Deal)
    requires Valid(pre, t) && Step(t, d).Ok?
    requires forall x :: x in Keys(pre) ==> x in t.best
    ensures var t' := Step(t, d).value;
      && (forall r :: r in t'.best ==> Key(t'.best[r]) == r && t'.best[r] in pre + [d])
      && (forall e :: e in pre + [d] ==> Key(e) in t'.best)
      && (forall e :: e in pre + [d] && Key(e) in t'.best ==> IncomingPrice(t'.best[Key(e)]) <= IncomingPrice(e))
  {
  }

  /** The deal at `i` is the first of its retailer's cheapest: earlier ones cost more, later ones no less. */
  predicate FirstCheapest(deals: seq<Deal>, i: nat)
    requires i < |deals|
  {
    && (forall j :: 0 <= j < i && Key(deals[j]) == Key(deals[i]) ==> IncomingPrice(deals[j]) > IncomingPrice(deals[i]))
    && (forall j :: i < j < |deals| && Key(deals[j]) == Key(deals[i]) ==> IncomingPrice(deals[j]) >= IncomingPrice(deals[i]))
  }

  /** The deal kept for a retailer is its first cheapest one: ties go to the earliest, as the comparison is strict. */
  lemma {:induction false} KeptIsFirstCheapest(deals: seq<Deal>, r: string) returns (i: nat)
    requires Fold(deals).Ok? && r in Fold(deals).value.best
    ensures i < |deals| && deals[i] == Fold(deals).value.best[r] && Key(deals[i]) == r
    ensures FirstCheapest(deals, i)
    decreases |deals|
  {
    var pre := deals[..|deals| - 1];
    var d := deals[|deals| - 1];
    assert deals == pre + [d];
    var t := Fold(pre).value;
    assert Fold(deals) == Step(t, d);
    var t' := Step(t, d).value;
    if Key(d) == r && (r !in t.best || IncomingPrice(d) < IncomingPrice(t.best[r])) {
      i := |pre|;
      assert t'.best[r] == d;
      FoldValid(pre);
      NewDealFirstCheapest(pre, t, d);
    } else {
      assert r in t.best && t'.best[r] == t.best[r];
      i := KeptIsFirstCheapest(pre, r);
      assert deals[i] == pre[i];
      KeepFirstCheapest(pre, d, i);
    }
  }

  /** A deal of a new retailer, or one strictly cheaper than the kept one, is first cheapest so far. */
  lemma NewDealFirstCheapest(pre: seq<Deal>, t: Table, d: Deal)
    requires Valid(pre, t)
    requires Key(d) !in t.best || IncomingPrice(d) < IncomingPrice(t.best[Key(d)])
    ensures FirstCheapest(pre + [d], |pre|)
  {
    var deals := pre + [d];
    forall j | 0 <= j < |pre| && Key(deals[j]) == Key(d)
      ensures IncomingPrice(deals[j]) > IncomingPrice(d)
    {
      assert deals[j] == pre[j] && pre[j] in pre;
    }
  }

  /** A first-cheapest deal stays so when a deal of another retailer, or a dearer or equal one, follows. */
  lemma KeepFirstCheapest(pre: seq<Deal>, d: Deal, i: nat)
    requires i < |pre| && FirstCheapest(pre, i)
    requires Key(d) == Key(pre[i]) ==> IncomingPrice(d) >= IncomingPrice(pre[i])
    ensures FirstCheapest(pre + [d], i)
  {
    var deals := pre + [d];
    assert forall j :: 0 <= j < |pre| ==> deals[j] == pre[j];
  }

  // ---------------------------------------------------------------------
  // The output entries, and the sort
  // ---------------------------------------------------------------------

  /** The entry for retailer `r` and its kept deal; the price conversions raise on junk. */
  function MakeOffer(item: string, r: string, d: Deal): (o: Result<Offer, string>)
    ensures o.Ok? ==> o.value.winner == r && o.value.queryItem == item && o.value.productName == d.productName
    ensures o.Ok? <==> ToFloat(d.price, 0.0).Some? && ToFloat(d.unitPrice, 0.0).Some?
    ensures o.Ok? ==>
      (&& Some(o.value.bestPrice) == ToFloat(d.price, 0.0)
       && Some(o.value.rawUnitPrice) == ToFloat(d.unitPrice, 0.0)
       && o.value.baseUnit == d.baseUnit.GetOr(DefaultBaseUnit))
  {
    match ToFloat(d.price, 0.0)
    case None => Err(PriceField)
    case Some(p) =>
      match ToFloat(d.unitPrice, 0.0)
      case None => Err(UnitPriceField)
      case Some(u) => Ok(Offer(r, d.productName, p, u, d.baseUnit.GetOr(DefaultBaseUnit), item))
  }

  /** The entries for the retailers of `order`, in that order, or the first conversion error. */
  function Offers(item: string, best: map<string, Deal>, order: seq<string>): (r: Result<seq<Offer>, string>)
    requires forall k :: k in order ==> k in best
    ensures r.Ok? ==> |r.value| == |order|
    ensures r.Ok? ==> forall k :: 0 <= k < |order| ==> MakeOffer(item, order[k], best[order[k]]) == Ok(r.value[k])
  {
    if order == [] then Ok([])
    else
      match Offers(item, best, order[..|order| - 1])
      case Err(e) => Err(e)
      case Ok(os) =>
        match MakeOffer(item, order[|order| - 1], best[order[|order| - 1]])
        case Err(e) => Err(e)
        case Ok(o) => Ok(os + [o])
  }

  lemma {:induction false} OffersErrorPersists(item: string, best: map<string, Deal>, order: seq<string>, i: nat)
    requires forall k :: k in order ==> k in best
    requires i <= |order| && Offers(item, best, order[..i]).Err?
    ensures Offers(item, best, order) == Offers(item, best, order[..i])
    decreases |order|
  {
    if i < |order| {
      var pre := order[..|order| - 1];
      assert pre[..i] == order[..i];
      OffersErrorPersists(item, best, pre, i);
    } else {
      assert order[..i] == order;
    }
  }

  predicate SortedByUnitPrice(os: seq<Offer>) {
    forall a, b :: 0 <= a < b < |os| ==> os[a].rawUnitPrice <= os[b].rawUnitPrice
  }

  function InsertByUnitPrice(o: Offer, os: seq<Offer>): (r: seq<Offer>)
    requires SortedByUnitPrice(os)
    ensures SortedByUnitPrice(r)
    ensures multiset(r) == multiset(os) + multiset{o}
    ensures |r| == |os| + 1
    ensures r[0] == o || (os != [] && r[0] == os[0])
  {
    if os == [] || o.rawUnitPrice <= os[0].rawUnitPrice then
      InsertFirst(o, os);
      [o] + os
    else
      var rest := InsertByUnitPrice(o, os[1..]);
      assert os == [os[0]] + os[1..];
      InsertFirst(os[0], rest);
      [os[0]] + rest
  }

  lemma InsertFirst(first: Offer, rest: seq<Offer>)
    requires SortedByUnitPrice(rest) && (rest != [] ==> first.rawUnitPrice <= rest[0].rawUnitPrice)
    ensures SortedByUnitPrice([first] + rest)
  {
    var r := [first] + rest;
    forall a, b | 0 <= a < b < |r|
      ensures r[a].rawUnitPrice <= r[b].rawUnitPrice
    {
      if a == 0 && b > 1 {
        assert rest[0].rawUnitPrice <= rest[b - 1].rawUnitPrice;
      }
    }
  }

  /** `out.sort(key=lambda x: x["_raw_unit_price"])`: Python's sort is stable, as is this insertion sort. */
  function SortByUnitPrice(os: seq<Offer>): (r: seq<Offer>)
    ensures SortedByUnitPrice(r)
    ensures multiset(r) == multiset(os)
    ensures |r| == |os|
  {
    if os == [] then []
    else
      assert os == [os[0]] + os[1..];
      InsertByUnitPrice(os[0], SortByUnitPrice(os[1..]))
  }

  /**
   * Entries whose retailers are told apart by first appearance in `keys`, and
   * of any two the earlier is strictly cheaper or its retailer appeared first.
   */
  predicate TieOrdered(keys: seq<string>, os: seq<Offer>) {
    forall a, b :: 0 <= a < b < |os| ==>
      && Position(keys, os[a].winner) != Position(keys, os[b].winner)
      && (os[a].rawUnitPrice < os[b].rawUnitPrice || Position(keys, os[a].winner) < Position(keys, os[b].winner))
  }

  /** Every entry of a permutation of `os` is one of `os`, at some index. */
  lemma EntryOf(os: seq<Offer>, ps: seq<Offer>, k: nat) returns (j: nat)
    requires multiset(ps) == multiset(os) && k < |ps|
    ensures j < |os| && os[j] == ps[k]
  {
    assert ps[k] in multiset(os);
    j :| 0 <= j < |os| && os[j] == ps[k];
  }

  lemma {:induction false} InsertKeepsTieOrder(keys: seq<string>, o: Offer, os: seq<Offer>)
    requires SortedByUnitPrice(os) && TieOrdered(keys, os)
    requires forall k :: 0 <= k < |os| ==> Position(keys, o.winner) < Position(keys, os[k].winner)
    ensures TieOrdered(keys, InsertByUnitPrice(o, os))
    decreases |os|
  {
    if os != [] && o.rawUnitPrice > os[0].rawUnitPrice {
      var tail := os[1..];
      var rest := InsertByUnitPrice(o, tail);
      InsertKeepsTieOrder(keys, o, tail);
      HeadBeforeInserted(keys, o, os, rest);
      assert InsertByUnitPrice(o, os) == [os[0]] + rest;
      TieOrderedCons(keys, os[0], rest);
    } else {
      TieOrderedCons(keys, o, os);
    }
  }

  /** The head of `os`, cheaper than `o`, stays ahead of everything `o` is inserted among. */
  lemma HeadBeforeInserted(keys: seq<string>, o: Offer, os: seq<Offer>, rest: seq<Offer>)
    requires SortedByUnitPrice(os) && TieOrdered(keys, os) && os != [] && o.rawUnitPrice > os[0].rawUnitPrice
    requires forall k :: 0 <= k < |os| ==> Position(keys, o.winner) < Position(keys, os[k].winner)
    requires rest == InsertByUnitPrice(o, os[1..])
    ensures forall b :: 0 <= b < |rest| ==>
        && Position(keys, os[0].winner) != Position(keys, rest[b].winner)
        && (os[0].rawUnitPrice < rest[b].rawUnitPrice || Position(keys, os[0].winner) < Position(keys, rest[b].winner))
  {
    var tail := os[1..];
    forall b | 0 <= b < |rest|
      ensures Position(keys, os[0].winner) != Position(keys, rest[b].winner)
      ensures os[0].rawUnitPrice < rest[b].rawUnitPrice || Position(keys, os[0].winner) < Position(keys, rest[b].winner)
    {
      var j := EntryOf(tail + [o], rest, b);
      if j < |tail| {
        assert rest[b] == os[j + 1];
      }
    }
  }

  /** An entry set before a tie-ordered run, and ordered against each of its entries, keeps it tie-ordered. */
  lemma TieOrderedCons(keys: seq<string>, x: Offer, rest: seq<Offer>)
    requires TieOrdered(keys, rest)
    requires forall b :: 0 <= b < |rest| ==>
      && Position(keys, x.winner) != Position(keys, rest[b].winner)
      && (x.rawUnitPrice < rest[b].rawUnitPrice || Position(keys, x.winner) < Position(keys, rest[b].winner))
    ensures TieOrdered(keys, [x] + rest)
  {
    var r := [x] + rest;
    forall a, b | 0 <= a < b < |r|
      ensures Position(keys, r[a].winner) != Position(keys, r[b].winner)
      ensures r[a].rawUnitPrice < r[b].rawUnitPrice || Position(keys, r[a].winner) < Position(keys, r[b].winner)
    {
      if a > 0 {
        assert r[a] == rest[a - 1] && r[b] == rest[b - 1];
      } else {
        assert r[b] == rest[b - 1];
      }
    }
  }

  /** Sorting entries listed in first-appearance order leaves equal prices in that order. */
  lemma {:induction false} SortKeepsTieOrder(keys: seq<string>, os: seq<Offer>)
    requires forall a, b :: 0 <= a < b < |os| ==> Position(keys, os[a].winner) < Position(keys, os[b].winner)
    ensures TieOrdered(keys, SortByUnitPrice(os))
    decreases |os|
  {
    if os != [] {
      var tail := os[1..];
      var sorted := SortByUnitPrice(tail);
      assert os == [os[0]] + tail;
      assert SortByUnitPrice(os) == InsertByUnitPrice(os[0], sorted);
      SortKeepsTieOrder(keys, tail);
      forall k | 0 <= k < |sorted|
        ensures Position(keys, os[0].winner) < Position(keys, sorted[k].winner)
      {
        var j := EntryOf(tail, sorted, k);
        assert sorted[k] == os[j + 1];
      }
      InsertKeepsTieOrder(keys, os[0], sorted);
    }
  }

  /** `best_per_retailer` as a whole: fold, list, sort. */
  function BestDeals(item: string, deals: seq<Deal>): Result<seq<Offer>, string> {
    match Fold(deals)
    case Err(e) => Err(e)
    case Ok(t) =>
      match Offers(item, t.best, t.order)
      case Err(e) => Err(e)
      case Ok(os) => Ok(SortByUnitPrice(os))
  }

  /** `best_per_retailer(item, deals)`. */
  method BestPerRetailer(item: string, deals: seq<Deal>) returns (out: Result<seq<Offer>, string>)
    ensures out == BestDeals(item, deals)
    ensures deals == [] ==> out == Ok([])
  {
    var best: map<string, Deal> := map[];
    var order: seq<string> := [];
    for i := 0 to |deals|
      invariant Fold(deals[..i]) == Ok(Table(best, order))
    {
      var d := deals[i];
      var r := Key(d);
      var up := IncomingPrice(d);
      FoldNext(deals, i);
      if r !in best {
        best := best[r := d];
        order := order + [r];
      } else {
        var stored := ToFloat(best[r].unitPrice, Sentinel);
        if stored.None? {
          FoldErrorPersists(deals, i + 1);
          return Err(UnitPriceField);
        }
        if up < stored.value {
          best := best[r := d];
        }
      }
    }
    assert deals[..|deals|] == deals;

    var offers: seq<Offer> := [];
    for k := 0 to |order|
      invariant Offers(item, best, order[..k]) == Ok(offers)
    {
      var r := order[k];
      var o := MakeOffer(item, r, best[r]);
      assert order[..k + 1][..k] == order[..k];
      if o.Err? {
        OffersErrorPersists(item, best, order, k + 1);
        return Err(o.error);
      }
      offers := offers + [o.value];
    }
    assert order[..|order|] == order;
    out := Ok(SortByUnitPrice(offers));
  }

  // ---------------------------------------------------------------------
  // What the listing promises
  // ---------------------------------------------------------------------

  /**
   * The listing is sorted by unit price, names no retailer twice, and lists
   * retailers of equal unit price in the order they first appeared among the
   * deals.
   */
  lemma BestDealsListing(item: string, deals: seq<Deal>)
    requires BestDeals(item, deals).Ok?
    ensures var out := BestDeals(item, deals).value;
      && SortedByUnitPrice(out)
      && (forall a, b :: 0 <= a < b < |out| ==> out[a].winner != out[b].winner)
      && (forall a, b :: 0 <= a < b < |out| && out[a].rawUnitPrice == out[b].rawUnitPrice ==>
            Position(Keys(deals), out[a].winner) < Position(Keys(deals), out[b].winner))
  {
    var t := Fold(deals).value;
    var os := Offers(item, t.best, t.order).value;
    OffersInFirstAppearance(item, deals, os);
    SortKeepsTieOrder(Keys(deals), os);
  }

  /** Before sorting, the entries follow the retailers' first appearance. */
  lemma OffersInFirstAppearance(item: string, deals: seq<Deal>, os: seq<Offer>)
    requires Fold(deals).Ok?
    requires Offers(item, Fold(deals).value.best, Fold(deals).value.order) == Ok(os)
    ensures forall a, b :: 0 <= a < b < |os| ==> Position(Keys(deals), os[a].winner) < Position(Keys(deals), os[b].winner)
  {
    var t := Fold(deals).value;
    FoldOrdered(deals);
    forall k | 0 <= k < |os|
      ensures os[k].winner == t.order[k]
    {
      assert MakeOffer(item, t.order[k], t.best[t.order[k]]) == Ok(os[k]);
    }
  }

  /** The retailers are kept in order of first appearance. */
  lemma FoldOrdered(deals: seq<Deal>)
    requires Fold(deals).Ok?
    ensures var order := Fold(deals).value.order;
      forall a, b :: 0 <= a < b < |order| ==> Position(Keys(deals), order[a]) < Position(Keys(deals), order[b])
  {
    FoldValid(deals);
  }

  /** Every entry is for a retailer that has a deal, and carries the query item. */
  lemma BestDealsDrawn(item: string, deals: seq<Deal>)
    requires BestDeals(item, deals).Ok?
    ensures var out := BestDeals(item, deals).value;
      forall k :: 0 <= k < |out| ==> out[k].winner in Keys(deals) && out[k].queryItem == item
  {
    var t := Fold(deals).value;
    var os := Offers(item, t.best, t.order).value;
    var out := SortByUnitPrice(os);
    FoldValid(deals);
    forall k | 0 <= k < |out|
      ensures out[k].winner in Keys(deals) && out[k].queryItem == item
    {
      var j := EntryOf(os, out, k);
      assert MakeOffer(item, t.order[j], t.best[t.order[j]]) == Ok(os[j]);
      assert t.order[j] in t.order;
    }
  }

  /** Every deal's retailer (or "Unknown") has an entry. */
  lemma BestDealsCoverage(item: string, deals: seq<Deal>)
    requires BestDeals(item, deals).Ok?
    ensures var out := BestDeals(item, deals).value;
      forall d :: d in deals ==> exists k :: 0 <= k < |out| && out[k].winner == Key(d)
  {
    var t := Fold(deals).value;
    var os := Offers(item, t.best, t.order).value;
    var out := SortByUnitPrice(os);
    FoldValid(deals);
    forall d | d in deals
      ensures exists k :: 0 <= k < |out| && out[k].winner == Key(d)
    {
      var m :| 0 <= m < |t.order| && t.order[m] == Key(d);
      assert MakeOffer(item, t.order[m], t.best[t.order[m]]) == Ok(os[m]);
      var k := EntryOf(out, os, m);
    }
  }

  /**
   * Each entry is made from its retailer's first cheapest deal: its name, its
   * price and unit price as `float()` reads them with 0 for a missing one, and
   * its base unit or "unit".
   */
  lemma OfferFromFirstCheapest(item: string, deals: seq<Deal>, k: nat) returns (i: nat)
    requires BestDeals(item, deals).Ok? && k < |BestDeals(item, deals).value|
    ensures i < |deals| && FirstCheapest(deals, i)
    ensures var o := BestDeals(item, deals).value[k];
      && o.winner == Key(deals[i])
      && o.productName == deals[i].productName
      && Some(o.bestPrice) == ToFloat(deals[i].price, 0.0)
      && Some(o.rawUnitPrice) == ToFloat(deals[i].unitPrice, 0.0)
      && o.baseUnit == deals[i].baseUnit.GetOr(DefaultBaseUnit)
      && o.queryItem == item
  {
    var t := Fold(deals).value;
    var os := Offers(item, t.best, t.order).value;
    var out := SortByUnitPrice(os);
    var m := EntryOf(os, out, k);
    var r := t.order[m];
    assert MakeOffer(item, r, t.best[r]) == Ok(out[k]);
    i := KeptIsFirstCheapest(deals, r);
  }

  /** Without an unreadable price anywhere, the listing never fails. */
  lemma NoJunkNoError(item: string, deals: seq<Deal>)
    requires forall d :: d in deals ==> !d.price.Junk? && !d.unitPrice.Junk?
    ensures BestDeals(item, deals).Ok?
  {
    FoldNoJunk(deals);
    var t := Fold(deals).value;
    FoldValid(deals);
    OffersOk(item, t.best, t.order);
  }

  lemma {:induction false} FoldNoJunk(deals: seq<Deal>)
    requires forall d :: d in deals ==> !d.unitPrice.Junk?
    ensures Fold(deals).Ok?
    decreases |deals|
  {
    if deals != [] {
      var pre := deals[..|deals| - 1];
      assert forall d :: d in pre ==> d in deals;
      FoldNoJunk(pre);
      FoldValid(pre);
    }
  }

  lemma {:induction false} OffersOk(item: string, best: map<string, Deal>, order: seq<string>)
    requires forall k :: k in order ==> k in best
    requires forall k :: k in order ==> !best[k].price.Junk? && !best[k].unitPrice.Junk?
    ensures Offers(item, best, order).Ok?
    decreases |order|
  {
    if order != [] {
      var pre := order[..|order| - 1];
      assert forall k :: k in pre ==> k in order;
      OffersOk(item, best, pre);
    }
  }

  /**
   * A kept deal with an unreadable unit price makes the next deal of its
   * retailer raise, and the listing fails whatever deals come after.
   */
  lemma JunkKeptPriceFailsOnRepeat(item: string, pre: seq<Deal>, d: Deal, rest: seq<Deal>)
    requires Fold(pre).Ok? && Key(d) in Fold(pre).value.best
    requires Fold(pre).value.best[Key(d)].unitPrice.Junk?
    ensures Fold(pre + [d]) == Err(UnitPriceField)
    ensures BestDeals(item, pre + [d] + rest) == Err(UnitPriceField)
  {
    var deals := pre + [d] + rest;
    assert (pre + [d])[..|pre|] == pre;
    assert deals[..|pre| + 1] == pre + [d];
    FoldErrorPersists(deals, |pre| + 1);
  }

  /** The smallest case: two deals of one retailer, the first with an unreadable unit price. */
  lemma JunkFirstFailsSecond(item: string, first: Deal, second: Deal)
    requires Key(first) == Key(second) && first.unitPrice.Junk?
    ensures BestDeals(item, [first, second]) == Err(UnitPriceField)
  {
    var k := Key(first);
    var empty := Table(map[], []);
    assert [first][..0] == [];
    assert Fold([first][..0]) == Ok(empty);
    assert [] + [k] == [k];
    assert Step(empty, first) == Ok(Table(map[k := first], [k]));
    assert Fold([first]) == Ok(Table(map[k := first], [k]));
    JunkKeptPriceFailsOnRepeat(item, [first], second, []);
    assert [first] + [second] + [] == [first, second];
  }
}
