/**
 * The lexical product matcher: a query is scored against every scraped record
 * by a similarity ratio, plus a fixed bonus when the query occurs in the
 * record's name; records under the threshold are dropped and the rest are
 * ranked best first, at most twenty of them.
 */
module AiMatcher {
  import opened Wrappers
  import opened PyText

  /** `_norm`: `None` and "" give "", whitespace runs become one blank, then strip and lower. */
  function Norm(s: Option<string>): (r: string)
    ensures s == None || s == Some([]) ==> r == []
    ensures r == Lower(Join(Words(s.GetOr([]))))
    ensures IsClean(r)
    ensures Lower(r) == r
    ensures NonSpace(r) == Lower(NonSpace(s.GetOr([])))
  {
    var t := s.GetOr([]);
    var c := CollapseAndStrip(t);
    CollapseAndStripIsClean(t);
    CollapseAndStripIsJoinedWords(t);
    LowerOfClean(c);
    LowerIdempotent(c);
    NonSpaceLower(c);
    Lower(c)
  }

  /** Normalising a normalised string changes nothing. */
  lemma NormIdempotent(s: Option<string>)
    ensures Norm(Some(Norm(s))) == Norm(s)
  {
    CollapseAndStripOfClean(Norm(s));
  }

  /**
   * `SequenceMatcher(None, a, b).ratio()`, a library similarity measure that
   * this model leaves abstract: any function into [0, 1].
   */
  type Ratio = f: (string, string) -> real | forall a, b :: 0.0 <= f(a, b) <= 1.0
    witness (a: string, b: string) => 0.0

  /** A scraped record: its "Product Name" (as `str()` gives it) and its other columns. */
  datatype Row = Row(name: string, columns: map<string, string>)

  /** A record that passed, with the "score" column `find_matches` adds to it. */
  datatype Match = Match(row: Row, score: real)

  /** The default of `find_matches`' `threshold` parameter. */
  const DefaultThreshold: real := 0.25
  const Bonus: real := 0.4
  const MaxResults: nat := 20

  /** `calculate_similarity`: the ratio of the lower-cased strings. */
  function CalculateSimilarity(ratio: Ratio, a: string, b: string): (r: real)
    ensures 0.0 <= r <= 1.0
  {
    ratio(Lower(a), Lower(b))
  }

  /** The similarity does not depend on letter case. */
  lemma SimilarityIgnoresCase(ratio: Ratio, a: string, b: string)
    ensures CalculateSimilarity(ratio, Lower(a), Lower(b)) == CalculateSimilarity(ratio, a, b)
  {
    LowerIdempotent(a);
    LowerIdempotent(b);
  }

  /** `_is_trap`: a placeholder that never rejects a record. */
  function IsTrap(name: string, query: string): (r: bool)
    ensures !r
  {
    false
  }

  /** The score of one record: the similarity, plus the bonus when the query occurs in the name. */
  function Score(ratio: Ratio, q: string, name: string): (r: real)
    ensures 0.0 <= r <= 1.0 + Bonus
    ensures Contains(Lower(name), Lower(q)) ==> r >= Bonus
    ensures r > 1.0 ==> Contains(Lower(name), Lower(q))
  {
    CalculateSimilarity(ratio, q, name) + (if Contains(Lower(name), Lower(q)) then Bonus else 0.0)
  }

  /** A query that strips to nothing occurs in every name, so every record gets the bonus. */
  lemma BlankQueryBonus(ratio: Ratio, userQuery: string, name: string)
    requires Strip(userQuery) == []
    ensures Score(ratio, Strip(userQuery), name) == CalculateSimilarity(ratio, [], name) + Bonus
  {
    ContainsEmpty(Lower(name));
  }

  /** The records that reach the threshold, in input order, each with its score. */
  function Passing(ratio: Ratio, q: string, rows: seq<Row>, threshold: real): (r: seq<Match>)
    ensures |r| <= |rows|
  {
    if rows == [] then []
    else
      var rest := Passing(ratio, q, rows[..|rows| - 1], threshold);
      var last := rows[|rows| - 1];
      assert rows == rows[..|rows| - 1] + [last];
      var s := Score(ratio, q, last.name);
      if s >= threshold then rest + [Match(last, s)] else rest
  }

  /** One more record extends the passing list by that record, if it scores enough. */
  lemma PassingStep(ratio: Ratio, q: string, rows: seq<Row>, row: Row, threshold: real)
    ensures Passing(ratio, q, rows + [row], threshold) ==
      if Score(ratio, q, row.name) >= threshold
      then Passing(ratio, q, rows, threshold) + [Match(row, Score(ratio, q, row.name))]
      else Passing(ratio, q, rows, threshold)
  {
    assert (rows + [row])[..|rows|] == rows;
  }

  /** The same, for the prefixes of one list of records. */
  lemma PassingNext(ratio: Ratio, q: string, rows: seq<Row>, i: nat, threshold: real)
    requires i < |rows|
    ensures Passing(ratio, q, rows[..i + 1], threshold) ==
      if Score(ratio, q, rows[i].name) >= threshold
      then Passing(ratio, q, rows[..i], threshold) + [Match(rows[i], Score(ratio, q, rows[i].name))]
      else Passing(ratio, q, rows[..i], threshold)
  {
    assert rows[..i + 1] == rows[..i] + [rows[i]];
    PassingStep(ratio, q, rows[..i], rows[i], threshold);
  }

  /** Each passing entry is a record with its own score, at least the threshold. */
  lemma {:induction false} PassingSound(ratio: Ratio, q: string, rows: seq<Row>, threshold: real)
    ensures forall k :: 0 <= k < |Passing(ratio, q, rows, threshold)| ==>
      var m := Passing(ratio, q, rows, threshold)[k];
      m.row in rows && m.score == Score(ratio, q, m.row.name) && m.score >= threshold
    decreases |rows|
  {
    if rows != [] {
      var pre := rows[..|rows| - 1];
      var last := rows[|rows| - 1];
      assert rows == pre + [last];
      PassingSound(ratio, q, pre, threshold);
      PassingStep(ratio, q, pre, last, threshold);
    }
  }

  /** Every record that scores at least the threshold passes. */
  lemma {:induction false} PassingComplete(ratio: Ratio, q: string, rows: seq<Row>, threshold: real)
    ensures forall row :: row in rows && Score(ratio, q, row.name) >= threshold ==>
      Match(row, Score(ratio, q, row.name)) in Passing(ratio, q, rows, threshold)
    decreases |rows|
  {
    if rows != [] {
      var pre := rows[..|rows| - 1];
      var last := rows[|rows| - 1];
      assert rows == pre + [last];
      PassingComplete(ratio, q, pre, threshold);
      PassingStep(ratio, q, pre, last, threshold);
    }
  }

  /**
   * The bonus alone reaches the default threshold, so under it every record
   * whose name contains the query passes, whatever its similarity.
   */
  lemma ContainedNamePassesDefault(ratio: Ratio, q: string, rows: seq<Row>, row: Row)
    requires row in rows && Contains(Lower(row.name), Lower(q))
    ensures Match(row, Score(ratio, q, row.name)) in Passing(ratio, q, rows, DefaultThreshold)
  {
    PassingComplete(ratio, q, rows, DefaultThreshold);
  }

  /** With a blank query and a threshold no higher than the bonus, every record passes. */
  lemma {:induction false} BlankQueryKeepsEveryRow(ratio: Ratio, q: string, rows: seq<Row>, threshold: real)
    requires q == [] && threshold <= Bonus
    ensures |Passing(ratio, q, rows, threshold)| == |rows|
  {
    if rows != [] {
      BlankQueryKeepsEveryRow(ratio, q, rows[..|rows| - 1], threshold);
      ContainsEmpty(Lower(rows[|rows| - 1].name));
    }
  }

  /** The records the (disabled) trap rules would keep. */
  function Untrapped(rows: seq<Row>, q: string): (r: seq<Row>)
    ensures |r| <= |rows|
  {
    if rows == [] then []
    else
      var rest := Untrapped(rows[1..], q);
      if IsTrap(rows[0].name, q) then rest else [rows[0]] + rest
  }

  /** Filtering by the trap rules keeps every record, so leaving the call out changes nothing. */
  lemma {:induction false} UntrappedKeepsAll(rows: seq<Row>, q: string)
    ensures Untrapped(rows, q) == rows
  {
    if rows != [] {
      UntrappedKeepsAll(rows[1..], q);
    }
  }

  // ---------------------------------------------------------------------
  // Ranking: best score first, then the first twenty
  // ---------------------------------------------------------------------

  predicate SortedByScore(ms: seq<Match>) {
    forall j, k :: 0 <= j < k < |ms| ==> ms[j].score >= ms[k].score
  }

  function Insert(m: Match, ms: seq<Match>): (r: seq<Match>)
    requires SortedByScore(ms)
    ensures SortedByScore(r)
    ensures multiset(r) == multiset(ms) + multiset{m}
    ensures |r| == |ms| + 1
    ensures r[0] == m || (ms != [] && r[0] == ms[0])
  {
    if ms == [] || m.score >= ms[0].score then
      InsertAfter(m, ms);
      [m] + ms
    else
      var rest := Insert(m, ms[1..]);
      assert ms == [ms[0]] + ms[1..];
      assert ms[0].score >= rest[0].score by {
        if ms[1..] != [] {
          assert ms[0].score >= ms[1].score;
        }
      }
      InsertAfter(ms[0], rest);
      assert multiset([ms[0]] + rest) == multiset{ms[0]} + multiset(rest);
      [ms[0]] + rest
  }

  lemma InsertAfter(first: Match, rest: seq<Match>)
    requires SortedByScore(rest) && (rest != [] ==> first.score >= rest[0].score)
    ensures SortedByScore([first] + rest)
  {
    var r := [first] + rest;
    forall j, k | 0 <= j < k < |r|
      ensures r[j].score >= r[k].score
    {
      if j == 0 && k > 1 {
        assert rest[0].score >= rest[k - 1].score;
      }
    }
  }

  /** `sort_values(by="score", ascending=False)`, up to the order of equal scores. */
  function SortByScore(ms: seq<Match>): (r: seq<Match>)
    ensures SortedByScore(r)
    ensures multiset(r) == multiset(ms)
  {
    if ms == [] then []
    else
      assert ms == [ms[0]] + ms[1..];
      Insert(ms[0], SortByScore(ms[1..]))
  }

  function MinNat(a: nat, b: nat): nat {
    if a <= b then a else b
  }

  /** What a sorted sequence leaves out after its first `n` items scores no higher than any of those. */
  lemma TopOfSorted(s: seq<Match>, n: nat, m: Match, k: nat)
    requires SortedByScore(s) && n <= |s| && k < n
    requires multiset(s[..n])[m] < multiset(s)[m]
    ensures m.score <= s[k].score
  {
    assert s == s[..n] + s[n..];
    assert multiset(s) == multiset(s[..n]) + multiset(s[n..]);
    assert m in s[n..];
    var j :| n <= j < |s| && s[j] == m;
  }

  /** `head(20)` of the ranking. */
  function Top(ms: seq<Match>): seq<Match> {
    var sorted := SortByScore(ms);
    sorted[..MinNat(MaxResults, |sorted|)]
  }

  /** The first twenty of the ranking are sorted and drawn from the input. */
  lemma TopIsBest(ms: seq<Match>)
    ensures |Top(ms)| == MinNat(MaxResults, |ms|)
    ensures multiset(Top(ms)) <= multiset(ms)
    ensures forall k :: 0 <= k < |Top(ms)| ==> Top(ms)[k] in ms
    ensures SortedByScore(Top(ms))
  {
    var sorted := SortByScore(ms);
    var n := MinNat(MaxResults, |sorted|);
    var result := sorted[..n];
    assert sorted == result + sorted[n..];
    assert multiset(sorted) == multiset(result) + multiset(sorted[n..]);
    forall k | 0 <= k < |result|
      ensures result[k] in ms
    {
      assert result[k] in multiset(ms);
    }
  }

  /** No entry the first twenty leave out scores higher than one they keep. */
  lemma TopBeatsRest(ms: seq<Match>)
    ensures forall m, k ::
      (m in ms && 0 <= k < |Top(ms)| && multiset(Top(ms))[m] < multiset(ms)[m])
        ==> m.score <= Top(ms)[k].score
  {
    var sorted := SortByScore(ms);
    var n := MinNat(MaxResults, |sorted|);
    assert Top(ms) == sorted[..n];
    forall m, k | m in ms && 0 <= k < n && multiset(sorted[..n])[m] < multiset(ms)[m]
      ensures m.score <= sorted[k].score
    {
      TopOfSorted(sorted, n, m, k);
    }
  }

  /** What `find_matches` returns for the passing records: the first twenty, best first. */
  lemma TopOfPassing(ratio: Ratio, q: string, rows: seq<Row>, threshold: real)
    ensures var p := Passing(ratio, q, rows, threshold);
      && |Top(p)| == MinNat(MaxResults, |p|)
      && multiset(Top(p)) <= multiset(p)
      && SortedByScore(Top(p))
    ensures var p := Passing(ratio, q, rows, threshold);
      forall k :: 0 <= k < |Top(p)| ==>
        Top(p)[k].row in rows && Top(p)[k].score == Score(ratio, q, Top(p)[k].row.name)
        && Top(p)[k].score >= threshold
    ensures var p := Passing(ratio, q, rows, threshold);
      forall m, k :: (m in p && 0 <= k < |Top(p)| && multiset(Top(p))[m] < multiset(p)[m]) ==>
        m.score <= Top(p)[k].score
  {
    var p := Passing(ratio, q, rows, threshold);
    TopIsBest(p);
    TopBeatsRest(p);
    PassingSound(ratio, q, rows, threshold);
  }

  class SmartMatcher {
    /** The records the matcher was built from; `find_matches` never changes them. */
    const data: seq<Row>

    constructor(scrapedData: seq<Row>)
      ensures data == scrapedData
    {
      data := scrapedData;
    }

    /**
     * `find_matches`: the passing records of the stripped query, best first,
     * at most twenty, and none left out that beats one kept.
     */
    method FindMatches(ratio: Ratio, userQuery: string, threshold: real) returns (result: seq<Match>)
      ensures data == [] ==> result == []
      ensures |result| == MinNat(MaxResults, |Passing(ratio, Strip(userQuery), data, threshold)|)
      ensures multiset(result) <= multiset(Passing(ratio, Strip(userQuery), data, threshold))
      ensures forall k :: 0 <= k < |result| ==>
        result[k].row in data && result[k].score == Score(ratio, Strip(userQuery), result[k].row.name)
        && result[k].score >= threshold
      ensures SortedByScore(result)
      ensures forall m, k ::
        (m in Passing(ratio, Strip(userQuery), data, threshold) && 0 <= k < |result|
         && multiset(result)[m] < multiset(Passing(ratio, Strip(userQuery), data, threshold))[m])
        ==> m.score <= result[k].score
    {
      if data == [] {
        return [];
      }
      var q := Strip(userQuery);
      var finalResults: seq<Match> := [];
      var i := 0;
      while i < |data|
        invariant i <= |data|
        invariant finalResults == Passing(ratio, q, data[..i], threshold)
      {
        var row := data[i];
        var name := row.name;
        var score := CalculateSimilarity(ratio, q, name);
        if Contains(Lower(name), Lower(q)) {
          score := score + Bonus;
        }
        assert score == Score(ratio, q, name);
        if score >= threshold {
          finalResults := finalResults + [Match(row, score)];
        }
        PassingNext(ratio, q, data, i, threshold);
        i := i + 1;
      }
      assert data[..i] == data;
      if finalResults == [] {
        return [];
      }
      result := Top(finalResults);
      TopOfPassing(ratio, q, data, threshold);
    }
  }
}
