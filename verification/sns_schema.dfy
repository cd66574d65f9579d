/** How `read_moments_from_db` in client-radar/src-tauri/src/lib.rs decides
    what to read: which table holds the feeds, which of its columns hold the
    id, the time and the content, and which failures it reports. */
module SnsSchema {
  import opened Results
  import opened Strings

  /** The failures `read_moments_from_db` reports. Their message text is not
      modelled; the data each message lists is. */
  datatype MomentsError =
    | DbFailed                                     // opening, a prepare or a query failed
    | NoFeedTable(tables: seq<string>)
    | NoContentColumn(table: string, columns: seq<string>)
    | EmptyResult(table: string, contentColumn: string, columns: seq<string>)

  /** Five tiers, tried in turn: three exact names (ASCII case ignored), then
      two substrings of the lowercased name. */
  const TierCount: nat := 5

  predicate InTier(t: nat, n: string): (r: bool)
    ensures r ==> t < TierCount
    ensures t == 0 ==> (r <==> AsciiLowerStr(n) == "feedsv20")
    ensures t == 1 ==> (r <==> AsciiLowerStr(n) == "snsinfo")
    ensures t == 2 ==> (r <==> AsciiLowerStr(n) == "snsinfo2")
    ensures t == 3 ==> (r <==> Occurs(AsciiLowerStr(n), "feeds"))
    ensures t == 4 ==> (r <==> Occurs(AsciiLowerStr(n), "snsinfo"))
  {
    LowerTierNames();
    if t == 0 then EqIgnoreAsciiCase(n, "FeedsV20")
    else if t == 1 then EqIgnoreAsciiCase(n, "SnsInfo")
    else if t == 2 then EqIgnoreAsciiCase(n, "SnsInfo2")
    else if t == 3 then Contains(AsciiLowerStr(n), "feeds")
    else if t == 4 then Contains(AsciiLowerStr(n), "snsinfo")
    else false
  }

  lemma LowerTierNames()
    ensures AsciiLowerStr("FeedsV20") == "feedsv20"
    ensures AsciiLowerStr("SnsInfo") == "snsinfo"
    ensures AsciiLowerStr("SnsInfo2") == "snsinfo2"
  {
    assert AsciiLowerStr("FeedsV20") == "feedsv20" by {
      forall i | 0 <= i < 8 ensures AsciiLowerStr("FeedsV20")[i] == "feedsv20"[i] { }
    }
    assert AsciiLowerStr("SnsInfo") == "snsinfo" by {
      forall i | 0 <= i < 7 ensures AsciiLowerStr("SnsInfo")[i] == "snsinfo"[i] { }
    }
    assert AsciiLowerStr("SnsInfo2") == "snsinfo2" by {
      forall i | 0 <= i < 8 ensures AsciiLowerStr("SnsInfo2")[i] == "snsinfo2"[i] { }
    }
  }

  /** The exact tiers are special cases of the substring tiers that follow
      them, so the substring tiers only add names, never lose one. */
  lemma ExactTiersInSubstringTiers(n: string)
    ensures InTier(0, n) ==> InTier(3, n)
    ensures InTier(1, n) || InTier(2, n) ==> InTier(4, n)
  {
    var l := AsciiLowerStr(n);
    if InTier(0, n) {
      assert l[0..5] == "feeds";
      assert OccursAt(l, "feeds", 0);
    }
    if InTier(1, n) || InTier(2, n) {
      assert l[0..7] == "snsinfo";
      assert OccursAt(l, "snsinfo", 0);
    }
  }

  /** The tier and the position of the chosen table, searching the tiers from `t` on. */
  function SearchFrom(names: seq<string>, t: nat): (r: Option<(nat, nat)>)
    requires t <= TierCount
    ensures r.None? <==> forall u, i :: t <= u < TierCount && 0 <= i < |names| ==> !InTier(u, names[i])
    ensures r.Some? ==> t <= r.value.0 < TierCount && r.value.1 < |names| && InTier(r.value.0, names[r.value.1])
    ensures r.Some? ==> forall u, i :: t <= u < r.value.0 && 0 <= i < |names| ==> !InTier(u, names[i])
    ensures r.Some? ==> forall i :: 0 <= i < r.value.1 ==> !InTier(r.value.0, names[i])
    decreases TierCount - t
  {
    if t == TierCount then None
    else
      match FirstIndexFrom(names, n => InTier(t, n), 0)
      case Some(i) => Some((t, i))
      case None => SearchFrom(names, t + 1)
  }

  /** The `find(...).or_else(...)` chain: the first table of the first tier
      any table falls in, in its own spelling. */
  function SelectFeedTable(names: seq<string>): (r: Result<string, MomentsError>)
    ensures r.Err? <==> forall u, i :: 0 <= u < TierCount && 0 <= i < |names| ==> !InTier(u, names[i])
    ensures r.Err? ==> r.error == NoFeedTable(names)
    ensures r.Ok? ==> r.value in names
  {
    match SearchFrom(names, 0)
    case Some(found) => Ok(names[found.1])
    case None => Err(NoFeedTable(names))
  }

  /** The first tier a name falls in, or `TierCount` for none. */
  function RankFrom(n: string, t: nat): (r: nat)
    requires t <= TierCount
    ensures t <= r <= TierCount
    ensures r < TierCount ==> InTier(r, n)
    ensures forall u :: t <= u < r ==> !InTier(u, n)
    decreases TierCount - t
  {
    if t == TierCount then TierCount else if InTier(t, n) then t else RankFrom(n, t + 1)
  }

  function Rank(n: string): (r: nat)
    ensures r <= TierCount
    ensures r < TierCount <==> exists u: nat :: u < TierCount && InTier(u, n)
  {
    RankFrom(n, 0)
  }

  /** A reference description of the choice: the chosen table has the least
      rank of all tables, and every table listed before it ranks worse. */
  lemma SelectionHasLeastRank(names: seq<string>)
    requires SelectFeedTable(names).Ok?
    ensures exists k :: (
      && 0 <= k < |names| && names[k] == SelectFeedTable(names).value
      && Rank(names[k]) < TierCount
      && (forall i :: 0 <= i < |names| ==> Rank(names[k]) <= Rank(names[i]))
      && (forall i :: 0 <= i < k ==> Rank(names[k]) < Rank(names[i])))
  {
    var found := SearchFrom(names, 0).value;
    var t, k := found.0, found.1;
    RankBelow(names[k], t);
    RankAtLeast(names[k], t);
    forall i | 0 <= i < |names|
      ensures t <= Rank(names[i])
      ensures i < k ==> t < Rank(names[i])
    {
      RankAtLeast(names[i], t);
      if i < k {
        RankAtLeast(names[i], t + 1);
      }
    }
    assert names[k] == SelectFeedTable(names).value;
  }

  /** A name outside every tier before `t` ranks at least `t`. */
  lemma RankAtLeast(n: string, t: nat)
    requires t <= TierCount
    ensures (forall u :: 0 <= u < t ==> !InTier(u, n)) ==> t <= Rank(n)
  {
    if Rank(n) < t {
      assert InTier(Rank(n), n);
    }
  }

  /** A name in tier `t` ranks at most `t`. */
  lemma RankBelow(n: string, t: nat)
    ensures InTier(t, n) ==> Rank(n) <= t
  {
  }

  /** A table named exactly `SnsInfo2` beats one that only contains `feeds`. */
  lemma ExactNameBeatsSubstring()
    ensures SelectFeedTable(["MyFeeds", "SnsInfo2"]) == Ok("SnsInfo2")
  {
    var names := ["MyFeeds", "SnsInfo2"];
    assert AsciiLowerStr("MyFeeds")[0] == 'm';
    assert AsciiLowerStr("SnsInfo2")[0] == 's' && AsciiLowerStr("FeedsV20")[0] == 'f';
    assert !InTier(0, names[0]) && !InTier(1, names[0]) && !InTier(2, names[0]);
    assert !InTier(0, names[1]) && !InTier(1, names[1]) && InTier(2, names[1]);
    assert FirstIndexFrom(names, n => InTier(0, n), 0).None?;
    assert FirstIndexFrom(names, n => InTier(1, n), 0).None?;
    assert FirstIndexFrom(names, n => InTier(2, n), 0) == Some(1);
    assert SearchFrom(["MyFeeds", "SnsInfo2"], 0) == Some((2, 1));
  }

  /** `c.eq_ignore_ascii_case(k)` for some candidate `k`. */
  predicate MatchesAny(c: string, candidates: seq<string>) {
    exists k :: k in candidates && EqIgnoreAsciiCase(c, k)
  }

  /** Position of the first column, from `from` on, that matches any candidate. */
  function ColumnIndexFrom(cols: seq<string>, candidates: seq<string>, from: nat): (r: Option<nat>)
    ensures r.Some? ==> from <= r.value < |cols| && MatchesAny(cols[r.value], candidates)
    ensures r.Some? ==> forall j :: from <= j < r.value ==> !MatchesAny(cols[j], candidates)
    ensures r.None? <==> forall j :: from <= j < |cols| ==> !MatchesAny(cols[j], candidates)
    decreases |cols| - from
  {
    if from >= |cols| then None
    else if MatchesAny(cols[from], candidates) then Some(from)
    else ColumnIndexFrom(cols, candidates, from + 1)
  }

  /** `cols[i]` matches and no column before it does. */
  predicate EarliestMatch(cols: seq<string>, candidates: seq<string>, i: nat)
    requires i < |cols|
  {
    MatchesAny(cols[i], candidates) && forall j :: 0 <= j < i ==> !MatchesAny(cols[j], candidates)
  }

  /** `all_columns.iter().find(|c| candidates.iter().any(...))`: the column
      order decides, not the candidate order, and the column keeps its own spelling. */
  function FindColumn(cols: seq<string>, candidates: seq<string>): (r: Option<string>)
    ensures r.None? <==> forall j :: 0 <= j < |cols| ==> !MatchesAny(cols[j], candidates)
    ensures r.Some? ==> r.value in cols && MatchesAny(r.value, candidates)
    ensures r.Some? ==> exists i :: 0 <= i < |cols| && cols[i] == r.value && EarliestMatch(cols, candidates, i)
  {
    match ColumnIndexFrom(cols, candidates, 0)
    case Some(i) => Some(cols[i])
    case None => None
  }

  /** Only the set of candidates matters, not their order or repetition. */
  lemma {:induction false} CandidateOrderIrrelevant(cols: seq<string>, c1: seq<string>, c2: seq<string>, from: nat)
    requires forall k :: k in c1 <==> k in c2
    ensures ColumnIndexFrom(cols, c1, from) == ColumnIndexFrom(cols, c2, from)
    decreases |cols| - from
  {
    if from < |cols| {
      assert MatchesAny(cols[from], c1) == MatchesAny(cols[from], c2);
      CandidateOrderIrrelevant(cols, c1, c2, from + 1);
    }
  }

  /** When two columns match, the earlier column wins even if it matches a
      later candidate. */
  lemma ColumnOrderDecides()
    ensures FindColumn(["Time", "CreateTime"], TimeCandidates) == Some("Time")
  {
    assert EqIgnoreAsciiCase("Time", "Time");
    assert "Time" in TimeCandidates;
  }

  const IdCandidates := ["FeedId", "SnsId", "Id"]
  const TimeCandidates := ["CreateTime", "Timestamp", "Time"]
  const ContentCandidates := ["Content", "Buffer", "objectDesc", "detail", "stringSeq", "xml"]

  /** Used when no id column matches: SQLite's implicit row id. */
  const IdFallback := "rowid"
  /** Used when no time column matches: the literal `0` as the selected expression. */
  const TimeFallback := "0"

  /** The three selected expressions and the table of the final `SELECT`. */
  datatype FeedQuery = FeedQuery(table: string, idColumn: string, timeColumn: string, contentColumn: string)

  /** The column matching step: id and time fall back, content is mandatory. */
  function PlanQuery(table: string, cols: seq<string>): (r: Result<FeedQuery, MomentsError>)
    ensures r.Err? <==> forall j :: 0 <= j < |cols| ==> !MatchesAny(cols[j], ContentCandidates)
    ensures r.Err? ==> r.error == NoContentColumn(table, cols)
    ensures r.Ok? ==> r.value.table == table
    ensures r.Ok? ==> FindColumn(cols, ContentCandidates) == Some(r.value.contentColumn)
    ensures r.Ok? ==> r.value.idColumn == FindColumn(cols, IdCandidates).GetOr(IdFallback)
    ensures r.Ok? ==> r.value.timeColumn == FindColumn(cols, TimeCandidates).GetOr(TimeFallback)
    ensures r.Ok? ==> r.value.contentColumn in cols && MatchesAny(r.value.contentColumn, ContentCandidates)
    ensures r.Ok? ==> (r.value.idColumn in cols && MatchesAny(r.value.idColumn, IdCandidates))
                      || (r.value.idColumn == IdFallback && forall j :: 0 <= j < |cols| ==> !MatchesAny(cols[j], IdCandidates))
    ensures r.Ok? ==> (r.value.timeColumn in cols && MatchesAny(r.value.timeColumn, TimeCandidates))
                      || (r.value.timeColumn == TimeFallback && forall j :: 0 <= j < |cols| ==> !MatchesAny(cols[j], TimeCandidates))
  {
    match FindColumn(cols, ContentCandidates)
    case None => Err(NoContentColumn(table, cols))
    case Some(content) =>
      Ok(FeedQuery(table, FindColumn(cols, IdCandidates).GetOr(IdFallback),
                   FindColumn(cols, TimeCandidates).GetOr(TimeFallback), content))
  }

  /** Columns listed after a match never change it: the content column (and
      the id and time columns) are decided by the first matching column. */
  lemma FindColumnPrefix(cols: seq<string>, extra: seq<string>, candidates: seq<string>)
    requires FindColumn(cols, candidates).Some?
    ensures FindColumn(cols + extra, candidates) == FindColumn(cols, candidates)
  {
    ColumnIndexPrefix(cols, extra, candidates, 0);
    var i := ColumnIndexFrom(cols, candidates, 0).value;
    assert (cols + extra)[i] == cols[i];
  }

  /** A match inside `cols` is found at the same place in `cols + extra`. */
  lemma {:induction false} ColumnIndexPrefix(cols: seq<string>, extra: seq<string>, candidates: seq<string>, from: nat)
    requires ColumnIndexFrom(cols, candidates, from).Some?
    ensures ColumnIndexFrom(cols + extra, candidates, from) == ColumnIndexFrom(cols, candidates, from)
    decreases |cols| - from
  {
    assert (cols + extra)[from] == cols[from];
    if !MatchesAny(cols[from], candidates) {
      ColumnIndexPrefix(cols, extra, candidates, from + 1);
    }
  }
}
