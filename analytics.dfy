/**
 * The analytics aggregator (api/main.ts, GetAnalyticsData): enumerate the wagers by their count,
 * build and write one snapshot per wager, then sum the win counters into the chain summary.
 *
 * The provider's network query (getNetwork) may throw; `down` holds the positions, in call order
 * within one run, of the queries that throw: query i belongs to wager i, query n (n wagers) to
 * the summary. Reads wrapped in getRetryWithDelay are required to answer, since that wrapper
 * returns only once they do.
 */
module Analytics {
  import opened Options
  import opened Types
  import opened Sink
  import opened MoveReplay

  /** The retried reads a wager's snapshot needs answer: gameWagers and getGameMoves. */
  predicate Buildable(c: ChainView, addr: Address) {
    addr in c.gameWagers && MovesAnswer(c, addr)
  }

  /** The retried reads of GetAnalyticsData answer: allWagers(i) below the count, and each wager's. */
  predicate RetriedReadsAnswer(c: ChainView) {
    forall i: nat :: i < c.wagerCount ==> i in c.allWagers && Buildable(c, c.allWagers[i])
  }

  /** The wager addresses at indices 0 .. getAllWagersCount()-1. */
  function WagerAddresses(c: ChainView): (addrs: seq<Address>)
    requires RetriedReadsAnswer(c)
    ensures |addrs| == c.wagerCount
    ensures forall i :: 0 <= i < |addrs| ==> Buildable(c, addrs[i])
  {
    IndexPrefix(c.allWagers, c.wagerCount)
  }

  /** The snapshot record built from a wager's parameter tuple and its position. */
  function MakeWager(chainId: int, addr: Address, p: WagerParams, fen: string): (w: Wager)
    ensures w.matchAddress == addr && w.chainId == chainId && !w.isPlayerTurn && w.fenString == fen
    ensures w.player0Address == p.player0 && w.player1Address == p.player1
    ensures w.numberOfGames == p.numberOfGames && w.isTournament == p.isTournament
  {
    Wager(chainId, addr, p.player0, p.player1, p.wagerToken, p.wagerAmount, p.numberOfGames,
          p.isInProgress, p.timeLimit, p.timeLastMove, p.timePlayer0, p.timePlayer1,
          false, p.isTournament, fen)
  }

  /** The snapshot of the wager at addr. */
  function Snapshot<P>(c: ChainView, e: Engine<P>, addr: Address): (w: Wager)
    requires Buildable(c, addr)
    ensures w.matchAddress == addr && w.chainId == c.chainId && !w.isPlayerTurn
  {
    MakeWager(c.chainId, addr, c.gameWagers[addr], FenString(c, e, addr))
  }

  /** One snapshot per address, in address order. */
  function Snapshots<P>(c: ChainView, e: Engine<P>, addrs: seq<Address>): (ws: seq<Wager>)
    requires forall i :: 0 <= i < |addrs| ==> Buildable(c, addrs[i])
    ensures |ws| == |addrs|
    ensures forall i :: 0 <= i < |addrs| ==> ws[i].matchAddress == addrs[i] && !ws[i].isPlayerTurn
  {
    if addrs == [] then []
    else Snapshots(c, e, addrs[..|addrs| - 1]) + [Snapshot(c, e, addrs[|addrs| - 1])]
  }

  /** The snapshot at position i is the one of the i-th address. */
  lemma {:induction false} SnapshotsAt<P>(c: ChainView, e: Engine<P>, addrs: seq<Address>, i: nat)
    requires forall j :: 0 <= j < |addrs| ==> Buildable(c, addrs[j])
    requires i < |addrs|
    ensures Snapshots(c, e, addrs)[i] == Snapshot(c, e, addrs[i])
    decreases |addrs|
  {
    if i < |addrs| - 1 {
      SnapshotsAt(c, e, addrs[..|addrs| - 1], i);
    }
  }

  /** One more address adds its snapshot at the end. */
  lemma SnapshotsSnoc<P>(c: ChainView, e: Engine<P>, addrs: seq<Address>, i: nat)
    requires i < |addrs|
    requires forall j :: 0 <= j < |addrs| ==> Buildable(c, addrs[j])
    ensures Snapshots(c, e, addrs[..i + 1]) == Snapshots(c, e, addrs[..i]) + [Snapshot(c, e, addrs[i])]
  {
    assert addrs[..i + 1][..i] == addrs[..i];
  }

  /** The sum of both win counters over the wagers at addrs. */
  function TotalWins(status: map<Address, WinStatus>, addrs: seq<Address>): nat
    requires forall i :: 0 <= i < |addrs| ==> addrs[i] in status
  {
    if addrs == [] then 0
    else
      var last := status[addrs[|addrs| - 1]];
      TotalWins(status, addrs[..|addrs| - 1]) + last.winsPlayer0 + last.winsPlayer1
  }

  /** The games of two runs of wagers add up. */
  lemma {:induction false} TotalWinsAppend(status: map<Address, WinStatus>, xs: seq<Address>, ys: seq<Address>)
    requires forall i :: 0 <= i < |xs| ==> xs[i] in status
    requires forall i :: 0 <= i < |ys| ==> ys[i] in status
    ensures forall i :: 0 <= i < |xs + ys| ==> (xs + ys)[i] in status
    ensures TotalWins(status, xs + ys) == TotalWins(status, xs) + TotalWins(status, ys)
    decreases |ys|
  {
    assert forall i :: 0 <= i < |xs + ys| ==> (xs + ys)[i] in status by {
      forall i | 0 <= i < |xs + ys| ensures (xs + ys)[i] in status {
        if i >= |xs| { assert (xs + ys)[i] == ys[i - |xs|]; }
      }
    }
    if ys == [] {
      assert xs + ys == xs;
    } else {
      var init := ys[..|ys| - 1];
      assert (xs + ys)[..|xs + ys| - 1] == xs + init;
      TotalWinsAppend(status, xs, init);
    }
  }

  /** api/main.ts:88-102: the wager addresses, by count and index (every read retried). */
  method EnumerateWagers(c: ChainView) returns (wagerAddresses: seq<Address>)
    requires RetriedReadsAnswer(c)
    ensures wagerAddresses == WagerAddresses(c)
  {
    wagerAddresses := [];
    var i := 0;
    while i < c.wagerCount
      invariant 0 <= i <= c.wagerCount
      invariant wagerAddresses == IndexPrefix(c.allWagers, i)
    {
      wagerAddresses := wagerAddresses + [c.allWagers[i]];
      i := i + 1;
    }
  }

  /**
   * api/main.ts:107-128: the snapshot of one wager, or None when the network query of api/main.ts:113
   * throws.
   */
  method BuildWager<P>(c: ChainView, e: Engine<P>, addr: Address, networkAnswers: bool)
    returns (wager: Option<Wager>)
    requires Buildable(c, addr)
    ensures wager == if networkAnswers then Some(Snapshot(c, e, addr)) else None
  {
    var wagerParams := c.gameWagers[addr];
    var fenString := GetFenString(c, e, addr);
    if !networkAnswers {
      return None;
    }
    wager := Some(MakeWager(c.chainId, addr, wagerParams, fenString));
  }

  /** The loop invariant of BuildWagers: the wagers before i were built and written, in order. */
  ghost predicate BuiltSoFar<P>(c: ChainView, e: Engine<P>, wagerAddresses: seq<Address>, down: set<nat>,
                                table: map<Address, Wager>, i: nat, allWagerParams: seq<Wager>, games: map<Address, Wager>)
  {
    && i <= |wagerAddresses|
    && (forall j :: 0 <= j < |wagerAddresses| ==> Buildable(c, wagerAddresses[j]))
    && (forall j: nat :: j < i ==> j !in down)
    && allWagerParams == Snapshots(c, e, wagerAddresses[..i])
    && GamesKeyed(games)
    && games == WriteAll(table, allWagerParams, WagerKey)
  }

  /** Building and writing wager i keeps the invariant. */
  lemma BuildStep<P>(c: ChainView, e: Engine<P>, wagerAddresses: seq<Address>, down: set<nat>,
                     table: map<Address, Wager>, i: nat, allWagerParams: seq<Wager>, games: map<Address, Wager>)
    requires BuiltSoFar(c, e, wagerAddresses, down, table, i, allWagerParams, games)
    requires i < |wagerAddresses| && i !in down
    ensures var w := Snapshot(c, e, wagerAddresses[i]);
      BuiltSoFar(c, e, wagerAddresses, down, table, i + 1, allWagerParams + [w], UpsertWager(games, w))
  {
    SnapshotsSnoc(c, e, wagerAddresses, i);
    WriteAllSnoc(table, allWagerParams, Snapshot(c, e, wagerAddresses[i]), WagerKey);
  }

  /**
   * api/main.ts:104-136: build each snapshot and write it; stop with failed = true at the first
   * network query that throws.
   */
  method BuildWagers<P>(c: ChainView, e: Engine<P>, wagerAddresses: seq<Address>, down: set<nat>,
                        table: map<Address, Wager>)
    returns (allWagerParams: seq<Wager>, games: map<Address, Wager>, failed: bool)
    requires forall i :: 0 <= i < |wagerAddresses| ==> Buildable(c, wagerAddresses[i])
    requires GamesKeyed(table)
    ensures GamesKeyed(games)
    ensures var k := FirstDown(down, 0, |wagerAddresses|);
      && failed == (k < |wagerAddresses|)
      && allWagerParams == Snapshots(c, e, wagerAddresses[..k])
      && games == WriteAll(table, allWagerParams, WagerKey)
  {
    allWagerParams := [];
    games := table;
    var i := 0;
    while i < |wagerAddresses|
      invariant BuiltSoFar(c, e, wagerAddresses, down, table, i, allWagerParams, games)
    {
      var wager := BuildWager(c, e, wagerAddresses[i], i !in down);
      if wager.None? {
        // getNetwork throws: caught at api/main.ts:132
        assert FirstDown(down, 0, |wagerAddresses|) == i;
        return allWagerParams, games, true;
      }
      BuildStep(c, e, wagerAddresses, down, table, i, allWagerParams, games);
      allWagerParams := allWagerParams + [wager.value];
      games := UpsertWager(games, wager.value);
      i := i + 1;
    }
    assert FirstDown(down, 0, |wagerAddresses|) == i;
    failed := false;
  }

  /** api/main.ts:138-143: the games over all wagers, or None when a wagerStatus read throws. */
  method SumGames(c: ChainView, wagerAddresses: seq<Address>) returns (games: Option<nat>)
    ensures games.Some? <==> forall i :: 0 <= i < |wagerAddresses| ==> wagerAddresses[i] in c.wagerStatus
    ensures games.Some? ==> games.value == TotalWins(c.wagerStatus, wagerAddresses)
  {
    var total := 0;
    var i := 0;
    while i < |wagerAddresses|
      invariant 0 <= i <= |wagerAddresses|
      invariant forall j :: 0 <= j < i ==> wagerAddresses[j] in c.wagerStatus
      invariant total == TotalWins(c.wagerStatus, wagerAddresses[..i])
    {
      if wagerAddresses[i] !in c.wagerStatus {
        return None;
      }
      var winsData := c.wagerStatus[wagerAddresses[i]];
      assert wagerAddresses[..i + 1][..i] == wagerAddresses[..i];
      total := total + winsData.winsPlayer0;
      total := total + winsData.winsPlayer1;
      i := i + 1;
    }
    assert wagerAddresses[..i] == wagerAddresses;
    games := Some(total);
  }

  /**
   * The value GetAnalyticsData returns: the snapshots of every wager, or None (null) when a
   * network query or a wagerStatus read throws.
   */
  function AnalyticsResult<P>(c: ChainView, e: Engine<P>, down: set<nat>): (r: Option<seq<Wager>>)
    requires RetriedReadsAnswer(c)
    ensures var addrs := WagerAddresses(c);
      r.Some? <==>
        && (forall j: nat :: j <= |addrs| ==> j !in down)
        && (forall i :: 0 <= i < |addrs| ==> addrs[i] in c.wagerStatus)
    ensures r.Some? ==>
      var addrs := WagerAddresses(c);
      && |r.value| == c.wagerCount
      && forall i :: 0 <= i < |addrs| ==> r.value[i].matchAddress == addrs[i] && !r.value[i].isPlayerTurn
  {
    var addrs := WagerAddresses(c);
    if FirstDown(down, 0, |addrs|) < |addrs| then None
    else if exists i :: 0 <= i < |addrs| && addrs[i] !in c.wagerStatus then None
    else if |addrs| in down then None
    else Some(Snapshots(c, e, addrs))
  }

  /** The summary row GetAnalyticsData upserts when it returns its snapshots. */
  function Summary(c: ChainView): (g: GamesData)
    requires RetriedReadsAnswer(c)
    requires forall i :: 0 <= i < c.wagerCount ==> WagerAddresses(c)[i] in c.wagerStatus
    ensures g.chainId == c.chainId && g.numberOfWagers == c.wagerCount
  {
    GamesData(c.chainId, TotalWins(c.wagerStatus, WagerAddresses(c)), c.wagerCount)
  }

  /** After writing the snapshots of addrs, the row under addrs[i] is the snapshot of addrs[i]. */
  lemma SnapshotRowAt<P>(c: ChainView, e: Engine<P>, addrs: seq<Address>, table: map<Address, Wager>, i: nat)
    requires forall j :: 0 <= j < |addrs| ==> Buildable(c, addrs[j])
    requires i < |addrs|
    ensures addrs[i] in WriteAll(table, Snapshots(c, e, addrs), WagerKey)
    ensures WriteAll(table, Snapshots(c, e, addrs), WagerKey)[addrs[i]] == Snapshot(c, e, addrs[i])
  {
    var built := Snapshots(c, e, addrs);
    WriteAllRows(table, built, WagerKey);
    assert WagerKey(built[i]) == addrs[i];
    var l := LastWith(built, WagerKey, addrs[i]);
    assert l >= 0;
    SnapshotsAt(c, e, addrs, l);
    assert addrs[l] == WagerKey(built[l]) == addrs[i];
  }

  /**
   * Writing the snapshots of addrs gives each address its own snapshot as its row, leaves every
   * other row alone, and adds no key beyond addrs.
   */
  lemma SnapshotRows<P>(c: ChainView, e: Engine<P>, addrs: seq<Address>, table: map<Address, Wager>)
    requires forall i :: 0 <= i < |addrs| ==> Buildable(c, addrs[i])
    ensures forall i :: 0 <= i < |addrs| ==>
      addrs[i] in WriteAll(table, Snapshots(c, e, addrs), WagerKey)
      && WriteAll(table, Snapshots(c, e, addrs), WagerKey)[addrs[i]] == Snapshot(c, e, addrs[i])
    ensures forall a :: a in table && (forall i :: 0 <= i < |addrs| ==> addrs[i] != a) ==>
      a in WriteAll(table, Snapshots(c, e, addrs), WagerKey) && WriteAll(table, Snapshots(c, e, addrs), WagerKey)[a] == table[a]
    ensures forall a :: a in WriteAll(table, Snapshots(c, e, addrs), WagerKey) ==>
      a in table || exists i :: 0 <= i < |addrs| && addrs[i] == a
  {
    var built := Snapshots(c, e, addrs);
    WriteAllCovers(table, built, WagerKey);
    WriteAllRows(table, built, WagerKey);
    forall i | 0 <= i < |addrs| ensures addrs[i] in WriteAll(table, built, WagerKey)
      && WriteAll(table, built, WagerKey)[addrs[i]] == Snapshot(c, e, addrs[i])
    {
      SnapshotRowAt(c, e, addrs, table, i);
    }
    forall a | a in table && (forall i :: 0 <= i < |addrs| ==> addrs[i] != a)
      ensures forall i :: 0 <= i < |built| ==> WagerKey(built[i]) != a
    {
    }
    forall a | a in WriteAll(table, built, WagerKey) && a !in table
      ensures exists i :: 0 <= i < |addrs| && addrs[i] == a
    {
      var l := LastWith(built, WagerKey, a);
      assert WagerKey(built[l]) == addrs[l];
    }
  }

  /**
   * chess_games after GetAnalyticsData: the snapshots built before the first throwing network
   * query, written in order.
   */
  function WrittenGames<P>(c: ChainView, e: Engine<P>, down: set<nat>, table: map<Address, Wager>): map<Address, Wager>
    requires RetriedReadsAnswer(c)
  {
    var addrs := WagerAddresses(c);
    WriteAll(table, Snapshots(c, e, addrs[..FirstDown(down, 0, |addrs|)]), WagerKey)
  }

  /** The run keeps chess_games keyed by match address. */
  lemma WrittenGamesKeyed<P>(c: ChainView, e: Engine<P>, down: set<nat>, table: map<Address, Wager>)
    requires RetriedReadsAnswer(c)
    requires GamesKeyed(table)
    ensures GamesKeyed(WrittenGames(c, e, down, table))
  {
    var addrs := WagerAddresses(c);
    WriteAllGamesKeyed(table, Snapshots(c, e, addrs[..FirstDown(down, 0, |addrs|)]));
  }

  /**
   * Every wager built before the first throwing query has its own snapshot as its row in
   * chess_games; every other row is untouched, and no other key appears.
   */
  lemma WrittenGamesRows<P>(c: ChainView, e: Engine<P>, down: set<nat>, table: map<Address, Wager>)
    requires RetriedReadsAnswer(c)
    ensures var addrs := WagerAddresses(c);
      forall i :: 0 <= i < FirstDown(down, 0, |addrs|) ==>
        addrs[i] in WrittenGames(c, e, down, table)
        && WrittenGames(c, e, down, table)[addrs[i]] == Snapshot(c, e, addrs[i])
    ensures var addrs := WagerAddresses(c);
      forall a :: a in table && (forall i :: 0 <= i < FirstDown(down, 0, |addrs|) ==> addrs[i] != a) ==>
        a in WrittenGames(c, e, down, table) && WrittenGames(c, e, down, table)[a] == table[a]
    ensures var addrs := WagerAddresses(c);
      forall a :: a in WrittenGames(c, e, down, table) ==>
        a in table || exists i :: 0 <= i < FirstDown(down, 0, |addrs|) && addrs[i] == a
  {
    var addrs := WagerAddresses(c);
    var k := FirstDown(down, 0, |addrs|);
    var prefix := addrs[..k];
    var t := WriteAll(table, Snapshots(c, e, prefix), WagerKey);
    assert t == WrittenGames(c, e, down, table);
    SnapshotRows(c, e, prefix, table);
    forall i | 0 <= i < k ensures addrs[i] in t && t[addrs[i]] == Snapshot(c, e, addrs[i]) {
      assert prefix[i] == addrs[i];
    }
    forall a | a in table && (forall i :: 0 <= i < k ==> addrs[i] != a) ensures a in t && t[a] == table[a] {
      assert forall i :: 0 <= i < |prefix| ==> prefix[i] == addrs[i];
    }
    forall a | a in t && a !in table ensures exists i :: 0 <= i < k && addrs[i] == a {
      var i :| 0 <= i < |prefix| && prefix[i] == a;
      assert addrs[i] == a;
    }
  }

  /**
   * The tables after GetAnalyticsData: the snapshots built before the first throwing network
   * query are written to chess_games in order, and the summary row is written only when the
   * run returns its snapshots.
   */
  function AnalyticsStore<P>(c: ChainView, e: Engine<P>, down: set<nat>, store: Store): (s: Store)
    requires RetriedReadsAnswer(c)
    requires store.Valid()
    ensures AnalyticsResult(c, e, down).Some? ==> s.chessAnalytics == store.chessAnalytics[c.chainId := Summary(c)]
    ensures AnalyticsResult(c, e, down).None? ==> s.chessAnalytics == store.chessAnalytics
    ensures s.tournaments == store.tournaments && s.leaderboard == store.leaderboard
  {
    store.(chessGames := WrittenGames(c, e, down, store.chessGames),
           chessAnalytics :=
             if AnalyticsResult(c, e, down).Some? then UpsertGames(store.chessAnalytics, Summary(c))
             else store.chessAnalytics)
  }

  /** AnalyticsResult and AnalyticsStore as one condition: no throwing query and every status read answers. */
  lemma AnalyticsCases<P>(c: ChainView, e: Engine<P>, down: set<nat>, store: Store)
    requires RetriedReadsAnswer(c)
    requires store.Valid()
    ensures var addrs := WagerAddresses(c);
      var k := FirstDown(down, 0, |addrs|);
      var ok := k == |addrs| && (forall i :: 0 <= i < |addrs| ==> addrs[i] in c.wagerStatus) && |addrs| !in down;
      && AnalyticsResult(c, e, down) == (if ok then Some(Snapshots(c, e, addrs)) else None)
      && AnalyticsStore(c, e, down, store)
         == store.(chessGames := WrittenGames(c, e, down, store.chessGames),
                   chessAnalytics :=
                     if ok then UpsertGames(store.chessAnalytics, GamesData(c.chainId, TotalWins(c.wagerStatus, addrs), |addrs|))
                     else store.chessAnalytics)
  {
  }

  /** GetAnalyticsData keeps every table keyed. */
  lemma AnalyticsStoreValid<P>(c: ChainView, e: Engine<P>, down: set<nat>, store: Store)
    requires RetriedReadsAnswer(c)
    requires store.Valid()
    ensures AnalyticsStore(c, e, down, store).Valid()
  {
    WrittenGamesKeyed(c, e, down, store.chessGames);
  }

  /** Running GetAnalyticsData again on the same chain answers leaves the tables as the first run left them. */
  lemma AnalyticsStoreTwice<P>(c: ChainView, e: Engine<P>, down: set<nat>, store: Store)
    requires RetriedReadsAnswer(c)
    requires store.Valid()
    ensures AnalyticsStore(c, e, down, store).Valid()
    ensures AnalyticsStore(c, e, down, AnalyticsStore(c, e, down, store)) == AnalyticsStore(c, e, down, store)
  {
    var once := AnalyticsStore(c, e, down, store);
    var addrs := WagerAddresses(c);
    var built := Snapshots(c, e, addrs[..FirstDown(down, 0, |addrs|)]);
    var games := WriteAll(store.chessGames, built, WagerKey);
    AnalyticsStoreValid(c, e, down, store);
    WrittenGamesUnfold(c, e, down, store.chessGames, built, games);
    assert once.chessGames == games;
    WrittenGamesUnfold(c, e, down, games, built, WriteAll(games, built, WagerKey));
    WriteAllTwice(store.chessGames, built, WagerKey);
    assert AnalyticsStore(c, e, down, once).chessGames == once.chessGames;
  }

  /**
   * api/main.ts:138-151, once every snapshot is built: sum the wins and upsert the summary row;
   * None when a wagerStatus read or the summary's network query throws.
   */
  method Summarize(c: ChainView, wagerAddresses: seq<Address>, numberOfWagers: nat, down: set<nat>,
                   analytics: map<int, GamesData>)
    returns (summarized: bool, analytics': map<int, GamesData>)
    requires AnalyticsKeyed(analytics)
    ensures AnalyticsKeyed(analytics')
    ensures summarized <==>
      (forall i :: 0 <= i < |wagerAddresses| ==> wagerAddresses[i] in c.wagerStatus) && |wagerAddresses| !in down
    ensures summarized ==>
      analytics' == UpsertGames(analytics, GamesData(c.chainId, TotalWins(c.wagerStatus, wagerAddresses), numberOfWagers))
    ensures !summarized ==> analytics' == analytics
  {
    analytics' := analytics;
    summarized := false;
    var total := SumGames(c, wagerAddresses);
    if total.Some? && |wagerAddresses| !in down {
      var gamesData := GamesData(c.chainId, total.value, numberOfWagers);
      analytics' := UpsertGames(analytics, gamesData);
      summarized := true;
    }
  }

  /** api/main.ts:88-136: enumerate the wagers, then build and write their snapshots. */
  method WriteWagers<P>(c: ChainView, e: Engine<P>, down: set<nat>, table: map<Address, Wager>)
    returns (wagerAddresses: seq<Address>, allWagerParams: seq<Wager>, games: map<Address, Wager>, failed: bool)
    requires RetriedReadsAnswer(c)
    requires GamesKeyed(table)
    ensures wagerAddresses == WagerAddresses(c)
    ensures games == WrittenGames(c, e, down, table)
    ensures failed <==> FirstDown(down, 0, |wagerAddresses|) < |wagerAddresses|
    ensures allWagerParams == Snapshots(c, e, wagerAddresses[..FirstDown(down, 0, |wagerAddresses|)])
    ensures !failed ==> allWagerParams == Snapshots(c, e, wagerAddresses)
  {
    wagerAddresses := EnumerateWagers(c);
    allWagerParams, games, failed := BuildWagers(c, e, wagerAddresses, down, table);
    WrittenGamesUnfold(c, e, down, table, allWagerParams, games);
  }

  /**
   * What BuildWagers leaves, run over every wager address, is WrittenGames; and when no query
   * throws, the snapshots built are those of every address.
   */
  lemma WrittenGamesUnfold<P>(c: ChainView, e: Engine<P>, down: set<nat>, table: map<Address, Wager>,
                              built: seq<Wager>, games: map<Address, Wager>)
    requires RetriedReadsAnswer(c)
    requires GamesKeyed(table)
    requires var addrs := WagerAddresses(c);
      && built == Snapshots(c, e, addrs[..FirstDown(down, 0, |addrs|)])
      && games == WriteAll(table, built, WagerKey)
    ensures games == WrittenGames(c, e, down, table)
    ensures var addrs := WagerAddresses(c);
      FirstDown(down, 0, |addrs|) == |addrs| ==> built == Snapshots(c, e, addrs)
  {
    var addrs := WagerAddresses(c);
    assert addrs[..|addrs|] == addrs;
  }

  /** api/main.ts:86-158. */
  method GetAnalyticsData<P>(c: ChainView, e: Engine<P>, down: set<nat>, store: Store)
    returns (result: Option<seq<Wager>>, store': Store)
    requires RetriedReadsAnswer(c)
    requires store.Valid()
    ensures result == AnalyticsResult(c, e, down)
    ensures store' == AnalyticsStore(c, e, down, store)
  {
    AnalyticsCases(c, e, down, store);
    var wagerAddresses, allWagerParams, games, failed := WriteWagers(c, e, down, store.chessGames);
    store' := store.(chessGames := games);
    result := None;
    // a getNetwork that throws in BuildWagers, a wagerStatus read in SumGames and the summary's
    // getNetwork are all caught at api/main.ts:154
    if !failed {
      var summarized, analytics := Summarize(c, wagerAddresses, |allWagerParams|, down, store.chessAnalytics);
      if summarized {
        store' := store'.(chessAnalytics := analytics);
        result := Some(allWagerParams);
      }
    }
  }
}
