/**
 * The leaderboard aggregator (api/main.ts, GetLeaderboardData): enumerate the wagers by probing
 * allWagers(0), allWagers(1), ... until a probe throws, credit every non-zero player with the
 * games of each wager and the wins of its slot, then write one leaderboard row per player.
 * Here no read is retried: a gameWagers or wagerStatus read that throws ends the run with {}
 * before anything is written.
 */
module Leaderboard {
  import opened Options
  import opened Types
  import opened Sink

  /** If indices 0 .. n-1 are all keys, there are at least n keys. */
  lemma {:induction false} DenseKeysBound(keys: set<nat>, n: nat)
    requires forall i: nat :: i < n ==> i in keys
    ensures n <= |keys|
  {
    if n > 0 {
      DenseKeysBound(keys - {n - 1}, n - 1);
    }
  }

  /** The first index, at or after i, that the index read does not answer. */
  function FirstGap(m: map<nat, Address>, i: nat): (k: nat)
    requires forall j: nat :: j < i ==> j in m
    ensures i <= k && k !in m
    ensures forall j: nat :: j < k ==> j in m
    decreases |m.Keys| - i
  {
    if i !in m then i
    else
      DenseKeysBound(m.Keys, i + 1);
      FirstGap(m, i + 1)
  }

  /** The addresses the probe loop collects: those at indices 0 .. k-1, k the first that throws. */
  function ProbedAddresses(m: map<nat, Address>): (addrs: seq<Address>)
    ensures |addrs| !in m
    ensures forall i: nat :: i < |addrs| ==> i in m && addrs[i] == m[i]
  {
    IndexPrefix(m, FirstGap(m, 0))
  }

  /** api/main.ts:392-402: probe allWagers(value) until the first probe throws. */
  method ProbeWagerAddresses(m: map<nat, Address>) returns (wagerAddresses: seq<Address>)
    ensures wagerAddresses == ProbedAddresses(m)
  {
    wagerAddresses := [];
    var value := 0;
    var errorOccurred := false;
    while !errorOccurred
      invariant value == |wagerAddresses|
      invariant forall i: nat :: i < value ==> i in m
      invariant wagerAddresses == IndexPrefix(m, value)
      invariant errorOccurred ==> value !in m
      invariant value <= |m.Keys|
      decreases |m.Keys| - value, if errorOccurred then 0 else 1
    {
      if value in m {
        DenseKeysBound(m.Keys, value + 1);
        wagerAddresses := wagerAddresses + [m[value]];
        value := value + 1;
      } else {
        errorOccurred := true;
      }
    }
    assert FirstGap(m, 0) == value;
  }

  /** What the two reads of one wager return. */
  datatype WagerRead = WagerRead(params: WagerParams, status: WinStatus)

  /** api/main.ts:404-406 for every address: the reads in order, or None if any read throws. */
  function ReadWagers(c: ChainView, addrs: seq<Address>): (r: Option<seq<WagerRead>>)
    ensures r.Some? <==> forall i :: 0 <= i < |addrs| ==> addrs[i] in c.gameWagers && addrs[i] in c.wagerStatus
    ensures r.Some? ==> |r.value| == |addrs|
    ensures r.Some? ==>
      forall i :: 0 <= i < |addrs| ==> r.value[i] == WagerRead(c.gameWagers[addrs[i]], c.wagerStatus[addrs[i]])
  {
    if addrs == [] then Some([])
    else
      var last := addrs[|addrs| - 1];
      match ReadWagers(c, addrs[..|addrs| - 1])
      case None => None
      case Some(init) =>
        if last in c.gameWagers && last in c.wagerStatus
        then Some(init + [WagerRead(c.gameWagers[last], c.wagerStatus[last])])
        else None
  }

  /** The player in slot index (0 or 1) of a wager. */
  function SlotPlayer(r: WagerRead, index: nat): Address {
    if index == 0 then r.params.player0 else r.params.player1
  }

  /** The win counter of slot index (0 or 1) of a wager. */
  function SlotWins(r: WagerRead, index: nat): nat {
    if index == 0 then r.status.winsPlayer0 else r.status.winsPlayer1
  }

  /** api/main.ts:411-427: credit one slot's player, skipping the zero address. */
  function Credit(stats: map<Address, PlayerStats>, player: Address, games: nat, wins: nat): map<Address, PlayerStats> {
    if player == ZeroAddress then stats
    else
      var s := if player in stats then stats[player] else PlayerStats(0, 0);
      stats[player := PlayerStats(s.totalGames + games, s.gamesWon + wins)]
  }

  /** Both slots of one wager, slot 0 first. */
  function CreditWager(stats: map<Address, PlayerStats>, r: WagerRead): map<Address, PlayerStats> {
    Credit(Credit(stats, SlotPlayer(r, 0), r.params.numberOfGames, SlotWins(r, 0)),
           SlotPlayer(r, 1), r.params.numberOfGames, SlotWins(r, 1))
  }

  /** The statistics after crediting every wager in order, from an empty dictionary. */
  function Tally(rs: seq<WagerRead>): map<Address, PlayerStats>
    decreases |rs|
  {
    if rs == [] then map[] else CreditWager(Tally(rs[..|rs| - 1]), rs[|rs| - 1])
  }

  /** The games p is credited with by one wager: numberOfGames once per slot p holds. */
  function WagerGames(r: WagerRead, p: Address): nat {
    (if r.params.player0 == p then r.params.numberOfGames else 0)
    + (if r.params.player1 == p then r.params.numberOfGames else 0)
  }

  /** The wins p is credited with by one wager: the counter of each slot p holds. */
  function WagerWins(r: WagerRead, p: Address): nat {
    (if r.params.player0 == p then r.status.winsPlayer0 else 0)
    + (if r.params.player1 == p then r.status.winsPlayer1 else 0)
  }

  /** The sum of numberOfGames over every slot p occupies. */
  function TotalGames(rs: seq<WagerRead>, p: Address): nat
    decreases |rs|
  {
    if rs == [] then 0 else TotalGames(rs[..|rs| - 1], p) + WagerGames(rs[|rs| - 1], p)
  }

  /** The sum of winsPlayer0 over wagers with p in slot 0 and of winsPlayer1 over those with p in slot 1. */
  function GamesWon(rs: seq<WagerRead>, p: Address): nat
    decreases |rs|
  {
    if rs == [] then 0 else GamesWon(rs[..|rs| - 1], p) + WagerWins(rs[|rs| - 1], p)
  }

  /** p holds a slot of some wager. */
  predicate Plays(rs: seq<WagerRead>, p: Address) {
    exists i :: 0 <= i < |rs| && (rs[i].params.player0 == p || rs[i].params.player1 == p)
  }

  /** p holds a slot of rs's last wager or of an earlier one. */
  lemma PlaysSnoc(rs: seq<WagerRead>, p: Address)
    requires rs != []
    ensures Plays(rs, p) <==>
      Plays(rs[..|rs| - 1], p) || rs[|rs| - 1].params.player0 == p || rs[|rs| - 1].params.player1 == p
  {
    var init := rs[..|rs| - 1];
    if Plays(init, p) {
      var i :| 0 <= i < |init| && (init[i].params.player0 == p || init[i].params.player1 == p);
      assert rs[i] == init[i];
    }
    if Plays(rs, p) {
      var i :| 0 <= i < |rs| && (rs[i].params.player0 == p || rs[i].params.player1 == p);
      if i < |init| {
        assert init[i] == rs[i];
      }
    }
  }

  /** What crediting one slot does to player p's entry. */
  lemma CreditAt(stats: map<Address, PlayerStats>, player: Address, games: nat, wins: nat, p: Address)
    requires p != ZeroAddress
    ensures p in Credit(stats, player, games, wins) <==> p in stats || (player != ZeroAddress && player == p)
    ensures p in Credit(stats, player, games, wins) ==>
      var s := if p in stats then stats[p] else PlayerStats(0, 0);
      Credit(stats, player, games, wins)[p]
        == PlayerStats(s.totalGames + (if player == p then games else 0), s.gamesWon + (if player == p then wins else 0))
  {
  }

  /** What crediting one wager does to player p's entry; the zero address is never credited. */
  lemma CreditWagerAt(stats: map<Address, PlayerStats>, r: WagerRead, p: Address)
    ensures ZeroAddress !in stats ==> ZeroAddress !in CreditWager(stats, r)
    ensures p != ZeroAddress ==>
      (p in CreditWager(stats, r) <==> p in stats || r.params.player0 == p || r.params.player1 == p)
    ensures p != ZeroAddress && p in CreditWager(stats, r) ==>
      var s := if p in stats then stats[p] else PlayerStats(0, 0);
      CreditWager(stats, r)[p] == PlayerStats(s.totalGames + WagerGames(r, p), s.gamesWon + WagerWins(r, p))
  {
    if p != ZeroAddress {
      var once := Credit(stats, SlotPlayer(r, 0), r.params.numberOfGames, SlotWins(r, 0));
      CreditAt(stats, SlotPlayer(r, 0), r.params.numberOfGames, SlotWins(r, 0), p);
      CreditAt(once, SlotPlayer(r, 1), r.params.numberOfGames, SlotWins(r, 1), p);
    }
  }

  /** Player p's entry after the fold, in closed form. */
  lemma {:induction false} TallyAt(rs: seq<WagerRead>, p: Address)
    ensures p in Tally(rs) <==> p != ZeroAddress && Plays(rs, p)
    ensures p in Tally(rs) ==> Tally(rs)[p] == PlayerStats(TotalGames(rs, p), GamesWon(rs, p))
    ensures !Plays(rs, p) ==> TotalGames(rs, p) == 0 && GamesWon(rs, p) == 0
    decreases |rs|
  {
    if rs != [] {
      var init, r := rs[..|rs| - 1], rs[|rs| - 1];
      TallyAt(init, p);
      PlaysSnoc(rs, p);
      CreditWagerAt(Tally(init), r, p);
    }
  }

  /**
   * The dictionary the fold builds, in closed form: its keys are the non-zero players,
   * and each player's statistics are the sums over the slots that player holds.
   */
  lemma {:induction false} TallyClosedForm(rs: seq<WagerRead>)
    ensures ZeroAddress !in Tally(rs)
    ensures forall p :: p in Tally(rs) <==> p != ZeroAddress && Plays(rs, p)
    ensures forall p :: p in Tally(rs) ==> Tally(rs)[p] == PlayerStats(TotalGames(rs, p), GamesWon(rs, p))
    ensures forall p :: !Plays(rs, p) ==> TotalGames(rs, p) == 0 && GamesWon(rs, p) == 0
  {
    TallyAt(rs, ZeroAddress);
    forall p ensures (p in Tally(rs) <==> p != ZeroAddress && Plays(rs, p))
      && (p in Tally(rs) ==> Tally(rs)[p] == PlayerStats(TotalGames(rs, p), GamesWon(rs, p)))
      && (!Plays(rs, p) ==> TotalGames(rs, p) == 0 && GamesWon(rs, p) == 0)
    {
      TallyAt(rs, p);
    }
  }

  /** api/main.ts:411-427: the forEach over slots 0 and 1 of one wager, updating the dictionary in place. */
  method CreditSlots(stats0: map<Address, PlayerStats>, r: WagerRead) returns (stats: map<Address, PlayerStats>)
    ensures stats == CreditWager(stats0, r)
  {
    stats := stats0;
    for index := 0 to 2
      invariant index == 0 ==> stats == stats0
      invariant index == 1 ==> stats == Credit(stats0, SlotPlayer(r, 0), r.params.numberOfGames, SlotWins(r, 0))
      invariant index == 2 ==> stats == CreditWager(stats0, r)
    {
      var player := SlotPlayer(r, index);
      if player != ZeroAddress {
        if player !in stats {
          stats := stats[player := PlayerStats(0, 0)];
        }
        var s := stats[player];
        s := s.(totalGames := s.totalGames + r.params.numberOfGames);
        if index == 0 {
          s := s.(gamesWon := s.gamesWon + r.status.winsPlayer0);
        } else {
          s := s.(gamesWon := s.gamesWon + r.status.winsPlayer1);
        }
        stats := stats[player := s];
      }
    }
  }

  /**
   * api/main.ts:404-429: the fold over the wagers, updating the dictionary in place; None when a
   * read throws.
   */
  method AccumulateStats(c: ChainView, wagerAddresses: seq<Address>)
    returns (playerStatistics: Option<map<Address, PlayerStats>>)
    ensures match ReadWagers(c, wagerAddresses)
      case None => playerStatistics.None?
      case Some(rs) => playerStatistics == Some(Tally(rs))
  {
    var stats: map<Address, PlayerStats> := map[];
    ghost var rs: seq<WagerRead> := [];
    var i := 0;
    while i < |wagerAddresses|
      invariant 0 <= i <= |wagerAddresses|
      invariant ReadWagers(c, wagerAddresses[..i]) == Some(rs)
      invariant stats == Tally(rs)
    {
      var wagerAddress := wagerAddresses[i];
      if wagerAddress !in c.gameWagers || wagerAddress !in c.wagerStatus {
        // the read throws: caught at api/main.ts:453
        ReadWagersMissing(c, wagerAddresses, i);
        return None;
      }
      var r := WagerRead(c.gameWagers[wagerAddress], c.wagerStatus[wagerAddress]);
      stats := CreditSlots(stats, r);
      ReadWagersSnoc(c, wagerAddresses, i, rs);
      assert (rs + [r])[..|rs|] == rs;
      rs := rs + [r];
      i := i + 1;
    }
    assert wagerAddresses[..i] == wagerAddresses;
    playerStatistics := Some(stats);
  }

  /** Extending the prefix by an address whose reads answer extends the result by them. */
  lemma ReadWagersSnoc(c: ChainView, addrs: seq<Address>, i: nat, rs: seq<WagerRead>)
    requires i < |addrs| && addrs[i] in c.gameWagers && addrs[i] in c.wagerStatus
    requires ReadWagers(c, addrs[..i]) == Some(rs)
    ensures ReadWagers(c, addrs[..i + 1]) == Some(rs + [WagerRead(c.gameWagers[addrs[i]], c.wagerStatus[addrs[i]])])
  {
    assert addrs[..i + 1][..i] == addrs[..i];
  }

  /** One address whose read throws makes the whole list throw. */
  lemma ReadWagersMissing(c: ChainView, addrs: seq<Address>, i: nat)
    requires i < |addrs| && !(addrs[i] in c.gameWagers && addrs[i] in c.wagerStatus)
    ensures ReadWagers(c, addrs).None?
  {
  }

  /** d holds some of the entries of stats, with the same values. */
  predicate SubDictionary(d: map<Address, PlayerStats>, stats: map<Address, PlayerStats>) {
    forall p :: p in d ==> p in stats && d[p] == stats[p]
  }

  /**
   * api/main.ts:434-449: write one leaderboard row per player, in whatever order the entries come.
   * Before each row the network is queried (api/main.ts:446); down holds the positions of the queries
   * that throw, and the first one ends the loop (caught at api/main.ts:453) with the rows so far written.
   */
  method SaveStats(chainId: int, stats: map<Address, PlayerStats>, down: set<nat>, table: map<(int, Address), LeaderRow>)
    returns (saved: bool, written: map<(int, Address), LeaderRow>)
    requires LeaderboardKeyed(table)
    ensures LeaderboardKeyed(written)
    ensures saved <==> FirstDown(down, 0, |stats.Keys|) == |stats.Keys|
    ensures saved ==> written == UpsertStats(table, chainId, stats)
    ensures !saved ==> PartlySaved(table, chainId, stats, FirstDown(down, 0, |stats.Keys|), written)
  {
    written := table;
    var remaining := stats.Keys;
    var j := 0;
    ghost var done: map<Address, PlayerStats> := map[];
    UpsertStatsEmpty(table, chainId);
    while remaining != {}
      invariant SavedSoFar(table, chainId, stats, remaining, done, written)
      invariant |done.Keys| == j
      invariant Answered(down, j)
      decreases remaining
    {
      var address :| address in remaining;
      SaveStep(table, chainId, stats, remaining, done, written, address);
      if j in down {
        // getNetwork throws: caught at api/main.ts:453
        SaveStopped(table, chainId, stats, remaining, done, written, down, j);
        return false, written;
      }
      written := UpsertLeaderRow(written, StatsRow(chainId, address, stats[address]));
      KeysGrow(done, address, stats[address]);
      done := done[address := stats[address]];
      remaining := remaining - {address};
      AnsweredStep(down, j);
      j := j + 1;
    }
    SaveDone(table, chainId, stats, done, written);
    AnsweredAll(down, j);
    saved := true;
  }

  /** The first j network queries answer. */
  ghost predicate Answered(down: set<nat>, j: nat) {
    forall i: nat :: i < j ==> i !in down
  }

  lemma AnsweredStep(down: set<nat>, j: nat)
    requires Answered(down, j) && j !in down
    ensures Answered(down, j + 1)
  {
  }

  /** When all n queries answer, none of them is the first that throws. */
  lemma AnsweredAll(down: set<nat>, n: nat)
    requires Answered(down, n)
    ensures FirstDown(down, 0, n) == n
  {
  }

  /** Adding a new key to a map adds one to the number of its keys. */
  lemma KeysGrow(m: map<Address, PlayerStats>, p: Address, v: PlayerStats)
    requires p !in m
    ensures |m[p := v].Keys| == |m.Keys| + 1
  {
    assert m[p := v].Keys == m.Keys + {p};
  }

  /** written is table after the rows of some k of the entries of stats. */
  ghost predicate PartlySaved(table: map<(int, Address), LeaderRow>, chainId: int, stats: map<Address, PlayerStats>,
                              k: nat, written: map<(int, Address), LeaderRow>)
  {
    LeaderboardKeyed(table) && exists d :: SubDictionary(d, stats) && |d.Keys| == k && written == UpsertStats(table, chainId, d)
  }

  /** Writing no entries leaves the table as it was. */
  lemma UpsertStatsEmpty(table: map<(int, Address), LeaderRow>, chainId: int)
    requires LeaderboardKeyed(table)
    ensures UpsertStats(table, chainId, map[]) == table
  {
  }

  /** Once no entry remains, every entry has been written. */
  lemma SaveDone(table: map<(int, Address), LeaderRow>, chainId: int, stats: map<Address, PlayerStats>,
                 done: map<Address, PlayerStats>, written: map<(int, Address), LeaderRow>)
    requires SavedSoFar(table, chainId, stats, {}, done, written)
    ensures done == stats
    ensures written == UpsertStats(table, chainId, stats)
  {
    assert done == stats;
  }

  /** A network query that throws at entry j leaves the j rows written before it. */
  lemma SaveStopped(table: map<(int, Address), LeaderRow>, chainId: int, stats: map<Address, PlayerStats>,
                    remaining: set<Address>, done: map<Address, PlayerStats>,
                    written: map<(int, Address), LeaderRow>, down: set<nat>, j: nat)
    requires SavedSoFar(table, chainId, stats, remaining, done, written)
    requires remaining != {} && |done.Keys| == j && j in down
    requires Answered(down, j)
    ensures FirstDown(down, 0, |stats.Keys|) == j
    ensures PartlySaved(table, chainId, stats, j, written)
  {
    var x :| x in remaining;
    assert done.Keys < stats.Keys by {
      assert x in stats.Keys && x !in done.Keys;
    }
    assert j < |stats.Keys|;
    assert SubDictionary(done, stats);
  }

  /** The loop invariant of SaveStats: done holds the entries already written. */
  ghost predicate SavedSoFar(table: map<(int, Address), LeaderRow>, chainId: int, stats: map<Address, PlayerStats>,
                             remaining: set<Address>, done: map<Address, PlayerStats>,
                             written: map<(int, Address), LeaderRow>)
  {
    && LeaderboardKeyed(table)
    && remaining <= stats.Keys
    && done.Keys == stats.Keys - remaining
    && (forall p :: p in done ==> done[p] == stats[p])
    && LeaderboardKeyed(written)
    && written == UpsertStats(table, chainId, done)
  }

  /** Writing one more entry keeps the invariant. */
  lemma SaveStep(table: map<(int, Address), LeaderRow>, chainId: int, stats: map<Address, PlayerStats>,
                 remaining: set<Address>, done: map<Address, PlayerStats>,
                 written: map<(int, Address), LeaderRow>, address: Address)
    requires SavedSoFar(table, chainId, stats, remaining, done, written)
    requires address in remaining
    ensures address !in done
    ensures SavedSoFar(table, chainId, stats, remaining - {address}, done[address := stats[address]],
                       UpsertLeaderRow(written, StatsRow(chainId, address, stats[address])))
  {
    var done' := done[address := stats[address]];
    assert done'.Keys == stats.Keys - (remaining - {address});
    UpsertStatsStep(table, chainId, done, address, stats[address]);
  }

  /**
   * api/main.ts:376-461. The dictionary is returned only when every read and every network query
   * answers; otherwise {} comes back, after the rows already written.
   */
  method GetLeaderboardData(c: ChainView, down: set<nat>, store: Store)
    returns (stats: map<Address, PlayerStats>, store': Store)
    requires store.Valid()
    ensures store'.Valid()
    ensures store'.chessGames == store.chessGames && store'.chessAnalytics == store.chessAnalytics
      && store'.tournaments == store.tournaments
    ensures ReadWagers(c, ProbedAddresses(c.allWagers)).None? ==> stats == map[] && store' == store
    ensures match ReadWagers(c, ProbedAddresses(c.allWagers))
      case None => true
      case Some(rs) =>
        var tally := Tally(rs);
        var k := FirstDown(down, 0, |tally.Keys|);
        && (k == |tally.Keys| ==> stats == tally && store'.leaderboard == UpsertStats(store.leaderboard, c.chainId, tally))
        && (k < |tally.Keys| ==> stats == map[] && PartlySaved(store.leaderboard, c.chainId, tally, k, store'.leaderboard))
  {
    var wagerAddresses := ProbeWagerAddresses(c.allWagers);
    var playerStatistics := AccumulateStats(c, wagerAddresses);
    if playerStatistics.None? {
      return map[], store;
    }
    var saved, leaderboard := SaveStats(c.chainId, playerStatistics.value, down, store.leaderboard);
    store' := store.(leaderboard := leaderboard);
    stats := if saved then playerStatistics.value else map[];
  }
}
