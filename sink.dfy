/**
 * The four tables the indexer writes, each a map from its unique key to its row, and the
 * INSERT ... ON CONFLICT ... DO UPDATE statements that write them (api/main.ts, pushWagerDataToDb,
 * pushGamesDataToDb, pushTournamentDataToDb and the leaderboard statement of GetLeaderboardData).
 * Connections, SQL text and failures of the database are not modelled.
 */
module Sink {
  import opened Types

  /** One row of leaderboard. */
  datatype LeaderRow = LeaderRow(chainId: int, addressPlayer: Address, totalGames: nat, gamesWon: nat)

  /** chess_games is keyed by match_address. */
  predicate GamesKeyed(t: map<Address, Wager>) {
    forall k :: k in t ==> t[k].matchAddress == k
  }

  /** chess_analytics is keyed by chain_id. */
  predicate AnalyticsKeyed(t: map<int, GamesData>) {
    forall k :: k in t ==> t[k].chainId == k
  }

  /** tournaments is keyed by (chain_id, tournament_nonce). */
  predicate TournamentsKeyed(t: map<(int, nat), TournamentData>) {
    forall k :: k in t ==> (t[k].chainId, t[k].tournamentNonce) == k
  }

  /** leaderboard is keyed by (chain_id, address_player). */
  predicate LeaderboardKeyed(t: map<(int, Address), LeaderRow>) {
    forall k :: k in t ==> (t[k].chainId, t[k].addressPlayer) == k
  }

  /** The persistent store: each row sits under the key its own key columns hold. */
  datatype Store = Store(
    chessGames: map<Address, Wager>,
    chessAnalytics: map<int, GamesData>,
    tournaments: map<(int, nat), TournamentData>,
    leaderboard: map<(int, Address), LeaderRow>)
  {
    predicate Valid() {
      && GamesKeyed(chessGames)
      && AnalyticsKeyed(chessAnalytics)
      && TournamentsKeyed(tournaments)
      && LeaderboardKeyed(leaderboard)
    }
  }

  function WagerKey(w: Wager): Address { w.matchAddress }

  function TournamentKey(d: TournamentData): (int, nat) { (d.chainId, d.tournamentNonce) }

  /** DO UPDATE SET of chess_games: every column but match_address takes the incoming value. */
  function MergeWagerRow(existing: Wager, incoming: Wager): Wager {
    existing.(
      chainId := incoming.chainId,
      player0Address := incoming.player0Address,
      player1Address := incoming.player1Address,
      wagerToken := incoming.wagerToken,
      wagerAmount := incoming.wagerAmount,
      numberOfGames := incoming.numberOfGames,
      isInProgress := incoming.isInProgress,
      timeLimit := incoming.timeLimit,
      timeLastMove := incoming.timeLastMove,
      timePlayer0 := incoming.timePlayer0,
      timePlayer1 := incoming.timePlayer1,
      isPlayerTurn := incoming.isPlayerTurn,
      isTournament := incoming.isTournament,
      fenString := incoming.fenString)
  }

  /** Insert the wager row, or on a match_address conflict update the existing row. */
  function UpsertWager(t: map<Address, Wager>, w: Wager): (r: map<Address, Wager>)
    requires GamesKeyed(t)
    ensures GamesKeyed(r)
    ensures r == t[w.matchAddress := w]
  {
    if w.matchAddress in t then t[w.matchAddress := MergeWagerRow(t[w.matchAddress], w)]
    else t[w.matchAddress := w]
  }

  /** DO UPDATE SET of chess_analytics: number_of_games and number_of_wagers. */
  function MergeGamesRow(existing: GamesData, incoming: GamesData): GamesData {
    existing.(numberOfGames := incoming.numberOfGames, numberOfWagers := incoming.numberOfWagers)
  }

  /** Insert the chain summary, or on a chain_id conflict update the existing row. */
  function UpsertGames(t: map<int, GamesData>, g: GamesData): (r: map<int, GamesData>)
    requires AnalyticsKeyed(t)
    ensures AnalyticsKeyed(r)
    ensures r == t[g.chainId := g]
  {
    if g.chainId in t then t[g.chainId := MergeGamesRow(t[g.chainId], g)]
    else t[g.chainId := g]
  }

  /** DO UPDATE SET of tournaments: every column but chain_id and tournament_nonce. */
  function MergeTournamentRow(existing: TournamentData, incoming: TournamentData): TournamentData {
    existing.(
      numberOfPlayers := incoming.numberOfPlayers,
      players := incoming.players,
      numberOfGames := incoming.numberOfGames,
      token := incoming.token,
      tokenAmount := incoming.tokenAmount,
      isInProgress := incoming.isInProgress,
      startTime := incoming.startTime,
      timeLimit := incoming.timeLimit,
      isComplete := incoming.isComplete,
      isTournament := incoming.isTournament)
  }

  /** Insert the tournament row, or on a (chain_id, tournament_nonce) conflict update it. */
  function UpsertTournament(t: map<(int, nat), TournamentData>, d: TournamentData): (r: map<(int, nat), TournamentData>)
    requires TournamentsKeyed(t)
    ensures TournamentsKeyed(r)
    ensures r == t[TournamentKey(d) := d]
  {
    var k := TournamentKey(d);
    if k in t then t[k := MergeTournamentRow(t[k], d)] else t[k := d]
  }

  /** DO UPDATE SET of leaderboard: total_games and games_won from the excluded row. */
  function MergeLeaderRow(existing: LeaderRow, incoming: LeaderRow): LeaderRow {
    existing.(totalGames := incoming.totalGames, gamesWon := incoming.gamesWon)
  }

  /** Insert the player's row, or on a (chain_id, address_player) conflict update it. */
  function UpsertLeaderRow(t: map<(int, Address), LeaderRow>, row: LeaderRow): (r: map<(int, Address), LeaderRow>)
    requires LeaderboardKeyed(t)
    ensures LeaderboardKeyed(r)
    ensures r == t[(row.chainId, row.addressPlayer) := row]
  {
    var k := (row.chainId, row.addressPlayer);
    if k in t then t[k := MergeLeaderRow(t[k], row)] else t[k := row]
  }

  /** The leaderboard row of one player's statistics on one chain. */
  function StatsRow(chainId: int, player: Address, s: PlayerStats): LeaderRow {
    LeaderRow(chainId, player, s.totalGames, s.gamesWon)
  }

  /** The leaderboard after every player of stats has been written for chainId, in any order. */
  function UpsertStats(t: map<(int, Address), LeaderRow>, chainId: int, stats: map<Address, PlayerStats>)
    : (r: map<(int, Address), LeaderRow>)
    requires LeaderboardKeyed(t)
    ensures LeaderboardKeyed(r)
    ensures forall k :: k in r ==> k in t || (k.0 == chainId && k.1 in stats)
    ensures forall k :: k in t ==> k in r
    ensures forall p :: p in stats ==> (chainId, p) in r && r[(chainId, p)] == StatsRow(chainId, p, stats[p])
    ensures forall k :: k in t && !(k.0 == chainId && k.1 in stats) ==> r[k] == t[k]
  {
    t + map p | p in stats :: (chainId, p) := StatsRow(chainId, p, stats[p])
  }

  /** Writing one more player's row extends the set of players written. */
  lemma UpsertStatsStep(t: map<(int, Address), LeaderRow>, chainId: int, stats: map<Address, PlayerStats>,
                        p: Address, s: PlayerStats)
    requires LeaderboardKeyed(t)
    ensures UpsertLeaderRow(UpsertStats(t, chainId, stats), StatsRow(chainId, p, s))
         == UpsertStats(t, chainId, stats[p := s])
  {
    var lhs := UpsertStats(t, chainId, stats)[(chainId, p) := StatsRow(chainId, p, s)];
    var rhs := UpsertStats(t, chainId, stats[p := s]);
    UpsertStatsStepKeys(t, chainId, stats, p, s);
    UpsertStatsStepValues(t, chainId, stats, p, s);
    assert lhs == rhs;
  }

  /** The key half of UpsertStatsStep. */
  lemma UpsertStatsStepKeys(t: map<(int, Address), LeaderRow>, chainId: int, stats: map<Address, PlayerStats>,
                            p: Address, s: PlayerStats)
    requires LeaderboardKeyed(t)
    ensures UpsertStats(t, chainId, stats)[(chainId, p) := StatsRow(chainId, p, s)].Keys
         == UpsertStats(t, chainId, stats[p := s]).Keys
  {
    var lhs := UpsertStats(t, chainId, stats)[(chainId, p) := StatsRow(chainId, p, s)];
    var rhs := UpsertStats(t, chainId, stats[p := s]);
    forall k | k in lhs ensures k in rhs {
      if k != (chainId, p) && k !in t {
        assert k == (chainId, k.1);
      }
    }
    forall k | k in rhs ensures k in lhs {
      if k !in t {
        assert k == (chainId, k.1);
      }
    }
  }

  /** The value half of UpsertStatsStep. */
  lemma UpsertStatsStepValues(t: map<(int, Address), LeaderRow>, chainId: int, stats: map<Address, PlayerStats>,
                              p: Address, s: PlayerStats)
    requires LeaderboardKeyed(t)
    ensures var lhs := UpsertStats(t, chainId, stats)[(chainId, p) := StatsRow(chainId, p, s)];
      var rhs := UpsertStats(t, chainId, stats[p := s]);
      forall k :: k in lhs && k in rhs ==> lhs[k] == rhs[k]
  {
    var before := UpsertStats(t, chainId, stats);
    var lhs := before[(chainId, p) := StatsRow(chainId, p, s)];
    var rhs := UpsertStats(t, chainId, stats[p := s]);
    forall k | k in lhs && k in rhs ensures lhs[k] == rhs[k] {
      if k == (chainId, p) {
        assert lhs[k] == StatsRow(chainId, p, s);
        assert rhs[(chainId, p)] == StatsRow(chainId, p, stats[p := s][p]);
      } else if k.0 == chainId && k.1 in stats {
        var q := k.1;
        assert k == (chainId, q);
        assert before[(chainId, q)] == StatsRow(chainId, q, stats[q]);
        assert rhs[(chainId, q)] == StatsRow(chainId, q, stats[p := s][q]);
      } else {
        assert rhs[k] == t[k];
        assert before[k] == t[k];
      }
    }
  }

  /** Upserting the same wager a second time changes nothing. */
  lemma UpsertWagerTwice(t: map<Address, Wager>, w: Wager)
    requires GamesKeyed(t)
    ensures UpsertWager(UpsertWager(t, w), w) == UpsertWager(t, w)
  {
  }

  /** Upserting the same per-chain counters a second time changes nothing. */
  lemma UpsertGamesTwice(t: map<int, GamesData>, g: GamesData)
    requires AnalyticsKeyed(t)
    ensures UpsertGames(UpsertGames(t, g), g) == UpsertGames(t, g)
  {
  }

  /** Upserting the same tournament a second time changes nothing. */
  lemma UpsertTournamentTwice(t: map<(int, nat), TournamentData>, d: TournamentData)
    requires TournamentsKeyed(t)
    ensures UpsertTournament(UpsertTournament(t, d), d) == UpsertTournament(t, d)
  {
  }

  /** Upserting the same leaderboard row a second time changes nothing. */
  lemma UpsertLeaderRowTwice(t: map<(int, Address), LeaderRow>, row: LeaderRow)
    requires LeaderboardKeyed(t)
    ensures UpsertLeaderRow(UpsertLeaderRow(t, row), row) == UpsertLeaderRow(t, row)
  {
  }

  /** Writing the same statistics a second time changes nothing. */
  lemma UpsertStatsTwice(t: map<(int, Address), LeaderRow>, chainId: int, stats: map<Address, PlayerStats>)
    requires LeaderboardKeyed(t)
    ensures UpsertStats(UpsertStats(t, chainId, stats), chainId, stats) == UpsertStats(t, chainId, stats)
  {
    var once := UpsertStats(t, chainId, stats);
    var twice := UpsertStats(once, chainId, stats);
    assert twice.Keys == once.Keys;
  }

  /** The table after writing rows in order, each replacing whatever its key held before. */
  function WriteAll<K(==), R>(t: map<K, R>, rows: seq<R>, key: R -> K): map<K, R>
    decreases |rows|
  {
    if rows == [] then t
    else WriteAll(t, rows[..|rows| - 1], key)[key(rows[|rows| - 1]) := rows[|rows| - 1]]
  }

  /** Writing one more row is one more replacement. */
  lemma WriteAllSnoc<K, R>(t: map<K, R>, rows: seq<R>, row: R, key: R -> K)
    ensures WriteAll(t, rows + [row], key) == WriteAll(t, rows, key)[key(row) := row]
  {
    assert (rows + [row])[..|rows|] == rows;
  }

  /** The last position of rows whose key is k, or -1 if there is none. */
  function LastWith<K(==), R>(rows: seq<R>, key: R -> K, k: K): (i: int)
    ensures -1 <= i < |rows|
    ensures i >= 0 ==> key(rows[i]) == k && forall j :: i < j < |rows| ==> key(rows[j]) != k
    ensures i < 0 ==> forall j :: 0 <= j < |rows| ==> key(rows[j]) != k
    decreases |rows|
  {
    if rows == [] then -1
    else if key(rows[|rows| - 1]) == k then |rows| - 1
    else LastWith(rows[..|rows| - 1], key, k)
  }

  /**
   * Writing a sequence of rows leaves one row per key: the last row written with that key,
   * or the row the table held before if no row had that key.
   */
  lemma {:induction false} WriteAllRows<K, R>(t: map<K, R>, rows: seq<R>, key: R -> K)
    ensures forall k :: k in WriteAll(t, rows, key) <==> k in t || LastWith(rows, key, k) >= 0
    ensures forall k :: k in WriteAll(t, rows, key) ==>
      WriteAll(t, rows, key)[k] == (if LastWith(rows, key, k) >= 0 then rows[LastWith(rows, key, k)] else t[k])
    decreases |rows|
  {
    if rows != [] {
      var init := rows[..|rows| - 1];
      WriteAllRows(t, init, key);
      forall k ensures LastWith(rows, key, k) == (if key(rows[|rows| - 1]) == k then |rows| - 1 else LastWith(init, key, k)) {
      }
    }
  }

  /** Every row written has its key in the table, and a key no row has keeps its old row. */
  lemma WriteAllCovers<K, R>(t: map<K, R>, rows: seq<R>, key: R -> K)
    ensures forall i :: 0 <= i < |rows| ==> key(rows[i]) in WriteAll(t, rows, key)
    ensures forall k :: k in t && (forall i :: 0 <= i < |rows| ==> key(rows[i]) != k) ==>
      k in WriteAll(t, rows, key) && WriteAll(t, rows, key)[k] == t[k]
  {
    WriteAllRows(t, rows, key);
    forall i | 0 <= i < |rows| ensures LastWith(rows, key, key(rows[i])) >= 0 {
    }
  }

  /** When no two rows share a key, every row written is found under its own key. */
  lemma WriteAllDistinct<K, R>(t: map<K, R>, rows: seq<R>, key: R -> K)
    requires forall i, j :: 0 <= i < j < |rows| ==> key(rows[i]) != key(rows[j])
    ensures forall i :: 0 <= i < |rows| ==> key(rows[i]) in WriteAll(t, rows, key) && WriteAll(t, rows, key)[key(rows[i])] == rows[i]
    ensures forall k :: k in t && (forall i :: 0 <= i < |rows| ==> key(rows[i]) != k) ==>
      k in WriteAll(t, rows, key) && WriteAll(t, rows, key)[k] == t[k]
  {
    WriteAllRows(t, rows, key);
    forall i | 0 <= i < |rows| ensures LastWith(rows, key, key(rows[i])) == i {
      var l := LastWith(rows, key, key(rows[i]));
      assert l >= i;
    }
  }

  /** Writing wager snapshots keeps chess_games keyed by match address. */
  lemma {:induction false} WriteAllGamesKeyed(t: map<Address, Wager>, rows: seq<Wager>)
    requires GamesKeyed(t)
    ensures GamesKeyed(WriteAll(t, rows, WagerKey))
    decreases |rows|
  {
    if rows != [] {
      WriteAllGamesKeyed(t, rows[..|rows| - 1]);
    }
  }

  /** Running the same sequence of writes a second time changes nothing. */
  lemma WriteAllTwice<K, R>(t: map<K, R>, rows: seq<R>, key: R -> K)
    ensures WriteAll(WriteAll(t, rows, key), rows, key) == WriteAll(t, rows, key)
  {
    var once := WriteAll(t, rows, key);
    var twice := WriteAll(once, rows, key);
    WriteAllRows(t, rows, key);
    WriteAllRows(once, rows, key);
    forall k ensures k in twice <==> k in once {
      if LastWith(rows, key, k) >= 0 {
        assert k in once;
      }
    }
    forall k | k in twice ensures k in once && twice[k] == once[k] {
      var i := LastWith(rows, key, k);
      if i >= 0 {
        assert k in once;
        assert twice[k] == rows[i];
        assert once[k] == rows[i];
      }
    }
    assert twice == once;
  }
}
