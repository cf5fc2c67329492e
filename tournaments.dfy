/**
 * The tournament scanner (api/main.ts, GetTournaments): read tournamentNonce, then for each
 * nonce below it read the tournament, the network and the players, and upsert the record.
 * The whole walk sits in one try block, so the first call that throws ends it; the records
 * written before that stay written.
 */
module Tournaments {
  import opened Options
  import opened Types
  import opened Sink

  /**
   * api/main.ts:341-363 for nonce i: the record built from tournaments(i), the network's chain id and
   * getTournamentPlayers(i); None if one of those three calls throws. down holds the positions
   * of the network queries that throw, and nonce i makes the run's i-th query.
   */
  function BuildTournament(c: ChainView, down: set<nat>, i: nat): (r: Option<TournamentData>)
    ensures r.Some? <==> i in c.tournaments && i !in down && i in c.tournamentPlayers
    ensures r.Some? ==>
      && r.value.chainId == c.chainId
      && r.value.tournamentNonce == i
      && r.value.players == c.tournamentPlayers[i]
      && r.value.numberOfPlayers == c.tournaments[i].numberOfPlayers
      && r.value.numberOfGames == c.tournaments[i].numberOfGames
      && r.value.isComplete == c.tournaments[i].isComplete
  {
    if i !in c.tournaments || i in down || i !in c.tournamentPlayers then None
    else
      var data := c.tournaments[i];
      Some(TournamentData(
        chainId := c.chainId,
        tournamentNonce := i,
        numberOfPlayers := data.numberOfPlayers,
        players := c.tournamentPlayers[i],
        numberOfGames := data.numberOfGames,
        token := data.token,
        tokenAmount := data.tokenAmount,
        isInProgress := data.isInProgress,
        startTime := data.startTime,
        timeLimit := data.timeLimit,
        isComplete := data.isComplete,
        isTournament := data.isTournament))
  }

  /** The first nonce in i .. n-1 whose build throws, or n if none does. */
  function FirstFailure(c: ChainView, down: set<nat>, i: nat, n: nat): (k: nat)
    requires i <= n
    ensures i <= k <= n
    ensures forall j: nat :: i <= j < k ==> BuildTournament(c, down, j).Some?
    ensures k < n ==> BuildTournament(c, down, k).None?
    decreases n - i
  {
    if i == n then n
    else if BuildTournament(c, down, i).None? then i
    else FirstFailure(c, down, i + 1, n)
  }

  /** The records of nonces 0 .. k-1, each of which builds. */
  function Records(c: ChainView, down: set<nat>, k: nat): (rs: seq<TournamentData>)
    requires forall j: nat :: j < k ==> BuildTournament(c, down, j).Some?
    ensures |rs| == k
    ensures forall j :: 0 <= j < k ==> rs[j] == BuildTournament(c, down, j).value
  {
    if k == 0 then [] else Records(c, down, k - 1) + [BuildTournament(c, down, k - 1).value]
  }

  /** The records the walk pushes: those of the nonces before the first failure. */
  function Walked(c: ChainView, down: set<nat>): (rs: seq<TournamentData>)
    ensures c.tournamentNonce.None? ==> rs == []
    ensures c.tournamentNonce.Some? ==> |rs| <= c.tournamentNonce.value
    ensures c.tournamentNonce.Some? && |rs| < c.tournamentNonce.value ==> BuildTournament(c, down, |rs|).None?
    ensures forall j :: 0 <= j < |rs| ==> Some(rs[j]) == BuildTournament(c, down, j)
  {
    match c.tournamentNonce
    case None => []
    case Some(n) => Records(c, down, FirstFailure(c, down, 0, n))
  }

  /** api/main.ts:342-363: the three reads for nonce i, in the source's order. */
  method ReadTournament(c: ChainView, down: set<nat>, i: nat) returns (data: Option<TournamentData>)
    ensures data == BuildTournament(c, down, i)
  {
    if i !in c.tournaments {
      return None;
    }
    var params := c.tournaments[i];
    if i in down {
      return None;
    }
    var tournamentData := TournamentData(
      chainId := c.chainId,
      tournamentNonce := i,
      numberOfPlayers := params.numberOfPlayers,
      players := [],
      numberOfGames := params.numberOfGames,
      token := params.token,
      tokenAmount := params.tokenAmount,
      isInProgress := params.isInProgress,
      startTime := params.startTime,
      timeLimit := params.timeLimit,
      isComplete := params.isComplete,
      isTournament := params.isTournament);
    if i !in c.tournamentPlayers {
      return None;
    }
    tournamentData := tournamentData.(players := c.tournamentPlayers[i]);
    return Some(tournamentData);
  }

  /** The loop invariant of WalkNonces: nonces 0 .. i-1 were built, pushed and written. */
  ghost predicate WalkedSoFar(c: ChainView, down: set<nat>, table0: map<(int, nat), TournamentData>, i: nat,
                              records: seq<TournamentData>, table: map<(int, nat), TournamentData>)
  {
    && (forall j: nat :: j < i ==> BuildTournament(c, down, j).Some?)
    && records == Records(c, down, i)
    && TournamentsKeyed(table)
    && table == WriteAll(table0, records, TournamentKey)
  }

  /** Pushing the record of nonce i keeps the invariant. */
  lemma WalkStep(c: ChainView, down: set<nat>, table0: map<(int, nat), TournamentData>, i: nat,
                 records: seq<TournamentData>, table: map<(int, nat), TournamentData>, data: TournamentData)
    requires WalkedSoFar(c, down, table0, i, records, table)
    requires BuildTournament(c, down, i) == Some(data)
    ensures WalkedSoFar(c, down, table0, i + 1, records + [data], UpsertTournament(table, data))
  {
    WriteAllSnoc(table0, records, data, TournamentKey);
  }

  /** api/main.ts:341-364: the walk over nonces 0 .. tournamentNonce-1, ending at the first read that throws. */
  method WalkNonces(c: ChainView, down: set<nat>, tournamentNonce: nat, table0: map<(int, nat), TournamentData>)
    returns (records: seq<TournamentData>, table: map<(int, nat), TournamentData>)
    requires TournamentsKeyed(table0)
    ensures TournamentsKeyed(table)
    ensures records == Records(c, down, FirstFailure(c, down, 0, tournamentNonce))
    ensures table == WriteAll(table0, records, TournamentKey)
  {
    records := [];
    table := table0;
    var i := 0;
    while i < tournamentNonce
      invariant 0 <= i <= tournamentNonce
      invariant WalkedSoFar(c, down, table0, i, records, table)
    {
      var data := ReadTournament(c, down, i);
      if data.None? {
        // tournaments(i), getNetwork() or getTournamentPlayers(i) throws: caught at api/main.ts:365
        assert FirstFailure(c, down, 0, tournamentNonce) == i;
        return;
      }
      WalkStep(c, down, table0, i, records, table, data.value);
      records := records + [data.value];
      table := UpsertTournament(table, data.value);
      i := i + 1;
    }
    assert FirstFailure(c, down, 0, tournamentNonce) == i;
  }

  /** api/main.ts:335-369; the array tournamentsData is returned as records. */
  method GetTournaments(c: ChainView, down: set<nat>, store: Store) returns (records: seq<TournamentData>, store': Store)
    requires store.Valid()
    ensures store'.Valid()
    ensures records == Walked(c, down)
    ensures store' == store.(tournaments := WriteAll(store.tournaments, records, TournamentKey))
  {
    if c.tournamentNonce.None? {
      // tournamentNonce() throws: caught at api/main.ts:365
      return [], store;
    }
    var table;
    records, table := WalkNonces(c, down, c.tournamentNonce.value, store.tournaments);
    store' := store.(tournaments := table);
  }

  /** The pushed records carry their nonce and this chain's id. */
  lemma WalkedKeys(c: ChainView, down: set<nat>)
    ensures forall j :: 0 <= j < |Walked(c, down)| ==> TournamentKey(Walked(c, down)[j]) == (c.chainId, j)
  {
    var rs := Walked(c, down);
    forall j | 0 <= j < |rs| ensures TournamentKey(rs[j]) == (c.chainId, j) {
      assert Some(rs[j]) == BuildTournament(c, down, j);
    }
  }

  /**
   * Writing records keyed by consecutive nonces leaves each under (chainId, nonce), and every
   * other row the table held before untouched.
   */
  lemma NonceRows(chainId: int, table: map<(int, nat), TournamentData>, rs: seq<TournamentData>)
    requires forall j :: 0 <= j < |rs| ==> TournamentKey(rs[j]) == (chainId, j)
    ensures forall j: nat :: j < |rs| ==>
      (chainId, j) in WriteAll(table, rs, TournamentKey) && WriteAll(table, rs, TournamentKey)[(chainId, j)] == rs[j]
    ensures forall k :: k in table && !(k.0 == chainId && k.1 < |rs|) ==>
      k in WriteAll(table, rs, TournamentKey) && WriteAll(table, rs, TournamentKey)[k] == table[k]
  {
    var written := WriteAll(table, rs, TournamentKey);
    WriteAllDistinct(table, rs, TournamentKey);
    forall j: nat | j < |rs| ensures (chainId, j) in written && written[(chainId, j)] == rs[j] {
      assert TournamentKey(rs[j]) == (chainId, j);
    }
    forall k | k in table && !(k.0 == chainId && k.1 < |rs|) ensures k in written && written[k] == table[k] {
      assert forall j :: 0 <= j < |rs| ==> TournamentKey(rs[j]) != k;
    }
  }
}
