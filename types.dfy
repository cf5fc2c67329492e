/**
 * The records the indexer reads from a chain and the snapshot records it builds from them
 * (api/main.ts, the interfaces Wager, GamesData, TournamentData and PlayerStats).
 */
module Types {
  import opened Options

  /** An account or contract address, as hex text. */
  type Address = string

  /** The zero address (ethers.constants.AddressZero): a player slot nobody has taken. */
  const ZeroAddress: Address := "0x0000000000000000000000000000000000000000"

  /** A move in the wager contract's compact encoding. */
  type HexMove = nat

  /** A move in standard algebraic notation, as the contract's decoder returns it. */
  type San = string

  /** The tuple gameWagers(address) returns: positions 0 to 9 and the named field isTournament. */
  datatype WagerParams = WagerParams(
    player0: Address,
    player1: Address,
    wagerToken: Address,
    wagerAmount: int,
    numberOfGames: nat,
    isInProgress: bool,
    timeLimit: int,
    timeLastMove: int,
    timePlayer0: int,
    timePlayer1: int,
    isTournament: bool)

  /** The win counters wagerStatus(address) returns. */
  datatype WinStatus = WinStatus(winsPlayer0: nat, winsPlayer1: nat)

  /** The tuple tournaments(nonce) returns, positions 0 to 8. */
  datatype TournamentParams = TournamentParams(
    numberOfPlayers: int,
    numberOfGames: int,
    token: Address,
    tokenAmount: int,
    isInProgress: bool,
    startTime: int,
    timeLimit: int,
    isComplete: bool,
    isTournament: bool)

  /**
   * What the wager and tournament contracts of one chain answer during one run.
   * Each map is a contract read; a key that is absent is a call that throws.
   */
  datatype ChainView = ChainView(
    chainId: int,                                  // the chain the provider is bound to
    wagerCount: nat,                               // getAllWagersCount()
    allWagers: map<nat, Address>,                  // allWagers(index)
    gameWagers: map<Address, WagerParams>,         // gameWagers(address)
    wagerStatus: map<Address, WinStatus>,          // wagerStatus(address)
    gameLength: map<Address, nat>,                 // getGameLength(address)
    gameMoves: map<(Address, nat), seq<HexMove>>,  // getGameMoves(address, gameID).moves
    hexToMove: map<HexMove, San>,                  // hexToMove(move)
    tournamentNonce: Option<nat>,                  // tournamentNonce()
    tournaments: map<nat, TournamentParams>,       // tournaments(nonce)
    tournamentPlayers: map<nat, seq<Address>>)     // getTournamentPlayers(nonce)

  /** One row of chess_games: the snapshot of one wager. */
  datatype Wager = Wager(
    chainId: int,
    matchAddress: Address,
    player0Address: Address,
    player1Address: Address,
    wagerToken: Address,
    wagerAmount: int,
    numberOfGames: nat,
    isInProgress: bool,
    timeLimit: int,
    timeLastMove: int,
    timePlayer0: int,
    timePlayer1: int,
    isPlayerTurn: bool,
    isTournament: bool,
    fenString: string)

  /** One row of chess_analytics: the summary of one chain. */
  datatype GamesData = GamesData(chainId: int, numberOfGames: nat, numberOfWagers: nat)

  /** One row of tournaments: the snapshot of one tournament. */
  datatype TournamentData = TournamentData(
    chainId: int,
    tournamentNonce: nat,
    numberOfPlayers: int,
    players: seq<Address>,
    numberOfGames: int,
    token: Address,
    tokenAmount: int,
    isInProgress: bool,
    startTime: int,
    timeLimit: int,
    isComplete: bool,
    isTournament: bool)

  /** The running statistics of one player. */
  datatype PlayerStats = PlayerStats(totalGames: nat, gamesWon: nat)

  /** The answers of an index read at indices 0 .. n-1, in index order. */
  function IndexPrefix(m: map<nat, Address>, n: nat): (r: seq<Address>)
    requires forall i: nat :: i < n ==> i in m
    ensures |r| == n
    ensures forall i: nat :: i < n ==> r[i] == m[i]
  {
    if n == 0 then [] else IndexPrefix(m, n - 1) + [m[n - 1]]
  }

  /** The first position at or after i, and below n, in down (the network queries that throw); n when there is none. */
  function FirstDown(down: set<nat>, i: nat, n: nat): (k: nat)
    requires i <= n
    ensures i <= k <= n
    ensures forall j: nat :: i <= j < k ==> j !in down
    ensures k < n ==> k in down
    decreases n - i
  {
    if i == n then n else if i in down then i else FirstDown(down, i + 1, n)
  }
}
