# Chess wager indexer: a verified model of its aggregators

The indexer in `api/main.ts` walks the state of a chess-wager contract and a tournament
contract on each configured chain. It replays every wager's move history into a board position
(FEN text), sums per-player statistics, and writes all of it into four tables through
`INSERT ... ON CONFLICT ... DO UPDATE` statements. This project models that bookkeeping in
Dafny and proves what it computes.

How the world outside the code is represented:

- **The chain** is a `Types.ChainView`: one partial map per contract read. A key that is absent
  is a call that throws.
- **Retried reads.** Reads wrapped in `getRetryWithDelay` return only once they succeed, so the
  model requires them to be present.
- **The network query.** `provider.getNetwork()` may throw. Each aggregator takes
  `down: set<nat>`, the positions (in call order within one run) of the network queries that
  throw.
- **The rules engine** (chess.js) is a `MoveReplay.Engine`: an initial position, a partial move
  function and a FEN projection.
- **The database** is a `Sink.Store`: four maps from each table's unique key to its row.

Modules:

- `Options`: the option type.
- `Types`: the chain reads, the records the code builds, and the index helpers.
- `Sink`: the tables and the upsert statements, plus `WriteAll`, a sequence of upserts.
- `MoveReplay`: `GetGameMoves` and `getFenString`.
- `Analytics`: `GetAnalyticsData`.
- `Leaderboard`: `GetLeaderboardData`.
- `Tournaments`: `GetTournaments`.
- `Registry`: the chain-registry lookup in `main`.

The code's own loops are methods. Each method is proved equal to a specification function, except
on the save-failure path of `Leaderboard.SaveStats` and of `Leaderboard.GetLeaderboardData`, which
calls it. There it is proved only that some k of the players' rows were written (see "Left out").
The lemmas state the closed forms. Examples:

- Each player's statistics are sums over the slots that player holds.
- The returned snapshots and the rows written come before the first failing call.
- Every upsert equals a keyed replacement.
- Re-running a write sequence changes nothing.

## Failure behaviour

Which calls can throw, and what each aggregator then returns and leaves written:

- **GetAnalyticsData, per-wager failures.** Any throw inside the per-wager `try`
  (api/main.ts:106-135) returns `null` for the whole run, after the rows already written. The
  only call there that can throw is `provider.getNetwork()` at line 113: `getRetryWithDelay`
  does not throw, and `getFenString` catches everything.
- **GetAnalyticsData, the summary.** A `wagerStatus` read that throws (line 140, not retried) or
  a summary network query that throws (line 146) also gives `null`, through the outer `catch`.
  In that case no summary row is written.
- **getFenString, missing moves.** `GetGameMoves` catches its own failures and returns `[]`.
  `getFenString` then replays no moves and returns the FEN of the initial position. An empty
  string comes only from a move that the engine rejects.
- **GetTournaments.** A single `try` wraps the whole loop (lines 338-368), so the first call
  that throws ends the walk. The records written before it stay written.
- **GetLeaderboardData, failed reads.** A `gameWagers` or `wagerStatus` read that throws (lines
  405-406) returns `{}` with nothing written.
- **GetLeaderboardData, the save loop.** A `getNetwork` throw inside the save loop (line 446)
  returns `{}` after the rows already written.

## Model

| member | source | states |
|---|---|---|
| Types.IndexPrefix | api/main.ts:94-97 | the addresses read at indices 0 .. n-1, one per index, in index order |
| Types.FirstDown | api/main.ts:113 | the first throwing network query at or after i: every query before it answers, and it throws unless it is n |
| Sink.MergeWagerRow | api/main.ts:219-233 | definition: the DO UPDATE SET list of chess_games, every column but match_address taking the incoming value |
| Sink.MergeGamesRow | api/main.ts:278 | definition: the DO UPDATE SET list of chess_analytics, number_of_games and number_of_wagers |
| Sink.MergeTournamentRow | api/main.ts:307 | definition: the DO UPDATE SET list of tournaments, every column but chain_id and tournament_nonce |
| Sink.MergeLeaderRow | api/main.ts:441-443 | definition: the DO UPDATE SET list of leaderboard, total_games and games_won from the excluded row |
| Sink.WriteAll | api/main.ts:129-131 | definition: a sequence of upserts, each row replacing whatever its key held |
| Sink.UpsertWager | api/main.ts:215-254 | insert or DO UPDATE of chess_games by match_address equals replacing the row under the wager's key, and the table stays keyed |
| Sink.UpsertGames | api/main.ts:274-283 | insert or DO UPDATE of chess_analytics by chain_id equals replacing the row under the chain id, and the table stays keyed |
| Sink.UpsertTournament | api/main.ts:303-325 | insert or DO UPDATE of tournaments by (chain_id, tournament_nonce) equals replacing that key's row, and the table stays keyed |
| Sink.UpsertLeaderRow | api/main.ts:437-448 | insert or DO UPDATE of leaderboard by (chain_id, address_player) equals replacing that key's row, and the table stays keyed |
| Sink.UpsertStats | api/main.ts:434-449 | after writing all players their rows hold their statistics, every other row is unchanged, and no other key appears |
| Sink.UpsertStatsStep | api/main.ts:434-448 | writing one more player's row is the same as writing the dictionary extended by that player |
| Sink.UpsertStatsStepKeys | api/main.ts:434-448 | the keys of one more write equal the keys of writing the extended dictionary |
| Sink.UpsertStatsStepValues | api/main.ts:434-448 | the rows of one more write equal the rows of writing the extended dictionary |
| Sink.UpsertWagerTwice | api/main.ts:215-233 | upserting the same wager twice into chess_games equals upserting it once |
| Sink.UpsertGamesTwice | api/main.ts:274-279 | upserting the same counters twice into chess_analytics equals upserting them once |
| Sink.UpsertTournamentTwice | api/main.ts:303-307 | upserting the same tournament twice into tournaments equals upserting it once |
| Sink.UpsertLeaderRowTwice | api/main.ts:437-443 | upserting the same row twice into leaderboard equals upserting it once |
| Sink.UpsertStatsTwice | api/main.ts:437-443 | writing the same statistics twice equals writing them once |
| Sink.WriteAllSnoc | api/main.ts:129-131 | writing one more row is one more keyed replacement |
| Sink.LastWith | api/main.ts:129-131 | the last position whose row has the given key, or -1 when no row has it |
| Sink.WriteAllRows | api/main.ts:129-131 | after a sequence of writes each key holds the last row written with it, or its old row if no row had it |
| Sink.WriteAllCovers | api/main.ts:129-131 | every row written has its key in the table, and a key no row has keeps its old row |
| Sink.WriteAllDistinct | api/main.ts:129-131 | when no two rows share a key, every row is found under its own key and all other rows are unchanged |
| Sink.WriteAllGamesKeyed | api/main.ts:129-131 | writing wager snapshots keeps chess_games keyed by match address |
| Sink.WriteAllTwice | api/main.ts:215-233 | running the same sequence of writes a second time changes nothing |
| MoveReplay.GameIndex | api/main.ts:162-166 | the game read is gameLength-1, or 0 when gameLength is 0 |
| MoveReplay.DecodeAll | api/main.ts:173-177 | decoding answers exactly when every move decodes, and then gives the decoded moves one for one, in order |
| MoveReplay.GameMoves | api/main.ts:160-185 | definition: the decoded moves of the most recent game, or [] when getGameLength or a decoding throws |
| MoveReplay.GetGameMoves | api/main.ts:160-185 | the moves decoded from the most recent game; [] when getGameLength or a decoding throws |
| MoveReplay.Replay | api/main.ts:193-195 | definition: the moves applied one by one from a position, None as soon as the engine rejects one |
| MoveReplay.ReplayAppend | api/main.ts:193-195 | replaying xs + ys is replaying xs, then ys from the position xs reached |
| MoveReplay.ReplaySnoc | api/main.ts:193-195 | replay is the left fold of apply: one more move applies to the position reached so far |
| MoveReplay.ReplayFailsIff | api/main.ts:193-201 | replay fails exactly when some move is rejected by the position that the moves before it reach |
| MoveReplay.FenString | api/main.ts:187-203 | when the moves cannot be fetched or decoded, the result is the FEN of the initial position |
| MoveReplay.GetFenString | api/main.ts:187-203 | the FEN after all moves applied in order, and '' when the engine rejects one of them |
| Analytics.WagerAddresses | api/main.ts:88-102 | one address per index below getAllWagersCount, each with its retried reads answering |
| Analytics.MakeWager | api/main.ts:112-128 | the tuple's positions become the snapshot's fields, with isPlayerTurn false and the given address, chain and FEN |
| Analytics.Snapshot | api/main.ts:107-128 | a wager's snapshot carries its address and the chain id, with isPlayerTurn false |
| Analytics.Snapshots | api/main.ts:104-136 | one snapshot per address, in address order |
| Analytics.SnapshotsAt | api/main.ts:104-136 | the snapshot at position i is the i-th address's snapshot |
| Analytics.SnapshotsSnoc | api/main.ts:105-129 | one more address adds its snapshot at the end |
| Analytics.TotalWins | api/main.ts:138-143 | definition: the sum of winsPlayer0 + winsPlayer1 over the wagers |
| Analytics.TotalWinsAppend | api/main.ts:138-143 | the games summed over two runs of wagers add up |
| Analytics.EnumerateWagers | api/main.ts:88-102 | the loop collects exactly the addresses at indices 0 .. count-1, in order |
| Analytics.BuildWager | api/main.ts:107-128 | the wager's snapshot, or None when the network query at line 113 throws |
| Analytics.BuildStep | api/main.ts:129-131 | building and writing wager i keeps the loop's invariant |
| Analytics.BuildWagers | api/main.ts:104-136 | stops at the first throwing query; the wagers before it are built in order and written to chess_games |
| Analytics.SumGames | api/main.ts:138-143 | the sum of both win counters over the wagers, or None exactly when a wagerStatus read throws |
| Analytics.AnalyticsResult | api/main.ts:86-158 | snapshots exactly when no network query throws and every status read answers; then one per wager, in order, with its address and isPlayerTurn false |
| Analytics.Summary | api/main.ts:145-149 | the summary row has the chain id and numberOfWagers equal to the number of snapshots |
| Analytics.SnapshotRowAt | api/main.ts:129-131 | after writing the snapshots, the row under the i-th address is that address's snapshot |
| Analytics.SnapshotRows | api/main.ts:129-131 | writing the snapshots gives every address its own snapshot as its row, leaves other rows alone, and adds no key beyond the addresses |
| Analytics.WrittenGames | api/main.ts:104-136 | definition: chess_games after the run is the old table with the snapshots built before the first throwing query written in order |
| Analytics.WrittenGamesKeyed | api/main.ts:104-136 | the run keeps chess_games keyed by match address |
| Analytics.WrittenGamesRows | api/main.ts:104-136 | each wager before the first throwing query has its own snapshot as its row; every other row is kept; no key outside the old table and those wagers appears |
| Analytics.WrittenGamesUnfold | api/main.ts:104-136 | what the build loop writes is WrittenGames, and with no throwing query the snapshots built are those of every wager |
| Analytics.AnalyticsStore | api/main.ts:86-158 | the summary row is upserted only when the run returns its snapshots; tournaments and leaderboard are untouched |
| Analytics.AnalyticsCases | api/main.ts:86-158 | result and tables in closed form, under one condition: no throwing query and every status read answers |
| Analytics.AnalyticsStoreValid | api/main.ts:86-158 | the run keeps every table keyed |
| Analytics.AnalyticsStoreTwice | api/main.ts:86-158 | a second run on the same chain answers leaves the tables as the first run left them |
| Analytics.Summarize | api/main.ts:138-151 | upserts the summary with the summed games exactly when every status read and the summary's network query answer |
| Analytics.WriteWagers | api/main.ts:88-136 | enumerates the wagers, returns and writes the snapshots of the wagers before the first throwing query, and reports the failure exactly when there is one |
| Analytics.GetAnalyticsData | api/main.ts:86-158 | returns AnalyticsResult and leaves the tables as AnalyticsStore states |
| Leaderboard.DenseKeysBound | api/main.ts:392-402 | a map answering every index below n has at least n keys, so the probe loop ends |
| Leaderboard.FirstGap | api/main.ts:392-402 | the first index the probe does not answer; every index before it answers |
| Leaderboard.ProbedAddresses | api/main.ts:392-402 | the addresses at indices 0 .. k-1, in order, with k the first probe that throws |
| Leaderboard.ProbeWagerAddresses | api/main.ts:392-402 | the probe loop returns exactly ProbedAddresses |
| Leaderboard.ReadWagers | api/main.ts:404-406 | the reads of every wager in order, or None exactly when one of them throws |
| Leaderboard.Credit | api/main.ts:411-427 | definition: credit one slot's player with the wager's games and that slot's wins, creating the entry at zero; the zero address is skipped |
| Leaderboard.CreditWager | api/main.ts:408-428 | definition: credit slot 0, then slot 1, of one wager |
| Leaderboard.Tally | api/main.ts:404-429 | definition: the dictionary after crediting every wager in order, from {} |
| Leaderboard.TotalGames | api/main.ts:420 | definition: the sum of numberOfGames over every slot a player holds, the independent reference for totalGames |
| Leaderboard.GamesWon | api/main.ts:422-427 | definition: winsPlayer0 over wagers with the player in slot 0 plus winsPlayer1 over those with the player in slot 1 |
| Leaderboard.PlaysSnoc | api/main.ts:404-410 | a player holds a slot of the wagers exactly when they hold one in the earlier wagers or in the last one |
| Leaderboard.CreditAt | api/main.ts:411-427 | crediting one slot adds the games and the wins to that slot's player only, and creates the entry when it is missing |
| Leaderboard.CreditWagerAt | api/main.ts:408-428 | one wager credits each non-zero player the games and wins of each slot they hold, and never creates the zero address |
| Leaderboard.TallyAt | api/main.ts:404-429 | a player's entry exists exactly when the player is non-zero and holds a slot, and it holds their total games and games won |
| Leaderboard.TallyClosedForm | api/main.ts:404-429 | the dictionary never has the zero address; its keys are the non-zero players; each entry is the sums over the slots that player holds |
| Leaderboard.CreditSlots | api/main.ts:410-428 | the forEach over slots 0 and 1 updates the dictionary as crediting the wager does |
| Leaderboard.AccumulateStats | api/main.ts:404-429 | the loop builds the fold of all wagers, or None exactly when one read throws |
| Leaderboard.ReadWagersSnoc | api/main.ts:404-406 | an address whose reads answer extends the reads by its own |
| Leaderboard.ReadWagersMissing | api/main.ts:404-406 | one address whose read throws makes the whole run throw |
| Leaderboard.UpsertStatsEmpty | api/main.ts:434 | writing no players leaves the leaderboard as it was |
| Leaderboard.SaveDone | api/main.ts:434-449 | once no player remains, every player has been written |
| Leaderboard.SaveStopped | api/main.ts:446 | a network query that throws at player j leaves exactly j of the players written |
| Leaderboard.SaveStep | api/main.ts:434-448 | writing one more player's row keeps the loop's invariant |
| Leaderboard.SaveStats | api/main.ts:434-449 | every player's row is written when no network query throws; otherwise some k players' rows are written, k the position of the first throw |
| Leaderboard.GetLeaderboardData | api/main.ts:376-461 | {} with no writes when a read throws; the tally when everything answers; {} after a partial save when a save-loop query throws |
| Tournaments.BuildTournament | api/main.ts:342-362 | a record exactly when tournaments(i), getNetwork and getTournamentPlayers(i) answer, carrying nonce i, the chain id and the players |
| Tournaments.FirstFailure | api/main.ts:338-368 | the first nonce whose build throws; every nonce before it builds |
| Tournaments.Records | api/main.ts:341-364 | the records of nonces 0 .. k-1, in nonce order |
| Tournaments.Walked | api/main.ts:335-369 | the records pushed are those of nonces 0, 1, ... up to the first failure, and none when tournamentNonce throws |
| Tournaments.ReadTournament | api/main.ts:342-360 | the three reads for one nonce, in order, give BuildTournament |
| Tournaments.WalkStep | api/main.ts:362-363 | pushing and writing one more record keeps the loop's invariant |
| Tournaments.WalkNonces | api/main.ts:341-364 | the walk pushes the records before the first failure and writes them in order |
| Tournaments.GetTournaments | api/main.ts:335-369 | returns Walked and writes exactly those records into tournaments, with every table kept keyed |
| Tournaments.WalkedKeys | api/main.ts:344-346 | the j-th record pushed is keyed by (chain id, j) |
| Tournaments.NonceRows | api/main.ts:303-307 | records with consecutive nonces each land under (chain id, nonce), and other rows are unchanged |
| Registry.FindContract | api/main.ts:501-503 | None exactly when no entry has the chain id; otherwise the first entry that has it |
| Registry.BindProvider | api/main.ts:485-518 | a provider whose network query throws, or whose chain has no entry, is skipped; otherwise its contracts come from FindContract |
| Registry.FindContractUnique | api/main.ts:501-503 | in a registry with one entry per chain id, the lookup finds that entry |

## Left out

- getRetryWithDelay (api/main.ts:75-84): the delay and the retrying are not modelled. A retried read is required to answer, since the wrapper returns only then.
- Database I/O: connecting, running a query and closing the client are not modelled, and neither is their failure. Writes always succeed. This includes the leaderboard's `client.connect()` at line 386, which sits outside the `try`.
- The unawaited calls to pushWagerDataToDb and pushGamesDataToDb (lines 131 and 151) are modelled as writes done in call order, in sequence. Their concurrency is not modelled.
- The timer, the countdown loop and the re-entry of `main` (lines 552-574) are not modelled: they are scheduling.
- The process-wide chain bindings (lines 469-476) and the three aggregator calls in `main` are not modelled. Each aggregator takes its chain explicitly as a `ChainView`.
- The `parseInt`/`Number` coercions of big-number values are modelled as plain integers. Floating-point precision is not modelled.
- The commented-out Redis block (lines 11-34) is dead code.
- The chess.js legality rules, its FEN generation and the on-chain `hexToMove` decoder are parameters: `Engine`, and the map `ChainView.hexToMove`. The model assumes `game.move` throws on an illegal move.
- Object.entries order (line 434): the save loop writes the players in an arbitrary order, chosen by `:|`.
- Leaderboard.SaveStats: when a network query throws at save position k, the contract says only that some k of the players' rows were written. The code writes the first k players in `Object.entries` order: insertion order for these `0x…` keys, that is, the order in which players first take a slot (lines 413-418). The model does not track that order, so it does not say which k players.
- Leaderboard.GetLeaderboardData: the same gap on a throw at save position k: some k players' rows are written, not necessarily the first k in insertion order.
- Tournaments.GetTournaments: the code's function returns nothing (lines 335-369). The model returns the array `tournamentsData`, the records the walk pushes, as `records`.
- addresses/contractAddresses.json is a parameter (`registry`). The providers' URLs are not modelled.
- Logging (console.log and console.error) is not modelled.
- The module-level variable `chainId`, which line 446 assigns, is not modelled: the leaderboard rows take the chain id from `ChainView.chainId`.
