/**
 * Move replay (api/main.ts, GetGameMoves and getFenString): read the moves of a wager's most
 * recent game, decode them with the contract's decoder and play them on a fresh board.
 * The rules engine is a parameter: a start position, a partial move function (None when the
 * engine rejects a move) and the text of a position.
 */
module MoveReplay {
  import opened Options
  import opened Types

  /** A rules engine: the initial position, applying a move, and a position's FEN text. */
  datatype Engine<!P> = Engine(initial: P, apply: (P, San) -> Option<P>, fen: P -> string)

  /** The game whose moves are read: the most recent one, or game 0 when none is recorded. */
  function GameIndex(gameLength: nat): (index: nat)
    ensures gameLength == 0 ==> index == 0
    ensures gameLength > 0 ==> index < gameLength && index + 1 == gameLength
  {
    if gameLength != 0 then gameLength - 1 else 0
  }

  /** The retried getGameMoves read answers for this wager (getRetryWithDelay returns only then). */
  predicate MovesAnswer(c: ChainView, addr: Address) {
    addr in c.gameLength ==> (addr, GameIndex(c.gameLength[addr])) in c.gameMoves
  }

  /** Decode every move, or None as soon as the decoder rejects one. */
  function DecodeAll(decoder: map<HexMove, San>, raw: seq<HexMove>): (r: Option<seq<San>>)
    ensures r.Some? <==> forall i :: 0 <= i < |raw| ==> raw[i] in decoder
    ensures r.Some? ==> |r.value| == |raw| && forall i :: 0 <= i < |raw| ==> r.value[i] == decoder[raw[i]]
  {
    if raw == [] then Some([])
    else if raw[0] !in decoder then None
    else match DecodeAll(decoder, raw[1..])
      case None => None
      case Some(rest) => Some([decoder[raw[0]]] + rest)
  }

  /** What GetGameMoves returns: the decoded moves, or [] when a read or a decoding throws. */
  function GameMoves(c: ChainView, addr: Address): seq<San>
    requires MovesAnswer(c, addr)
  {
    if addr !in c.gameLength then []
    else match DecodeAll(c.hexToMove, c.gameMoves[(addr, GameIndex(c.gameLength[addr]))])
      case None => []
      case Some(moves) => moves
  }

  method GetGameMoves(c: ChainView, addr: Address) returns (moves: seq<San>)
    requires MovesAnswer(c, addr)
    ensures moves == GameMoves(c, addr)
    ensures addr !in c.gameLength ==> moves == []
    ensures addr in c.gameLength ==>
      var raw := c.gameMoves[(addr, GameIndex(c.gameLength[addr]))];
      if forall i :: 0 <= i < |raw| ==> raw[i] in c.hexToMove
      then |moves| == |raw| && forall i :: 0 <= i < |raw| ==> moves[i] == c.hexToMove[raw[i]]
      else moves == []
  {
    if addr !in c.gameLength {
      // getGameLength throws: caught, []
      return [];
    }
    var gameId := c.gameLength[addr];
    if gameId != 0 {
      gameId := gameId - 1;
    }
    var hexMoves := c.gameMoves[(addr, gameId)];
    var algebraicMoves: seq<San> := [];
    var i := 0;
    while i < |hexMoves|
      invariant 0 <= i <= |hexMoves|
      invariant |algebraicMoves| == i
      invariant forall j :: 0 <= j < i ==> hexMoves[j] in c.hexToMove && algebraicMoves[j] == c.hexToMove[hexMoves[j]]
    {
      if hexMoves[i] !in c.hexToMove {
        // hexToMove throws: caught, []
        return [];
      }
      algebraicMoves := algebraicMoves + [c.hexToMove[hexMoves[i]]];
      i := i + 1;
    }
    moves := algebraicMoves;
  }

  /** Play moves in order from pos; None as soon as the engine rejects one. */
  function Replay<P>(e: Engine<P>, pos: P, moves: seq<San>): Option<P>
    decreases |moves|
  {
    if moves == [] then Some(pos)
    else match e.apply(pos, moves[0])
      case None => None
      case Some(next) => Replay(e, next, moves[1..])
  }

  /** Replaying xs + ys is replaying xs, then ys from where xs ended. */
  lemma {:induction false} ReplayAppend<P>(e: Engine<P>, pos: P, xs: seq<San>, ys: seq<San>)
    ensures Replay(e, pos, xs + ys) == match Replay(e, pos, xs)
      case None => None
      case Some(mid) => Replay(e, mid, ys)
    decreases |xs|
  {
    if xs != [] {
      assert (xs + ys)[0] == xs[0];
      assert (xs + ys)[1..] == xs[1..] + ys;
      match e.apply(pos, xs[0])
      case None =>
      case Some(next) => ReplayAppend(e, next, xs[1..], ys);
    } else {
      assert xs + ys == ys;
    }
  }

  /** Replay is the left fold of apply: one more move applies to the position reached so far. */
  lemma ReplaySnoc<P>(e: Engine<P>, pos: P, xs: seq<San>, m: San)
    ensures Replay(e, pos, xs + [m]) == match Replay(e, pos, xs)
      case None => None
      case Some(mid) => e.apply(mid, m)
  {
    ReplayAppend(e, pos, xs, [m]);
    match Replay(e, pos, xs)
    case None =>
    case Some(mid) =>
      assert [m][1..] == [];
      match e.apply(mid, m)
      case None =>
      case Some(q) =>
  }

  /** Replay fails exactly when some move is rejected by the position the moves before it reach. */
  lemma {:induction false} ReplayFailsIff<P>(e: Engine<P>, pos: P, moves: seq<San>)
    ensures Replay(e, pos, moves).None? <==>
      exists k :: 0 <= k < |moves| && Replay(e, pos, moves[..k]).Some?
                  && e.apply(Replay(e, pos, moves[..k]).value, moves[k]).None?
    decreases |moves|
  {
    if moves == [] {
    } else {
      var init, last := moves[..|moves| - 1], moves[|moves| - 1];
      assert moves == init + [last];
      ReplaySnoc(e, pos, init, last);
      ReplayFailsIff(e, pos, init);
      forall k | 0 <= k < |init| ensures init[..k] == moves[..k] && init[k] == moves[k] {
      }
      assert moves[..|init|] == init;
      if Replay(e, pos, moves).None? {
        if Replay(e, pos, init).None? {
          var k :| 0 <= k < |init| && Replay(e, pos, init[..k]).Some?
                   && e.apply(Replay(e, pos, init[..k]).value, init[k]).None?;
          assert moves[..k] == init[..k];
        }
      }
    }
  }

  /** What getFenString returns: the FEN after every move, or '' when the engine rejects a move. */
  function FenString<P>(c: ChainView, e: Engine<P>, addr: Address): (fen: string)
    requires MovesAnswer(c, addr)
    ensures addr !in c.gameLength ==> fen == e.fen(e.initial)
    ensures addr in c.gameLength
      && DecodeAll(c.hexToMove, c.gameMoves[(addr, GameIndex(c.gameLength[addr]))]).None?
      ==> fen == e.fen(e.initial)
  {
    match Replay(e, e.initial, GameMoves(c, addr))
    case Some(p) => e.fen(p)
    case None => ""
  }

  method GetFenString<P>(c: ChainView, e: Engine<P>, addr: Address) returns (fen: string)
    requires MovesAnswer(c, addr)
    ensures fen == FenString(c, e, addr)
    ensures Replay(e, e.initial, GameMoves(c, addr)).None? ==> fen == ""
  {
    var game := e.initial;
    var movesArray := GetGameMoves(c, addr);
    var j := 0;
    while j < |movesArray|
      invariant 0 <= j <= |movesArray|
      invariant Replay(e, e.initial, movesArray) == Replay(e, game, movesArray[j..])
    {
      assert movesArray[j..][1..] == movesArray[j + 1..];
      match e.apply(game, movesArray[j])
      case None =>
        // game.move throws: caught, ''
        return "";
      case Some(next) =>
        game := next;
      j := j + 1;
    }
    assert movesArray[j..] == [];
    fen := e.fen(game);
  }
}
