/**
 * The game: whose turn it is, the board and the history, advanced one move at a time.
 * `Game::mark` validates the space, overwrites the cell, appends to the history and
 * only then flips the turn; it neither rejects occupied cells nor undoes the board
 * write when the history append fails.
 */
module Games {
  import opened Prelude
  import opened Marks
  import opened Errors
  import opened Boards
  import opened Histories

  datatype GameState = GameState(turn: Mark, cells: Cells, history: HistoryState)

  /** `Game::new`: X to move, an empty board, an empty history. */
  const NewGame: GameState := GameState(X, BlankCells, EmptyHistory)

  /** `Game::mark` on a raw space number. */
  function Step(g: GameState, raw: u8): (r: (GameState, Status))
    ensures r.1 == Failure(InvalidSpace) <==> raw > 8
    ensures raw > 8 ==> r.0 == g
    ensures r.1 != Failure(InvalidMove)
    ensures r.1 == Success <==> raw <= 8 && g.history.count < MaxHistorySize - 1
    ensures r.1 == Panic <==> raw <= 8 && g.history.count == MaxHistorySize - 1
    ensures r.1 == Failure(HistoryFull) <==> raw <= 8 && g.history.count == MaxHistorySize
    ensures raw <= 8 ==> r.0.cells == g.cells[raw as int := g.turn]
    ensures r.1 == Success ==> r.0.turn == Next(g.turn)
    ensures r.1 != Success ==> r.0.turn == g.turn
    ensures r.1 == Success ==> r.0.history.count == g.history.count + 1
    ensures r.1 == Success ==> r.0.history.slots == g.history.slots[g.history.count + 1 := Some(raw)]
    ensures r.1 == Failure(HistoryFull) ==> r.0.history == g.history
    ensures r.1 == Panic ==> r.0.history == HistoryState(MaxHistorySize, g.history.slots)
  {
    match TrySpace(raw)
    case Err(e) => (g, Failure(e))
    case Ok(s) =>
      var cells := g.cells[s := g.turn];
      var (h, st) := AddSpec(g.history, s);
      if st == Success then (GameState(Next(g.turn), cells, h), Success)
      else (GameState(g.turn, cells, h), st)
  }

  /** The game after the moves `moves` from a new game, whatever each move returned. */
  function Play(moves: seq<u8>): GameState
  {
    if moves == [] then NewGame else Step(Play(moves[..|moves| - 1]), moves[|moves| - 1]).0
  }

  /** Every move of `moves`, played in order from a new game, returned success. */
  ghost predicate AllSucceed(moves: seq<u8>)
  {
    moves == [] ||
    (AllSucceed(moves[..|moves| - 1]) && Step(Play(moves[..|moves| - 1]), moves[|moves| - 1]).1 == Success)
  }

  /** No move of `moves`, played in order from a new game, panicked. */
  ghost predicate NonePanicked(moves: seq<u8>)
  {
    moves == [] ||
    (NonePanicked(moves[..|moves| - 1]) && Step(Play(moves[..|moves| - 1]), moves[|moves| - 1]).1 != Panic)
  }

  /**
   * After n successful moves from a new game, X is to move when n is even and O when n is
   * odd, the history count is n (so n is at most 8), and the k-th move sits in slot k.
   */
  lemma {:induction false} SuccessfulPlay(moves: seq<u8>)
    requires AllSucceed(moves)
    ensures Play(moves).turn == if |moves| % 2 == 0 then X else O
    ensures Play(moves).history.count == |moves| <= MaxHistorySize - 1
    ensures Play(moves).history.slots[0] == None
    ensures forall k | 1 <= k <= |moves| :: Play(moves).history.slots[k] == Some(moves[k - 1])
  {
    if moves != [] {
      SuccessfulPlay(moves[..|moves| - 1]);
    }
  }

  /**
   * Without a panic along the way the history never fills, so no move from a new game can
   * return `HistoryFull` unless an earlier move panicked.
   */
  lemma {:induction false} HistoryFullNeedsPanic(moves: seq<u8>, raw: u8)
    requires NonePanicked(moves)
    ensures Play(moves).history.count <= MaxHistorySize - 1
    ensures Step(Play(moves), raw).1 != Failure(HistoryFull)
  {
    if moves != [] {
      HistoryFullNeedsPanic(moves[..|moves| - 1], moves[|moves| - 1]);
    }
  }

  /**
   * The ninth valid move after eight successful ones overwrites its cell with X, then panics
   * in the history append: the count is 9 and X is still to move.
   */
  lemma NinthMovePanics(moves: seq<u8>, raw: u8)
    requires AllSucceed(moves) && |moves| == MaxHistorySize - 1
    requires raw <= 8
    ensures Step(Play(moves), raw).1 == Panic
    ensures Step(Play(moves), raw).0.cells[raw] == X
    ensures Step(Play(moves), raw).0.turn == X
    ensures Step(Play(moves), raw).0.history == HistoryState(MaxHistorySize, Play(moves).history.slots)
  {
    SuccessfulPlay(moves);
  }

  /** Marking the centre twice from a new game: both moves succeed, and O's mark replaces X's. */
  lemma RepeatedMoveOverwrites()
    ensures Step(NewGame, 4).1 == Success
    ensures Step(Step(NewGame, 4).0, 4).1 == Success
    ensures Step(Step(NewGame, 4).0, 4).0.cells[4] == O
    ensures Step(Step(NewGame, 4).0, 4).0.turn == X
    ensures Step(Step(NewGame, 4).0, 4).0.history.count == 2
  {
  }

  /** `Game::mark` with the intended history add of `AddIntendedSpec`. */
  function StepIntended(g: GameState, raw: u8): (r: (GameState, Status))
    ensures r.1 == Failure(InvalidSpace) <==> raw > 8
    ensures raw > 8 ==> r.0 == g
    ensures r.1 != Panic && r.1 != Failure(InvalidMove)
    ensures r.1 == Success <==> raw <= 8 && g.history.count < MaxHistorySize
    ensures r.1 == Failure(HistoryFull) <==> raw <= 8 && g.history.count == MaxHistorySize
    ensures raw <= 8 ==> r.0.cells == g.cells[raw as int := g.turn]
    ensures r.1 == Success ==> r.0.turn == Next(g.turn)
    ensures r.1 != Success ==> r.0.turn == g.turn && r.0.history == g.history
    ensures r.1 == Success ==> r.0.history == HistoryState(g.history.count + 1, g.history.slots[g.history.count := Some(raw)])
  {
    match TrySpace(raw)
    case Err(e) => (g, Failure(e))
    case Ok(s) =>
      var cells := g.cells[s := g.turn];
      var (h, st) := AddIntendedSpec(g.history, s);
      if st == Success then (GameState(Next(g.turn), cells, h), Success)
      else (GameState(g.turn, cells, h), st)
  }

  /** The game after the moves `moves` from a new game, with the intended history add. */
  function PlayIntended(moves: seq<u8>): GameState
  {
    if moves == [] then NewGame else StepIntended(PlayIntended(moves[..|moves| - 1]), moves[|moves| - 1]).0
  }

  /** Every move of `moves`, played in order from a new game with the intended add, returned success. */
  ghost predicate AllSucceedIntended(moves: seq<u8>)
  {
    moves == [] ||
    (AllSucceedIntended(moves[..|moves| - 1]) && StepIntended(PlayIntended(moves[..|moves| - 1]), moves[|moves| - 1]).1 == Success)
  }

  /**
   * With the intended add, any nine valid moves from a new game all succeed: the turns
   * alternate from X, and move k is recorded in slot k.
   */
  lemma {:induction false} IntendedPlay(moves: seq<u8>)
    requires |moves| <= MaxHistorySize
    requires forall k | 0 <= k < |moves| :: moves[k] <= 8
    ensures AllSucceedIntended(moves)
    ensures PlayIntended(moves).turn == if |moves| % 2 == 0 then X else O
    ensures PlayIntended(moves).history.count == |moves|
    ensures forall k | 0 <= k < |moves| :: PlayIntended(moves).history.slots[k] == Some(moves[k])
  {
    if moves != [] {
      IntendedPlay(moves[..|moves| - 1]);
    }
  }

  /** With the intended add, a valid tenth move still writes its cell, then fails with `HistoryFull`. */
  lemma IntendedTenthMoveFull(moves: seq<u8>, raw: u8)
    requires |moves| == MaxHistorySize
    requires forall k | 0 <= k < |moves| :: moves[k] <= 8
    requires raw <= 8
    ensures StepIntended(PlayIntended(moves), raw).1 == Failure(HistoryFull)
    ensures StepIntended(PlayIntended(moves), raw).0.cells == PlayIntended(moves).cells[raw as int := PlayIntended(moves).turn]
    ensures StepIntended(PlayIntended(moves), raw).0.history == PlayIntended(moves).history
  {
    IntendedPlay(moves);
  }

  /** The engine's game: the turn, and a board and a history it owns and updates in place. */
  class Game {
    var turn: Mark
    const board: Board
    const history: History

    ghost predicate Valid() {
      board.Valid() && history.Valid()
    }

    /** The objects a game is made of. */
    ghost function Repr(): set<object>
    {
      {this, board, board.spaces, history, history.slots}
    }

    function State(): GameState
      reads this, board.spaces, history, history.slots
      requires Valid()
    {
      GameState(turn, board.Cells(), history.State())
    }

    /** `Game::new`. */
    constructor ()
      ensures Valid() && fresh(Repr())
      ensures State() == NewGame
    {
      turn := X;
      board := new Board();
      history := new History();
    }

    /** A copy of a game in the given state (the derived `Clone`). */
    constructor Copy(g: GameState)
      ensures Valid() && fresh(Repr())
      ensures State() == g
    {
      turn := g.turn;
      board := new Board.Copy(g.cells);
      history := new History.Copy(g.history);
    }

    /** `Game::mark`: validate, overwrite the cell, append to the history, flip the turn. */
    method Mark(raw: u8) returns (r: Status)
      requires Valid()
      modifies this, board.spaces, history, history.slots
      ensures Valid()
      ensures (State(), r) == Step(old(State()), raw)
    {
      var space := TrySpace(raw);
      if space.Err? {
        return Failure(space.error);
      }
      r := board.Mark(space.value, turn);
      if r != Success {
        return;
      }
      r := history.Add(space.value);
      if r != Success {
        return;
      }
      turn := Next(turn);
    }

    /** `Game::mark` with the intended history add. */
    method MarkIntended(raw: u8) returns (r: Status)
      requires Valid()
      modifies this, board.spaces, history, history.slots
      ensures Valid()
      ensures (State(), r) == StepIntended(old(State()), raw)
    {
      var space := TrySpace(raw);
      if space.Err? {
        return Failure(space.error);
      }
      r := board.Mark(space.value, turn);
      if r != Success {
        return;
      }
      r := history.AddIntended(space.value);
      if r != Success {
        return;
      }
      turn := Next(turn);
    }
  }
}
