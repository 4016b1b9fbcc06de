# Tic-tac-toe engine and game store, in Dafny

A model of the engine behind a small tic-tac-toe HTTP service: marks, the nine-cell
board and its two display forms, the bounded move history, the game that ties them
together, and the in-memory store that maps game ids to games.

- `prelude.dfy` (`Prelude`): the `u8` byte type and `Option`.
- `mark.dfy` (`Marks`): `Mark` (`X`, `O`, `Blank`), whose turn comes next, and how a mark prints.
- `error.dfy` (`Errors`): the three engine errors and their messages; `Result`; and `Status`,
  the outcome of a state-changing call: success, an error, or a panic.
- `board.dfy` (`Boards`): `Space` (a byte checked to be 0..8), the `Board` class over a
  nine-element array, the display array, and the text rendering (the display loop and the
  text it produces) with its proofs.
- `history.dfy` (`Histories`): the move history as written (`AddSpec`, `History.Add`) and as
  evidently intended (`AddIntendedSpec`, `History.AddIntended`); see Findings.
- `game.dfy` (`Games`): `Step`, the value-level meaning of one move, facts about move
  sequences played from a new game, and the `Game` class that owns a board and a history.
- `store.dfy` (`GameStores`): the `GameStore` class over a map from ids to `Game` objects,
  with a value view `Model()` of every stored game.

Each class that the engine updates in place has a value-level function (`Cells`, `State`,
`Model`) and its methods are proved to change it exactly as the matching pure function
says. A Rust panic (an out-of-bounds index) is not an error value in the source; the
model records it as the outcome `Panic`, with the state left as it was at the moment of the
panic. The source has two identical copies of the game (`src/game/game.rs` and `src/game.rs`);
one model covers both.

Space numbers are 0..8 in row-major order, as `Space::try_from` checks; a comment next to the
move request type says 1..9, but the code follows 0..8 and so does the model.

A nine-slot history with a `HistoryFull` error reads as if the tenth move were meant to be
refused; the code panics on the ninth move instead (see Findings), and the model follows the code.

## Model

| member | source | states |
|---|---|---|
| Marks.Next | src/mark.rs:14-20 | the next turn is never `Blank`, and it is `O` exactly when the current one is `X` |
| Marks.DefaultUnplayed | src/mark.rs:5-12 | `Mark::default()` is `Blank`, which prints as a space and is followed by X |
| Marks.NextAlternates | src/mark.rs:14-20 | for a player's mark, `next` always changes it and two calls give it back |
| Marks.Glyph | src/mark.rs:33-41 | `Display for Mark`: every mark prints as exactly one character (which one: `GlyphText`) |
| Marks.GlyphText | src/mark.rs:33-41 | `X` prints "X", `O` prints "O", `Blank` prints a single space, each in both directions |
| Marks.GlyphInjective | src/mark.rs:33-41 | distinct marks print as distinct characters |
| Errors.Message | src/game/error.rs:12-20 | each error's message, in both directions |
| Errors.MessageInjective | src/game/error.rs:12-20 | different errors have different messages |
| Boards.TrySpace | src/game/board.rs:16-22 | a byte is accepted exactly when it is at most 8, as the same number; otherwise `InvalidSpace` |
| Boards.Board.constructor | src/game/board.rs:31-35 | a new board has nine blank cells |
| Boards.Board.Copy | src/game/board.rs:25-28 | the derived `Clone`: a board in a fresh array holding exactly the given cells |
| Boards.Board.Mark | src/game/board.rs:43-46 | marking always succeeds, overwrites the chosen cell whatever it held, and leaves every other cell as it was |
| Boards.Board.Get | src/game/board.rs:48-50 | lookup never fails and returns the cell's mark |
| Boards.DisplayArray | src/game/board.rs:52-63 | nine entries; an entry is empty exactly when its cell is blank, otherwise it is the mark's letter |
| Boards.Board.Display | src/game/board.rs:66-82 | the display loop writes exactly `Render` of the board: three rows with a separator line before every row but the first |
| Boards.Render | src/game/board.rs:66-82 | the printed board is sixty characters long |
| Boards.RenderLines | src/game/board.rs:66-82 | the printed board is five twelve-character lines, each ending in its only newline, the second and fourth being `---+---+---` |
| Boards.RenderCell | src/game/board.rs:74-78 | cell `i` prints at line `2 * (i / 3)`, column `4 * (i % 3) + 1` |
| Boards.RenderInjective | src/game/board.rs:66-82 | two boards that print alike are equal |
| Boards.DisplayMatchesRender | src/game/board.rs:52-82 | each cell prints as its display-array label, or as a space where that entry is empty |
| Boards.BlankRender | src/game/board.rs:89-93 | a new board prints as three blank rows between separator lines |
| Histories.History.constructor | src/game/history.rs:13-15 | a new history has count 0 and nine empty slots |
| Histories.History.Copy | src/game/history.rs:8-10 | the derived `Clone`: a history in a fresh array with exactly the given count and slots |
| Histories.History.Len | src/game/history.rs:16-18 | the length is the stored count, at most 9 |
| Histories.AddSpec | src/game/history.rs:19-26 | at count 9: `HistoryFull`, nothing changes; below 8: success, count + 1, space stored in slot count + 1; at 8: the count becomes 9 and the write panics |
| Histories.History.Add | src/game/history.rs:19-26 | the array-backed history changes and answers exactly as `AddSpec` says |
| Histories.AddsLayout | src/game/history.rs:19-26 | after up to eight adds from new, the count is the number of adds, slot 0 is empty, the k-th space is in slot k, later slots are empty |
| Histories.AddsSucceed | src/game/history.rs:19-26 | each of the first eight adds from new succeeds |
| Histories.NinthAddPanics | src/game/history.rs:23-24 | the ninth add from new panics with count 9 and stores nothing |
| Histories.HistoryFullNeedsPanic | src/game/history.rs:20-22 | no add to a history built by at most eight adds from new returns `HistoryFull` |
| Histories.AddIntendedSpec | src/game/history.rs:19-26 | intended add: at count 9 `HistoryFull` and no change; below 9 it succeeds, the space goes in slot count and the count goes up; never panics |
| Histories.History.AddIntended | src/game/history.rs:19-26 | the array-backed intended add changes and answers exactly as `AddIntendedSpec` says |
| Histories.IntendedAddsLayout | src/game/history.rs:6-10 | with the intended add, nine adds fill slots 0..8 in order and leave the rest empty |
| Histories.IntendedAddsSucceed | src/game/history.rs:6-10 | with the intended add, each of the first nine adds succeeds |
| Histories.IntendedTenthAddFull | src/game/history.rs:20-22 | with the intended add, the tenth add returns `HistoryFull` and changes nothing |
| Games.Step | src/game/game.rs:21-27 | a byte over 8 fails with `InvalidSpace` and changes nothing; otherwise the cell takes the current mark, occupied or not, and the history add decides: success flips the turn and stores the space at slot count + 1, a panic keeps the turn and leaves count 9 with the slots as they were, `HistoryFull` keeps turn and history; `InvalidMove` never occurs |
| Games.Game.constructor | src/game/game.rs:14-20 | a new game: X to move, blank board, empty history |
| Games.Game.Copy | src/game/game.rs:6-11 | the derived `Clone` used by `get_game`: a game made of fresh objects whose state is exactly the given one |
| Games.Game.Mark | src/game.rs:26-32 | the in-place game changes and answers exactly as `Step` says |
| Games.SuccessfulPlay | src/game/game.rs:21-27 | after n successful moves from new, X moves when n is even and O when odd, the count is n (at most 8), and move k is in slot k |
| Games.HistoryFullNeedsPanic | src/game/game.rs:24 | without an earlier panic no move from a new game returns `HistoryFull` |
| Games.NinthMovePanics | src/game/game.rs:23-25 | after eight successful moves, a valid ninth move writes X on the board, then panics with count 9, the slots as they were and X still to move |
| Games.RepeatedMoveOverwrites | src/game/board.rs:43-46 | marking the centre twice from new succeeds both times, O's mark replaces X's, and X is to move |
| Games.StepIntended | src/game/game.rs:21-27 | the move with the intended history add: as `Step`, except that it never panics, succeeds while the count is below 9 (storing the space at slot count) and otherwise returns `HistoryFull` leaving the history and turn as they were |
| Games.Game.MarkIntended | src/game.rs:26-32 | the in-place game with the intended add changes and answers exactly as `StepIntended` says |
| Games.IntendedPlay | src/game/game.rs:21-27 | with the intended add, any nine valid moves from new all succeed, turns alternate from X, and move k is in slot k |
| Games.IntendedTenthMoveFull | src/game/history.rs:20-22 | with the intended add, a valid tenth move still writes its cell, then returns `HistoryFull` and leaves the history as it was |
| GameStores.MoveReply | src/api/api.rs:54-55 | a move's success, error or panic becomes `Ok`, the error's message (never "Game not found"), or a panic |
| GameStores.RepliesDistinguishable | src/api/api.rs:54-55 | different move outcomes give different replies |
| GameStores.GameStore.constructor | src/api/api.rs:35-39 | a new store holds no games |
| GameStores.GameStore.AddGame | src/api/api.rs:41-45 | a copy of the game, made of fresh objects the caller does not hold, is stored under the returned id, and every other entry is unchanged |
| GameStores.GameStore.GetGame | src/api/api.rs:47-49 | nothing exactly for an unknown id; otherwise a fresh copy equal to the stored game |
| GameStores.GameStore.MakeMove | src/api/api.rs:51-59 | unknown id: "Game not found" and no change; otherwise that game becomes what `Step` gives, the reply reflects its outcome, and every other game is unchanged |
| GameStores.GameStore.UpdateGame | src/api/api.rs:61-69 | unknown id: "Game not found" and nothing inserted; otherwise the entry is replaced by a fresh copy of the game the caller does not hold, and every other entry is unchanged |
| GameStores.GameStore.Insert | src/api/api.rs:43 | `HashMap::insert` under the lock: a fresh copy of the game, disjoint from the caller's objects, becomes the entry for the id, new or replaced, and every other entry is unchanged |
| GameStores.GameStore.GameIds | src/api/api.rs:136-139 | every stored id exactly once, and nothing else |

## Left out

- Locking: every store method runs under one mutex, so each is one atomic step here. A panic while
  the lock is held poisons the mutex in the source, after which every later `lock().unwrap()` panics
  too; the model does not carry that poisoned state forward.
- The HTTP layer: the async handlers (`start_game`, the `make_move` handler), routing, the listener,
  logging and `main`; also the request and response shapes and the handlers' projection of a game
  into a response.
- The `make_move` handler's read-back and write-back of the game (src/api/api.rs:102-105). Each of its three
  store calls takes the lock on its own, so the write-back leaves the store as it was only when
  requests run one at a time; a move on the same game made by another request between the read
  and the write would be undone by the stale copy, and the model, being sequential, does not show that.
- GameStores.GameStore.AddGame: the id is drawn at random by `Uuid::new_v4` in the source; here the
  caller supplies it, so the model does not state that it is new.
- `Board::random` and the random `Mark` distribution: randomness is not modelled.
- The byte values behind `#[repr(u8)]` on `Mark`, and the derived `Default` of `Board`, `History`
  and `Game`, which the engine never calls.
- Win and draw detection: the engine has none, and the model adds none.
- Histories.History.Len: the history count is a `u8` in the source; its overflow cannot happen,
  since the count never exceeds 9.

## Findings

| source | as written | input that shows it | evidently intended | confidence | as-written member | corrected member |
|---|---|---|---|---|---|---|
| src/game/history.rs:23-24 | `add` bumps the count, then writes the slot numbered by the new count: slot 0 is never used and the ninth add indexes slot 9 of nine, which panics; `HistoryFull` can never be reached from a new history | nine adds to `History::new()` (the ninth valid move of a game) | write the slot at the current count, then bump it, so nine adds fill slots 0..8 and the tenth returns `HistoryFull` | not executed | Histories.History.Add, Histories.NinthAddPanics, Games.NinthMovePanics | Histories.History.AddIntended, Histories.IntendedTenthAddFull, Games.Game.MarkIntended, Games.IntendedPlay |

`Games.Game.MarkIntended` plays a move with the corrected add, and `Games.IntendedPlay` proves
that a full game of nine valid moves then succeeds. The store keeps calling `Games.Game.Mark`,
so that `GameStores.GameStore.MakeMove` describes what the service actually does.
