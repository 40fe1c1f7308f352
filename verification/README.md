# Hua Rong Dao and checkers search engines in Dafny

This project models the two board-search engines of a puzzle repository:

- **`hrd.py`** solves Hua Rong Dao, a sliding-block puzzle on a board of
  4 columns and 5 rows.
  - The pieces are one 2x2 goal piece, 1x1 singles, and 1x2 and 2x1 dominoes.
  - A board is a piece list together with the grid of glyphs drawn from it.
  - Successors are found by looking at the two empty cells and asking which
    piece next to each one could slide into it.
  - The solver runs depth-first search or A* (Manhattan heuristic, ties
    broken by a state id), with multi-path pruning on grids.
- **`checkers.py`** generates checkers moves and searches the game tree.
  - The board is an 8x8 grid of `r`, `R`, `b`, `B` and `.`.
  - Men move forward only and kings move both ways.
  - Jumps are chained greedily, and captures are mandatory.
  - A depth-limited alpha-beta search uses a value cache keyed by board.

Boards are immutable `seq<seq<char>>` grids indexed `g[row][column]`, and
every move is a pure function. The searches are methods that carry their
frontier, explored set and cache explicitly.

Module layout:

| module | what it covers |
|---|---|
| `Maybe` | the Option type |
| `Grid` | cell writes and counting, shared by both engines |
| `HrdBoard` | pieces, drawing the grid, the well-formedness invariant |
| `HrdState` | search states, goal test, heuristic, successor bookkeeping, `get_solution` |
| `HrdMoves` | the four `move_piece_*` slides and the proof that they keep boards well formed |
| `HrdCells` | what one glyph reveals about the piece list; `locate_empty_squares` |
| `HrdSuccessors` | the four `check_*` functions, duplicate removal, `generate_successors`, soundness and completeness |
| `HrdSearch` | `dfs` and `astar` |
| `HrdQuirk` | a board on which `check_bottom` misses a slide |
| `CheckersBoard` | the 8x8 board, `get_opp_char` and `get_next_turn` |
| `CheckersMoves` | jump and step tests, single jumps with promotion, jump chains |
| `CheckersSuccessors` | per-piece move lists, the mandatory-capture filter, `generate_successors` |
| `CheckersEval` | extended integers, `utility_function`, `evaluation_function` |
| `CheckersSearch` | `max_value`, `min_value` and `alpha_beta_search` |
| `CheckersQuirk` | a board on which the jump generator's shifted coordinates show |

The main theorems:

- **Successors stay well formed.** A slide of a Hua Rong Dao piece into
  empty cells keeps the board well formed.
  - The grid, edited cell by cell, equals the grid redrawn from the new piece
    list.
  - Exactly two cells stay empty.
- **Successor generation is sound and nearly complete.**
  - Every Hua Rong Dao successor is the result of one legal slide.
  - Every legal slide except an upward slide of the goal piece shows up among
    the successors.
- **Search results are real solutions.** A path returned by `dfs` or `astar`
  runs from the start state to a goal board, and each state in it is a
  successor of the one before. From the start state on, the path never
  shows the same grid twice, because no grid is expanded twice.
- **Checkers.**
  - Every jump chain captures.
  - Simple moves keep both piece counts.
  - The move generator returns only captures whenever a capture exists.
  - The loops of `max_value` and `min_value` stop exactly at the first
    successor whose value reaches beta (falls to alpha), or after the last.
  - `alpha_beta_search` returns a successor whose cached value is the value
    of the root, or the root paired with 999.

## Quirks kept as written

The model keeps these behaviours of the source rather than correcting them.
Each has a lemma showing its effect.

- **`check_bottom` transposes its goal test** (hrd.py:582 and hrd.py:588).
  - When the goal piece lies below an empty cell, `check_bottom` confirms the
    goal's second top cell at `grid[x + 1][y + 1]` (or `grid[x - 1][y + 1]`).
    It should read row `y + 1`, column `x ± 1`.
  - `HrdSuccessors.BottomCandidate` reads the same transposed cell.
  - `HrdQuirk.GoalUpMissed` gives a well-formed board on which the goal piece
    can slide up, yet `check_bottom` finds nothing from either empty cell.
  - This is why `HrdSuccessors.GenerateSuccessorsComplete` excludes an upward
    slide of the goal piece.
  - `HrdSuccessors.BottomCandidateSound` shows the transposed test never
    produces an illegal slide. At worst it names a corner that no piece has,
    and the lookup then finds nothing.
- **Later jump tests run from shifted coordinates** (checkers.py:153-164 and
  406-439).
  - After the first jump, `generate_red_piece_jumps`,
    `generate_black_piece_jumps` and `generate_king_jumps` move `x_cord` and
    `y_cord` to the landing square.
  - Each later direction is then tried from that square, but against the
    original board.
  - `CheckersSuccessors.JumpSeries` models this.
  - `CheckersQuirk.ShiftedJumpAddsPiece` exhibits a board on which
    `move_red_piece` returns a result that never captures the piece the red
    man could take, and that holds one red piece more than the board started
    with.
- **The search scores each board for the opponent** (checkers.py:605 and
  checkers.py:636).
  - `max_value` and `min_value` call `utility_function` with the opponent of
    the player to move.
  - The comment "terminal state" stands on the branch where that utility is
    0, which is the non-terminal branch.
  - `CheckersSearch.MaxValue` and `CheckersSearch.MinValue` use
    `Utility(b, NextTurn(player))` in the same way.
- **The cache replaces the running value.**
  - When a successor is already cached, the loops of `max_value` and
    `min_value` replace the running value with the cached one instead of
    taking the max or min.
  - The running value is what gets cached under each newly searched
    successor.
  - `CheckersSearch.MaxLoop` and `CheckersSearch.MinLoop` do the same.
- **`utility_function` is asymmetric** (checkers.py:537-547).
  - When both colours are gone, it returns -inf for `'r'` and +inf for
    `'b'`.
  - `CheckersEval.Utility` states exactly when it returns +inf.

## Model

| member | source | states |
|---|---|---|
| HrdBoard.BuildGrid | hrd.py:67-93 | __construct_grid: a 4-by-5 grid of '.' with each piece drawn in list order; BuildGridCells states what every cell then shows |
| HrdBoard.Paint | hrd.py:79-93 | drawing one piece writes its glyphs ('1' on all four goal cells, '2', '<' '>', '^' 'v') on exactly the cells it covers and leaves every other cell as it was |
| HrdBoard.BuildGridCells | hrd.py:67-93 | every cell of the constructed grid shows the glyph of the last piece in the list covering it, and '.' when no piece covers it |
| HrdBoard.CoveredCell | hrd.py:67-93 | on a well-formed board every cell a piece occupies lies on the grid and shows that piece's glyph |
| HrdBoard.EmptyCell | hrd.py:67-93 | on a well-formed board a '.' cell is occupied by no piece |
| HrdBoard.Owner | hrd.py:67-93 | on a well-formed board a cell other than '.' is occupied by a piece whose glyph it shows |
| HrdBoard.TopLeftUnique | hrd.py:14-42 | two pieces of a well-formed board never share a top-left corner |
| HrdState.Less | hrd.py:131-134 | State.__lt__: compare f values, ties broken by id; LessIsLexicographic states it is a strict order total on distinct keys |
| HrdState.LessIsLexicographic | hrd.py:131-134 | State.__lt__ is the lexicographic order on (f, id): irreflexive, asymmetric, transitive, and total on distinct keys |
| HrdState.GoalTest | hrd.py:177-190 | true exactly when some goal piece has its top-left corner at column 1, row 3 |
| HrdState.FirstGoal | hrd.py:193-202 | the position of the first goal piece, the one the heuristic loop stops at, with no goal piece before it |
| HrdState.Heuristic | hrd.py:193-202 | zero exactly when the first goal piece has its top-left corner at the exit (1, 3); HeuristicZeroIffGoal relates it to the goal test |
| HrdState.HeuristicZeroIffGoal | hrd.py:193-202 | with exactly one goal piece the Manhattan heuristic is zero exactly when the goal test holds |
| HrdState.MakeChild | hrd.py:312-315 | a successor state has parent s, depth one more, id the hash of its board, and a cost so far (f minus h) one more than s's |
| HrdState.GetSolution | hrd.py:642-657 | the path starts at a state without parent, ends at the argument, each state's parent is the one before it, and it is the argument's whole parent chain read from the root |
| HrdCells.CellFacts | hrd.py:264-310 | on a well-formed grid a '2', '<' or '^' marks the top-left corner of a single or domino, and a '>' or 'v' marks the second half of a domino whose corner is left of it or above it |
| HrdCells.GoalFacts | hrd.py:298-310 | a well-formed board has a goal piece on the board, and the '1' cells are exactly the cells it covers |
| HrdCells.EmptyFrom | hrd.py:212-220 | the row-major scan lists exactly the empty cells from position n on, in increasing row-major order |
| HrdCells.LocateEmptySquares | hrd.py:205-222 | the two empty cells of a well-formed board, the first before the second in row-major order, which are all its empty cells |
| HrdMoves.FirstAt | hrd.py:230-240 | the first piece whose top-left corner is (x, y), with no earlier piece there, or the list length when none is |
| HrdMoves.ShiftFirstAt | hrd.py:230-240 | the piece list after a move: only the first piece with the moved corner changes, shifted by one cell, and the length is kept |
| HrdMoves.MoveRight | hrd.py:225-261 | move_piece_right shifts the first matching piece one column right and keeps the grid 5x4 |
| HrdMoves.MoveRightCells | hrd.py:242-259 | after move_piece_right every cell shows the moved piece's new glyph where it now lies, '.' where it left, and is unchanged elsewhere |
| HrdMoves.MoveLeft | hrd.py:319-355 | move_piece_left shifts the first matching piece one column left and keeps the grid 5x4 |
| HrdMoves.MoveLeftCells | hrd.py:336-353 | after move_piece_left every cell shows the moved piece's new glyph where it now lies, '.' where it left, and is unchanged elsewhere |
| HrdMoves.MoveDown | hrd.py:413-449 | move_piece_down shifts the first matching piece one row down and keeps the grid 5x4 |
| HrdMoves.MoveDownCells | hrd.py:430-447 | after move_piece_down every cell shows the moved piece's new glyph where it now lies, '.' where it left, and is unchanged elsewhere |
| HrdMoves.MoveUp | hrd.py:507-543 | move_piece_up shifts the first matching piece one row up and keeps the grid 5x4 |
| HrdMoves.MoveUpCells | hrd.py:524-541 | after move_piece_up every cell shows the moved piece's new glyph where it now lies, '.' where it left, and is unchanged elsewhere |
| HrdMoves.EnterLeave | hrd.py:225-261 | the cells a slide enters are those the shifted piece covers and the old one does not, the cells it leaves the reverse, and there are as many of each |
| HrdMoves.SlideDisjoint | hrd.py:230-240 | sliding one piece into cells no piece occupies keeps the pieces from overlapping |
| HrdMoves.SlideRedraws | hrd.py:243-259 | the grid edited cell by cell after a slide equals the grid drawn afresh from the new piece list |
| HrdMoves.SlideKeepsTwoEmpty | hrd.py:243-259 | a slide empties as many cells as it fills, so exactly two cells stay empty |
| HrdMoves.SlidePreservesWellFormed | hrd.py:225-543 | a legal slide (the shifted piece stays on the board and enters only empty cells) produces a well-formed board |
| HrdMoves.MovePreservesWellFormed | hrd.py:225-543 | on a well-formed board, sliding a piece legally changes only that piece in the list and leaves a well-formed board |
| HrdSuccessors.LeftCandidateSound | hrd.py:264-310 | every piece check_left names by its glyphs can legally slide right into the empty cell |
| HrdSuccessors.RightCandidateSound | hrd.py:358-404 | every piece check_right names by its glyphs can legally slide left into the empty cell |
| HrdSuccessors.TopCandidateSound | hrd.py:452-498 | every piece check_top names by its glyphs can legally slide down into the empty cell |
| HrdSuccessors.BottomCandidateSound | hrd.py:546-592 | every piece check_bottom names by its glyphs, when one has that corner, can legally slide up into the empty cell |
| HrdSuccessors.LeftCandidateComplete | hrd.py:264-310 | from the cell a legal rightward slide enters first, check_left names exactly that piece |
| HrdSuccessors.RightCandidateComplete | hrd.py:358-404 | from the cell a legal leftward slide enters first, check_right names exactly that piece |
| HrdSuccessors.TopCandidateComplete | hrd.py:452-498 | from the cell a legal downward slide enters first, check_top names exactly that piece |
| HrdSuccessors.BottomCandidateComplete | hrd.py:546-592 | from the cell a legal upward slide of a piece other than the goal enters first, check_bottom names exactly that piece |
| HrdSuccessors.Slide | hrd.py:276-279 | nothing is produced exactly when no piece has the named corner; otherwise the result is a successor state reached by a legal slide |
| HrdSuccessors.ChildOfSlide | hrd.py:312-315 | the state built from a legal slide is a successor state: well formed, parent s, depth and cost one more |
| HrdSuccessors.CheckLeft | hrd.py:264-316 | check_left produces nothing in column 0, and otherwise only successor states reached by a rightward slide |
| HrdSuccessors.CheckRight | hrd.py:358-410 | check_right produces nothing in the last column, and otherwise only successor states reached by a leftward slide |
| HrdSuccessors.CheckTop | hrd.py:452-504 | check_top produces nothing in row 0, and otherwise only successor states reached by a downward slide |
| HrdSuccessors.CheckBottom | hrd.py:546-598 | check_bottom produces nothing in the last row, and otherwise only successor states reached by an upward slide |
| HrdSuccessors.Somes | hrd.py:633-635 | the None filter keeps exactly the present states |
| HrdSuccessors.RemoveDuplicateBoards | hrd.py:601-614 | the result holds only input states, its grids are pairwise distinct, and every grid of the input is shown by some kept state |
| HrdSuccessors.RemoveDuplicateBoardsKeepsFirst | hrd.py:601-614 | the result is exactly the states that are the first to show their grid, in input order |
| HrdSuccessors.ChecksAt | hrd.py:627-631 | the four checks at one empty cell produce only successor states |
| HrdSuccessors.GenerateSuccessors | hrd.py:617-639 | at most eight results, each a successor state of s reached by one legal slide, with pairwise distinct grids |
| HrdSuccessors.CheckFindsSlide | hrd.py:264-598 | started from the cell a legal slide enters first, the check for its direction produces exactly that slide, except an upward slide of the goal piece |
| HrdSuccessors.GenerateSuccessorsComplete | hrd.py:617-639 | every legal slide except an upward slide of the goal piece yields a successor with the grid that slide produces |
| HrdSuccessors.EmptyIsSquare | hrd.py:205-222 | every empty cell of a well-formed board is one of the two cells locate_empty_squares reports |
| HrdSuccessors.LeftCandidate | hrd.py:264-310 | check_left's glyph tests: nothing from an empty cell in the leftmost column; LeftCandidateSound and LeftCandidateComplete state that what it names can slide right and that every piece that can slide right into the cell is named |
| HrdSuccessors.RightCandidate | hrd.py:358-404 | check_right's glyph tests: nothing from an empty cell in the rightmost column; RightCandidateSound and RightCandidateComplete state the same for slides left |
| HrdSuccessors.TopCandidate | hrd.py:452-498 | check_top's glyph tests: nothing from an empty cell in the top row; TopCandidateSound and TopCandidateComplete state the same for slides down |
| HrdSuccessors.BottomCandidate | hrd.py:546-592 | check_bottom's glyph tests: nothing from an empty cell in the bottom row; BottomCandidateSound and BottomCandidateComplete state the same for slides up, with the goal piece excepted |
| HrdSearch.GridUniverse | hrd.py:660-737 | a finite set holds the grid of every well-formed board, which bounds both searches |
| HrdSearch.ChainBack | hrd.py:642-657 | the parent chain of a descendant of s, read from its root, passes through s, and each step after s is a successor step |
| HrdSearch.Solution | hrd.py:680-682 | get_solution on a goal state that descends from s is a solution from s ending at that state, and it is that state's whole parent chain |
| HrdSearch.Unexplored | hrd.py:686-690 | the successors pushed are exactly those whose grid is not explored yet, in order |
| HrdSearch.MinIndex | hrd.py:708-710 | the state popped from the heap has a least (f, id) key in the frontier |
| HrdSearch.LineInAncestry | hrd.py:642-657 | the parent chain from s down to a state below it is the tail of that state's get_solution path |
| HrdSearch.LineDistinct | hrd.py:673-690 | a state whose grid is not explored, reached along a line of explored, pairwise distinct grids, ends a line without repeated grids |
| HrdSearch.ChildLine | hrd.py:684-690 | a successor pushed when its parent is expanded extends its parent's line by one state, keeping it expanded and free of repeats |
| HrdSearch.ExpandLines | hrd.py:678-690 | expanding a state keeps every frontier state, old and newly pushed, well formed and descending from s, and keeps its line expanded and free of repeated grids |
| HrdSearch.PushSuccessors | hrd.py:684-690 | the push loop keeps the frontier as it was and adds only children of the expanded state whose grid is unexplored, keeping the frontier's invariants |
| HrdSearch.GoalLine | hrd.py:678-682 | the solution returned for a goal state reached that way shows no grid twice from s on |
| HrdSearch.Dfs | hrd.py:660-692 | a result is a solution from s whose last board passes the goal test and which shows no grid twice from s on (multi-path pruning); no grid is expanded twice |
| HrdSearch.AStar | hrd.py:695-737 | a result is a solution from s whose last board passes the goal test and which shows no grid twice from s on (multi-path pruning); no grid is expanded twice |
| HrdQuirk.QuirkWellFormed | hrd.py:14-93 | the witness board, with the goal piece under the two empty cells, is well formed |
| HrdQuirk.QuirkSquares | hrd.py:205-222 | the witness board's empty cells are (0, 1) and (1, 1) |
| HrdQuirk.QuirkBottomNone | hrd.py:582-592 | check_bottom's transposed goal test names no piece from either empty cell of the witness board |
| HrdQuirk.QuirkGoalCanRise | hrd.py:507-543 | the goal piece of the witness board can legally slide up |
| HrdQuirk.GoalUpMissed | hrd.py:546-598 | on the witness board the goal piece can slide up, yet check_bottom from both empty cells produces nothing |
| HrdQuirk.BottomNoneCheckNone | hrd.py:546-598 | when the glyph tests of check_bottom name no piece, check_bottom produces nothing |
| CheckersBoard.NextTurn | checkers.py:46-50 | get_next_turn returns 'r' or 'b', and the other colour when given one of them |
| CheckersBoard.NextTurnInvolution | checkers.py:46-50 | get_next_turn is an involution on 'r' and 'b': applied twice it gives back the colour it started from |
| CheckersBoard.OppChars | checkers.py:39-43 | get_opp_char returns a man and a king symbol |
| CheckersBoard.OppCharsOtherColour | checkers.py:39-43 | get_opp_char returns the other colour's man and king, man first |
| CheckersMoves.Jump | checkers.py:97-124 | a jump empties the start and jumped squares, puts the piece, promoted on the far row, on the landing square, and changes no other square |
| CheckersMoves.JumpCount | checkers.py:253-280 | a jump changes the count of any class of pieces only by what it removes from the start and jumped squares and what it puts on the landing square |
| CheckersMoves.CanJump | checkers.py:64-92 | the piece_*_jump_is_possible tests: the neighbour holds a piece the mover may capture and the square beyond is on the board and empty; PreyIsFoe, JumpCaptures and Chain state what a jump it allows does |
| CheckersMoves.PreyIsFoe | checkers.py:64-92 | in every direction a piece moves in, the jump test captures exactly the other colour, and promotion keeps the colour |
| CheckersMoves.JumpCaptures | checkers.py:218-248 | a jump removes at least one enemy piece, exactly one when its start square holds no enemy piece, and keeps the mover's own count when that square holds the mover's colour |
| CheckersMoves.FirstJump | checkers.py:128-144 | the first direction of the list in which the piece can jump, and none exactly when it can jump in none |
| CheckersMoves.Chain | checkers.py:284-300 | a chain of jumps ends where no jump in its directions is possible, never adds enemy pieces, and keeps the mover's colour and count |
| CheckersMoves.Step | checkers.py:170-188 | a simple move empties the start square, puts the piece, promoted on the far row, on the target, and changes no other square |
| CheckersMoves.CanStep | checkers.py:192-203 | the simple-move test: the diagonal neighbour is on the board and empty; SimpleMoves and StepKeepsCounts state what a step it allows does |
| CheckersMoves.StepKeepsCounts | checkers.py:326-344 | a simple move keeps the number of red and of black pieces |
| CheckersSuccessors.MoverDirs | checkers.py:374-402 | the directions a piece is moved in: red men up, black men down, kings up then down, left before right |
| CheckersSuccessors.JumpSeries | checkers.py:148-166 | the jump results of one piece: some exactly when it can jump from its square, each with fewer enemy pieces |
| CheckersSuccessors.SimpleMoves | checkers.py:192-203 | the simple moves of one piece: some exactly when a diagonal target is free, each keeping both counts |
| CheckersSuccessors.MoveRedPiece | checkers.py:208-214 | move_red_piece returns the jumps flagged 1 when there are any, else the simple moves flagged 0 |
| CheckersSuccessors.MoveBlackPiece | checkers.py:363-370 | move_black_piece returns the jumps flagged 1 when there are any, else the simple moves flagged 0 |
| CheckersSuccessors.MoveKing | checkers.py:443-453 | move_king returns the king's jumps in all four directions flagged 1 when there are any, else its simple moves flagged 0 |
| CheckersSuccessors.KingSimpleMoves | checkers.py:443-453 | a king's simple moves: some exactly when one of its four diagonal targets is free, each keeping both counts |
| CheckersSuccessors.PieceResults | checkers.py:457-504 | the results of any piece, by the helper the move generator calls for it, respect mandatory capture |
| CheckersSuccessors.Collect | checkers.py:457-479 | the jump list holds only boards with fewer enemy pieces, the simple-move list only boards with both counts kept |
| CheckersSuccessors.CollectNonEmpty | checkers.py:457-504 | the jump list is non-empty exactly when some scanned piece can jump, the simple-move list exactly when some scanned piece cannot jump but can step |
| CheckersSuccessors.GenerateMoves | checkers.py:457-504 | only captures when a capture exists, otherwise only simple moves, and no move exactly when the side is blocked |
| CheckersSuccessors.BlockedIff | checkers.py:476-479 | the side is blocked exactly when no square holds a piece that can jump and none holds one that can step |
| CheckersSuccessors.GenerateSuccessors | checkers.py:510-518 | one successor per generated board, in order, each with parent s and depth one more; when a capture exists every successor has fewer opposing pieces, otherwise every successor keeps both counts; no successor exactly when the side is blocked |
| CheckersEval.LeTotalOrder | checkers.py:604-662 | the order on -inf, integers and +inf is a total order |
| CheckersEval.Max | checkers.py:624 | the greater of two extended values, one of them |
| CheckersEval.Min | checkers.py:655 | the lesser of two extended values, one of them |
| CheckersEval.Evaluation | checkers.py:558-581 | the player's material minus the opponent's, men one and kings two; EvaluationZeroSum, CrowningGain and CaptureGain state its zero sum and the gains of crowning and capture |
| CheckersEval.EvaluationZeroSum | checkers.py:558-581 | red's evaluation is the negation of black's, and any symbol other than 'r' is scored as black |
| CheckersEval.CrowningGain | checkers.py:566-581 | crowning a red man raises red's evaluation by one and lowers black's by one |
| CheckersEval.CaptureGain | checkers.py:566-581 | removing a black piece raises red's evaluation by one for a man and two for a king |
| CheckersEval.Utility | checkers.py:524-553 | 0 exactly when both colours have pieces and the player can move; +inf exactly when the player's opponent has been wiped out as the source decides it; otherwise -inf |
| CheckersEval.UtilityWin | checkers.py:537-547 | a side with pieces facing none of the opponent's has utility +inf |
| CheckersSearch.MaxValue | checkers.py:604-631 | at the depth limit the board's cached evaluation, on a decided board the opponent's utility, otherwise the loop result, including its beta cutoff; no cache entry is changed |
| CheckersSearch.MaxLoop | checkers.py:618-631 | a loop not cut by beta caches every successor; the successors are visited in order, every value before the last visited one stayed below beta, and the loop stops early only when the value reaches beta; the value is the one cached for the last successor visited, or -inf when there is none |
| CheckersSearch.MinValue | checkers.py:635-662 | the mirror of MaxValue, with the loop cut when the value falls to alpha |
| CheckersSearch.MinLoop | checkers.py:649-662 | a loop not cut by alpha caches every successor; the successors are visited in order, every value before the last visited one stayed above alpha, and the loop stops early only when the value falls to alpha; the value is the one cached for the last successor visited, or +inf when there is none |
| CheckersSearch.FirstCached | checkers.py:670-674 | the index of the first successor cached with the root value, no earlier successor being so cached, or the number of successors when none is |
| CheckersSearch.AlphaBetaSearch | checkers.py:666-675 | the first successor cached with the root value, paired with it, or the root with 999 when none is; on an undecided root with a move the result is one of the root's successors |
| CheckersQuirk.ShiftBoard | checkers.py:153-164 | a concrete board matching the shifted-jump pattern |
| CheckersQuirk.ShiftedJumpAddsPiece | checkers.py:153-164 | move_red_piece returns two jump results on the pattern, neither capturing the piece the red man can take, the second with one red piece more than the start |
| CheckersQuirk.ShiftSeries | checkers.py:148-166 | the red man's jump series on the pattern: the chain after the up-left jump, then the jump tried from its landing square on the original board |

## Left out

- Reading puzzle files, argument parsing, writing solutions and `display` (hrd.py:137-173 and 740+, checkers.py:53-60 and 678+) are I/O. The parsed board is an input instead.
- The checkers game loop under `__main__` drives the search without any bound, so it has no place in a model of the core.
- numpy's infinities are modelled as the extended integers `NegInf`, `Fin(n)` and `PosInf`, not as floats.
- The process-wide `cache` is a map keyed by the board. `AlphaBetaSearch` takes it in and returns it updated. The source keys the cache by the board written out as a string, which is injective on boards of single symbols.
- `State.id` in hrd.py is Python's identity hash of the board object. It is a caller-supplied function `hash`, used only to break ties.
- `heapq` is modelled by its pop order, a least (f, id) key (`HrdSearch.MinIndex`). Its tie-breaking among equal keys is not modelled.
- `deepcopy` is value semantics: boards are immutable values.
- The HRD operations require a well-formed board: pieces on the board and not overlapping, one goal piece, the grid drawn from the pieces, and two empty cells. The source checks none of this. __construct_grid (hrd.py:73-93) draws overlapping pieces over each other without error. With three or more '.' cells, locate_empty_squares (hrd.py:205-222) appends the extra cells to the second square, and the checks silently use only its first pair. A board with fewer than two empty cells raises IndexError when the missing square is read. A board without a goal piece raises when heuristic_function's None is subtracted from f. The model does not follow these malformed boards.
- HrdSuccessors.GenerateSuccessorsComplete: excludes an upward slide of the goal piece, because check_bottom's transposed test (hrd.py:582, 588) can miss it, as `HrdQuirk.GoalUpMissed` shows.
- HrdSearch.Dfs: states what a returned path is, not that `None` means no solution exists.
- HrdSearch.AStar: states what a returned path is, not that `None` means no solution exists, nor that the path found is a shortest one.
- CheckersSearch.MaxValue: states the cache and leaf behaviour and what the loop guarantees, not that the value equals a minimax value, which the cache replacements prevent in general.
- CheckersSearch.MinValue: same as MaxValue.
- CheckersSuccessors.JumpSeries: states that every result captures and that results exist exactly when the piece can jump from its square, not the full contents of each chain, which `CheckersQuirk` pins down on one board.
