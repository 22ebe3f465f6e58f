# gorecall in Dafny

gorecall is a Go memorisation trainer. The model covers its SGF pipeline,
from a loaded SGF FF[4] game tree to the position the player must recall,
and then to the verdict on what the player played:

- **Sequence splitter** (`Splitter`, src/lib/sgf.js). A depth-first walk from
  the game's first child stores one single-branch game per leaf under the key
  `seq:<safe name>:<n>`. It returns `{key, name}` metadata, or the first
  storage error.
- **Projection** (`Game`, src/lib/game.js).
  - `sgfToPos` and `applyMove` decode and play moves.
  - `processSequenceObject` walks the first-child chain and collects moves and
    comments. It stops after a node carrying a selected tag.
  - It then replays the first `moveNumber` moves, alternating colour from the
    start player.
  - Finally it may rotate or transpose the board.
- **Training screen** (`TrainRecall`, src/TrainRecall.jsx). Covers:
  - the start-position and tag filter over the sequence index;
  - the fixed and sequential variation pickers;
  - the move and variation steppers;
  - the start player;
  - the tag options;
  - the component state that these methods update.
- **Recall board** (`TestRecall`, src/TestRecall.jsx). A state machine with
  place, pass, undo and restart. It also copies the setup stones of the
  projected board when it mounts.
- **Validator** (`ValidateRecall`, src/ValidateRecall.jsx). Rebuilds the test
  board, finds the mismatched moves and writes the message.
- **Review converter** (`Convert`, src/lib/convert.js). Each non-main-line
  branch becomes a training root whose AB/AW setup stones hold the path to
  the branch point.
- **Joseki serialiser** (`JosekiToSgf`, scripts/joseki_to_sgf.js). Writes a
  crawled JSON tree as SGF text, escaping Text values as SGF FF[4] requires.
- **Tag toggle** (`TagSelector`, src/components/TagSelector.jsx).

Shared pieces:
- `GameTree` is the parsed SGF tree. Property values are non-empty lists, as
  the parser produces them.
- `Board` is the 19x19 sign map.
- `NumberText` is decimal printing and parsing.
- `Wrappers` holds `Option` and `Result`.

Component state lives in classes:
- `Splitter.Splitter`;
- `Splitter.SequenceStore` (the storage the splitter writes to);
- `TrainRecall.Trainer`;
- `TestRecall.TestBoard`.

Each method that changes state is proved against a function of the old state.
The lemmas about those functions carry the properties.

## Model

| member | source | states |
|---|---|---|
| NumberText.NatToString | src/lib/sgf.js:65 | A counter prints as a non-empty string of decimal digits. |
| NumberText.ParseNatToString | src/TrainRecall.jsx:49-51 | Parsing a printed counter gives the counter back, so a stored index reads back unchanged. |
| NumberText.NatToStringInjective | src/lib/sgf.js:65 | Different counters print differently. |
| NumberText.IntToString | src/TrainRecall.jsx:271 | A negative index (the -1 of an empty list) prints with a leading minus. Otherwise it prints as the counter does. |
| GameTree.NodeMoves | src/lib/game.js:49-50 | A node contributes one move per B and W property it has. |
| GameTree.MainLine | src/lib/game.js:70 | The first-child chain starts at the node itself. |
| GameTree.DataAlong | src/lib/sgf.js:28-33 | The data of a node list, one entry per node, in order. |
| Board.EmptyBoard | src/lib/game.js:74-75 | A fresh 19x19 board has every cell empty. |
| Board.Put | src/lib/game.js:17-22 | A copy of the board with one cell written and every other cell unchanged. |
| Game.SgfToPos | src/lib/game.js:4-9 | A position comes back exactly when the move has two characters. |
| Game.DecodeEncode | src/lib/game.js:6-8 | Decoding the two letters `chr(97+x)chr(97+y)` gives back (x, y) for x, y in [0,26). |
| Game.EncodeDecode | src/lib/game.js:6-8 | Two lowercase letters decode into [0,26) and encode back to the same letters. |
| Game.ApplyMove | src/lib/game.js:12-25 | No position leaves the board unchanged. Otherwise the result equals the input except at [y][x], which holds the player's stone and move number only when 0<=x,y<19. |
| Game.NodeComment | src/lib/game.js:51-55 | A node's comment is the first C value, or " " when C is missing or empty. |
| Game.Visited | src/lib/game.js:46-71 | The walk visits the start node first. |
| Game.WalkFromComments | src/lib/game.js:48-56 | Exactly one comment per visited node, in order. |
| Game.WalkFromMoves | src/lib/game.js:49-50 | The moves are B[0] then W[0] of each visited node, in order. |
| Game.VisitedOnMainLine | src/lib/game.js:46-70 | The visited nodes are a prefix of the first-child chain. With no selected tags they are the whole chain. |
| Game.VisitedStopsOnlyAtEnd | src/lib/game.js:61-70 | The walk goes on through first children. It stops only at the first node carrying a selected tag, or at a leaf. |
| Game.HasSelectedTag | src/lib/game.js:61-67 | The intersection test is true exactly when some selected tag is among the node's tags. |
| Game.StopsAt | src/lib/game.js:61-68 | The walk stops after a node when some selected tag is among its tags. |
| Game.WalkFrom | src/lib/game.js:46-71 | From a node: its moves and one comment, then, unless it stops there or has no children, the same from its first child. |
| Game.Walk | src/lib/game.js:45-47 | The walk starts at the sequence root's first child, and collects nothing without one. |
| Game.CollectTrail | src/lib/game.js:41-71 | The `while (node)` loop collects exactly the walk's moves and comments. |
| Game.SliceTo | src/lib/game.js:77 | `slice(0, moveNumber)` is a prefix. It has that many moves when the number is in range, and all moves past the end. |
| Game.Replayed | src/lib/game.js:77-86 | Replaying the first k moves gives a 19x19 board. |
| Game.PlayerAt | src/lib/game.js:78-85 | The colour of the move at index i is the start player for even i and its opponent for odd i. |
| Game.LastMoveAt | src/lib/game.js:80-86 | Finds the last of the first k moves that decodes to a given cell, if any. |
| Game.ReplayedCell | src/lib/game.js:78-86 | Each cell holds its last decoded move. The colour alternates from the start player by index, undecodable moves included, and the number is the 1-based index. A cell no move reached is empty. |
| Game.NumbersWithinLimit | src/lib/game.js:77-86 | Every stone's number lies in 1..k and names a move that decodes to that cell. |
| Game.ApplyMoves | src/lib/game.js:78-86 | The `forEach` replay gives the replayed board. |
| Game.RotateMoves | src/lib/game.js:94 | One rotation moves cell [i][j] to [j][18-i]. |
| Game.Rotate | src/lib/game.js:94 | A quarter turn keeps a 19x19 board. |
| Game.RotateFourTimes | src/lib/game.js:93-95 | Four rotations give back the board. |
| Game.RotateHalfTurn | src/lib/game.js:93-95 | Two quarter turns send row i, column j to row n-1-i, column n-1-j. |
| Game.RotateTimesPeriod | src/lib/game.js:93-95 | Rotation counts that differ by four give the same board. |
| Game.RotateTimes | src/lib/game.js:93-95 | k quarter turns keep a 19x19 board. |
| Game.TransposeTwice | src/lib/game.js:96-98 | Two transposes give back the board. |
| Game.Transpose | src/lib/game.js:97 | A transpose keeps a 19x19 board. |
| Game.Orient | src/lib/game.js:89-99 | Orienting keeps a 19x19 board, and no orientation leaves the board as it is. |
| Game.OrientBoard | src/lib/game.js:89-99 | The rotation loop and the optional transpose give the oriented board. |
| Game.ProcessSequenceObject | src/lib/game.js:35-105 | Gives the projection of the sequence. `totalMoves` counts every collected move, whatever `moveNumber` is, and the result is a 19x19 board. |
| Splitter.Prefixed | src/lib/sgf.js:28-33 | Each path gets the accumulated clones in front. |
| Splitter.PrefixedAppend | src/lib/sgf.js:78-80 | Prefixing works piece by piece over the children's runs of paths. |
| Splitter.PrefixedTwice | src/lib/sgf.js:28-33 | Cloning one more node onto the accumulated path is prefixing in two steps. |
| Splitter.Paths | src/lib/sgf.js:25-80 | One non-empty root-to-leaf path per leaf, each starting at the node. |
| Splitter.PathsAreLeafPaths | src/lib/sgf.js:36-80 | Every emitted path runs from the node down child links to a leaf. |
| Splitter.LeafPathsAreEmitted | src/lib/sgf.js:36-80 | Every root-to-leaf path is emitted. |
| Splitter.ChainShape | src/lib/sgf.js:45-55 | The linked clones form a single branch that carries the path's data, with one child per inner node and no tags. |
| Splitter.ChainOf | src/lib/sgf.js:45-50 | The single branch of clones holding the path, each linked to the next, the last without children. |
| Splitter.LinkClones | src/lib/sgf.js:45-50 | The linking loop builds that chain. |
| Splitter.WalkChain | src/lib/sgf.js:52-55 | Projecting a stored sequence reads back the moves of its path and one comment per node. |
| Splitter.SafeName | src/lib/sgf.js:64 | Same length as the input, every character safe, and safe characters kept in place. |
| Splitter.SafeNameIdempotent | src/lib/sgf.js:64 | Sanitising twice changes nothing more. |
| Splitter.FileLabel | src/lib/sgf.js:64 | The file name, or "unknown" when it is missing or empty. |
| Splitter.Key | src/lib/sgf.js:64-65 | The key `seq:<safe name>:<counter>`. |
| Splitter.DisplayName | src/lib/sgf.js:73 | The metadata name `<file name>#<counter>`, with "undefined" for a missing name. |
| Splitter.KeysDistinct | src/lib/sgf.js:65 | Different counters give different keys. |
| Splitter.MetaRange | src/lib/sgf.js:73 | The metadata of the written sequences: key and name per counter, in order. |
| Splitter.EmitOne | src/lib/sgf.js:36-74 | One leaf: the counter goes up, then either the sequence and its metadata are written or the first failure is kept. |
| Splitter.EmitAll | src/lib/sgf.js:25-80 | The leaves are emitted one after another, in order. |
| Splitter.EmitAllAppend | src/lib/sgf.js:78-80 | Emitting two runs of paths one after the other is the same as emitting them together. |
| Splitter.EmitAllEffect | src/lib/sgf.js:40-73 | After emitting, the counter has advanced by every leaf and the metadata grew by the leaves that fit. The error is the quota message once a write fails, and the first failure is kept. |
| Splitter.EmitAllWrites | src/lib/sgf.js:52-67 | Sequence n is stored under its key and holds the chain of the n-th path. |
| Splitter.EmitAllKeepsOthers | src/lib/sgf.js:66-67 | Storage under any other key is untouched. |
| Splitter.SequenceStore.constructor | src/lib/sgf.js:66-71 | Storage starts with the given items and room. |
| Splitter.SequenceStore.SetItem | src/lib/sgf.js:66-71 | A write with room stores the item and uses one unit of room. Without room it fails with the quota message and changes nothing. |
| Splitter.Splitter.constructor | src/lib/sgf.js:18-19 | The splitter starts with no metadata, a zero counter and no error. |
| Splitter.Splitter.EmitLeaf | src/lib/sgf.js:36-74 | A leaf advances the counter. It writes the sequence and its metadata, or records the failure. |
| Splitter.Splitter.Dfs | src/lib/sgf.js:25-81 | The recursive walk emits the prefixed paths of the subtree, in order. |
| Splitter.TopPaths | src/lib/sgf.js:83-84 | The walk starts at the game's first child only. |
| Splitter.SplitFileIntoSequences | src/lib/sgf.js:12-90 | No game is an error that leaves storage alone. Otherwise storage and the result are the split's outcome: its metadata, or its first error. |
| Splitter.SplitSucceedsIffRoom | src/lib/sgf.js:66-86 | The split succeeds exactly when every leaf fits. The counter is the leaf count and the keys run `seq:<name>:1..n`. |
| Splitter.SplitKeysDistinct | src/lib/sgf.js:65-73 | No two metadata entries share a key. |
| Splitter.SplitStoresPaths | src/lib/sgf.js:52-67 | Stored sequence n carries the game's root data and the chain of the n-th leaf path. Projecting it gives that path's moves. |
| TrainRecall.AllIndices | src/TrainRecall.jsx:196 | `seq.map((_, i) => i)` lists 0..n-1 in order. |
| TrainRecall.AllIndicesContains | src/TrainRecall.jsx:196 | Every index below n is listed. |
| TrainRecall.StartMatches | src/TrainRecall.jsx:198-202 | The indices whose entry's firstMove is the start position, in the order the loop pushes them. |
| TrainRecall.StartMatchesMeaning | src/TrainRecall.jsx:198-202 | The start matches ascend, stay in range, and are exactly the entries whose firstMove equals the start position. |
| TrainRecall.StartMatchesNone | src/TrainRecall.jsx:198-202 | With no entry opening at the start position there are no matches. |
| TrainRecall.StartMatchesFound | src/TrainRecall.jsx:198-203 | Some match means some entry opens there, and the matches are exactly those entries. |
| TrainRecall.StartMatchesEmpty | src/TrainRecall.jsx:203 | No match means no entry opens at the start position. |
| TrainRecall.StartFilteredInRange | src/TrainRecall.jsx:194-204 | The start stage gives ascending indices within the index. |
| TrainRecall.StartFilteredMeaning | src/TrainRecall.jsx:194-204 | An index passes the start stage exactly when there is no start position, or no entry matches it (the fallback), or its entry matches. |
| TrainRecall.TagMatches | src/TrainRecall.jsx:209-221 | The filtered indices whose entry carries every selected tag, in order. |
| TrainRecall.TagMatchesMeaning | src/TrainRecall.jsx:209-221 | The tag matches ascend and keep exactly the filtered indices whose entry carries every selected tag. |
| TrainRecall.TagMatchesFrom | src/TrainRecall.jsx:209-221 | Every tag match is one of the filtered indices scanned so far, and the matches keep the filter's ascending order. |
| TrainRecall.TagStageMeaning | src/TrainRecall.jsx:209-222 | An index survives the tag stage exactly when it passed the start stage and carries all selected tags. |
| TrainRecall.Filter | src/TrainRecall.jsx:188-231 | `filterIndices`: [] for an empty index, else the start stage followed by the tag stage when tags are selected. |
| TrainRecall.FilterMeaning | src/TrainRecall.jsx:188-231 | The filtered indices ascend and stay in range. An index is kept exactly when it passes the start stage and carries every selected tag. |
| TrainRecall.FilterEdges | src/TrainRecall.jsx:190-203 | An empty index gives []. No start position and no tags give every index. An unmatched start position with no tags gives every index. |
| TrainRecall.FilterCatalog | src/TrainRecall.jsx:188-231 | The loops of `filterIndices` compute the filter. |
| TrainRecall.ScanStarts | src/TrainRecall.jsx:198-202 | The start-position loop pushes exactly the start matches, in index order. |
| TrainRecall.ScanTags | src/TrainRecall.jsx:210-221 | The tag loop keeps exactly the tag matches of the filtered indices, in order. |
| TrainRecall.HasEveryTag | src/TrainRecall.jsx:216-219 | The early-exit scan answers true exactly when every selected tag is among the item's tags. |
| TrainRecall.CatalogOf | src/lib/sgf.js:73 | The index the splitter writes has no firstMove and no tags. |
| TrainRecall.UntaggedMatchNothing | src/TrainRecall.jsx:209-221 | Over entries with no tags, any selected tag leaves nothing. |
| TrainRecall.SplitterCatalogFilter | src/lib/sgf.js:73 | On that index a start position never narrows the list, and any selected tag empties it. |
| TrainRecall.IndexedCatalog | src/lib/sgf.js:7 | An index built as the header comment describes carries each sequence's first move. |
| TrainRecall.IndexedCatalogFilter | src/TrainRecall.jsx:194-204 | On that index a start position that some sequence opens with keeps exactly those sequences. |
| TrainRecall.NonNegative | src/TrainRecall.jsx:255-256 | NaN and negative indices become 0, and the rest stay as they are. |
| TrainRecall.FixedPosition | src/TrainRecall.jsx:268-270 | The fixed position is clamped into the list: 0 for NaN or negative, the last index past the end, -1 for an empty list. |
| TrainRecall.SequentialPosition | src/TrainRecall.jsx:255-259 | The sequential position lies in the list and is the stored index when that is in range. |
| TrainRecall.SequentialRun | src/TrainRecall.jsx:254-264 | k successive sequential picks give k positions. |
| TrainRecall.SequentialCycles | src/TrainRecall.jsx:259-261 | From position p the picks run p, p+1, … modulo the list length, cycling through the list. |
| TrainRecall.Current | src/TrainRecall.jsx:80 | A stored value reads as its number, and NaN reads as 0. |
| TrainRecall.MaxIndex | src/TrainRecall.jsx:104 | `Math.max(0, count - 1)`, the largest variation index. |
| TrainRecall.DecreasedMoveNumber | src/TrainRecall.jsx:78-86 | One step down, never below 0, and capped by a known total. |
| TrainRecall.IncreasedMoveNumber | src/TrainRecall.jsx:88-96 | One step up, capped by a known total. |
| TrainRecall.DecreasedVariation | src/TrainRecall.jsx:98-109 | One step down within [0, max(0, count-1)]. |
| TrainRecall.IncreasedVariation | src/TrainRecall.jsx:111-121 | One step up, capped at max(0, count-1). |
| TrainRecall.StartPlayerFor | src/TrainRecall.jsx:287-288 | The start player is 1 exactly for "black" or an empty choice, and -1 otherwise. |
| TrainRecall.FirstIndex | src/TrainRecall.jsx:531 | `indexOf` of a present value finds its first occurrence. |
| TrainRecall.Dedup | src/TrainRecall.jsx:524-534 | Keeps the first occurrence of every tag, in order of first use. |
| TrainRecall.DedupMeaning | src/TrainRecall.jsx:524-534 | The tag options have no duplicates and hold exactly the tags used. They are ordered by first use. |
| TrainRecall.DedupSnoc | src/TrainRecall.jsx:531 | A tag is pushed only when it is not yet among the options. |
| TrainRecall.UniqueTags | src/TrainRecall.jsx:524-534 | The nested loops compute those options. |
| TrainRecall.AddTags | src/TrainRecall.jsx:529-532 | The inner loop extends the deduplicated list by one entry's tags, giving the dedup of the tags seen so far followed by these. |
| TrainRecall.Trainer.constructor | src/TrainRecall.jsx:17-62 | State comes from the stored values. The colour is "white" only when "white" is stored, and the index lists start empty. |
| TrainRecall.Trainer.FilterIndices | src/TrainRecall.jsx:188-231 | Stores and returns the filter of the given sequences. Nothing else changes. |
| TrainRecall.Trainer.PickVariationIndex | src/TrainRecall.jsx:238-273 | With no sequences it returns 0. In fixed mode it returns the clamped entry, or undefined for an empty filter, and stores the clamped position. In sequential mode it returns the current entry and stores the next position modulo the length. |
| TrainRecall.Trainer.DecreaseMoveNumber | src/TrainRecall.jsx:78-86 | Sets and stores the decreased move number. Nothing else changes. |
| TrainRecall.Trainer.IncreaseMoveNumber | src/TrainRecall.jsx:88-96 | Sets and stores the increased move number. Nothing else changes. |
| TrainRecall.Trainer.DecreaseVariationIndex | src/TrainRecall.jsx:98-109 | Sets and stores the decreased variation index. The count falls back to the whole index when the filter is empty. |
| TrainRecall.Trainer.IncreaseVariationIndex | src/TrainRecall.jsx:111-121 | Sets and stores the increased variation index over the same count. |
| TestRecall.SignOf | src/TestRecall.jsx:73 | Black plays 1 and white plays -1. |
| TestRecall.Place | src/TestRecall.jsx:68-83 | Placing keeps a 19x19 board. |
| TestRecall.Pass | src/TestRecall.jsx:91-96 | A move without coordinates, signed for the player to move and numbered next, is recorded. The board stays, and the turn passes. |
| TestRecall.Undo | src/TestRecall.jsx:98-109 | Undoing keeps a 19x19 board. |
| TestRecall.Restart | src/TestRecall.jsx:111-119 | A restart gives an empty 19x19 board. |
| TestRecall.SetupOnly | src/TestRecall.jsx:43-57 | The copied board is 19x19. |
| TestRecall.SetupOnlyMeaning | src/TestRecall.jsx:49-54 | A cell holds a stone exactly when the saved cell holds an unnumbered (setup) stone, and then holds that stone. |
| TestRecall.InvMovesOnBoard | src/TestRecall.jsx:68-83 | Every recorded move with coordinates lies on the board. |
| TestRecall.FreshInv | src/TestRecall.jsx:43-57 | A board of setup stones and no moves satisfies the recall invariant. The invariant says: moves are numbered 1..n, signs alternate back from the next player, each placed move's cell holds it, and every numbered stone is a recorded move. |
| TestRecall.PlaceKeepsInv | src/TestRecall.jsx:68-83 | Placing keeps the invariant, including on an occupied cell or with a missing coordinate. |
| TestRecall.PassKeepsInv | src/TestRecall.jsx:91-96 | Passing keeps the invariant. |
| TestRecall.UndoKeepsInv | src/TestRecall.jsx:98-109 | Undoing keeps the invariant. |
| TestRecall.PlaceThenUndo | src/TestRecall.jsx:98-109 | Undo after a placement on an empty cell gives back the earlier state. |
| TestRecall.PassThenUndo | src/TestRecall.jsx:98-109 | Undo after a pass gives back the earlier state. |
| TestRecall.CopySetupStones | src/TestRecall.jsx:45-56 | The nested copy loop keeps exactly the setup stones. |
| TestRecall.TestBoard.constructor | src/TestRecall.jsx:6-23 | An empty board and no moves. Black is next unless a saved position says otherwise. |
| TestRecall.TestBoard.Mount | src/TestRecall.jsx:33-66 | Takes the saved comments, the setup stones of the saved board (clearing the moves) and the saved start player, each only when present. |
| TestRecall.TestBoard.PlaceStone | src/TestRecall.jsx:68-83 | The state becomes the placement's, and the invariant holds. |
| TestRecall.TestBoard.PassTurn | src/TestRecall.jsx:91-96 | The state becomes the pass's, and the invariant holds. |
| TestRecall.TestBoard.UndoMove | src/TestRecall.jsx:98-109 | The state becomes the undo's, and the invariant holds. |
| TestRecall.TestBoard.StartWithWhite | src/TestRecall.jsx:111-119 | The state becomes a restart with the chosen colour, and the invariant holds. |
| ValidateRecall.Rebuilt | src/ValidateRecall.jsx:42-47 | The rebuilt test board is 19x19. |
| ValidateRecall.LastWriteAt | src/ValidateRecall.jsx:43-46 | Finds the last move written to a given cell, if any. |
| ValidateRecall.RebuiltCell | src/ValidateRecall.jsx:43-46 | Each cell holds the last on-board move written there, with its sign and number, and is empty otherwise. Passes write nothing. |
| ValidateRecall.RebuildTestBoard | src/ValidateRecall.jsx:42-47 | The `forEach` gives the rebuilt board. |
| ValidateRecall.RebuiltMatchesTest | src/ValidateRecall.jsx:42-47 | On a recall state, the rebuilt board equals the recall board with its setup stones removed. |
| ValidateRecall.SearchMoveNumber | src/ValidateRecall.jsx:84-93 | The nested search succeeds exactly when some cell carries the move number. |
| ValidateRecall.CheckMove | src/ValidateRecall.jsx:83-103 | A pass mismatches exactly when its number is on the board. An off-board move always mismatches. Otherwise a move mismatches when the cell's sign (0 when empty) or number differs. |
| ValidateRecall.IsMismatch | src/ValidateRecall.jsx:84-102 | A pass mismatches when its number is on the board. An off-board move always mismatches. Otherwise a move mismatches when the cell's sign or number differs. |
| ValidateRecall.Mismatches | src/ValidateRecall.jsx:83-104 | The numbers of the mismatched moves among the first k, in order. |
| ValidateRecall.CollectMismatches | src/ValidateRecall.jsx:83-104 | The map and filter give the mismatched move numbers in order. |
| ValidateRecall.MismatchesMeaning | src/ValidateRecall.jsx:83-104 | For numbered moves the list ascends and stays within 1..n, and holds exactly the numbers of the mismatched moves. |
| ValidateRecall.SplitJoin | src/ValidateRecall.jsx:108-109 | Lines without newlines, joined with "\n", split back into the same lines. |
| ValidateRecall.SplitSingleLine | src/ValidateRecall.jsx:108-109 | Text without a newline is one line. |
| ValidateRecall.HeaderSingle | src/ValidateRecall.jsx:109 | The count header is one line. |
| ValidateRecall.MoveLineSingle | src/ValidateRecall.jsx:108 | Each "Move n" entry is one line. |
| ValidateRecall.Validate | src/ValidateRecall.jsx:77-112 | Writes the validation message. |
| ValidateRecall.ValidationMessage | src/ValidateRecall.jsx:77-112 | The message: no moves, all match, or the count header followed by one "Move n" line per mismatch. |
| ValidateRecall.ValidationOutcome | src/ValidateRecall.jsx:77-112 | "No moves to validate" exactly when there are no moves. The success message exactly when nothing mismatches and the totals agree. Otherwise the message splits into the count header and one "Move n" line per mismatch. |
| Convert.NodePathMoves | src/lib/convert.js:25-28 | A node adds at most two path moves, black before white. |
| Convert.NodePathMatchesReplay | src/lib/convert.js:25-28 | Its coordinates are the moves the projection reads from the node. |
| Convert.SetupPartition | src/lib/convert.js:58-61 | Black and white setup stones split the path's coordinates between them. |
| Convert.SetupData | src/lib/convert.js:63-68 | AB holds the black coordinates and AW the white ones, each present only when non-empty, and nothing else. |
| Convert.TrainingRoot | src/lib/convert.js:53-73 | `createTrainingGame`: the setup node above the branch, which is its only child, untouched. |
| Convert.CreateTrainingGame | src/lib/convert.js:53-73 | The `forEach` builds the training root: the setup stones above the branch. |
| Convert.Roots | src/lib/convert.js:30-38 | A branch point emits one root per child after the first, in order. |
| Convert.Branches | src/lib/convert.js:18-51 | What `collectBranches` pushes: this node's roots, then everything below the main line, then everything below the other children. |
| Convert.BranchesCount | src/lib/convert.js:18-51 | The walk emits one training root per non-first child of every node. |
| Convert.ChildBranchesCount | src/lib/convert.js:46-50 | Below the children from the second on, one root per extra child. |
| Convert.ChildBranchesAreTrainingRoots | src/lib/convert.js:46-50 | Everything emitted below the other children is a training root. |
| Convert.BranchesAreTrainingRoots | src/lib/convert.js:18-51 | Every emitted node has only setup properties, no tags and one child. |
| Convert.TopBranchesFirst | src/lib/convert.js:30-38 | The first roots are the top branch point's, holding its path, each with its branch as only child. |
| Convert.PathAt | src/lib/convert.js:25-28 | The moves from the top down to, and including, the node a route of child indices reaches. |
| Convert.BranchesExactly | src/lib/convert.js:18-51 | A node is emitted exactly when it is the training root for some child j >= 1 of some node, with the moves from the top down to that node as setup stones and child j as its only child. |
| Convert.InBranches | src/lib/convert.js:18-51 | A node is pushed by the walk exactly when it is among the roots of the node, is pushed below the main line, or is pushed below one of the other children. |
| Convert.PairEmitted | src/lib/convert.js:30-50 | Every non-first child of every node gets its training root, pushed by the walk. |
| Convert.EmittedFromPair | src/lib/convert.js:30-50 | Every node the walk pushes is the training root of some non-first child of some node. |
| Convert.PushRoots | src/lib/convert.js:30-38 | The first loop pushes those roots. |
| Convert.CollectBranches | src/lib/convert.js:18-51 | The recursive walk pushes the branch point's roots, then the main line's, then the other children's. |
| Convert.CollectOtherChildren | src/lib/convert.js:46-50 | The second loop pushes what lies below the other children, in order. |
| Convert.ConvertReview | src/lib/convert.js:10-82 | No game is an error. Otherwise the result is the first game's properties above every training root. |
| Convert.ConversionShape | src/lib/convert.js:11-82 | It fails exactly for no games. The output root carries the game's properties and one training root per extra child. Its children are exactly the training roots of every non-first child of every node of the first game, each over the moves from the game root down to its branch point. |
| Convert.ReviewToTraining | src/lib/convert.js:10-82 | `reviewToTraining` after parsing: the error without games, else the first game's properties above the collected training roots. |
| JosekiToSgf.TwoReplacesEscape | scripts/joseki_to_sgf.js:36 | The two global replaces, backslashes first, are the character-by-character Text escaping. |
| JosekiToSgf.ReplaceAllAppend | scripts/joseki_to_sgf.js:36 | A global replace works piece by piece over any split of the text. |
| JosekiToSgf.Esc | scripts/joseki_to_sgf.js:34-37 | A missing value gives "". Otherwise the result is the Text escaping of the value. |
| JosekiToSgf.ReadEscaped | scripts/joseki_to_sgf.js:34-37 | An SGF reader that reads escaped text up to the closing bracket recovers the text and the rest. |
| JosekiToSgf.ReadText | scripts/joseki_to_sgf.js:34-37 | The SGF FF[4] Text reader that `esc` is checked against: a backslash escapes the next character, backslash-newline is dropped, and `]` ends the value. |
| JosekiToSgf.EscRoundTrip | scripts/joseki_to_sgf.js:34-37 | What `esc` writes reads back as the original comment. |
| JosekiToSgf.NestedPathForId | scripts/joseki_to_sgf.js:7-13 | One directory per character but the last, none for a one-character id, and the file after the directories. |
| JosekiToSgf.NestedPathRecoversId | scripts/joseki_to_sgf.js:7-13 | The directories spell the id without its last character, and the file is `<id>.json`. |
| JosekiToSgf.FlattenDigitDirs | scripts/joseki_to_sgf.js:9-10 | Concatenating the one-character directories gives back the characters. |
| JosekiToSgf.NestedPathInjective | scripts/joseki_to_sgf.js:7-13 | Distinct ids get distinct files. |
| JosekiToSgf.MoveProp | scripts/joseki_to_sgf.js:39-44 | The result is empty exactly without B and W. Otherwise it is `B[..]` when B is present, else `W[..]`, holding the raw value. |
| JosekiToSgf.CommentReadsBack | scripts/joseki_to_sgf.js:51 | A node's comment is written as `C[esc(C)]` and reads back as the comment. |
| JosekiToSgf.Kept | scripts/joseki_to_sgf.js:55 | Keeps exactly the children with `_mtype` 0 whose file exists. |
| JosekiToSgf.FirstNine | scripts/joseki_to_sgf.js:55 | `slice(0, 9)` keeps at most the first nine children. |
| JosekiToSgf.FirstNineOfShort | scripts/joseki_to_sgf.js:55 | Nine or fewer children are all kept. |
| JosekiToSgf.KeptIdempotent | scripts/joseki_to_sgf.js:55 | Filtering the children twice keeps the same ones. |
| JosekiToSgf.NodeStartsWithHead | scripts/joseki_to_sgf.js:48-51 | A node's text opens with `;`, then its move, then its comment. |
| JosekiToSgf.NodeToSgf | scripts/joseki_to_sgf.js:46-69 | `nodeToSgf`: `;`, the move, the comment, then the continuation over the first nine children that are joseki moves with a file. |
| JosekiToSgf.Continuation | scripts/joseki_to_sgf.js:55-68 | No kept child adds nothing. One kept child follows inline. Several follow in parentheses. |
| JosekiToSgf.Parts | scripts/joseki_to_sgf.js:63-68 | The `map`, `filter(Boolean)` and `join('')` over several kept children. |
| JosekiToSgf.OnlyFollowedChildrenMatter | scripts/joseki_to_sgf.js:55 | Children past the ninth, non-joseki children and children without a file do not change a node's text. |
| JosekiToSgf.SingleChildInline | scripts/joseki_to_sgf.js:56-61 | A single kept child follows without parentheses, or adds nothing when its file does not parse. |
| JosekiToSgf.PartsSkipUnloadable | scripts/joseki_to_sgf.js:63-67 | Among several children, one whose file does not parse adds nothing. |
| JosekiToSgf.PartsAppend | scripts/joseki_to_sgf.js:63-68 | Among several children, each loaded one adds its subtree in parentheses, in order. |
| JosekiToSgf.BuildSgfFromRoot | scripts/joseki_to_sgf.js:71-95 | Accumulating into `s` gives the whole file. |
| JosekiToSgf.AppendChildren | scripts/joseki_to_sgf.js:79-92 | The branches on the number of root children append the root's continuation. |
| JosekiToSgf.AppendParts | scripts/joseki_to_sgf.js:86-91 | The `for` loop appends each loaded child in parentheses and skips the rest. |
| JosekiToSgf.BuildSgf | scripts/joseki_to_sgf.js:71-95 | The file: the header and root comment in one node, then the root's kept children without the cap of nine, in parentheses. |
| JosekiToSgf.BuildSgfFrame | scripts/joseki_to_sgf.js:73-94 | The file opens with `(;GM[1]FF[4]SZ[19]` and ends with `)`. |
| JosekiToSgf.RootHasNoCap | scripts/joseki_to_sgf.js:78 | With two or more kept root children, all of them are written, with no cap of nine. |
| TagSelector.Without | src/components/TagSelector.jsx:6 | The filter drops the tag and keeps exactly the other tags. |
| TagSelector.Toggle | src/components/TagSelector.jsx:2-8 | The toggled tag's membership flips. Every other tag's membership is unchanged. |
| TagSelector.OnToggle | src/components/TagSelector.jsx:2-8 | `onChange` receives the toggled list exactly once. |
| TagSelector.IndexOf | src/components/TagSelector.jsx:3 | Gives -1 exactly for an absent tag, else the first position of the tag. |
| TagSelector.WithoutAppend | src/components/TagSelector.jsx:6 | The filter works piece by piece over any split, so the order of the rest is kept. |
| TagSelector.WithoutAbsent | src/components/TagSelector.jsx:6 | Filtering out an absent tag changes nothing. |
| TagSelector.WithoutCounts | src/components/TagSelector.jsx:6 | Every occurrence of the tag goes, and every other tag keeps its count. |
| TagSelector.ToggleTwiceAbsent | src/components/TagSelector.jsx:5-6 | Toggling an absent tag twice restores the list. |
| TagSelector.ToggleTwicePresent | src/components/TagSelector.jsx:5-6 | Toggling a present tag twice leaves it once, at the end. |
| TagSelector.ToggleShape | src/components/TagSelector.jsx:3-6 | An absent tag is appended. A present tag is removed, and the other tags keep their counts and their order. |

## Findings

| source | as written | input that shows it | evidently intended | confidence | as-written member | corrected member |
|---|---|---|---|---|---|---|
| src/lib/sgf.js:73 | Metadata entries hold only `{key, name}`, so the index the training screen filters has no `firstMove`. | Any split file, say two sequences opening at "pd" and "dd", with start position "pd": the filter keeps both. | Each entry carries its sequence's first move, as the header comment at src/lib/sgf.js:7 describes, so the start position selects the sequences that open there. | medium, not executed | TrainRecall.SplitterCatalogFilter | TrainRecall.IndexedCatalogFilter |

## Left out

- Random choices are not modelled:
  - the random variation mode (src/TrainRecall.jsx:246-252);
  - `randomizeColor` (src/TrainRecall.jsx:279-286);
  - the random orientation (src/lib/game.js:90-92).
  The rotation count and transpose flag are a parameter (`Game.Orientation`).
- I/O is reduced to inputs and outputs:
  - FileReader;
  - the SGF parser and `stringify`;
  - IndexedDB (src/lib/seqDB.js);
  - console logging;
  - the joseki script's command line and file writes.
  The parsed tree is the `GameTree.Node` datatype.
- localStorage becomes explicit values:
  - the splitter's storage is a map with a number of free writes (`room`) in place of the browser quota;
  - the trainer's saved values are a `map<string, string>`;
  - stored numbers parse to `Num` (NaN or an integer);
  - failing storage calls, which the source ignores, are not modelled.
- Orchestration, the render methods and the UI are not modelled:
  - `generateSequence`, `loadAndDisplaySequence`, `handleFileSelect`, `componentDidMount` of the trainer;
  - `loadSGF` of the validator;
  - Reban, Comments, App and ConvertLesson.
- Splitter.EmitAllEffect, Splitter.EmitAllWrites, Splitter.SplitStoresPaths, Splitter.SplitSucceedsIffRoom: storage is modelled as a count of writes that still fit (`room`), so once one write fails every later write fails too, and the stored sequences are always 1..w. The browser's quota counts bytes, and the walk goes on after a failure, so a later, smaller sequence can still be stored. The model does not capture that.
- Game.ProcessSequenceObject: takes `moveNumber` as an integer. The trainer passes its stored value, which can be NaN. `slice(0, NaN)` replays nothing, and the model does not cover that case.
- Splitter clones share their `data` objects with the parsed tree. The model uses values, so aliasing is not captured.
- `totalMoves` in the splitter metadata, which the header comment at src/lib/sgf.js:7 also mentions, is not modelled.
- `sgfToPos` works on UTF-16 code units. The model uses Dafny characters and makes the same check of two characters.
- Splitter.SafeName: replaces one Dafny character (a Unicode scalar value) with one `_`. The source's regular expression has no `u` flag and works on UTF-16 code units. A character outside the Basic Multilingual Plane therefore becomes two `_` in the source and one in the model, and Splitter.Key differs the same way.
- SGF property values are always lists, as the parser produces them. The bare-string comment branch (src/lib/game.js:54) gives the same comment and is not modelled separately.
- TestRecall.TestBoard.Mount: requires a 19x19 saved board, while the source sizes the new board by the saved one. It also requires that no moves were made yet, as holds when the component mounts.
- JosekiToSgf.NodeToSgf: requires a rank below each stored node for every joseki child, so no cycle runs through joseki children. The script does not check this. It would recurse forever on a cycle through the children it follows (the first nine, with a file). A cycle only through children it never follows is harmless to the script but still outside the model. The rank and bound are ghost parameters and do not change the output.
- The joseki store is keyed by id. The nested and flat file locations of `findLocalJsonPath` are one lookup. A `_children` entry that is null, or whose `_mtype` is missing, is a child whose `mtype` is not 0. B, W and C are strings, with "" for a missing or empty value.
- JosekiToSgf.ReadText: treats only backslash-newline as a soft line break. SGF FF[4] also allows the other line-break sequences, which `esc` never writes after a backslash.
- The validator's `sgfBoard` can have any shape. The validator's own `testBoard` rebuild is 19x19, as in the source.
