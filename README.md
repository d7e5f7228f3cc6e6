# Meepo is You — a verified model of the rule engine

"Meepo is You" is a small Baba-Is-You style puzzle game. The board is a list of
actors:
- **Characters**: Meepo, Wall, Rock and Flag.
- **Bushes**: fixed obstacles.
- **Word blocks**: Subjects, Attributes and the Is block.

Word blocks lined up as *Subject is Attribute*, read left to right or top to
bottom, form rules such as "Wall isPush". After every turn the game rescans all
rules. It retracts the rules that vanished and adds the ones that appeared.
Each rule sets or clears one capability flag (push, stop, win, lose, player) on
every Character of the named kind. The player moves with the arrow keys. A move
pushes a line of pushable actors or is blocked by a stop. The first win or lose
Character on the player's cell decides the game. Ctrl-Z pops a snapshot off an
undo stack.

The model is split into modules that follow the program's structure:

| file | module | what it holds |
|---|---|---|
| `wrappers.dfy` | `Wrappers` | `Option` |
| `words.dfy` | `Words` | Subject and attribute words; Python's `str.split()`; rule text rendering and parsing |
| `capability.dfy` | `Capability` | The five flags and the Character setters' exclusions |
| `search.dfy` | `Search` | First and last match searches; `list.remove` by index |
| `board.dfy` | `Board` | Actors as values; `get_actor`; arrow keys; the recursive push of `Actor.move`; the win/lose encounter |
| `scan.dfy` | `Scan` | What `Is.update` reads; the rule list `_update` collects |
| `apply.dfy` | `Apply` | `apply_additional_rule`, `apply_removal_rule` and the rescan diff of `_update` |
| `engine.dfy` | `Engine` | Classes `Actor` and `Game`, with imperative methods proved against the value-level functions |

How the model is built:
- **Actors are objects.** Each `Engine.Actor` has a constant kind, and its
  cell and flags change in place.
- **The game is an object.** `Engine.Game` holds:
  - the actor list;
  - the Is blocks (`_is`);
  - the rule list;
  - the running flag;
  - the player reference;
  - the undo history, a sequence used as a stack.
- **Each method is tied to a value-level description.** The link goes through
  `Board()` (the actors' states in list order) and `World()` (the board plus
  the player's index).
- **The properties are proved at the value level,** as lemmas about the
  functions that specify the methods.

## Model

| member | source | states |
|---|---|---|
| `Words.NounOf` | game.py:228-242 | A word names a Character kind exactly when it is that kind's subject word; any other word names nothing. |
| `Words.PropertyOf` | game.py:349-360 | A word selects an attribute exactly when it is that attribute's word; any other word selects nothing. |
| `Words.Split` | game.py:347 | Every part `str.split()` returns is non-empty and contains no whitespace. |
| `Words.SplitJoin` | game.py:347 | Splitting words joined by single spaces gives the same words back. |
| `Words.RenderParse` | game.py:347-350 | Parsing the text of any rule (split, then drop `"is"` from the second word) gives back that same rule. |
| `Words.RenderInjective` | game.py:217-223 | Two rules have the same text exactly when they are the same rule, so comparing texts in `_update` compares rules. |
| `Capability.Set` | actor.py:161-221 | A setter turns its flag on and turns off every other flag of its group (player/stop/push, or win/lose); flags of the other group are untouched. |
| `Capability.Unset` | actor.py:169-227 | An unsetter turns its own flag off and leaves every other flag unchanged. |
| `Capability.SetKeepsExclusive` | actor.py:161-221 | After any setter, at most one of player/stop/push holds, and win and lose do not both hold. |
| `Capability.UnsetKeepsExclusive` | actor.py:169-227 | The same mutual-exclusion invariant survives every unsetter. |
| `Capability.UnsetAfterSet` | actor.py:161-227 | Unsetting a flag after setting it restores the record, when no flag of that group was on before. |
| `Search.Without` | game.py:197-202 | Removing the element at `i` keeps the elements before `i`, shifts the later ones down by one, and adds nothing. |
| `Board.DefaultFlags` | actor.py:428-461 | A new Character has no flag; a Bush is stop and not push; a word block is push and stop. |
| `Board.FirstAt` | game.py:289-296 | The lookup returns the first actor in list order on the cell, or none when no actor stands there. |
| `Board.FirstOfKind` | game.py:261-267 | The search returns the first actor in list order of the given kind, or none when there is no actor of that kind. |
| `Board.HandleKeyPress` | actor.py:248-263 | The offset is (0, 0) exactly when no arrow key is held. Otherwise it is a unit step on one axis, in the order left, right, up, down. |
| `Board.AheadShrinks` | actor.py:95-104 | Fewer actors lie ahead of the pushed actor than ahead of the pusher, so the recursion of `move` ends. |
| `Board.Chain` | actor.py:95-111 | Every actor a successful move shifts stands one cell further along the direction than the one before it. |
| `Board.MovePushed` | actor.py:99-104 | A pushable actor ahead is moved first. The mover follows exactly when that push succeeded, and a failed push moves nobody. |
| `Board.MoveHalted` | actor.py:106-107 | A stop that is not push ahead blocks the move and leaves the board unchanged. |
| `Board.MoveFree` | actor.py:109-111 | An empty destination, or one whose first actor is neither push nor stop, lets the mover step alone, with no board-edge test. |
| `Board.MoveOutcome` | actor.py:95-111 | All or nothing. A move is blocked exactly when a line of pushable actors ahead faces a stop, and then nothing moves. Otherwise exactly the push line shifts by (dx, dy) and every other actor is untouched. |
| `Board.MoveKeepsFlags` | actor.py:95-111 | A move changes only positions, never kinds or flags, so it keeps the flag invariant. |
| `Board.DestinationCases` | actor.py:99-107 | An empty or flag-free destination never blocks. A word block ahead is pushed, never treated as a wall. A Bush ahead always blocks. |
| `Board.Encounter` | game.py:168-179 | The decisive actor is the first Character in list order on the player's cell that is win or lose; Characters with neither flag are skipped. |
| `Board.ChainIsPushLine` | actor.py:95-111 | A move succeeds with a given list of shifted actors exactly when that list is a line of pushable actors whose last one has room. |
| `Board.ChainBlocked` | actor.py:99-107 | A move is blocked exactly when some line of pushable actors from the mover ends facing a stop that is not push. |
| `Scan.IsReading` | actor.py:567-581 | A vertical rule is read exactly when a Subject is above and an Attribute below; a horizontal rule exactly when a Subject is left and an Attribute right. The text is subject word, " is", attribute word. The lit count is the number of rules read. |
| `Scan.CollectNoDup` | game.py:213-215 | The collected rule list holds each text at most once. |
| `Scan.CollectMembers` | game.py:209-215 | A text is in the list exactly when some Is block reads it; empty readings are never listed. |
| `Scan.CollectPrefix` | game.py:209-215 | Rules found by earlier Is blocks keep their place, so the list is in first-seen order. |
| `Scan.Detected` | game.py:209-215 | A rule is active exactly when some Is block has its Subject left and Attribute right, or its Subject above and Attribute below. |
| `Scan.ReadingRule` | actor.py:567-572 | An Is block reads a rule exactly when its neighbours spell that rule across or down. |
| `Scan.ReadsRule` | actor.py:569-572 | Two neighbours read a rule exactly when they are that rule's Subject and Attribute, in that order. |
| `Scan.ScanParses` | game.py:209-225 | Every collected text parses back to a rule, so the rule appliers never meet malformed text. |
| `Scan.ScanLayout` | game.py:209-215 | The rules found depend only on the kinds and cells of the actors, not on their flags. |
| `Scan.ReadsLeftToRightOnly` | actor.py:560-562 | "Wall is Stop" laid out left to right is read; the mirrored row reads nothing. |
| `Apply.LastOf` | game.py:358-360 | The search finds the last actor in list order of the given kind, or none. |
| `Apply.HasPlayerExists` | game.py:338-341 | The removal loop meets a player of the kind exactly when some actor of that kind carries the player flag. |
| `Apply.Missing` | game.py:217-223 | The texts kept are exactly those of the first list that are absent from the second. |
| `Apply.AddRuleEffect` | game.py:343-357 | Adding a rule changes only Characters of the subject's kind, and those gain the attribute. No other actor (word blocks included) changes. |
| `Apply.RemoveRuleEffect` | game.py:323-337 | Removing a rule changes only Characters of the subject's kind, and those lose the attribute. |
| `Apply.AddYouPicksLast` | game.py:358-360 | An "isYou" rule makes the player the last actor of that kind, which now carries the player flag; with no such actor the player is kept. |
| `Apply.RemoveYouDropsPlayer` | game.py:338-341 | Retracting an "isYou" rule forgets the player exactly when some actor of that kind was a player. |
| `Apply.AddThenRemove` | game.py:323-360 | Adding a rule and retracting it restores every actor, when no actor of that kind had a flag of the attribute's group. |
| `Apply.RediffLayout` | game.py:217-223 | Rule changes never move, add, remove or reorder actors. |
| `Apply.RediffOk` | game.py:217-223 | Rule changes keep every Character's flags exclusive, leave Bushes' and blocks' flags alone, and keep the player a Character. |
| `Apply.MissingCovered` | game.py:217-223 | Nothing is missing from a list that holds everything. |
| `Apply.RediffSame` | game.py:217-225 | Diffing a rule list against itself changes nothing. |
| `Apply.UpdateIdempotent` | game.py:204-225 | A second rescan with no move in between keeps the rule list and changes no flag and no player. |
| `Engine.Actor.constructor` | actor.py:45-50 | A new actor stands on its cell with the flags its class gives it. |
| `Engine.Actor.Copy` | actor.py:229-239 | A copy has the same kind, cell and flags as its original. |
| `Engine.Actor.SetPlayer` | actor.py:161-168 | Player goes on, stop and push go off; the cell and the other flags stay. |
| `Engine.Actor.UnsetPlayer` | actor.py:169-174 | Only the player flag goes off. |
| `Engine.Actor.SetStop` | actor.py:175-182 | Stop goes on, push and player go off. |
| `Engine.Actor.UnsetStop` | actor.py:183-188 | Only the stop flag goes off. |
| `Engine.Actor.SetPush` | actor.py:189-196 | Push goes on, stop and player go off. |
| `Engine.Actor.UnsetPush` | actor.py:197-202 | Only the push flag goes off. |
| `Engine.Actor.SetWin` | actor.py:203-209 | Win goes on, lose goes off. |
| `Engine.Actor.UnsetWin` | actor.py:210-215 | Only the win flag goes off. |
| `Engine.Actor.SetLose` | actor.py:216-222 | Lose goes on, win goes off. |
| `Engine.Actor.UnsetLose` | actor.py:223-228 | Only the lose flag goes off. |
| `Engine.Actor.SetFlag` | game.py:349-360 | The attribute dispatch calls the setter the attribute names. |
| `Engine.Actor.UnsetFlag` | game.py:329-341 | The attribute dispatch calls the unsetter the attribute names. |
| `Engine.Actor.Move` | actor.py:71-111 | The in-place recursive move returns whether the actor moved, and leaves the board as `MoveBoard` says: the whole push line shifts or nothing does. |
| `Engine.Actor.PushAhead` | actor.py:99-104 | The push branch moves the actor ahead first and follows it only when that succeeded. |
| `Engine.Actor.Step` | actor.py:109-111 | Stepping changes this actor's cell and no other actor. |
| `Engine.Actor.PlayerMove` | actor.py:265-276 | With no arrow key nothing moves and the result is false. Otherwise the player moves as `move` does in the key's direction. The actor list, the rules, the player and the history are unchanged. |
| `Engine.ActorAtFirst` | game.py:289-296 | The recursive description of `get_actor` finds the actor at the index of the first actor on the cell, and null exactly when no actor stands there. |
| `Engine.Game.GetActor` | game.py:289-296 | The returned actor is the first in list order on the cell, and null exactly when the cell is empty. |
| `Engine.Game.GetSurroundAc` | game.py:312-321 | Each of the four actors returned is the one `get_actor` finds above, below, left of and right of the actor (null on an empty cell), and their kinds are what the Is block reads. |
| `Engine.Game.ReadRules` | game.py:209-215 | The first loop builds exactly the deduplicated, first-seen rule list of all Is blocks. |
| `Engine.Game.RemoveStale` | game.py:217-219 | Every old rule missing from the new list is retracted, in old order, and no actor is added or dropped. |
| `Engine.Game.AddFresh` | game.py:221-223 | Every new rule missing from the old list is applied, in new order. |
| `Engine.Game.Reconcile` | game.py:217-223 | All retractions happen before any addition, and rules in both lists are not re-applied. |
| `Engine.Game.Update` | game.py:204-225 | The new rule list and the new flags and player are those of the value-level `_update`, so a second call without a move changes nothing; the game stays consistent. |
| `Engine.Game.ApplyAdditionalRule` | game.py:343-360 | Adding a rule text acts as `AddRule` on the board and player, and a text that does not parse changes nothing. |
| `Engine.Game.AdoptRule` | game.py:348-360 | Every Character of the subject's kind gains the attribute; for "isYou" the player becomes the last of them. |
| `Engine.Game.GrantAll` | game.py:348-360 | The loop grants the attribute to every actor of the kind in list order, and for "isYou" leaves the last match as player. |
| `Engine.Game.ApplyRemovalRule` | game.py:323-341 | Removing a rule text acts as `RemoveRule` on the board and player, and a text that does not parse changes nothing. |
| `Engine.Game.RetractRule` | game.py:328-341 | Every Character of the subject's kind loses the attribute; for "isYou" the player is forgotten when one of them was a player. |
| `Engine.Game.RevokeAll` | game.py:328-341 | The loop clears the attribute on every actor of the kind, and for "isYou" clears the player exactly when a match was a player. |
| `Engine.Game.WinOrLose` | game.py:164-179 | The result is true exactly when a decisive Character shares the player's cell. A win one stops the game. A lose one removes the player from the list and clears the player reference. With no decisive Character nothing changes. |
| `Engine.Game.Win` | game.py:298-303 | The game stops running. |
| `Engine.Game.Lose` | game.py:305-310 | The given Character leaves the actor list, the others keep their order, and there is no player. |
| `Engine.Game.RemovePlayer` | game.py:197-202 | The actor is removed by identity, the rest keep their order, the Is list stays correct, and the player reference is cleared. |
| `Engine.Game.CopyState` | game.py:270-287 | The snapshot holds every actor's state in order, the rules, the running flag and the player's state. |
| `Engine.Game.Undo` | game.py:244-268 | With an empty history nothing changes. Otherwise exactly the newest snapshot is popped, and its actors, rules and running flag come back. The player becomes the first restored actor of the old player's kind, which always exists. |
| `Engine.Game.Load` | game.py:251-267 | The restored game is consistent, and its Is list is exactly the Is blocks of the restored actors. |
| `Engine.Game.KeyDown` | game.py:148-161 | Ctrl-Z acts as `Undo`. Any other key with a player keeps a snapshot of the state before the move exactly when the player moved and nothing on its new cell decided the game; only then is the history extended. The actors, player and running flag end as `TurnLeaves` says. With no player, any key other than Ctrl-Z changes nothing. The rules change only on Ctrl-Z. |
| `Engine.Game.Turn` | game.py:156-161 | The snapshot is taken before the move. It is pushed exactly when the move succeeded and `win_or_lose` returned false, and then the board is the moved board. With no arrow key, or a blocked move, nothing changes. After a move onto a win the game stops on the moved board. After a move onto a lose the player leaves the list and the player reference is cleared. |
| `Engine.Game.Settle` | game.py:159-161 | After a move that went through, the first win or lose Character on the player's cell decides. A win stops the game. A lose removes the player. With no decision the snapshot is pushed and nothing else changes. |
| `Engine.Game.constructor` | game.py:42-61 | A new game is running, has no actors, Is blocks, rules or player, and has an empty history. |
| `Engine.Game.Commit` | game.py:161 | The history grows by exactly the saved snapshot, and nothing else changes. |
| `Engine.Restore` | game.py:251 | The restored actors are new and distinct objects whose states are the snapshot's states, in order. |
| `Engine.IsBlocksOf` | game.py:252-255 | The rebuilt `_is` lists exactly the Is blocks of the actor list, in order. |
| `Engine.FirstOfKindIn` | game.py:261-267 | The loop finds the first actor of the old player's kind, or null when there is none. |
| `Engine.MoveThenUndo` | game.py:153-161 | After a committed move, Ctrl-Z brings back the board, the rules, the running flag and the history from before the move. The player is again a Character of the same kind. |
| `Engine.FilterIsWithout` | game.py:197-202 | Removing an actor that is not an Is block leaves the Is list as it was. |

## Left out

- Rendering: pygame surfaces, images, sprite loading and Meepo's walking frames are not modelled. The Is block's colour is modelled only as the number of rules it reads (0, 1 or 2).
- I/O and the main loop: `_draw`, `run`, the `print` messages, the QUIT event and event polling are not modelled.
- Inputs as parameters: the held arrow keys are a `Keys` parameter of `KeyDown`, and the Ctrl-Z test is a boolean parameter.
- `load_map` and `new` (file reading and display setup) are not modelled. The word tables live in `settings.py`, which is not part of this model; the words are an enumeration of the four subjects and five attributes.
- `stack.py` is not part of this model. The undo stack is a sequence with push at the end and pop from the end.
- `get_character("Bush")` is not modelled. Rule subjects are the four Character kinds, since Bush has no flag setters.
- Malformed rule text raises in the source (`split()` into two names fails, `isinstance` with no class fails). The model treats it as a rule that changes nothing. `Scan.ScanParses` shows that `_update` only ever passes texts that parse.
- Snapshots are values. `_copy` also copies `_is`, `map_data` and `keys_pressed`. `_undo` rebuilds `_is` from the actors, and the other two take no part in the rules, so a snapshot keeps only the actors' states, the rules, the running flag and the player's state. Undo makes new actor objects from the states. The source reuses the copies held in the popped snapshot, which nothing else references.
- `Engine.Game.Lose`, `Engine.Game.RemovePlayer`: require that the actor is in the list and is not an Is block. The callers guarantee this, since the player is always a Character. The source would raise on a missing actor.
- `Engine.MoveThenUndo`: promises only that the player has the same kind, not that it is the same entry. Undo picks the first actor of that kind, while an "isYou" rule picks the last one.
- No board bound is checked by `move` (the docstring mentions screen boundaries, but the code has no such test); the edges are the Bushes, and the model follows the code.
- Integer coordinates are unbounded, as in Python.

