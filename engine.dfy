/**
 * The engine as it runs: actors are objects whose position and flags change
 * in place, and the game holds the actor list, the Is blocks, the active
 * rules, the running flag, the player and the undo history. Every method is
 * tied to the value-level description through `Board()` and `World()`.
 */
module Engine {
  import opened Wrappers
  import opened Words
  import opened Capability
  import opened Board
  import opened Search
  import opened Scan
  import opened Apply

  /** One actor: its kind never changes; its cell and flags do. */
  class Actor {
    const kind: Kind
    var x: int
    var y: int
    var stop: bool
    var push: bool
    var player: bool
    var win: bool
    var lose: bool

    function Flags(): Capability.Flags
      reads this
    {
      Capability.Flags(stop, push, player, win, lose)
    }

    function State(): ActorState
      reads this
    {
      ActorState(kind, x, y, Flags())
    }

    /** The constructors of Character, Bush and the word blocks. */
    constructor (kind: Kind, x: int, y: int)
      ensures State() == ActorState(kind, x, y, DefaultFlags(kind))
    {
      this.kind := kind;
      this.x, this.y := x, y;
      var f := DefaultFlags(kind);
      stop, push, player, win, lose := f.stop, f.push, f.player, f.win, f.lose;
    }

    /** `copy()`: a new actor with the same kind, cell and flags. */
    constructor Copy(s: ActorState)
      ensures State() == s
    {
      kind := s.kind;
      x, y := s.x, s.y;
      stop, push, player, win, lose := s.flags.stop, s.flags.push, s.flags.player, s.flags.win, s.flags.lose;
    }

    method SetPlayer()
      requires kind.Character?
      modifies this
      ensures State() == old(State()).(flags := Set(old(Flags()), You))
    {
      player, stop, push := true, false, false;
    }

    method UnsetPlayer()
      requires kind.Character?
      modifies this
      ensures State() == old(State()).(flags := Unset(old(Flags()), You))
    {
      player := false;
    }

    method SetStop()
      requires kind.Character?
      modifies this
      ensures State() == old(State()).(flags := Set(old(Flags()), Stop))
    {
      stop, push, player := true, false, false;
    }

    method UnsetStop()
      requires kind.Character?
      modifies this
      ensures State() == old(State()).(flags := Unset(old(Flags()), Stop))
    {
      stop := false;
    }

    method SetPush()
      requires kind.Character?
      modifies this
      ensures State() == old(State()).(flags := Set(old(Flags()), Push))
    {
      push, stop, player := true, false, false;
    }

    method UnsetPush()
      requires kind.Character?
      modifies this
      ensures State() == old(State()).(flags := Unset(old(Flags()), Push))
    {
      push := false;
    }

    method SetWin()
      requires kind.Character?
      modifies this
      ensures State() == old(State()).(flags := Set(old(Flags()), Victory))
    {
      win, lose := true, false;
    }

    method UnsetWin()
      requires kind.Character?
      modifies this
      ensures State() == old(State()).(flags := Unset(old(Flags()), Victory))
    {
      win := false;
    }

    method SetLose()
      requires kind.Character?
      modifies this
      ensures State() == old(State()).(flags := Set(old(Flags()), Lose))
    {
      lose, win := true, false;
    }

    method UnsetLose()
      requires kind.Character?
      modifies this
      ensures State() == old(State()).(flags := Unset(old(Flags()), Lose))
    {
      lose := false;
    }

    /** The `attribute[2:]` dispatch of `apply_additional_rule` to one setter. */
    method SetFlag(p: Property)
      requires kind.Character?
      modifies this
      ensures State() == old(State()).(flags := Set(old(Flags()), p))
    {
      match p
      case Push => SetPush();
      case Stop => SetStop();
      case Victory => SetWin();
      case Lose => SetLose();
      case You => SetPlayer();
    }

    /** The `attribute[2:]` dispatch of `apply_removal_rule` to one unsetter. */
    method UnsetFlag(p: Property)
      requires kind.Character?
      modifies this
      ensures State() == old(State()).(flags := Unset(old(Flags()), p))
    {
      match p
      case Push => UnsetPush();
      case Stop => UnsetStop();
      case Victory => UnsetWin();
      case Lose => UnsetLose();
      case You => UnsetPlayer();
    }

    /**
     * `move`: push the first actor on the destination if it is push, and
     * follow it only if that push succeeded; otherwise stop if it is stop;
     * otherwise step. Positions change only after every lookup is done.
     */
    method Move(game: Game, ghost i: nat, dx: int, dy: int) returns (moved: bool)
      requires Distinct(game.actors) && i < |game.actors| && game.actors[i] == this && IsStep(dx, dy)
      modifies game.actors
      ensures (moved, game.Board()) == MoveBoard(old(game.Board()), i, dx, dy)
      decreases Ahead(game.Board(), dx, dy, Proj(State(), dx, dy)), 1
    {
      ghost var b0 := game.Board();
      assert b0[i] == State();
      FrontOf(b0, i, x, y, dx, dy);
      var ahead := game.GetActor(x + dx, y + dy);
      if ahead != null && ahead.push {
        moved := PushAhead(game, i, ahead, dx, dy);
      } else if ahead != null && ahead.stop {
        MoveHalted(b0, i, dx, dy);
        moved := false;
      } else {
        MoveFree(b0, i, dx, dy);
        Step(game, i, dx, dy);
        moved := true;
      }
    }

    /** The push branch of `move`: move `ahead`, then follow it if it moved. */
    method PushAhead(game: Game, ghost i: nat, ahead: Actor, dx: int, dy: int) returns (moved: bool)
      requires Distinct(game.actors) && i < |game.actors| && game.actors[i] == this && IsStep(dx, dy)
      requires Front(game.Board(), i, dx, dy).Some?
      requires ahead == game.actors[Front(game.Board(), i, dx, dy).value] && ahead.push
      modifies game.actors
      ensures (moved, game.Board()) == MoveBoard(old(game.Board()), i, dx, dy)
      decreases Ahead(game.Board(), dx, dy, Proj(State(), dx, dy)), 0
    {
      ghost var b0 := game.Board();
      ghost var j := Front(b0, i, dx, dy).value;
      assert b0[j] == ahead.State();
      assert b0[i] == State();
      AheadShrinks(b0, dx, dy, Proj(b0[i], dx, dy), j);
      moved := ahead.Move(game, j, dx, dy);
      ghost var b1 := game.Board();
      if moved {
        Step(game, i, dx, dy);
      }
      MovePushed(b0, i, b1, moved, game.Board(), dx, dy);
    }

    /** `self.x += dx; self.y += dy`, seen on the board: only entry `i` changes. */
    method Step(game: Game, ghost i: nat, dx: int, dy: int)
      requires Distinct(game.actors) && i < |game.actors| && game.actors[i] == this
      modifies this
      ensures game.Board() == old(game.Board())[i := Moved(old(game.Board())[i], dx, dy)]
    {
      ghost var b := game.Board();
      x, y := x + dx, y + dy;
      forall k | 0 <= k < |game.actors| && k != i
        ensures game.actors[k].State() == b[k]
      {
        assert game.actors[k] != this;
      }
    }

    /** `player_move`: no arrow key, no move; otherwise `move` in the key's direction. */
    method PlayerMove(game: Game, keys: Keys) returns (moved: bool)
      requires game.Valid() && this in game.actors
      modifies game.actors
      ensures game.Valid()
      ensures game.actors == old(game.actors) && game.player == old(game.player)
      ensures game.rules == old(game.rules) && game.running == old(game.running) && game.history == old(game.history)
      ensures HandleKeyPress(keys) == (0, 0) ==> !moved && game.Board() == old(game.Board())
      ensures HandleKeyPress(keys) != (0, 0) ==>
        (moved, game.Board()) == MoveBoard(old(game.Board()), IndexIn(game.actors, this), HandleKeyPress(keys).0, HandleKeyPress(keys).1)
    {
      var (dx, dy) := HandleKeyPress(keys);
      if dx == 0 && dy == 0 {
        return false;
      }
      ghost var b0 := game.Board();
      moved := Move(game, IndexIn(game.actors, this), dx, dy);
      MoveKeepsFlags(b0, IndexIn(game.actors, this), dx, dy);
      game.MovedKeepsValid(b0);
    }
  }

  /**
   * What an arrow-key turn leaves of the actor list, the player, the running
   * flag and the board, from `actors` with the player at index `i`. With no
   * arrow key, or when the move is blocked, nothing changes. After a move the
   * first win or lose Character on the player's new cell decides: a win stops
   * the game, a loss takes the player off the list; otherwise the moved board
   * stays.
   */
  ghost predicate TurnLeaves(actors: seq<Actor>, i: nat, board: seq<ActorState>, running: bool, keys: Keys,
                             actors': seq<Actor>, player': Actor?, running': bool, board': seq<ActorState>)
    requires i < |actors| == |board|
  {
    var (dx, dy) := HandleKeyPress(keys);
    if (dx, dy) == (0, 0) || !MoveBoard(board, i, dx, dy).0 then
      actors' == actors && player' == actors[i] && running' == running && board' == board
    else
      var b := MoveBoard(board, i, dx, dy).1;
      var e := Encounter(b, b[i].x, b[i].y);
      if e.None? then
        actors' == actors && player' == actors[i] && running' == running && board' == b
      else if b[e.value].flags.win then
        actors' == actors && player' == actors[i] && !running' && board' == b
      else
        actors' == Without(actors, i) && player' == null && running' == running && board' == Without(b, i)
  }

  /**
   * What `get_actor` finds on (x, y) among `actors`, whose states are `board`:
   * the first actor there in list order, or null when the cell is empty.
   */
  function ActorAt(board: seq<ActorState>, actors: seq<Actor>, x: int, y: int): Actor?
    requires |board| == |actors|
  {
    if board == [] then null
    else if At(board[0], x, y) then actors[0]
    else ActorAt(board[1..], actors[1..], x, y)
  }

  /** The actor `ActorAt` finds is the one at the index `FirstAt` gives, and null exactly when that is None. */
  lemma {:induction false} ActorAtFirst(board: seq<ActorState>, actors: seq<Actor>, x: int, y: int)
    requires |board| == |actors|
    ensures ActorAt(board, actors, x, y) == null <==> FirstAt(board, x, y).None?
    ensures ActorAt(board, actors, x, y) != null ==> ActorAt(board, actors, x, y) == actors[FirstAt(board, x, y).value]
  {
    if board != [] && !At(board[0], x, y) {
      ActorAtFirst(board[1..], actors[1..], x, y);
      var r := FirstAt(board[1..], x, y);
      if r.Some? {
        assert forall k :: 0 <= k <= r.value ==> (k == 0 || board[k] == board[1..][k - 1]);
        FirstAtIs(board, x, y, r.value + 1);
      } else {
        assert forall k :: 0 < k < |board| ==> board[k] == board[1..][k - 1];
        FirstAtNone(board, x, y);
      }
    }
  }

  /** The states of `actors`, in order. */
  function BoardOf(actors: seq<Actor>): (b: seq<ActorState>)
    reads actors
    ensures |b| == |actors|
    ensures forall k :: 0 <= k < |actors| ==> b[k] == actors[k].State()
  {
    seq(|actors|, k reads actors requires 0 <= k < |actors| => actors[k].State())
  }

  /** The Is blocks of `actors`, in order. */
  function FilterIs(actors: seq<Actor>): seq<Actor>
  {
    if actors == [] then []
    else FilterIs(actors[..|actors| - 1]) + (if actors[|actors| - 1].kind == Is then [actors[|actors| - 1]] else [])
  }

  predicate Distinct(actors: seq<Actor>)
  {
    forall i, j :: 0 <= i < j < |actors| ==> actors[i] != actors[j]
  }

  /** Where `a` stands in the list. */
  ghost function IndexIn(actors: seq<Actor>, a: Actor): (k: nat)
    requires a in actors
    ensures k < |actors| && actors[k] == a
  {
    var k :| 0 <= k < |actors| && actors[k] == a; k
  }

  lemma IndexInAt(actors: seq<Actor>, k: nat)
    requires Distinct(actors) && k < |actors|
    ensures IndexIn(actors, actors[k]) == k
  {
  }

  /** The kind of a looked-up actor, None for no actor. */
  function KindOf(a: Actor?): Option<Kind>
  {
    if a == null then None else Some(a.kind)
  }

  /** What `_copy` keeps: the actors' states, the rules, the running flag and the player's state. */
  datatype Snapshot = Snapshot(actors: seq<ActorState>, rules: seq<string>, running: bool, player: ActorState)

  /** A snapshot taken while a Character was the player and was on the board. */
  predicate SnapshotOk(s: Snapshot)
  {
    BoardOk(s.actors) && s.player.kind.Character? && s.player in s.actors
  }

  class Game {
    var actors: seq<Actor>
    var isBlocks: seq<Actor>
    var rules: seq<string>
    var running: bool
    var player: Actor?
    var history: seq<Snapshot>

    /** `Game.__init__`: a running game with no actors, Is blocks or rules, no player and an empty history. */
    constructor ()
      ensures Valid()
      ensures actors == [] && isBlocks == [] && rules == [] && running && player == null && history == []
    {
      actors, isBlocks, rules, running, player, history := [], [], [], true, null, [];
    }

    /** The actor list is duplicate-free, the player is a listed Character, and the flags are well kept. */
    ghost predicate Consistent()
      reads this`actors, this`player, actors
    {
      && Distinct(actors)
      && (player != null ==> player in actors && player.kind.Character?)
      && BoardOk(Board())
    }

    /** `Consistent`, `_is` lists exactly the Is blocks, and every snapshot is of a consistent game. */
    ghost predicate Valid()
      reads this`actors, this`player, this`isBlocks, this`history, actors
    {
      && Consistent()
      && isBlocks == FilterIs(actors)
      && forall k :: 0 <= k < |history| ==> SnapshotOk(history[k])
    }

    function Board(): seq<ActorState>
      reads this`actors, actors
    {
      BoardOf(actors)
    }

    /** The values `game.player` stands for: the board and the player's index. */
    ghost function World(): Apply.World
      reads this`actors, this`player, actors
      requires player != null ==> player in actors
    {
      Apply.World(Board(), if player == null then None else Some(IndexIn(actors, player)))
    }

    /** `get_actor`: the first actor in list order on (x, y), or null. */
    method GetActor(x: int, y: int) returns (a: Actor?)
      ensures a == null <==> FirstAt(Board(), x, y).None?
      ensures a != null ==> a == actors[FirstAt(Board(), x, y).value]
      ensures KindOf(a) == KindAt(Board(), x, y)
      ensures a == ActorAt(Board(), actors, x, y)
    {
      var i := 0;
      while i < |actors|
        invariant i <= |actors|
        invariant forall k :: 0 <= k < i ==> !At(actors[k].State(), x, y)
      {
        if actors[i].x == x && actors[i].y == y {
          FirstAtIs(Board(), x, y, i);
          ActorAtFirst(Board(), actors, x, y);
          return actors[i];
        }
        i := i + 1;
      }
      FirstAtNone(Board(), x, y);
      ActorAtFirst(Board(), actors, x, y);
      return null;
    }

    /** `get_surround_ac`: the first actors above, below, left of and right of `a`. */
    method GetSurroundAc(a: Actor) returns (up: Actor?, down: Actor?, left: Actor?, right: Actor?)
      ensures up == ActorAt(Board(), actors, a.x, a.y - 1) && down == ActorAt(Board(), actors, a.x, a.y + 1)
      ensures left == ActorAt(Board(), actors, a.x - 1, a.y) && right == ActorAt(Board(), actors, a.x + 1, a.y)
      ensures Around(KindOf(up), KindOf(down), KindOf(left), KindOf(right)) == Surround(Board(), a.x, a.y)
    {
      ghost var b, list := Board(), actors;
      var x, y := a.x, a.y;
      up := GetActor(x, y - 1);
      down := GetActor(x, y + 1);
      left := GetActor(x - 1, y);
      right := GetActor(x + 1, y);
      assert Board() == b && actors == list && a.x == x && a.y == y;
      SurroundOf(b, list, x, y);
    }

    /**
     * `_update`: collect the rules the Is blocks read, retract the old rules
     * that are gone, add the new rules that were not there, and keep the new
     * list.
     */
    method Update()
      requires Valid()
      modifies this`player, this`rules, actors
      ensures Valid()
      ensures (rules, World()) == Apply.Update(old(World()), old(rules))
    {
      ghost var w0 := World();
      IsCellsOf(actors);
      var newRules := ReadRules();
      assert newRules == ScanRules(w0.board);
      Reconcile(newRules);
      KeepRules(newRules);
    }

    /** The second and third loops of `_update`: retract the rules that are gone, then add the new ones. */
    method Reconcile(newRules: seq<string>)
      requires Valid()
      modifies this`player, actors
      ensures Valid()
      ensures actors == old(actors) && rules == old(rules)
      ensures World() == Rediff(old(World()), rules, newRules)
    {
      ghost var w0 := World();
      RemoveStale(newRules);
      ghost var w1 := World();
      assert w1 == RemoveAll(w0, Missing(rules, newRules));
      AddFresh(newRules);
      assert World() == AddAll(w1, Missing(newRules, rules));
    }

    /** `self._rules = new_rules`. */
    method KeepRules(newRules: seq<string>)
      requires Valid()
      modifies this`rules
      ensures Valid() && World() == old(World()) && rules == newRules
    {
      rules := newRules;
    }

    /** The first loop of `_update`: each Is block's horizontal, then vertical, rule, once each. */
    method ReadRules() returns (newRules: seq<string>)
      requires |IsCells(Board())| == |isBlocks|
      requires forall k :: 0 <= k < |isBlocks| ==> IsCells(Board())[k] == (isBlocks[k].x, isBlocks[k].y)
      ensures newRules == ScanRules(Board())
    {
      ghost var cells := IsCells(Board());
      newRules := [];
      var k := 0;
      while k < |isBlocks|
        invariant k <= |isBlocks|
        invariant newRules == Collect(Board(), cells[..k])
      {
        newRules := ReadAt(cells, newRules, k);
        k := k + 1;
      }
      assert cells[..k] == cells;
    }

    /** One turn of the first loop of `_update`: the rules the `k`-th Is block reads, added once each. */
    method ReadAt(ghost cells: seq<(int, int)>, found: seq<string>, k: nat) returns (newRules: seq<string>)
      requires cells == IsCells(Board()) && k < |isBlocks| == |cells|
      requires cells[k] == (isBlocks[k].x, isBlocks[k].y)
      requires found == Collect(Board(), cells[..k])
      ensures newRules == Collect(Board(), cells[..k + 1])
    {
      ghost var b := Board();
      CollectStep(b, cells, k);
      var up, down, left, right := GetSurroundAc(isBlocks[k]);
      var rd := IsReading(Around(KindOf(up), KindOf(down), KindOf(left), KindOf(right)));
      assert rd == IsReading(Surround(b, cells[k].0, cells[k].1));
      newRules := AddNew(AddNew(found, rd.horizontal), rd.vertical);
    }

    /** The second loop of `_update`: retract each old rule that is not in `newRules`, in old order. */
    method RemoveStale(newRules: seq<string>)
      requires Valid()
      modifies this`player, actors
      ensures Valid()
      ensures actors == old(actors) && rules == old(rules)
      ensures World() == RemoveAll(old(World()), Missing(rules, newRules))
    {
      ghost var w0 := World();
      var k := 0;
      while k < |rules|
        invariant k <= |rules|
        invariant Valid()
        invariant World() == RemoveAll(w0, Missing(rules[..k], newRules))
      {
        RemoveStaleAt(w0, newRules, k);
        k := k + 1;
      }
      assert rules[..k] == rules;
    }

    method RemoveStaleAt(ghost w0: Apply.World, newRules: seq<string>, k: nat)
      requires Valid() && k < |rules|
      requires World() == RemoveAll(w0, Missing(rules[..k], newRules))
      modifies this`player, actors
      ensures Valid()
      ensures World() == RemoveAll(w0, Missing(rules[..k + 1], newRules))
    {
      MissingExtend(rules, newRules, k);
      RemoveAllSnoc(w0, Missing(rules[..k], newRules), rules[k]);
      if rules[k] !in newRules {
        ApplyRemovalRule(rules[k]);
      }
    }

    /** The third loop of `_update`: add each new rule that is not in the old list, in new order. */
    method AddFresh(newRules: seq<string>)
      requires Valid()
      modifies this`player, actors
      ensures Valid()
      ensures actors == old(actors) && rules == old(rules)
      ensures World() == AddAll(old(World()), Missing(newRules, rules))
    {
      ghost var w0 := World();
      var k := 0;
      while k < |newRules|
        invariant k <= |newRules|
        invariant Valid()
        invariant World() == AddAll(w0, Missing(newRules[..k], rules))
      {
        AddFreshAt(w0, newRules, k);
        k := k + 1;
      }
      assert newRules[..k] == newRules;
    }

    method AddFreshAt(ghost w0: Apply.World, newRules: seq<string>, k: nat)
      requires Valid() && k < |newRules|
      requires World() == AddAll(w0, Missing(newRules[..k], rules))
      modifies this`player, actors
      ensures Valid()
      ensures World() == AddAll(w0, Missing(newRules[..k + 1], rules))
    {
      MissingExtend(newRules, rules, k);
      AddAllSnoc(w0, Missing(newRules[..k], rules), newRules[k]);
      if newRules[k] !in rules {
        ApplyAdditionalRule(newRules[k]);
      }
    }

    /**
     * `win_or_lose`: the first Character in list order on the player's cell
     * that is win or lose decides; win ends the game, lose removes the
     * player. Characters there with neither flag are passed over.
     */
    method WinOrLose() returns (decided: bool)
      requires Valid() && player != null
      modifies this`running, this`actors, this`player
      ensures Valid()
      ensures history == old(history) && rules == old(rules)
      ensures forall k :: 0 <= k < |actors| ==> actors[k] in old(actors)
      ensures var e := Encounter(old(Board()), old(player.x), old(player.y));
        && decided == e.Some?
        && (e.None? ==> running == old(running) && actors == old(actors) && player == old(player) && Board() == old(Board()))
        && (e.Some? && old(Board())[e.value].flags.win ==>
              !running && actors == old(actors) && player == old(player))
        && (e.Some? && !old(Board())[e.value].flags.win ==>
              && running == old(running) && player == null
              && actors == Without(old(actors), IndexIn(old(actors), old(player)))
              && Board() == Without(old(Board()), IndexIn(old(actors), old(player))))
    {
      ghost var b0 := Board();
      var k := 0;
      while k < |actors|
        invariant k <= |actors|
        invariant forall m :: 0 <= m < k ==> !Decisive(b0[m], player.x, player.y)
      {
        var ac := actors[k];
        if ac.kind.Character? && ac.x == player.x && ac.y == player.y {
          if ac.win {
            EncounterIs(b0, player.x, player.y, k);
            Win();
            return true;
          } else if ac.lose {
            EncounterIs(b0, player.x, player.y, k);
            Lose(player);
            return true;
          }
        }
        k := k + 1;
      }
      return false;
    }

    /** `win`: the game stops running. */
    method Win()
      modifies this`running
      ensures !running
    {
      running := false;
    }

    /** `lose`: the given Character leaves the board. */
    method Lose(c: Actor)
      requires Valid() && c in actors && c.kind != Is
      modifies this`actors, this`player
      ensures Valid()
      ensures actors == Without(old(actors), IndexIn(old(actors), c))
      ensures Board() == Without(old(Board()), IndexIn(old(actors), c))
      ensures player == null
    {
      RemovePlayer(c);
    }

    /** `remove_player`: take the actor out of the list and forget the player. */
    method RemovePlayer(a: Actor)
      requires Valid() && a in actors && a.kind != Is
      modifies this`actors, this`player
      ensures Valid()
      ensures actors == Without(old(actors), IndexIn(old(actors), a))
      ensures Board() == Without(old(Board()), IndexIn(old(actors), a))
      ensures player == null
    {
      var k :| 0 <= k < |actors| && actors[k] == a;
      IndexInAt(actors, k);
      FilterIsWithout(actors, k);
      BoardOfWithout(actors, k);
      ghost var b := Without(Board(), k);
      assert BoardOk(b);
      DistinctWithout(actors, k);
      actors, player := Without(actors, k), null;
    }

    /**
     * `_copy`: the states of all actors in list order, the rules, the running
     * flag and the player's state; the `_is` copies follow from the actors.
     */
    method CopyState() returns (s: Snapshot)
      requires Valid() && player != null
      ensures s == Snapshot(Board(), rules, running, player.State())
      ensures SnapshotOk(s)
    {
      var states: seq<ActorState> := [];
      var k := 0;
      while k < |actors|
        invariant k <= |actors|
        invariant states == Board()[..k]
      {
        states := states + [actors[k].State()];
        k := k + 1;
      }
      s := Snapshot(states, rules, running, player.State());
      assert Board()[IndexIn(actors, player)] == player.State();
    }

    /**
     * `_undo`: with an empty history nothing happens; otherwise the newest
     * snapshot is popped, its actors, rules and running flag come back, `_is`
     * is collected again and the player is the first actor of the snapshot
     * player's kind.
     */
    method Undo()
      requires Valid()
      modifies this`actors, this`isBlocks, this`rules, this`running, this`player, this`history
      ensures Valid()
      ensures old(history) == [] ==>
        && actors == old(actors) && isBlocks == old(isBlocks) && rules == old(rules)
        && running == old(running) && player == old(player) && history == old(history)
      ensures old(history) != [] ==>
        var s := old(history)[|old(history)| - 1];
        && history == old(history)[..|old(history)| - 1]
        && Board() == s.actors && rules == s.rules && running == s.running
        && FirstOfKind(s.actors, s.player.kind).Some?
        && player == actors[FirstOfKind(s.actors, s.player.kind).value]
    {
      if history == [] {
        return;
      }
      var s := history[|history| - 1];
      assert SnapshotOk(s);
      history := history[..|history| - 1];
      Load(s);
    }

    /** Everything `_undo` takes from the popped snapshot. */
    method Load(s: Snapshot)
      requires SnapshotOk(s)
      modifies this`actors, this`isBlocks, this`rules, this`running, this`player
      ensures Consistent() && isBlocks == FilterIs(actors)
      ensures Board() == s.actors && rules == s.rules && running == s.running
      ensures FirstOfKind(s.actors, s.player.kind).Some?
      ensures player == actors[FirstOfKind(s.actors, s.player.kind).value]
    {
      LoadActors(s);
      var blocks := IsBlocksOf(actors);
      LoadRest(blocks, s.rules, s.running);
    }

    /** Fresh actors from the snapshot, and the first of the old player's kind as the player. */
    method LoadActors(s: Snapshot)
      requires SnapshotOk(s)
      modifies this`actors, this`player
      ensures Consistent()
      ensures Board() == s.actors
      ensures FirstOfKind(s.actors, s.player.kind).Some?
      ensures player == actors[FirstOfKind(s.actors, s.player.kind).value]
    {
      var restored := Restore(s.actors);
      var p := FirstOfKindIn(restored, s.actors, s.player.kind);
      actors, player := restored, p;
    }

    /** The assignments of `_is`, `_rules` and `_running`; nothing the board depends on changes. */
    method LoadRest(blocks: seq<Actor>, rules': seq<string>, running': bool)
      modifies this`isBlocks, this`rules, this`running
      ensures isBlocks == blocks && rules == rules' && running == running'
      ensures actors == old(actors) && player == old(player) && Board() == old(Board())
      ensures Consistent() == old(Consistent())
    {
      isBlocks, rules, running := blocks, rules', running';
    }

    /**
     * A key press: Ctrl-Z undoes; any other key, while there is a player,
     * snapshots the game, moves the player and keeps the snapshot when the
     * player moved and the game was not decided on its cell.
     */
    method KeyDown(keys: Keys, ctrlZ: bool) returns (ghost committed: bool)
      requires Valid()
      modifies this`actors, this`isBlocks, this`rules, this`running, this`player, this`history, actors
      ensures Valid()
      ensures ctrlZ && old(history) == [] ==>
        && actors == old(actors) && isBlocks == old(isBlocks) && rules == old(rules) && running == old(running)
        && player == old(player) && history == old(history) && Board() == old(Board())
      ensures ctrlZ && old(history) != [] ==>
        var s := old(history)[|old(history)| - 1];
        && history == old(history)[..|old(history)| - 1]
        && Board() == s.actors && rules == s.rules && running == s.running
        && FirstOfKind(s.actors, s.player.kind).Some?
        && player == actors[FirstOfKind(s.actors, s.player.kind).value]
      ensures !ctrlZ ==> forall k :: 0 <= k < |actors| ==> actors[k] in old(actors)
      ensures committed <==>
        !ctrlZ && old(player) != null && Commits(old(Board()), IndexIn(old(actors), old(player)), keys)
      ensures committed ==>
        && old(player) != null
        && history == old(history) + [Snapshot(old(Board()), old(rules), old(running), old(player.State()))]
      ensures committed ==>
        && actors == old(actors) && player == old(player) && rules == old(rules) && running == old(running)
        && Board() == MoveBoard(old(Board()), IndexIn(old(actors), old(player)),
                                HandleKeyPress(keys).0, HandleKeyPress(keys).1).1
      ensures !ctrlZ && !committed ==> history == old(history)
      ensures !ctrlZ ==> rules == old(rules)
      ensures !ctrlZ && old(player) != null ==>
        TurnLeaves(old(actors), IndexIn(old(actors), old(player)), old(Board()), old(running), keys,
                   actors, player, running, Board())
      ensures !ctrlZ && old(player) == null ==>
        && actors == old(actors) && player == old(player) && running == old(running)
        && Board() == old(Board())
    {
      committed := false;
      if ctrlZ {
        Undo();
      } else if player != null {
        committed := Turn(keys);
      }
    }

    /** The arrow-key branch of `_events` while there is a player. */
    method Turn(keys: Keys) returns (ghost committed: bool)
      requires Valid() && player != null
      modifies this`actors, this`running, this`player, this`history, actors
      ensures Valid()
      ensures forall k :: 0 <= k < |actors| ==> actors[k] in old(actors)
      ensures committed <==> Commits(old(Board()), IndexIn(old(actors), old(player)), keys)
      ensures committed ==>
        history == old(history) + [Snapshot(old(Board()), old(rules), old(running), old(player.State()))]
      ensures !committed ==> history == old(history)
      ensures committed ==>
        && actors == old(actors) && player == old(player) && running == old(running)
        && Board() == MoveBoard(old(Board()), IndexIn(old(actors), old(player)),
                                HandleKeyPress(keys).0, HandleKeyPress(keys).1).1
      ensures TurnLeaves(old(actors), IndexIn(old(actors), old(player)), old(Board()), old(running), keys,
                         actors, player, running, Board())
    {
      var save := CopyState();
      var moved := player.PlayerMove(this, keys);
      committed := false;
      if moved {
        committed := Settle(save);
      }
    }

    /** After a move that went through: the encounter decides, or the snapshot is kept. */
    method Settle(save: Snapshot) returns (ghost committed: bool)
      requires Valid() && player != null && SnapshotOk(save)
      modifies this`actors, this`running, this`player, this`history
      ensures Valid()
      ensures forall k :: 0 <= k < |actors| ==> actors[k] in old(actors)
      ensures var b, i := old(Board()), IndexIn(old(actors), old(player));
        var e := Encounter(b, b[i].x, b[i].y);
        && committed == e.None?
        && (e.None? ==>
              && history == old(history) + [save] && actors == old(actors) && player == old(player)
              && running == old(running) && Board() == b)
        && (e.Some? ==> history == old(history))
        && (e.Some? && b[e.value].flags.win ==>
              !running && actors == old(actors) && player == old(player) && Board() == b)
        && (e.Some? && !b[e.value].flags.win ==>
              && running == old(running) && player == null
              && actors == Without(old(actors), i) && Board() == Without(b, i))
    {
      ghost var b, i := Board(), IndexIn(actors, player);
      assert player.x == b[i].x && player.y == b[i].y;
      var decided := WinOrLose();
      committed := false;
      if !decided {
        Commit(save);
        committed := true;
      }
    }

    /** `_history.push(save)`. */
    method Commit(save: Snapshot)
      requires Valid() && SnapshotOk(save)
      modifies this`history
      ensures Valid()
      ensures history == old(history) + [save]
      ensures actors == old(actors) && player == old(player) && rules == old(rules) && running == old(running)
      ensures Board() == old(Board())
    {
      history := history + [save];
    }

    /**
     * `apply_additional_rule`: split the text into subject and attribute;
     * a text that does not name a Character kind and a property changes nothing.
     */
    method ApplyAdditionalRule(text: string)
      requires Valid()
      modifies this`player, actors
      ensures Valid()
      ensures World() == AddRule(old(World()), text)
    {
      var parsed := ParseRule(text);
      if parsed.Some? {
        AdoptRule(parsed.value);
      }
    }

    /**
     * The loop of `apply_additional_rule`: every Character of the subject's
     * kind gains the attribute; for You each one becomes `player` in turn, so
     * the last wins.
     */
    method AdoptRule(r: Rule)
      requires Consistent()
      modifies this`player, actors
      ensures Consistent()
      ensures World() == Adopt(old(World()), r)
    {
      ghost var w0 := World();
      ghost var p0 := player;
      PlayerOkNow();
      AdoptOk(w0, r);
      GrantAll(r);
      Adopted(w0, r, p0);
      OkIsConsistent();
    }

    /** The loop of `AdoptRule`, seen on the board and the player. */
    method GrantAll(r: Rule)
      requires Distinct(actors)
      modifies this`player, actors
      ensures Board() == Grant(old(Board()), r)
      ensures r.attribute != You ==> player == old(player)
      ensures r.attribute == You ==>
        player == if LastOf(old(Board()), r.subject).Some? then actors[LastOf(old(Board()), r.subject).value] else old(player)
    {
      ghost var b0 := Board();
      BelowNone(b0, r);
      GrantLoop(b0, player, r);
      GrantedAll(b0, r);
      BelowAll(b0, r.subject);
    }

    /** The passes of `GrantAll` over every actor, from the board `b0` and the player `p0`. */
    method GrantLoop(ghost b0: seq<ActorState>, ghost p0: Actor?, r: Rule)
      requires Distinct(actors) && |actors| == |b0| && Board() == GrantedBelow(b0, r, 0) && player == p0
      modifies this`player, actors
      ensures Board() == GrantedBelow(b0, r, |b0|)
      ensures r.attribute != You ==> player == p0
      ensures r.attribute == You ==>
        player == if LastBelow(b0, r.subject, |b0|).Some? then actors[LastBelow(b0, r.subject, |b0|).value] else p0
    {
      var k := 0;
      while k < |actors|
        invariant 0 <= k <= |actors| == |b0|
        invariant Board() == GrantedBelow(b0, r, k)
        invariant r.attribute != You ==> player == p0
        invariant r.attribute == You ==>
          player == if LastBelow(b0, r.subject, k).Some? then actors[LastBelow(b0, r.subject, k).value] else p0
      {
        GrantAt(b0, p0, k, r);
        k := k + 1;
      }
    }

    /** The state the loop of `AdoptRule` ends in is `Adopt`'s World. */
    lemma Adopted(w0: Apply.World, r: Rule, p0: Actor?)
      requires Distinct(actors)
      requires p0 != null ==> p0 in actors
      requires w0.player == if p0 == null then None else Some(IndexIn(actors, p0))
      requires Board() == Grant(w0.board, r)
      requires r.attribute != You ==> player == p0
      requires r.attribute == You ==>
        player == if LastOf(w0.board, r.subject).Some? then actors[LastOf(w0.board, r.subject).value] else p0
      ensures player != null ==> player in actors
      ensures World() == Adopt(w0, r)
    {
      if r.attribute == You && LastOf(w0.board, r.subject).Some? {
        IndexInAt(actors, LastOf(w0.board, r.subject).value);
      }
    }

    /**
     * `apply_removal_rule`: split the text into subject and attribute;
     * a text that does not name a Character kind and a property changes nothing.
     */
    method ApplyRemovalRule(text: string)
      requires Valid()
      modifies this`player, actors
      ensures Valid()
      ensures World() == RemoveRule(old(World()), text)
    {
      var parsed := ParseRule(text);
      if parsed.Some? {
        RetractRule(parsed.value);
      }
    }

    /**
     * The loop of `apply_removal_rule`: every Character of the subject's kind
     * loses the attribute; for You only a current player is reset, and then
     * `player` becomes None.
     */
    method RetractRule(r: Rule)
      requires Consistent()
      modifies this`player, actors
      ensures Consistent()
      ensures World() == Retract(old(World()), r)
    {
      ghost var w0 := World();
      PlayerOkNow();
      RetractOk(w0, r);
      RevokeAll(r);
      assert World() == Retract(w0, r);
      OkIsConsistent();
    }

    /** One pass of the loop of `apply_additional_rule`, on `actors[k]`, given the first `k` passes done. */
    method GrantAt(ghost b0: seq<ActorState>, ghost p0: Actor?, k: nat, r: Rule)
      requires Distinct(actors) && k < |actors| == |b0|
      requires Board() == GrantedBelow(b0, r, k)
      requires r.attribute != You ==> player == p0
      requires r.attribute == You ==>
        player == if LastBelow(b0, r.subject, k).Some? then actors[LastBelow(b0, r.subject, k).value] else p0
      modifies this`player, actors[k]
      ensures Board() == GrantedBelow(b0, r, k + 1)
      ensures r.attribute != You ==> player == p0
      ensures r.attribute == You ==>
        player == if LastBelow(b0, r.subject, k + 1).Some? then actors[LastBelow(b0, r.subject, k + 1).value] else p0
    {
      GrantedStep(b0, r, k);
      var ac := actors[k];
      if ac.kind == Character(r.subject) {
        SetFlagAt(k, r.attribute);
        if r.attribute == You {
          player := ac;
        }
      }
    }

    /** The loop of `RetractRule`, seen on the board and the player. */
    method RevokeAll(r: Rule)
      requires Distinct(actors)
      modifies this`player, actors
      ensures Board() == Revoke(old(Board()), r)
      ensures r.attribute != You ==> player == old(player)
      ensures r.attribute == You ==> player == if HasPlayer(old(Board()), r.subject) then null else old(player)
    {
      ghost var b0 := Board();
      BelowNone(b0, r);
      RevokeLoop(b0, player, r);
      RevokedAll(b0, r);
      BelowAll(b0, r.subject);
    }

    /** The passes of `RevokeAll` over every actor, from the board `b0` and the player `p0`. */
    method RevokeLoop(ghost b0: seq<ActorState>, ghost p0: Actor?, r: Rule)
      requires Distinct(actors) && |actors| == |b0| && Board() == RevokedBelow(b0, r, 0) && player == p0
      modifies this`player, actors
      ensures Board() == RevokedBelow(b0, r, |b0|)
      ensures r.attribute != You ==> player == p0
      ensures r.attribute == You ==> player == if HasPlayerBelow(b0, r.subject, |b0|) then null else p0
    {
      var k := 0;
      while k < |actors|
        invariant 0 <= k <= |actors| == |b0|
        invariant Board() == RevokedBelow(b0, r, k)
        invariant r.attribute != You ==> player == p0
        invariant r.attribute == You ==> player == if HasPlayerBelow(b0, r.subject, k) then null else p0
      {
        RevokeAt(b0, p0, k, r);
        k := k + 1;
      }
    }

    /** One pass of the loop of `apply_removal_rule`, on `actors[k]`, given the first `k` passes done. */
    method RevokeAt(ghost b0: seq<ActorState>, ghost p0: Actor?, k: nat, r: Rule)
      requires Distinct(actors) && k < |actors| == |b0|
      requires Board() == RevokedBelow(b0, r, k)
      requires r.attribute != You ==> player == p0
      requires r.attribute == You ==> player == if HasPlayerBelow(b0, r.subject, k) then null else p0
      modifies this`player, actors[k]
      ensures Board() == RevokedBelow(b0, r, k + 1)
      ensures r.attribute != You ==> player == p0
      ensures r.attribute == You ==> player == if HasPlayerBelow(b0, r.subject, k + 1) then null else p0
    {
      RevokedStep(b0, r, k);
      var ac := actors[k];
      if ac.kind == Character(r.subject) {
        if r.attribute != You {
          UnsetFlagAt(k, r.attribute);
        } else if ac.player {
          UnsetFlagAt(k, You);
          player := null;
        }
      }
    }

    /** One setter on `actors[k]`, seen on the board: only entry `k` changes. */
    method SetFlagAt(k: nat, p: Property)
      requires Distinct(actors) && k < |actors| && actors[k].kind.Character?
      modifies actors[k]
      ensures Board() == old(Board())[k := old(Board())[k].(flags := Set(old(Board())[k].flags, p))]
    {
      ghost var b := Board();
      actors[k].SetFlag(p);
      forall m | 0 <= m < |actors| && m != k
        ensures actors[m].State() == b[m]
      {
        assert actors[m] != actors[k];
      }
    }

    /** One unsetter on `actors[k]`, seen on the board: only entry `k` changes. */
    method UnsetFlagAt(k: nat, p: Property)
      requires Distinct(actors) && k < |actors| && actors[k].kind.Character?
      modifies actors[k]
      ensures Board() == old(Board())[k := old(Board())[k].(flags := Unset(old(Board())[k].flags, p))]
    {
      ghost var b := Board();
      actors[k].UnsetFlag(p);
      forall m | 0 <= m < |actors| && m != k
        ensures actors[m].State() == b[m]
      {
        assert actors[m] != actors[k];
      }
    }

    /** In a valid game the World's player is a Character on the board. */
    lemma PlayerOkNow()
      requires Consistent()
      ensures PlayerOk(World())
    {
      if player != null {
        assert Board()[IndexIn(actors, player)] == player.State();
      }
    }

    /** Consistency, read off the World. */
    lemma OkIsConsistent()
      requires Distinct(actors) && (player != null ==> player in actors)
      requires BoardOk(World().board) && PlayerOk(World())
      ensures Consistent()
    {
      if player != null {
        assert Board()[IndexIn(actors, player)] == player.State();
      }
    }

    lemma MovedKeepsValid(b0: seq<ActorState>)
      requires Distinct(actors) && isBlocks == FilterIs(actors)
      requires player != null ==> player in actors && player.kind.Character?
      requires forall k :: 0 <= k < |history| ==> SnapshotOk(history[k])
      requires BoardOk(b0) && |b0| == |actors|
      requires forall k :: 0 <= k < |actors| ==> Board()[k].kind == b0[k].kind && Board()[k].flags == b0[k].flags
      ensures Valid()
    {
    }
  }

  /** Fresh actors with the given states, in order: the actors a snapshot hands back. */
  method Restore(states: seq<ActorState>) returns (restored: seq<Actor>)
    ensures BoardOf(restored) == states
    ensures Distinct(restored)
    ensures forall m :: 0 <= m < |restored| ==> fresh(restored[m])
  {
    restored := [];
    var k := 0;
    while k < |states|
      invariant k <= |states|
      invariant |restored| == k
      invariant forall m :: 0 <= m < k ==> fresh(restored[m]) && restored[m].State() == states[m]
      invariant Distinct(restored)
    {
      var a := new Actor.Copy(states[k]);
      restored := restored + [a];
      k := k + 1;
    }
  }

  /**
   * Undo after a committed move gives back the board, the rules, the running
   * flag and the history from before the move, with a player of the same kind.
   */
  method MoveThenUndo(game: Game, keys: Keys) returns (ghost committed: bool)
    requires game.Valid()
    modifies game`actors, game`isBlocks, game`rules, game`running, game`player, game`history, game.actors
    ensures game.Valid()
    ensures committed ==> old(game.player) != null && game.player != null && game.player.kind == old(game.player.kind)
    ensures committed ==>
      && game.Board() == old(game.Board()) && game.rules == old(game.rules)
      && game.running == old(game.running) && game.history == old(game.history)
  {
    committed := game.KeyDown(keys, false);
    assert forall o: object :: o in game.actors ==> o in old(game.actors);
    ghost var undone := game.KeyDown(keys, true);
    if committed {
      ghost var k := FirstOfKind(game.Board(), old(game.player.kind)).value;
      assert game.Board()[k] == game.actors[k].State();
    }
  }

  /** The loop of `_undo` that collects the Is blocks of the restored list. */
  method IsBlocksOf(list: seq<Actor>) returns (blocks: seq<Actor>)
    ensures blocks == FilterIs(list)
  {
    blocks := [];
    var k := 0;
    while k < |list|
      invariant k <= |list|
      invariant blocks == FilterIs(list[..k])
    {
      assert list[..k + 1][..k] == list[..k];
      if list[k].kind == Is {
        blocks := blocks + [list[k]];
      }
      k := k + 1;
    }
    WholePrefix(list);
  }

  /**
   * The loop of `_undo` that takes the first actor of the old player's kind,
   * or null; `states` are the states of `list`, of which only the kinds matter.
   */
  method FirstOfKindIn(list: seq<Actor>, ghost states: seq<ActorState>, kind: Kind) returns (p: Actor?)
    requires |list| == |states|
    requires forall k :: 0 <= k < |list| ==> list[k].kind == states[k].kind
    ensures p == null <==> FirstOfKind(states, kind).None?
    ensures p != null ==> p == list[FirstOfKind(states, kind).value]
  {
    var k := 0;
    while k < |list|
      invariant k <= |list|
      invariant forall m :: 0 <= m < k ==> states[m].kind != kind
    {
      if list[k].kind == kind {
        return list[k];
      }
      k := k + 1;
    }
    return null;
  }

  lemma WholePrefix<T>(s: seq<T>)
    ensures s[..|s|] == s
  {
  }

  lemma {:induction false} FilterIsAppend(a: seq<Actor>, b: seq<Actor>)
    ensures FilterIs(a + b) == FilterIs(a) + FilterIs(b)
    decreases |b|
  {
    if b != [] {
      var c := a + b;
      assert c[..|c| - 1] == a + b[..|b| - 1];
      FilterIsAppend(a, b[..|b| - 1]);
    } else {
      assert a + b == a;
    }
  }

  /** Removing an actor that is not an Is block leaves the Is blocks as they were. */
  lemma FilterIsWithout(actors: seq<Actor>, i: nat)
    requires i < |actors| && actors[i].kind != Is
    ensures FilterIs(Without(actors, i)) == FilterIs(actors)
  {
    var pre, mid, post := actors[..i], [actors[i]], actors[i + 1..];
    assert FilterIs(mid) == [] by {
      assert mid[..0] == [];
    }
    FilterIsAppend(pre, mid);
    assert actors == (pre + mid) + post;
    FilterIsAppend(pre + mid, post);
    FilterIsAppend(pre, post);
    assert FilterIs(pre + mid) == FilterIs(pre);
    assert Without(actors, i) == pre + post;
  }

  lemma DistinctWithout(actors: seq<Actor>, i: nat)
    requires Distinct(actors) && i < |actors|
    ensures Distinct(Without(actors, i))
  {
    var r := Without(actors, i);
    forall m, n | 0 <= m < n < |r|
      ensures r[m] != r[n]
    {
      var m' := if m < i then m else m + 1;
      var n' := if n < i then n else n + 1;
      assert r[m] == actors[m'] && r[n] == actors[n'];
    }
  }

  lemma BoardOfWithout(actors: seq<Actor>, i: nat)
    requires i < |actors|
    ensures BoardOf(Without(actors, i)) == Without(BoardOf(actors), i)
  {
  }

  /** The Is blocks' cells on the board are the cells of `FilterIs`, in order. */
  lemma {:induction false} IsCellsOf(actors: seq<Actor>)
    ensures |IsCells(BoardOf(actors))| == |FilterIs(actors)|
    ensures forall k :: 0 <= k < |FilterIs(actors)| ==>
      IsCells(BoardOf(actors))[k] == (FilterIs(actors)[k].x, FilterIs(actors)[k].y)
    decreases |actors|
  {
    if actors != [] {
      var init := actors[..|actors| - 1];
      assert BoardOf(actors)[..|actors| - 1] == BoardOf(init);
      IsCellsOf(init);
    }
  }

  /** The kinds of the four actors `get_surround_ac` returns are what `Surround` reads. */
  lemma SurroundOf(board: seq<ActorState>, actors: seq<Actor>, x: int, y: int)
    requires board == BoardOf(actors)
    ensures Surround(board, x, y)
         == Around(KindOf(ActorAt(board, actors, x, y - 1)), KindOf(ActorAt(board, actors, x, y + 1)),
                   KindOf(ActorAt(board, actors, x - 1, y)), KindOf(ActorAt(board, actors, x + 1, y)))
  {
    ActorAtFirst(board, actors, x, y - 1);
    ActorAtFirst(board, actors, x, y + 1);
    ActorAtFirst(board, actors, x - 1, y);
    ActorAtFirst(board, actors, x + 1, y);
  }

  lemma EncounterIs(board: seq<ActorState>, x: int, y: int, i: nat)
    requires i < |board| && Decisive(board[i], x, y)
    requires forall k :: 0 <= k < i ==> !Decisive(board[k], x, y)
    ensures Encounter(board, x, y) == Some(i)
  {
  }

  lemma FirstAtIs(board: seq<ActorState>, x: int, y: int, i: nat)
    requires i < |board| && At(board[i], x, y)
    requires forall k :: 0 <= k < i ==> !At(board[k], x, y)
    ensures FirstAt(board, x, y) == Some(i)
  {
  }

  lemma FirstAtNone(board: seq<ActorState>, x: int, y: int)
    requires forall k :: 0 <= k < |board| ==> !At(board[k], x, y)
    ensures FirstAt(board, x, y) == None
  {
  }
}
