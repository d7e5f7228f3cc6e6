/**
 * The board as values: every actor's kind, cell and flags, the lookup of the
 * actor on a cell, and the specification of the recursive push performed by
 * `Actor.move`.
 */
module Board {
  import opened Wrappers
  import opened Words
  import opened Capability
  import opened Search

  /**
   * The class of an actor. Characters are Meepo, Wall, Rock and Flag; Bush is
   * the fixed edge; Subject, Attribute and Is are the word blocks.
   */
  datatype Kind = Character(noun: Noun) | Bush | Subject(word: Noun) | Attribute(prop: Property) | Is

  predicate IsBlock(k: Kind)
  {
    k.Subject? || k.Attribute? || k.Is?
  }

  /** One actor as a value: what `copy()` preserves. */
  datatype ActorState = ActorState(kind: Kind, x: int, y: int, flags: Flags)

  /** The flags each constructor gives. */
  function DefaultFlags(k: Kind): (f: Flags)
    ensures k.Character? ==> f == NoFlags
    ensures k == Bush ==> f.stop && !f.push
    ensures IsBlock(k) ==> f.stop && f.push
  {
    match k
    case Character(_) => NoFlags
    case Bush => BushFlags
    case _ => BlockFlags
  }

  /**
   * The flag invariant: Characters keep their setters' exclusions, Bushes and
   * word blocks never leave their constructor's flags (no setter reaches them).
   */
  predicate WellFlagged(a: ActorState)
  {
    if a.kind.Character? then Exclusive(a.flags) else a.flags == DefaultFlags(a.kind)
  }

  predicate BoardOk(board: seq<ActorState>)
  {
    forall k :: 0 <= k < |board| ==> WellFlagged(board[k])
  }

  predicate At(a: ActorState, x: int, y: int)
  {
    a.x == x && a.y == y
  }

  /** `Game.get_actor`: the first actor in list order on (x, y). */
  function FirstAt(board: seq<ActorState>, x: int, y: int): (r: Option<nat>)
    ensures r.Some? ==> r.value < |board| && At(board[r.value], x, y)
    ensures r.Some? ==> forall k :: 0 <= k < r.value ==> !At(board[k], x, y)
    ensures r.None? ==> forall k :: 0 <= k < |board| ==> !At(board[k], x, y)
  {
    FirstIndex(board, a => At(a, x, y))
  }

  /** The first actor in list order of the given kind: how `_undo` picks the player again. */
  function FirstOfKind(board: seq<ActorState>, kind: Kind): (r: Option<nat>)
    ensures r.Some? ==> r.value < |board| && board[r.value].kind == kind
    ensures r.Some? ==> forall k :: 0 <= k < r.value ==> board[k].kind != kind
    ensures r.None? ==> forall k :: 0 <= k < |board| ==> board[k].kind != kind
  {
    FirstIndex(board, (a: ActorState) => a.kind == kind)
  }

  /** The kind of the actor `get_actor` returns, which is all `Is.update` inspects. */
  function KindAt(board: seq<ActorState>, x: int, y: int): Option<Kind>
  {
    match FirstAt(board, x, y)
    case None => None
    case Some(k) => Some(board[k].kind)
  }

  // ---------------------------------------------------------------------
  // Keys and directions.

  /** The four arrow keys as `keys_pressed` reports them. */
  datatype Keys = Keys(left: bool, right: bool, up: bool, down: bool)

  /** A unit offset along exactly one axis. */
  predicate IsStep(dx: int, dy: int)
  {
    (dx == 0 && (dy == 1 || dy == -1)) || (dy == 0 && (dx == 1 || dx == -1))
  }

  /**
   * `Character.handle_key_press`: left, then right, then up, then down is
   * honoured; with no arrow key the offset is (0, 0).
   */
  function HandleKeyPress(k: Keys): (r: (int, int))
    ensures r == (0, 0) <==> !(k.left || k.right || k.up || k.down)
    ensures r != (0, 0) ==> IsStep(r.0, r.1)
    ensures r == (-1, 0) <==> k.left
    ensures r == (1, 0) <==> !k.left && k.right
    ensures r == (0, -1) <==> !k.left && !k.right && k.up
    ensures r == (0, 1) <==> !k.left && !k.right && !k.up && k.down
  {
    if k.left then (-1, 0)
    else if k.right then (1, 0)
    else if k.up then (0, -1)
    else if k.down then (0, 1)
    else (0, 0)
  }

  // ---------------------------------------------------------------------
  // The push chain of `Actor.move`.

  /** How far along the direction of travel an actor stands. */
  function Proj(a: ActorState, dx: int, dy: int): int
  {
    if dx == 1 then a.x else if dx == -1 then -a.x else if dy == 1 then a.y else -a.y
  }

  /** The number of actors strictly beyond `p` in the direction of travel. */
  function Ahead(board: seq<ActorState>, dx: int, dy: int, p: int): nat
  {
    if board == [] then 0
    else (if Proj(board[0], dx, dy) > p then 1 else 0) + Ahead(board[1..], dx, dy, p)
  }

  lemma {:induction false} AheadMonotone(board: seq<ActorState>, dx: int, dy: int, p: int)
    ensures Ahead(board, dx, dy, p + 1) <= Ahead(board, dx, dy, p)
  {
    if board != [] {
      AheadMonotone(board[1..], dx, dy, p);
    }
  }

  /** An actor one step further on loses at least one actor ahead of it. */
  lemma {:induction false} AheadShrinks(board: seq<ActorState>, dx: int, dy: int, p: int, j: nat)
    requires j < |board| && Proj(board[j], dx, dy) == p + 1
    ensures Ahead(board, dx, dy, p + 1) < Ahead(board, dx, dy, p)
  {
    if j == 0 {
      AheadMonotone(board[1..], dx, dy, p);
    } else {
      AheadShrinks(board[1..], dx, dy, p, j - 1);
    }
  }

  /** The first actor on the cell `board[i]` is about to enter. */
  function Front(board: seq<ActorState>, i: nat, dx: int, dy: int): Option<nat>
    requires i < |board|
  {
    FirstAt(board, board[i].x + dx, board[i].y + dy)
  }

  /** The cell ahead of an actor standing on (x, y). */
  lemma FrontOf(board: seq<ActorState>, i: nat, x: int, y: int, dx: int, dy: int)
    requires i < |board| && board[i].x == x && board[i].y == y
    ensures Front(board, i, dx, dy) == FirstAt(board, x + dx, y + dy)
  {
  }

  /** `c` lists actors from `board[i]` onward, one cell further each time. */
  predicate InLine(board: seq<ActorState>, i: nat, c: seq<nat>, dx: int, dy: int)
    requires i < |board|
  {
    && |c| >= 1 && c[0] == i
    && forall m :: 0 <= m < |c| ==> c[m] < |board| && Proj(board[c[m]], dx, dy) == Proj(board[i], dx, dy) + m
  }

  /**
   * The actors `Actor.move` shifts when `board[i]` moves by (dx, dy), or None
   * when the move is blocked. Only the first actor on the destination cell
   * counts: if it is push it is moved first (so a word block, push and stop
   * at once, is pushed); else if it is stop nothing moves; else the way is
   * free. There is no test against the board's edge.
   */
  function Chain(board: seq<ActorState>, i: nat, dx: int, dy: int): (c: Option<seq<nat>>)
    requires i < |board| && IsStep(dx, dy)
    ensures c.Some? ==> InLine(board, i, c.value, dx, dy)
    decreases Ahead(board, dx, dy, Proj(board[i], dx, dy))
  {
    match Front(board, i, dx, dy)
    case None => Some([i])
    case Some(j) =>
      if board[j].flags.push then
        AheadShrinks(board, dx, dy, Proj(board[i], dx, dy), j);
        match Chain(board, j, dx, dy)
        case None => None
        case Some(rest) => Some([i] + rest)
      else if board[j].flags.stop then None
      else Some([i])
  }

  /**
   * A pushable first actor in front: the move goes through exactly when that
   * actor's own move does, and then this actor steps on the board it left.
   */
  lemma MovePushed(board: seq<ActorState>, i: nat, pushed: seq<ActorState>, ok: bool, after: seq<ActorState>, dx: int, dy: int)
    requires i < |board| && IsStep(dx, dy)
    requires Front(board, i, dx, dy).Some? && board[Front(board, i, dx, dy).value].flags.push
    requires (ok, pushed) == MoveBoard(board, Front(board, i, dx, dy).value, dx, dy)
    requires ok ==> i < |pushed| && after == pushed[i := Moved(pushed[i], dx, dy)]
    requires !ok ==> after == pushed
    ensures (ok, after) == MoveBoard(board, i, dx, dy)
  {
    var j := Front(board, i, dx, dy).value;
    if ok {
      var rest := Chain(board, j, dx, dy).value;
      forall m | 0 <= m < |rest| ensures rest[m] != i {
        assert Proj(board[rest[m]], dx, dy) == Proj(board[j], dx, dy) + m;
      }
      assert Shift(board, [i] + rest, dx, dy) == Shift(board, rest, dx, dy)[i := Moved(board[i], dx, dy)];
    }
  }

  /** A first actor in front that is stop and not push blocks the move. */
  lemma MoveHalted(board: seq<ActorState>, i: nat, dx: int, dy: int)
    requires i < |board| && IsStep(dx, dy)
    requires Front(board, i, dx, dy).Some?
    requires !board[Front(board, i, dx, dy).value].flags.push && board[Front(board, i, dx, dy).value].flags.stop
    ensures MoveBoard(board, i, dx, dy) == (false, board)
  {
  }

  /** An empty cell in front, or a first actor with neither flag, lets the actor step alone. */
  lemma MoveFree(board: seq<ActorState>, i: nat, dx: int, dy: int)
    requires i < |board| && IsStep(dx, dy)
    requires Front(board, i, dx, dy).Some? ==>
      !board[Front(board, i, dx, dy).value].flags.push && !board[Front(board, i, dx, dy).value].flags.stop
    ensures MoveBoard(board, i, dx, dy) == (true, board[i := Moved(board[i], dx, dy)])
  {
    assert Shift(board, [i], dx, dy) == board[i := Moved(board[i], dx, dy)];
  }

  function Moved(a: ActorState, dx: int, dy: int): ActorState
  {
    a.(x := a.x + dx, y := a.y + dy)
  }

  /** Every actor listed in `c` moved by (dx, dy); all the others untouched. */
  function Shift(board: seq<ActorState>, c: seq<nat>, dx: int, dy: int): (r: seq<ActorState>)
    ensures |r| == |board|
  {
    seq(|board|, k requires 0 <= k < |board| => if k in c then Moved(board[k], dx, dy) else board[k])
  }

  /** The outcome of `board[i].move(dx, dy)`: whether it moved, and the new board. */
  function MoveBoard(board: seq<ActorState>, i: nat, dx: int, dy: int): (bool, seq<ActorState>)
    requires i < |board| && IsStep(dx, dy)
  {
    match Chain(board, i, dx, dy)
    case None => (false, board)
    case Some(c) => (true, Shift(board, c, dx, dy))
  }

  /** Moving never changes an actor's kind or flags, so it keeps the flag invariant. */
  lemma MoveKeepsFlags(board: seq<ActorState>, i: nat, dx: int, dy: int)
    requires i < |board| && IsStep(dx, dy) && BoardOk(board)
    ensures forall k :: 0 <= k < |board| ==>
      MoveBoard(board, i, dx, dy).1[k].kind == board[k].kind && MoveBoard(board, i, dx, dy).1[k].flags == board[k].flags
    ensures BoardOk(MoveBoard(board, i, dx, dy).1)
  {
  }

  /**
   * What the first actor on the destination decides: an empty cell or an
   * actor with neither push nor stop never blocks (whatever the coordinates:
   * there is no edge test); a word block is pushed, never treated as a wall;
   * a Bush always blocks.
   */
  lemma DestinationCases(board: seq<ActorState>, i: nat, dx: int, dy: int)
    requires i < |board| && IsStep(dx, dy) && BoardOk(board)
    ensures Front(board, i, dx, dy).None? ==> MoveBoard(board, i, dx, dy).0
    ensures Front(board, i, dx, dy).Some? ==>
      var e := board[Front(board, i, dx, dy).value];
      && (!e.flags.push && !e.flags.stop ==> MoveBoard(board, i, dx, dy).0)
      && (IsBlock(e.kind) ==> MoveBoard(board, i, dx, dy).0 == Chain(board, Front(board, i, dx, dy).value, dx, dy).Some?)
      && (e.kind == Bush ==> !MoveBoard(board, i, dx, dy).0)
  {
  }

  // ---------------------------------------------------------------------
  // The actor `win_or_lose` reacts to.

  /** A Character on (x, y) that carries win or lose. */
  predicate Decisive(a: ActorState, x: int, y: int)
  {
    a.kind.Character? && At(a, x, y) && (a.flags.win || a.flags.lose)
  }

  /**
   * The actor `win_or_lose` stops at: the first, in list order, Character on
   * (x, y) that is win or lose. Characters on the cell with neither flag are
   * passed over, and the player itself is one of the candidates.
   */
  function Encounter(board: seq<ActorState>, x: int, y: int): (r: Option<nat>)
    ensures r.Some? ==> r.value < |board| && Decisive(board[r.value], x, y)
    ensures r.Some? ==> forall k :: 0 <= k < r.value ==> !Decisive(board[k], x, y)
    ensures r.None? ==> forall k :: 0 <= k < |board| ==> !Decisive(board[k], x, y)
  {
    FirstIndex(board, a => Decisive(a, x, y))
  }

  /**
   * A turn that `_events` keeps on the undo stack: an arrow key was held, the
   * player at `i` moved, and nothing on its new cell decides the game.
   */
  predicate Commits(board: seq<ActorState>, i: nat, keys: Keys)
    requires i < |board|
  {
    var (dx, dy) := HandleKeyPress(keys);
    && (dx, dy) != (0, 0)
    && MoveBoard(board, i, dx, dy).0
    && var b := MoveBoard(board, i, dx, dy).1;
       Encounter(b, b[i].x, b[i].y).None?
  }

  // ---------------------------------------------------------------------
  // An independent description of the chain, and its equivalence with Chain.

  /** `j` finds `k`, pushable, first on the cell in front of it. */
  predicate Link(board: seq<ActorState>, j: nat, k: nat, dx: int, dy: int)
  {
    j < |board| && k < |board| && Front(board, j, dx, dy) == Some(k) && board[k].flags.push
  }

  /** Each actor of `c` but the last finds the next one, pushable, in front of it. */
  predicate Linked(board: seq<ActorState>, c: seq<nat>, dx: int, dy: int)
  {
    |c| <= 1 || (Link(board, c[0], c[1], dx, dy) && Linked(board, c[1..], dx, dy))
  }

  /** The last actor of a line has room: nothing in front, or something neither push nor stop. */
  predicate Room(board: seq<ActorState>, j: nat, dx: int, dy: int)
    requires j < |board|
  {
    var e := Front(board, j, dx, dy);
    e.None? || (!board[e.value].flags.push && !board[e.value].flags.stop)
  }

  /** The last actor of a line faces a stop that is not push. */
  predicate Blocked(board: seq<ActorState>, j: nat, dx: int, dy: int)
    requires j < |board|
  {
    var e := Front(board, j, dx, dy);
    e.Some? && !board[e.value].flags.push && board[e.value].flags.stop
  }

  /** A line of pushable actors from `i` whose last one has room. */
  predicate PushLine(board: seq<ActorState>, i: nat, c: seq<nat>, dx: int, dy: int)
  {
    && |c| >= 1 && c[0] == i && c[|c| - 1] < |board|
    && Linked(board, c, dx, dy)
    && Room(board, c[|c| - 1], dx, dy)
  }

  /** A line of pushable actors from `i` whose last one faces a stop. */
  predicate StuckLine(board: seq<ActorState>, i: nat, c: seq<nat>, dx: int, dy: int)
  {
    && |c| >= 1 && c[0] == i && c[|c| - 1] < |board|
    && Linked(board, c, dx, dy)
    && Blocked(board, c[|c| - 1], dx, dy)
  }

  /** What Chain returns is a push line from `i`. */
  lemma {:induction false} ChainGivesPushLine(board: seq<ActorState>, i: nat, dx: int, dy: int)
    requires i < |board| && IsStep(dx, dy)
    requires Chain(board, i, dx, dy).Some?
    ensures PushLine(board, i, Chain(board, i, dx, dy).value, dx, dy)
    decreases Ahead(board, dx, dy, Proj(board[i], dx, dy))
  {
    var f := Front(board, i, dx, dy);
    if f.Some? && board[f.value].flags.push {
      var j := f.value;
      AheadShrinks(board, dx, dy, Proj(board[i], dx, dy), j);
      ChainGivesPushLine(board, j, dx, dy);
      var rest := Chain(board, j, dx, dy).value;
      assert Chain(board, i, dx, dy) == Some([i] + rest);
      PushLineCons(board, i, rest, dx, dy);
    } else {
      assert Chain(board, i, dx, dy) == Some([i]);
      assert Room(board, i, dx, dy);
    }
  }

  lemma PushLineCons(board: seq<ActorState>, i: nat, rest: seq<nat>, dx: int, dy: int)
    requires |rest| >= 1 && Link(board, i, rest[0], dx, dy) && PushLine(board, rest[0], rest, dx, dy)
    ensures PushLine(board, i, [i] + rest, dx, dy)
  {
    LinkedCons(board, i, rest, dx, dy);
  }

  /** A link in front of a line makes a longer line with the same last actor. */
  lemma LinkedCons(board: seq<ActorState>, i: nat, rest: seq<nat>, dx: int, dy: int)
    requires |rest| >= 1 && Link(board, i, rest[0], dx, dy) && Linked(board, rest, dx, dy)
    ensures var c := [i] + rest; Linked(board, c, dx, dy) && c[0] == i && c[|c| - 1] == rest[|rest| - 1]
  {
    var c := [i] + rest;
    assert c[1..] == rest;
  }

  /** A push line from `i` is what Chain returns. */
  lemma {:induction false} PushLineGivesChain(board: seq<ActorState>, i: nat, c: seq<nat>, dx: int, dy: int)
    requires i < |board| && IsStep(dx, dy)
    requires PushLine(board, i, c, dx, dy)
    ensures Chain(board, i, dx, dy) == Some(c)
    decreases |c|
  {
    if |c| == 1 {
      assert c == [i];
    } else {
      var rest := c[1..];
      assert c == [i] + rest;
      var j := rest[0];
      assert Link(board, i, j, dx, dy);
      assert PushLine(board, j, rest, dx, dy);
      PushLineGivesChain(board, j, rest, dx, dy);
    }
  }

  /** Chain succeeds exactly with the push line that starts at `i`. */
  lemma ChainIsPushLine(board: seq<ActorState>, i: nat, c: seq<nat>, dx: int, dy: int)
    requires i < |board| && IsStep(dx, dy)
    ensures Chain(board, i, dx, dy) == Some(c) <==> PushLine(board, i, c, dx, dy)
  {
    if Chain(board, i, dx, dy) == Some(c) {
      ChainGivesPushLine(board, i, dx, dy);
    }
    if PushLine(board, i, c, dx, dy) {
      PushLineGivesChain(board, i, c, dx, dy);
    }
  }

  /** Chain is blocked exactly when a line of pushable actors from `i` faces a stop. */
  lemma ChainBlocked(board: seq<ActorState>, i: nat, dx: int, dy: int)
    requires i < |board| && IsStep(dx, dy)
    ensures Chain(board, i, dx, dy).None? <==> exists c :: StuckLine(board, i, c, dx, dy)
  {
    if Chain(board, i, dx, dy).None? {
      var c := BlockedChainIsStuck(board, i, dx, dy);
    }
    forall c | StuckLine(board, i, c, dx, dy) ensures Chain(board, i, dx, dy).None? {
      StuckBlocksChain(board, i, c, dx, dy);
    }
  }

  /** A blocked Chain comes with a line of pushable actors from `i` facing a stop. */
  lemma {:induction false} BlockedChainIsStuck(board: seq<ActorState>, i: nat, dx: int, dy: int) returns (c: seq<nat>)
    requires i < |board| && IsStep(dx, dy)
    requires Chain(board, i, dx, dy).None?
    ensures StuckLine(board, i, c, dx, dy)
    decreases Ahead(board, dx, dy, Proj(board[i], dx, dy))
  {
    var j := Front(board, i, dx, dy).value;
    if board[j].flags.push {
      AheadShrinks(board, dx, dy, Proj(board[i], dx, dy), j);
      var rest := BlockedChainIsStuck(board, j, dx, dy);
      LinkedCons(board, i, rest, dx, dy);
      c := [i] + rest;
    } else {
      c := [i];
    }
  }

  /** A line of pushable actors from `i` facing a stop blocks Chain. */
  lemma {:induction false} StuckBlocksChain(board: seq<ActorState>, i: nat, c: seq<nat>, dx: int, dy: int)
    requires i < |board| && IsStep(dx, dy)
    requires StuckLine(board, i, c, dx, dy)
    ensures Chain(board, i, dx, dy).None?
    decreases |c|
  {
    if |c| > 1 {
      var rest := c[1..];
      assert Link(board, i, rest[0], dx, dy);
      var j := rest[0];
      assert StuckLine(board, j, rest, dx, dy);
      StuckBlocksChain(board, j, rest, dx, dy);
    }
  }

  /**
   * The whole move or nothing: a blocked move leaves every actor where it
   * was, and is blocked exactly when a line of pushable actors from `i` faces
   * a stop; a move that goes through shifts exactly the actors of the push
   * line from `i` by (dx, dy) and leaves every other actor untouched.
   */
  lemma MoveOutcome(board: seq<ActorState>, i: nat, dx: int, dy: int)
    requires i < |board| && IsStep(dx, dy)
    ensures |MoveBoard(board, i, dx, dy).1| == |board|
    ensures !MoveBoard(board, i, dx, dy).0 <==> exists c :: StuckLine(board, i, c, dx, dy)
    ensures !MoveBoard(board, i, dx, dy).0 ==> MoveBoard(board, i, dx, dy).1 == board
    ensures MoveBoard(board, i, dx, dy).0 ==>
      exists c :: PushLine(board, i, c, dx, dy) &&
        forall k :: 0 <= k < |board| ==>
          MoveBoard(board, i, dx, dy).1[k] == if k in c then Moved(board[k], dx, dy) else board[k]
  {
    ChainBlocked(board, i, dx, dy);
    if MoveBoard(board, i, dx, dy).0 {
      var c := Chain(board, i, dx, dy).value;
      ChainGivesPushLine(board, i, dx, dy);
      assert PushLine(board, i, c, dx, dy);
    }
  }
}
