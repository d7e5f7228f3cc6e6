/**
 * Rule detection: what one Is block reads from its four neighbours, and the
 * list of rules `_update` collects from all Is blocks.
 */
module Scan {
  import opened Wrappers
  import opened Words
  import opened Capability
  import opened Board

  /**
   * What `Is.update` returns. `lit` is the number of detected rules, which
   * picks the block's colour (none, one or two slots lit).
   */
  datatype Reading = Reading(horizontal: string, vertical: string, lit: nat)

  /** The kinds of the actors `get_surround_ac` finds above, below, left and right of a cell. */
  datatype Around = Around(up: Option<Kind>, down: Option<Kind>, left: Option<Kind>, right: Option<Kind>)

  /** `get_surround_ac` on (x, y), seen through the kinds of the actors it returns. */
  function Surround(board: seq<ActorState>, x: int, y: int): Around
  {
    Around(KindAt(board, x, y - 1), KindAt(board, x, y + 1), KindAt(board, x - 1, y), KindAt(board, x + 1, y))
  }

  /** The text read from a Subject before the Is block to an Attribute after it, else "". */
  function ReadAcross(before: Option<Kind>, after: Option<Kind>): string
  {
    if before.Some? && before.value.Subject? && after.Some? && after.value.Attribute? then
      NounText(before.value.word) + Connective + PropertyText(after.value.prop)
    else ""
  }

  /**
   * `Is.update`: a vertical rule needs a Subject above and an Attribute below,
   * a horizontal one a Subject on the left and an Attribute on the right; the
   * reversed arrangement reads nothing.
   */
  function IsReading(n: Around): (r: Reading)
    ensures r.vertical != "" <==> n.up.Some? && n.up.value.Subject? && n.down.Some? && n.down.value.Attribute?
    ensures r.vertical != "" ==> r.vertical == Render(Rule(n.up.value.word, n.down.value.prop))
    ensures r.horizontal != "" <==> n.left.Some? && n.left.value.Subject? && n.right.Some? && n.right.value.Attribute?
    ensures r.horizontal != "" ==> r.horizontal == Render(Rule(n.left.value.word, n.right.value.prop))
    ensures r.lit == (if r.horizontal != "" then 1 else 0) + (if r.vertical != "" then 1 else 0)
  {
    var vertical := ReadAcross(n.up, n.down);
    var horizontal := ReadAcross(n.left, n.right);
    var lit := if horizontal == "" && vertical == "" then 0
               else if horizontal == "" || vertical == "" then 1
               else 2;
    Reading(horizontal, vertical, lit)
  }

  /** The cells of the Is blocks, in list order. */
  function IsCells(board: seq<ActorState>): (cells: seq<(int, int)>)
    ensures |cells| <= |board|
  {
    if board == [] then []
    else
      var last := board[|board| - 1];
      IsCells(board[..|board| - 1]) + (if last.kind == Is then [(last.x, last.y)] else [])
  }

  /** Append a rule text unless it is empty or already listed. */
  function AddNew(acc: seq<string>, text: string): seq<string>
  {
    if text != "" && text !in acc then acc + [text] else acc
  }

  /** The list `_update` builds, one Is block after another, horizontal before vertical. */
  function Collect(board: seq<ActorState>, cells: seq<(int, int)>): seq<string>
  {
    if cells == [] then []
    else
      var c := cells[|cells| - 1];
      var r := IsReading(Surround(board, c.0, c.1));
      AddNew(AddNew(Collect(board, cells[..|cells| - 1]), r.horizontal), r.vertical)
  }

  /** One more Is block: its horizontal, then its vertical reading, each added once. */
  lemma CollectStep(board: seq<ActorState>, cells: seq<(int, int)>, k: nat)
    requires k < |cells|
    ensures var r := IsReading(Surround(board, cells[k].0, cells[k].1));
      Collect(board, cells[..k + 1]) == AddNew(AddNew(Collect(board, cells[..k]), r.horizontal), r.vertical)
  {
    assert cells[..k + 1][..k] == cells[..k];
  }

  /** The rules active on `board`. */
  function ScanRules(board: seq<ActorState>): seq<string>
  {
    Collect(board, IsCells(board))
  }

  // ---------------------------------------------------------------------
  // Properties of the collected list.

  predicate NoDup(s: seq<string>)
  {
    forall i, j :: 0 <= i < j < |s| ==> s[i] != s[j]
  }

  /** A rule text read on cell `c`. */
  predicate ReadOn(board: seq<ActorState>, c: (int, int), text: string)
  {
    ReadsOn(Surround(board, c.0, c.1), text)
  }

  /** Every text in the list is listed once. */
  lemma {:induction false} CollectNoDup(board: seq<ActorState>, cells: seq<(int, int)>)
    ensures NoDup(Collect(board, cells))
  {
    if cells != [] {
      var init := cells[..|cells| - 1];
      var c := cells[|cells| - 1];
      var r := IsReading(Surround(board, c.0, c.1));
      CollectNoDup(board, init);
      AddNewNoDup(Collect(board, init), r.horizontal);
      AddNewNoDup(AddNew(Collect(board, init), r.horizontal), r.vertical);
    }
  }

  lemma AddNewNoDup(acc: seq<string>, text: string)
    requires NoDup(acc)
    ensures NoDup(AddNew(acc, text))
  {
  }

  /** The list holds exactly the non-empty texts read on the cells. */
  lemma {:induction false} CollectMembers(board: seq<ActorState>, cells: seq<(int, int)>, t: string)
    ensures t in Collect(board, cells) <==> exists k :: 0 <= k < |cells| && ReadOn(board, cells[k], t)
  {
    if cells != [] {
      var init := cells[..|cells| - 1];
      CollectMembers(board, init, t);
      var c := cells[|cells| - 1];
      var r := IsReading(Surround(board, c.0, c.1));
      AddNewMembers(Collect(board, init), r, t);
      if t in Collect(board, init) {
        var k :| 0 <= k < |init| && ReadOn(board, init[k], t);
        assert cells[k] == init[k];
      } else if ReadOn(board, c, t) {
        assert ReadOn(board, cells[|cells| - 1], t);
      } else {
        forall k | 0 <= k < |cells|
          ensures !ReadOn(board, cells[k], t)
        {
          if k < |init| {
            assert init[k] == cells[k];
          } else {
            assert cells[k] == c;
          }
        }
      }
    }
  }

  lemma AddNewMembers(acc: seq<string>, r: Reading, t: string)
    ensures t in AddNew(AddNew(acc, r.horizontal), r.vertical) <==>
      t in acc || (t != "" && (t == r.horizontal || t == r.vertical))
  {
  }

  /** Earlier Is blocks' rules keep their places: the list only grows at the end. */
  lemma {:induction false} CollectPrefix(board: seq<ActorState>, cells: seq<(int, int)>, n: nat)
    requires n <= |cells|
    ensures Collect(board, cells[..n]) <= Collect(board, cells)
    decreases |cells| - n
  {
    if n < |cells| {
      var init := cells[..|cells| - 1];
      assert init[..n] == cells[..n];
      CollectPrefix(board, init, n);
    } else {
      assert cells[..n] == cells;
    }
  }

  /**
   * A rule is active exactly when some Is block has its Subject directly
   * left of it and its Attribute directly right, or its Subject directly
   * above and its Attribute directly below.
   */
  lemma {:induction false} Detected(board: seq<ActorState>, r: Rule)
    ensures Render(r) in ScanRules(board) <==>
      exists k :: 0 <= k < |IsCells(board)| && Spells(board, IsCells(board)[k], r)
  {
    var cells := IsCells(board);
    CollectMembers(board, cells, Render(r));
    forall k | 0 <= k < |cells|
      ensures ReadOn(board, cells[k], Render(r)) <==> Spells(board, cells[k], r)
    {
      ReadOnSpells(board, cells[k], r);
    }
  }

  lemma {:induction false} ReadOnSpells(board: seq<ActorState>, c: (int, int), r: Rule)
    ensures ReadOn(board, c, Render(r)) <==> Spells(board, c, r)
  {
    ReadingRule(Surround(board, c.0, c.1), r);
  }

  /** A text is one of the two an Is block with these neighbours reads. */
  predicate ReadsOn(n: Around, text: string)
  {
    var rd := IsReading(n);
    text != "" && (text == rd.horizontal || text == rd.vertical)
  }

  /** An Is block reads rule `r` exactly when its neighbours spell it across or down. */
  lemma ReadingRule(n: Around, r: Rule)
    ensures ReadsOn(n, Render(r)) <==> SpellsWith(n, r)
  {
    RenderParse(r);
    ReadsRule(n.left, n.right, r);
    ReadsRule(n.up, n.down, r);
  }

  /** Two neighbours read rule `r` exactly when they are its Subject and its Attribute. */
  lemma ReadsRule(before: Option<Kind>, after: Option<Kind>, r: Rule)
    ensures ReadAcross(before, after) == Render(r) <==> before == Some(Subject(r.subject)) && after == Some(Attribute(r.attribute))
  {
    if ReadAcross(before, after) != "" {
      RenderInjective(r, Rule(before.value.word, after.value.prop));
    }
  }

  /** Every collected text is a rendered rule, so the applicator can read it back. */
  lemma ScanParses(board: seq<ActorState>, t: string)
    requires t in ScanRules(board)
    ensures exists r :: Render(r) == t && ParseRule(t) == Some(r)
  {
    var cells := IsCells(board);
    CollectMembers(board, cells, t);
    var k :| 0 <= k < |cells| && ReadOn(board, cells[k], t);
    var c := cells[k];
    var r := ReadsOnRendered(Surround(board, c.0, c.1), t);
    RenderParse(r);
  }

  lemma ReadsOnRendered(n: Around, t: string) returns (r: Rule)
    requires ReadsOn(n, t)
    ensures Render(r) == t
  {
    var rd := IsReading(n);
    if t == rd.horizontal {
      r := Rule(n.left.value.word, n.right.value.prop);
    } else {
      r := Rule(n.up.value.word, n.down.value.prop);
    }
  }

  /** Rule `r` is spelled through the Is block on `c`, across or down. */
  predicate Spells(board: seq<ActorState>, c: (int, int), r: Rule)
  {
    SpellsWith(Surround(board, c.0, c.1), r)
  }

  /** Subject on the left and Attribute on the right, or Subject above and Attribute below. */
  predicate SpellsWith(n: Around, r: Rule)
  {
    || (n.left == Some(Subject(r.subject)) && n.right == Some(Attribute(r.attribute)))
    || (n.up == Some(Subject(r.subject)) && n.down == Some(Attribute(r.attribute)))
  }

  // ---------------------------------------------------------------------
  // The scan looks only at kinds and cells.

  /** Same actors, same kinds, same cells; flags may differ. */
  predicate SameLayout(b1: seq<ActorState>, b2: seq<ActorState>)
  {
    |b1| == |b2| && forall k :: 0 <= k < |b1| ==> b1[k].kind == b2[k].kind && b1[k].x == b2[k].x && b1[k].y == b2[k].y
  }

  lemma SurroundLayout(b1: seq<ActorState>, b2: seq<ActorState>, x: int, y: int)
    requires SameLayout(b1, b2)
    ensures Surround(b1, x, y) == Surround(b2, x, y)
  {
    FirstAtLayout(b1, b2, x, y - 1);
    FirstAtLayout(b1, b2, x, y + 1);
    FirstAtLayout(b1, b2, x - 1, y);
    FirstAtLayout(b1, b2, x + 1, y);
  }

  lemma FirstAtLayout(b1: seq<ActorState>, b2: seq<ActorState>, x: int, y: int)
    requires SameLayout(b1, b2)
    ensures FirstAt(b1, x, y) == FirstAt(b2, x, y)
  {
    Search.FirstIndexAgree(b1, a => At(a, x, y), b2, a => At(a, x, y));
  }

  lemma {:induction false} IsCellsLayout(b1: seq<ActorState>, b2: seq<ActorState>)
    requires SameLayout(b1, b2)
    ensures IsCells(b1) == IsCells(b2)
  {
    if b1 != [] {
      IsCellsLayout(b1[..|b1| - 1], b2[..|b2| - 1]);
    }
  }

  lemma {:induction false} CollectLayout(b1: seq<ActorState>, b2: seq<ActorState>, cells: seq<(int, int)>)
    requires SameLayout(b1, b2)
    ensures Collect(b1, cells) == Collect(b2, cells)
  {
    if cells != [] {
      var c := cells[|cells| - 1];
      SurroundLayout(b1, b2, c.0, c.1);
      CollectLayout(b1, b2, cells[..|cells| - 1]);
    }
  }

  /** Two boards with the same layout have the same rules. */
  lemma ScanLayout(b1: seq<ActorState>, b2: seq<ActorState>)
    requires SameLayout(b1, b2)
    ensures ScanRules(b1) == ScanRules(b2)
  {
    IsCellsLayout(b1, b2);
    CollectLayout(b1, b2, IsCells(b1));
  }

  // ---------------------------------------------------------------------
  // A concrete board.

  /** Reading left to right makes a rule; the mirrored row makes none. */
  lemma ReadsLeftToRightOnly()
    ensures ScanRules([ActorState(Subject(Wall), 2, 1, BlockFlags), ActorState(Is, 3, 1, BlockFlags),
                       ActorState(Attribute(Stop), 4, 1, BlockFlags)]) == ["Wall isStop"]
    ensures ScanRules([ActorState(Attribute(Stop), 2, 1, BlockFlags), ActorState(Is, 3, 1, BlockFlags),
                       ActorState(Subject(Wall), 4, 1, BlockFlags)]) == []
  {
    var b := [ActorState(Subject(Wall), 2, 1, BlockFlags), ActorState(Is, 3, 1, BlockFlags),
              ActorState(Attribute(Stop), 4, 1, BlockFlags)];
    assert IsCells(b) == [(3, 1)] by {
      assert b[..2][..1] == [b[0]];
      assert [b[0]][..0] == [];
      assert IsCells([b[0]]) == [];
      assert IsCells(b[..2]) == [(3, 1)];
    }
    assert KindAt(b, 2, 1) == Some(Subject(Wall));
    assert KindAt(b, 4, 1) == Some(Attribute(Stop));
    assert KindAt(b, 3, 0) == None && KindAt(b, 3, 2) == None;
    assert IsReading(Surround(b, 3, 1)) == Reading("Wall isStop", "", 1);
    assert Collect(b, [(3, 1)][..0]) == [];
    var m := [ActorState(Attribute(Stop), 2, 1, BlockFlags), ActorState(Is, 3, 1, BlockFlags),
              ActorState(Subject(Wall), 4, 1, BlockFlags)];
    assert IsCells(m) == [(3, 1)] by {
      assert m[..2][..1] == [m[0]];
      assert [m[0]][..0] == [];
      assert IsCells([m[0]]) == [];
      assert IsCells(m[..2]) == [(3, 1)];
    }
    assert KindAt(m, 2, 1) == Some(Attribute(Stop));
    assert KindAt(m, 3, 0) == None && KindAt(m, 3, 2) == None;
    assert IsReading(Surround(m, 3, 1)) == Reading("", "", 0);
    assert Collect(m, [(3, 1)][..0]) == [];
  }
}
