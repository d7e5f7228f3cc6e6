/**
 * Applying and retracting rules, on values: a World is the list of actor
 * states plus the index of the actor `game.player` refers to.
 */
module Apply {
  import opened Wrappers
  import opened Words
  import opened Capability
  import opened Board
  import opened Search
  import opened Scan

  datatype World = World(board: seq<ActorState>, player: Option<nat>)

  /** `isinstance(ac, get_character(subject))`. */
  predicate Matches(a: ActorState, n: Noun)
  {
    a.kind == Character(n)
  }

  /** `player` is None or the index of a Character. */
  predicate PlayerOk(w: World)
  {
    w.player.Some? ==> w.player.value < |w.board| && w.board[w.player.value].kind.Character?
  }

  /** The last actor of kind `n` in list order, or None. */
  function LastOf(board: seq<ActorState>, n: Noun): (r: Option<nat>)
    ensures r.Some? ==> r.value < |board| && Matches(board[r.value], n)
    ensures r.Some? ==> forall k :: r.value < k < |board| ==> !Matches(board[k], n)
    ensures r.None? ==> forall k :: 0 <= k < |board| ==> !Matches(board[k], n)
  {
    LastIndex(board, a => Matches(a, n))
  }

  /** Extending the scanned prefix by one actor: a match there becomes the last one. */
  lemma LastOfExtend(board: seq<ActorState>, k: nat, n: Noun)
    requires k < |board|
    ensures LastOf(board[..k + 1], n) == if Matches(board[k], n) then Some(k) else LastOf(board[..k], n)
  {
    var l := LastOf(board[..k + 1], n);
    if !Matches(board[k], n) {
      var l' := LastOf(board[..k], n);
      if l.Some? {
        assert board[..k + 1][l.value] == board[..k][l.value];
      }
      if l'.Some? {
        assert board[..k + 1][l'.value] == board[..k][l'.value];
      }
    }
  }

  /** An actor of kind `n` that carries the player flag. */
  predicate PlayerMatch(a: ActorState, n: Noun)
  {
    Matches(a, n) && a.flags.player
  }

  /** Some actor of kind `n` carries the player flag: the first such one, if any. */
  predicate HasPlayer(board: seq<ActorState>, n: Noun)
  {
    FirstIndex(board, a => PlayerMatch(a, n)).Some?
  }

  /** `HasPlayer` is the existence of a matching player. */
  lemma HasPlayerExists(board: seq<ActorState>, n: Noun)
    ensures HasPlayer(board, n) <==> exists k :: 0 <= k < |board| && PlayerMatch(board[k], n)
  {
    var f := FirstIndex(board, a => PlayerMatch(a, n));
    if f.Some? {
      assert PlayerMatch(board[f.value], n);
    }
  }

  /** Extending the scanned prefix by one actor. */
  lemma HasPlayerExtend(board: seq<ActorState>, k: nat, n: Noun)
    requires k < |board|
    ensures HasPlayer(board[..k + 1], n) <==> HasPlayer(board[..k], n) || PlayerMatch(board[k], n)
  {
    HasPlayerExists(board[..k + 1], n);
    HasPlayerExists(board[..k], n);
    if HasPlayer(board[..k + 1], n) && !PlayerMatch(board[k], n) {
      var j :| 0 <= j < k + 1 && PlayerMatch(board[..k + 1][j], n);
      assert board[..k][j] == board[j];
    }
    if HasPlayer(board[..k], n) {
      var j :| 0 <= j < k && PlayerMatch(board[..k][j], n);
      assert board[..k + 1][j] == board[j];
    }
    if PlayerMatch(board[k], n) {
      assert board[..k + 1][k] == board[k];
    }
  }

  /** The last actor of kind `n` among the first `k`: the player after `k` passes of the "isYou" loop. */
  function LastBelow(board: seq<ActorState>, n: Noun, k: nat): (l: Option<nat>)
    requires k <= |board|
    ensures l.Some? ==> l.value < k && Matches(board[l.value], n)
  {
    if k == 0 then None
    else if Matches(board[k - 1], n) then Some(k - 1)
    else LastBelow(board, n, k - 1)
  }

  /** Whether a player of kind `n` is among the first `k` actors. */
  predicate HasPlayerBelow(board: seq<ActorState>, n: Noun, k: nat)
    requires k <= |board|
  {
    k > 0 && (PlayerMatch(board[k - 1], n) || HasPlayerBelow(board, n, k - 1))
  }

  /** `LastBelow` is `LastOf` on the first `k` actors. */
  lemma {:induction false} LastBelowIs(board: seq<ActorState>, n: Noun, k: nat)
    requires k <= |board|
    ensures LastBelow(board, n, k) == LastOf(board[..k], n)
  {
    if k > 0 {
      LastBelowIs(board, n, k - 1);
      LastOfExtend(board, k - 1, n);
    }
  }

  /** `HasPlayerBelow` is `HasPlayer` on the first `k` actors. */
  lemma {:induction false} HasPlayerBelowIs(board: seq<ActorState>, n: Noun, k: nat)
    requires k <= |board|
    ensures HasPlayerBelow(board, n, k) == HasPlayer(board[..k], n)
  {
    if k > 0 {
      HasPlayerBelowIs(board, n, k - 1);
      HasPlayerExtend(board, k - 1, n);
    } else {
      HasPlayerExists(board[..k], n);
    }
  }

  /** After a pass over every actor: the last match and the player test of the whole list. */
  lemma BelowAll(board: seq<ActorState>, n: Noun)
    ensures LastBelow(board, n, |board|) == LastOf(board, n)
    ensures HasPlayerBelow(board, n, |board|) == HasPlayer(board, n)
  {
    LastBelowIs(board, n, |board|);
    HasPlayerBelowIs(board, n, |board|);
    assert board[..|board|] == board;
  }

  /** The rule's flag set on every actor of the subject's kind. */
  function Grant(board: seq<ActorState>, r: Rule): seq<ActorState>
  {
    seq(|board|, k requires 0 <= k < |board| =>
      if Matches(board[k], r.subject) then board[k].(flags := Set(board[k].flags, r.attribute)) else board[k])
  }

  /** The rule's flag cleared on every actor of the subject's kind. */
  function Revoke(board: seq<ActorState>, r: Rule): seq<ActorState>
  {
    seq(|board|, k requires 0 <= k < |board| =>
      if Matches(board[k], r.subject) then board[k].(flags := Unset(board[k].flags, r.attribute)) else board[k])
  }

  /** The state after the first `k` passes of the granting loop: those actors granted, the rest as they were. */
  function GrantedBelow(board: seq<ActorState>, r: Rule, k: nat): seq<ActorState>
  {
    seq(|board|, i requires 0 <= i < |board| => if i < k then Grant(board, r)[i] else board[i])
  }

  /** The state after the first `k` passes of the revoking loop. */
  function RevokedBelow(board: seq<ActorState>, r: Rule, k: nat): seq<ActorState>
  {
    seq(|board|, i requires 0 <= i < |board| => if i < k then Revoke(board, r)[i] else board[i])
  }

  /** One more pass of the granting loop grants to actor `k`, which was untouched so far. */
  lemma GrantedStep(board: seq<ActorState>, r: Rule, k: nat)
    requires k < |board|
    ensures GrantedBelow(board, r, k)[k] == board[k]
    ensures GrantedBelow(board, r, k)[k := Grant(board, r)[k]] == GrantedBelow(board, r, k + 1)
  {
  }

  /** One more pass of the revoking loop revokes from actor `k`, which was untouched so far. */
  lemma RevokedStep(board: seq<ActorState>, r: Rule, k: nat)
    requires k < |board|
    ensures RevokedBelow(board, r, k)[k] == board[k]
    ensures RevokedBelow(board, r, k)[k := Revoke(board, r)[k]] == RevokedBelow(board, r, k + 1)
  {
  }

  /** Before the first pass the board is as it was. */
  lemma BelowNone(board: seq<ActorState>, r: Rule)
    ensures GrantedBelow(board, r, 0) == board && RevokedBelow(board, r, 0) == board
  {
  }

  /** After a pass over every actor the board is `Grant`'s, or `Revoke`'s. */
  lemma GrantedAll(board: seq<ActorState>, r: Rule)
    ensures GrantedBelow(board, r, |board|) == Grant(board, r)
  {
  }

  lemma RevokedAll(board: seq<ActorState>, r: Rule)
    ensures RevokedBelow(board, r, |board|) == Revoke(board, r)
  {
  }

  /** `apply_additional_rule`: a text that does not parse changes nothing. */
  function AddRule(w: World, text: string): World
  {
    match ParseRule(text)
    case None => w
    case Some(r) => Adopt(w, r)
  }

  /** A parsed rule taking effect: for You the player becomes the last match, if there is one. */
  function Adopt(w: World, r: Rule): World
  {
    var player :=
      if r.attribute != You then w.player
      else match LastOf(w.board, r.subject)
           case None => w.player
           case Some(k) => Some(k);
    World(Grant(w.board, r), player)
  }

  /** `apply_removal_rule`: a text that does not parse changes nothing. */
  function RemoveRule(w: World, text: string): World
  {
    match ParseRule(text)
    case None => w
    case Some(r) => Retract(w, r)
  }

  /** A parsed rule losing effect: for You the player is dropped when a match was a player. */
  function Retract(w: World, r: Rule): World
  {
    var dropped := r.attribute == You && HasPlayer(w.board, r.subject);
    World(Revoke(w.board, r), if dropped then None else w.player)
  }

  /** The texts of `s` not in `t`, in the order of `s`. */
  function Missing(s: seq<string>, t: seq<string>): (m: seq<string>)
    ensures forall x :: x in m <==> x in s && x !in t
  {
    if s == [] then []
    else Missing(s[..|s| - 1], t) + (if s[|s| - 1] in t then [] else [s[|s| - 1]])
  }

  /** Apply the removal of each text, in order. */
  function RemoveAll(w: World, texts: seq<string>): World
  {
    if texts == [] then w else RemoveRule(RemoveAll(w, texts[..|texts| - 1]), texts[|texts| - 1])
  }

  /** Apply the addition of each text, in order. */
  function AddAll(w: World, texts: seq<string>): World
  {
    if texts == [] then w else AddRule(AddAll(w, texts[..|texts| - 1]), texts[|texts| - 1])
  }

  /** One more text of `s` looked at. */
  lemma MissingExtend(s: seq<string>, t: seq<string>, k: nat)
    requires k < |s|
    ensures s[k] in t ==> Missing(s[..k + 1], t) == Missing(s[..k], t)
    ensures s[k] !in t ==> Missing(s[..k + 1], t) == Missing(s[..k], t) + [s[k]]
  {
    assert s[..k + 1][..k] == s[..k];
    assert Missing(s[..k], t) + [] == Missing(s[..k], t);
  }

  lemma RemoveAllSnoc(w: World, texts: seq<string>, t: string)
    ensures RemoveAll(w, texts + [t]) == RemoveRule(RemoveAll(w, texts), t)
  {
    assert (texts + [t])[..|texts|] == texts;
  }

  lemma AddAllSnoc(w: World, texts: seq<string>, t: string)
    ensures AddAll(w, texts + [t]) == AddRule(AddAll(w, texts), t)
  {
    assert (texts + [t])[..|texts|] == texts;
  }

  /**
   * The flag and player changes of `_update` going from the rule list
   * `before` to `after`: every retraction before any addition, and rules in
   * both lists untouched.
   */
  function Rediff(w: World, before: seq<string>, after: seq<string>): World
  {
    AddAll(RemoveAll(w, Missing(before, after)), Missing(after, before))
  }

  // ---------------------------------------------------------------------
  // What one rule changes.

  /** Only the flags of the subject's Characters change, and they gain the attribute. */
  lemma AddRuleEffect(w: World, r: Rule)
    ensures var w' := AddRule(w, Render(r));
      && |w'.board| == |w.board|
      && (forall k :: 0 <= k < |w.board| && !Matches(w.board[k], r.subject) ==> w'.board[k] == w.board[k])
      && (forall k :: 0 <= k < |w.board| && Matches(w.board[k], r.subject) ==>
            w'.board[k] == w.board[k].(flags := w'.board[k].flags) && Has(w'.board[k].flags, r.attribute))
  {
    RenderParse(r);
  }

  /** Only the flags of the subject's Characters change, and they lose the attribute. */
  lemma RemoveRuleEffect(w: World, r: Rule)
    ensures var w' := RemoveRule(w, Render(r));
      && |w'.board| == |w.board|
      && (forall k :: 0 <= k < |w.board| && !Matches(w.board[k], r.subject) ==> w'.board[k] == w.board[k])
      && (forall k :: 0 <= k < |w.board| && Matches(w.board[k], r.subject) ==>
            w'.board[k] == w.board[k].(flags := w'.board[k].flags) && !Has(w'.board[k].flags, r.attribute))
  {
    RenderParse(r);
  }

  /**
   * "X isYou" makes `player` the last actor of kind X, which now carries the
   * player flag; with no actor of kind X the player is kept.
   */
  lemma AddYouPicksLast(w: World, n: Noun)
    ensures var w' := AddRule(w, Render(Rule(n, You)));
      && ((exists k :: 0 <= k < |w.board| && Matches(w.board[k], n)) ==>
            && w'.player.Some? && w'.player.value < |w.board|
            && Matches(w.board[w'.player.value], n)
            && w'.board[w'.player.value].flags.player
            && forall k :: w'.player.value < k < |w.board| ==> !Matches(w.board[k], n))
      && ((forall k :: 0 <= k < |w.board| ==> !Matches(w.board[k], n)) ==> w'.player == w.player)
  {
    RenderParse(Rule(n, You));
  }

  /** Retracting "X isYou" drops the player exactly when an actor of kind X was a player. */
  lemma RemoveYouDropsPlayer(w: World, n: Noun)
    ensures var w' := RemoveRule(w, Render(Rule(n, You)));
      w'.player == (if exists k :: 0 <= k < |w.board| && Matches(w.board[k], n) && w.board[k].flags.player
                    then None else w.player)
  {
    RenderParse(Rule(n, You));
    HasPlayerExists(w.board, n);
  }

  /**
   * Adding a rule and retracting it again restores every actor, provided no
   * actor of the subject's kind had a flag of the attribute's group.
   */
  lemma AddThenRemove(w: World, r: Rule)
    requires forall k, q :: 0 <= k < |w.board| && Matches(w.board[k], r.subject) && SameGroup(r.attribute, q) ==>
      !Has(w.board[k].flags, q)
    ensures RemoveRule(AddRule(w, Render(r)), Render(r)).board == w.board
  {
    RenderParse(r);
    var b := RemoveRule(AddRule(w, Render(r)), Render(r)).board;
    forall k | 0 <= k < |w.board|
      ensures b[k] == w.board[k]
    {
      if Matches(w.board[k], r.subject) {
        UnsetAfterSet(w.board[k].flags, r.attribute);
      }
    }
  }

  // ---------------------------------------------------------------------
  // Invariants the rule changes keep.

  /** Same kinds and cells, in the same order. */
  lemma AddRuleLayout(w: World, t: string)
    ensures SameLayout(w.board, AddRule(w, t).board)
  {
  }

  lemma RemoveRuleLayout(w: World, t: string)
    ensures SameLayout(w.board, RemoveRule(w, t).board)
  {
  }

  lemma SameLayoutTrans(a: seq<ActorState>, b: seq<ActorState>, c: seq<ActorState>)
    requires SameLayout(a, b) && SameLayout(b, c)
    ensures SameLayout(a, c)
  {
  }

  /** Rule changes never move, add, remove or reorder actors. */
  lemma {:induction false} RediffLayout(w: World, before: seq<string>, after: seq<string>)
    ensures SameLayout(w.board, Rediff(w, before, after).board)
  {
    RemoveAllLayout(w, Missing(before, after));
    AddAllLayout(RemoveAll(w, Missing(before, after)), Missing(after, before));
    SameLayoutTrans(w.board, RemoveAll(w, Missing(before, after)).board, Rediff(w, before, after).board);
  }

  lemma {:induction false} RemoveAllLayout(w: World, texts: seq<string>)
    ensures SameLayout(w.board, RemoveAll(w, texts).board)
  {
    if texts != [] {
      var init := texts[..|texts| - 1];
      RemoveAllLayout(w, init);
      RemoveRuleLayout(RemoveAll(w, init), texts[|texts| - 1]);
      SameLayoutTrans(w.board, RemoveAll(w, init).board, RemoveAll(w, texts).board);
    }
  }

  lemma {:induction false} AddAllLayout(w: World, texts: seq<string>)
    ensures SameLayout(w.board, AddAll(w, texts).board)
  {
    if texts != [] {
      var init := texts[..|texts| - 1];
      AddAllLayout(w, init);
      AddRuleLayout(AddAll(w, init), texts[|texts| - 1]);
      SameLayoutTrans(w.board, AddAll(w, init).board, AddAll(w, texts).board);
    }
  }

  /** Rule changes keep every Character's flags exclusive and every other actor's flags fixed. */
  lemma AdoptOk(w: World, r: Rule)
    requires BoardOk(w.board) && PlayerOk(w)
    ensures BoardOk(Adopt(w, r).board) && PlayerOk(Adopt(w, r))
  {
    forall k | 0 <= k < |w.board| && Matches(w.board[k], r.subject) {
      SetKeepsExclusive(w.board[k].flags, r.attribute);
    }
  }

  lemma RetractOk(w: World, r: Rule)
    requires BoardOk(w.board) && PlayerOk(w)
    ensures BoardOk(Retract(w, r).board) && PlayerOk(Retract(w, r))
  {
    forall k | 0 <= k < |w.board| && Matches(w.board[k], r.subject) {
      UnsetKeepsExclusive(w.board[k].flags, r.attribute);
    }
  }

  lemma AddRuleOk(w: World, t: string)
    requires BoardOk(w.board) && PlayerOk(w)
    ensures BoardOk(AddRule(w, t).board) && PlayerOk(AddRule(w, t))
  {
    if ParseRule(t).Some? {
      AdoptOk(w, ParseRule(t).value);
    }
  }

  lemma RemoveRuleOk(w: World, t: string)
    requires BoardOk(w.board) && PlayerOk(w)
    ensures BoardOk(RemoveRule(w, t).board) && PlayerOk(RemoveRule(w, t))
  {
    if ParseRule(t).Some? {
      RetractOk(w, ParseRule(t).value);
    }
  }

  lemma {:induction false} RediffOk(w: World, before: seq<string>, after: seq<string>)
    requires BoardOk(w.board) && PlayerOk(w)
    ensures BoardOk(Rediff(w, before, after).board) && PlayerOk(Rediff(w, before, after))
  {
    RemoveAllOk(w, Missing(before, after));
    AddAllOk(RemoveAll(w, Missing(before, after)), Missing(after, before));
  }

  lemma {:induction false} RemoveAllOk(w: World, texts: seq<string>)
    requires BoardOk(w.board) && PlayerOk(w)
    ensures BoardOk(RemoveAll(w, texts).board) && PlayerOk(RemoveAll(w, texts))
  {
    if texts != [] {
      RemoveAllOk(w, texts[..|texts| - 1]);
      RemoveRuleOk(RemoveAll(w, texts[..|texts| - 1]), texts[|texts| - 1]);
    }
  }

  lemma {:induction false} AddAllOk(w: World, texts: seq<string>)
    requires BoardOk(w.board) && PlayerOk(w)
    ensures BoardOk(AddAll(w, texts).board) && PlayerOk(AddAll(w, texts))
  {
    if texts != [] {
      AddAllOk(w, texts[..|texts| - 1]);
      AddRuleOk(AddAll(w, texts[..|texts| - 1]), texts[|texts| - 1]);
    }
  }

  // ---------------------------------------------------------------------
  // The rescan.

  /** `_update` on a World with rule list `rules`: the new list and the new World. */
  function Update(w: World, rules: seq<string>): (seq<string>, World)
  {
    var after := ScanRules(w.board);
    (after, Rediff(w, rules, after))
  }

  /** Nothing is missing from a list that holds everything. */
  lemma {:induction false} MissingCovered(s: seq<string>, t: seq<string>)
    requires forall x :: x in s ==> x in t
    ensures Missing(s, t) == []
  {
    if s != [] {
      MissingCovered(s[..|s| - 1], t);
    }
  }

  /** Re-applying the same rule list changes nothing. */
  lemma RediffSame(w: World, s: seq<string>)
    ensures Rediff(w, s, s) == w
  {
    MissingCovered(s, s);
  }

  /**
   * Without movement in between, a second `_update` keeps the rule list
   * and changes no actor and no player.
   */
  lemma UpdateIdempotent(w: World, rules: seq<string>)
    ensures var (rules', w') := Update(w, rules);
      Update(w', rules') == (rules', w')
  {
    var (rules', w') := Update(w, rules);
    RediffLayout(w, rules, rules');
    ScanLayout(w.board, w'.board);
    RediffSame(w', rules');
  }
}
