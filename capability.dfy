/**
 * The capability flags an actor carries and the setters that keep them
 * mutually exclusive: player, stop and push exclude one another, and so do
 * win and lose.
 */
module Capability {
  import opened Words

  datatype Flags = Flags(stop: bool, push: bool, player: bool, win: bool, lose: bool)

  /** A fresh Character: no capability at all. */
  const NoFlags: Flags := Flags(false, false, false, false, false)

  /** A Bush: always stop, never push. */
  const BushFlags: Flags := Flags(true, false, false, false, false)

  /** A word block: always push and always stop at the same time. */
  const BlockFlags: Flags := Flags(true, true, false, false, false)

  /** The flag a rule attribute controls. */
  predicate Has(f: Flags, p: Property)
  {
    match p
    case Push => f.push
    case Stop => f.stop
    case Victory => f.win
    case Lose => f.lose
    case You => f.player
  }

  /** Push, Stop and You compete for one slot; Victory and Lose for another. */
  predicate SameGroup(p: Property, q: Property)
  {
    (p == Victory || p == Lose) == (q == Victory || q == Lose)
  }

  /** The invariant the Character setters keep. */
  predicate Exclusive(f: Flags)
  {
    && (f.player ==> !f.stop && !f.push)
    && (f.stop ==> !f.push)
    && !(f.win && f.lose)
  }

  /** `set_push`, `set_stop`, `set_player`, `set_win`, `set_lose`. */
  function Set(f: Flags, p: Property): (r: Flags)
    ensures Has(r, p)
    ensures forall q :: q != p && SameGroup(p, q) ==> !Has(r, q)
    ensures forall q :: !SameGroup(p, q) ==> Has(r, q) == Has(f, q)
  {
    match p
    case Push => f.(push := true, stop := false, player := false)
    case Stop => f.(stop := true, push := false, player := false)
    case You => f.(player := true, stop := false, push := false)
    case Victory => f.(win := true, lose := false)
    case Lose => f.(lose := true, win := false)
  }

  /** `unset_push`, `unset_stop`, `unset_player`, `unset_win`, `unset_lose`. */
  function Unset(f: Flags, p: Property): (r: Flags)
    ensures !Has(r, p)
    ensures forall q :: q != p ==> Has(r, q) == Has(f, q)
  {
    match p
    case Push => f.(push := false)
    case Stop => f.(stop := false)
    case You => f.(player := false)
    case Victory => f.(win := false)
    case Lose => f.(lose := false)
  }

  /** Two flag records that agree on every attribute are equal. */
  lemma FlagsExtensional(f: Flags, g: Flags)
    requires forall q :: Has(f, q) == Has(g, q)
    ensures f == g
  {
    assert Has(f, Push) == Has(g, Push) && Has(f, Stop) == Has(g, Stop);
    assert Has(f, You) == Has(g, You);
    assert Has(f, Victory) == Has(g, Victory) && Has(f, Lose) == Has(g, Lose);
  }

  /** Every setter leaves an exclusive record exclusive. */
  lemma SetKeepsExclusive(f: Flags, p: Property)
    requires Exclusive(f)
    ensures Exclusive(Set(f, p))
  {
  }

  /** Every unsetter leaves an exclusive record exclusive. */
  lemma UnsetKeepsExclusive(f: Flags, p: Property)
    requires Exclusive(f)
    ensures Exclusive(Unset(f, p))
  {
  }

  /** Unsetting undoes setting on a record that did not have the attribute's group. */
  lemma UnsetAfterSet(f: Flags, p: Property)
    requires forall q :: SameGroup(p, q) ==> !Has(f, q)
    ensures Unset(Set(f, p), p) == f
  {
    var g := Unset(Set(f, p), p);
    forall q ensures Has(g, q) == Has(f, q) {
      if q != p && !SameGroup(p, q) {
        assert Has(Set(f, p), q) == Has(f, q);
      }
    }
    FlagsExtensional(g, f);
  }
}
