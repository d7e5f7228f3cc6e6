/**
 * The words printed on the blocks and the text form of a rule.
 *
 * A rule is stored by the engine as the concatenation of a subject word, the
 * connective " is" and an attribute word ("Wall isPush"); the applicator reads
 * it back with Python's `str.split()` and strips the first two characters
 * ("is") of the second part.
 */
module Words {
  import opened Wrappers

  /** The Character classes a subject word can name. */
  datatype Noun = Meepo | Wall | Rock | Flag

  /** The attributes a rule can grant. `Victory` is the win attribute. */
  datatype Property = Push | Stop | Victory | Lose | You

  datatype Rule = Rule(subject: Noun, attribute: Property)

  function NounText(n: Noun): string
  {
    match n
    case Meepo => "Meepo"
    case Wall => "Wall"
    case Rock => "Rock"
    case Flag => "Flag"
  }

  function PropertyText(p: Property): string
  {
    match p
    case Push => "Push"
    case Stop => "Stop"
    case Victory => "Victory"
    case Lose => "Lose"
    case You => "You"
  }

  /** The word carried by every Is block; note the leading space. */
  const Connective: string := " is"

  /** The class lookup by subject word (unknown words give None). */
  function NounOf(w: string): (r: Option<Noun>)
    ensures forall n :: r == Some(n) <==> NounText(n) == w
  {
    if w == "Meepo" then Some(Meepo)
    else if w == "Wall" then Some(Wall)
    else if w == "Rock" then Some(Rock)
    else if w == "Flag" then Some(Flag)
    else None
  }

  /** The comparison chain against the attribute words (no match gives None). */
  function PropertyOf(w: string): (r: Option<Property>)
    ensures forall p :: r == Some(p) <==> PropertyText(p) == w
  {
    if w == "Push" then Some(Push)
    else if w == "Stop" then Some(Stop)
    else if w == "Victory" then Some(Victory)
    else if w == "Lose" then Some(Lose)
    else if w == "You" then Some(You)
    else None
  }

  // ---------------------------------------------------------------------
  // Python's str.split() with no separator, restricted to ASCII whitespace:
  // maximal runs of characters that are not ASCII whitespace.

  /**
   * The ASCII characters Python's str.isspace() accepts. The non-ASCII
   * whitespace Python also splits on (U+0085, U+00A0, U+2000 to U+200A,
   * U+3000 and others) is not included.
   */
  predicate IsSpace(c: char)
  {
    c == ' ' || (9 <= c as int <= 13) || (28 <= c as int <= 31)
  }

  predicate NoSpace(w: string)
  {
    forall i :: 0 <= i < |w| ==> !IsSpace(w[i])
  }

  /** A word as split() returns it: non-empty and without whitespace. */
  predicate IsWord(w: string)
  {
    w != [] && NoSpace(w)
  }

  function SkipSpaces(s: string): (t: string)
    ensures |t| <= |s| && t == s[|s| - |t|..]
    ensures t == [] || !IsSpace(t[0])
  {
    if s != [] && IsSpace(s[0]) then SkipSpaces(s[1..]) else s
  }

  /** The longest prefix of `s` without whitespace. */
  function LeadingWord(s: string): (w: string)
    ensures w <= s && NoSpace(w)
    ensures |w| < |s| ==> IsSpace(s[|w|])
  {
    if s == [] || IsSpace(s[0]) then [] else [s[0]] + LeadingWord(s[1..])
  }

  function Split(s: string): (parts: seq<string>)
    ensures forall i :: 0 <= i < |parts| ==> IsWord(parts[i])
    decreases |s|
  {
    var t := SkipSpaces(s);
    if t == [] then []
    else
      var w := LeadingWord(t);
      [w] + Split(t[|w|..])
  }

  /** Words joined by single spaces: the inverse of Split on words. */
  function Join(ws: seq<string>): string
  {
    if |ws| == 0 then ""
    else if |ws| == 1 then ws[0]
    else ws[0] + (" " + Join(ws[1..]))
  }

  lemma {:induction false} LeadingWordOf(w: string, rest: string)
    requires NoSpace(w)
    requires rest == [] || IsSpace(rest[0])
    ensures LeadingWord(w + rest) == w
  {
    if w != [] {
      assert (w + rest)[1..] == w[1..] + rest;
      LeadingWordOf(w[1..], rest);
    } else if rest != [] {
      assert (w + rest)[0] == rest[0];
    }
  }

  /** A word followed by whitespace (or nothing) is split off first. */
  lemma SplitCons(w: string, rest: string)
    requires IsWord(w)
    requires rest == [] || IsSpace(rest[0])
    ensures Split(w + rest) == [w] + Split(rest)
  {
    var s := w + rest;
    assert s[0] == w[0];
    assert SkipSpaces(s) == s;
    LeadingWordOf(w, rest);
    assert s[|w|..] == rest;
  }

  lemma SplitSpace(rest: string)
    ensures Split(" " + rest) == Split(rest)
  {
    assert (" " + rest)[1..] == rest;
  }

  /** Splitting words joined by spaces gives the words back. */
  lemma {:induction false} SplitJoin(ws: seq<string>)
    requires forall i :: 0 <= i < |ws| ==> IsWord(ws[i])
    ensures Split(Join(ws)) == ws
  {
    if |ws| == 1 {
      assert Join(ws) == ws[0] + [];
      SplitCons(ws[0], []);
    } else if |ws| > 1 {
      var tail := ws[1..];
      assert forall i :: 0 <= i < |tail| ==> IsWord(tail[i]) by {
        forall i | 0 <= i < |tail| ensures IsWord(tail[i]) {
          assert tail[i] == ws[i + 1];
        }
      }
      var rest := Join(tail);
      calc {
        Split(Join(ws));
        { assert Join(ws) == ws[0] + (" " + rest); }
        Split(ws[0] + (" " + rest));
        { SplitCons(ws[0], " " + rest); }
        [ws[0]] + Split(" " + rest);
        { SplitSpace(rest); }
        [ws[0]] + Split(rest);
        { SplitJoin(tail); }
        [ws[0]] + tail;
      }
    }
  }

  // ---------------------------------------------------------------------
  // Rule text.

  /** The text `Is.update` builds: subject word, " is", attribute word. */
  function Render(r: Rule): string
  {
    NounText(r.subject) + Connective + PropertyText(r.attribute)
  }

  /** Python's `attribute[2:]`: empty when the word is shorter than two. */
  function DropTwo(w: string): string
  {
    if |w| >= 2 then w[2..] else []
  }

  /**
   * How the applicator reads a rule: two words from split(), the first names
   * a Character class, the second minus its first two characters names an
   * attribute. Anything else gives None.
   */
  function ParseRule(text: string): Option<Rule>
  {
    var parts := Split(text);
    if |parts| != 2 then None
    else
      match (NounOf(parts[0]), PropertyOf(DropTwo(parts[1])))
      case (Some(n), Some(p)) => Some(Rule(n, p))
      case _ => None
  }

  /** Reading a rendered rule gives the same rule back. */
  lemma RenderParse(r: Rule)
    ensures ParseRule(Render(r)) == Some(r)
  {
    var subj, attr := NounText(r.subject), "is" + PropertyText(r.attribute);
    assert Render(r) == Join([subj, attr]);
    SplitJoin([subj, attr]);
    assert DropTwo(attr) == PropertyText(r.attribute);
  }

  /** Distinct rules have distinct texts, so the engine may compare texts. */
  lemma RenderInjective(r1: Rule, r2: Rule)
    ensures Render(r1) == Render(r2) <==> r1 == r2
  {
    RenderParse(r1);
    RenderParse(r2);
  }
}
