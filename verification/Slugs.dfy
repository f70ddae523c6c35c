/** _slugify on ASCII text: lower-case, strip, drop other characters, collapse separators, strip hyphens. */
module Slugs {

  /** str.isspace and \s on ASCII. */
  predicate Space(c: char) {
    c == ' ' || '\t' <= c <= '\r' || '\U{1c}' <= c <= '\U{1f}'
  }

  predicate Alnum(c: char) {
    'a' <= c <= 'z' || '0' <= c <= '9'
  }

  /** \w after lower-casing, on ASCII. */
  predicate Word(c: char) {
    Alnum(c) || c == '_'
  }

  /** [\s_-]. */
  predicate Separator(c: char) {
    Space(c) || c == '_' || c == '-'
  }

  function LowerChar(c: char): char {
    if 'A' <= c <= 'Z' then (c as int + 32) as char else c
  }

  function Lower(s: string): string {
    if s == "" then "" else [LowerChar(s[0])] + Lower(s[1..])
  }

  function StripLeft(s: string, drop: char -> bool): string {
    if s == "" then "" else if drop(s[0]) then StripLeft(s[1..], drop) else s
  }

  function StripRight(s: string, drop: char -> bool): string
    decreases |s|
  {
    if s == "" then ""
    else if drop(s[|s| - 1]) then StripRight(s[..|s| - 1], drop)
    else s
  }

  function Strip(s: string, drop: char -> bool): string {
    StripRight(StripLeft(s, drop), drop)
  }

  /** re.sub(r"[^\w\s-]", "", text). */
  function Keep(s: string, keep: char -> bool): string {
    if s == "" then "" else if keep(s[0]) then [s[0]] + Keep(s[1..], keep) else Keep(s[1..], keep)
  }

  /** re.sub(r"[\s_-]+", "-", text). */
  function Collapse(s: string): string
    decreases |s|
  {
    if s == "" then ""
    else if Separator(s[0]) then
      StripLeftShrinks(s[1..], Separators());
      "-" + Collapse(StripLeft(s[1..], Separators()))
    else [s[0]] + Collapse(s[1..])
  }

  function Separators(): char -> bool {
    (c: char) => Separator(c)
  }

  function Spaces(): char -> bool {
    (c: char) => Space(c)
  }

  function Kept(): char -> bool {
    (c: char) => Word(c) || Space(c) || c == '-'
  }

  function Hyphens(): char -> bool {
    (c: char) => c == '-'
  }

  function Alnums(): char -> bool {
    (c: char) => Alnum(c)
  }

  function Slugify(text: string): string {
    Strip(Collapse(Keep(Strip(Lower(text), Spaces()), Kept())), Hyphens())
  }

  lemma {:induction false} StripLeftShrinks(s: string, drop: char -> bool)
    ensures |StripLeft(s, drop)| <= |s|
    ensures StripLeft(s, drop) != "" ==> !drop(StripLeft(s, drop)[0])
    ensures StripLeft(s, drop) == s[|s| - |StripLeft(s, drop)|..]
  {
    if s != "" && drop(s[0]) {
      StripLeftShrinks(s[1..], drop);
    }
  }

  lemma {:induction false} StripRightShrinks(s: string, drop: char -> bool)
    ensures StripRight(s, drop) <= s
    ensures StripRight(s, drop) != "" ==> !drop(StripRight(s, drop)[|StripRight(s, drop)| - 1])
    decreases |s|
  {
    if s != "" && drop(s[|s| - 1]) {
      StripRightShrinks(s[..|s| - 1], drop);
    }
  }

  // ------------------------------------------------------------------
  // The shape of a slug
  // ------------------------------------------------------------------

  /** Letters and digits and single hyphens between them. */
  predicate Joined(s: string) {
    && (forall i | 0 <= i < |s| :: Alnum(s[i]) || s[i] == '-')
    && (forall i | 0 <= i < |s| - 1 :: !(s[i] == '-' && s[i + 1] == '-'))
  }

  predicate IsSlug(s: string) {
    Joined(s) && (s != "" ==> s[0] != '-' && s[|s| - 1] != '-')
  }

  predicate Clean(s: string) {
    forall i | 0 <= i < |s| :: Word(s[i]) || Space(s[i]) || s[i] == '-'
  }

  lemma {:induction false} KeepIsClean(s: string)
    ensures Clean(Keep(s, Kept()))
  {
    if s != "" {
      KeepIsClean(s[1..]);
    }
  }

  lemma {:induction false} CollapseIsJoined(s: string)
    requires Clean(s)
    ensures Joined(Collapse(s))
    ensures Collapse(s) != "" ==> s != "" && (Collapse(s)[0] == '-' <==> Separator(s[0]))
    decreases |s|
  {
    if s != "" {
      if Separator(s[0]) {
        StripLeftShrinks(s[1..], Separators());
        CollapseIsJoined(StripLeft(s[1..], Separators()));
      } else {
        CollapseIsJoined(s[1..]);
      }
    }
  }

  lemma SliceIsJoined(s: string, i: nat, j: nat)
    requires Joined(s) && i <= j <= |s|
    ensures Joined(s[i..j])
  {
  }

  /** Whatever the text, the result has the shape of a slug. */
  lemma SlugifyIsSlug(text: string)
    ensures IsSlug(Slugify(text))
  {
    var kept := Keep(Strip(Lower(text), Spaces()), Kept());
    KeepIsClean(Strip(Lower(text), Spaces()));
    CollapseIsJoined(kept);
    var joined := Collapse(kept);
    var left := StripLeft(joined, Hyphens());
    StripLeftShrinks(joined, Hyphens());
    SliceIsJoined(joined, |joined| - |left|, |joined|);
    assert left == joined[|joined| - |left|..|joined|];
    StripRightShrinks(left, Hyphens());
    var slug := StripRight(left, Hyphens());
    SliceIsJoined(left, 0, |slug|);
    assert slug == left[0..|slug|];
  }

  // ------------------------------------------------------------------
  // Slugs are fixed
  // ------------------------------------------------------------------

  lemma {:induction false} LowerFixes(s: string)
    requires Joined(s)
    ensures Lower(s) == s
  {
    if s != "" {
      SliceIsJoined(s, 1, |s|);
      LowerFixes(s[1..]);
    }
  }

  lemma {:induction false} KeepFixes(s: string)
    requires Joined(s)
    ensures Keep(s, Kept()) == s
  {
    if s != "" {
      SliceIsJoined(s, 1, |s|);
      KeepFixes(s[1..]);
    }
  }

  lemma {:induction false} CollapseFixes(s: string)
    requires Joined(s)
    ensures Collapse(s) == s
    decreases |s|
  {
    if s != "" {
      SliceIsJoined(s, 1, |s|);
      CollapseFixes(s[1..]);
      if Separator(s[0]) && s[1..] != "" {
        assert s[1..][0] == s[1];
        assert StripLeft(s[1..], Separators()) == s[1..];
      }
    }
  }

  /** Every string of slug shape is mapped to itself. */
  lemma SlugifyFixesSlugs(s: string)
    requires IsSlug(s)
    ensures Slugify(s) == s
  {
    LowerFixes(s);
    KeepFixes(s);
    CollapseFixes(s);
  }

  lemma SlugifyIsIdempotent(text: string)
    ensures Slugify(Slugify(text)) == Slugify(text)
  {
    SlugifyIsSlug(text);
    SlugifyFixesSlugs(Slugify(text));
  }

  // ------------------------------------------------------------------
  // No letter or digit is lost, added or moved
  // ------------------------------------------------------------------

  lemma {:induction false} KeepConcat(s: string, t: string, keep: char -> bool)
    ensures Keep(s + t, keep) == Keep(s, keep) + Keep(t, keep)
  {
    if s == "" {
      assert s + t == t;
    } else {
      assert (s + t)[1..] == s[1..] + t;
      KeepConcat(s[1..], t, keep);
      assert [s[0]] + (Keep(s[1..], keep) + Keep(t, keep)) == [s[0]] + Keep(s[1..], keep) + Keep(t, keep);
    }
  }

  lemma {:induction false} StripLeftKeepsAlnum(s: string, drop: char -> bool)
    requires forall c :: drop(c) ==> !Alnum(c)
    ensures Keep(StripLeft(s, drop), Alnums()) == Keep(s, Alnums())
  {
    if s != "" && drop(s[0]) {
      StripLeftKeepsAlnum(s[1..], drop);
    }
  }

  lemma {:induction false} StripRightKeepsAlnum(s: string, drop: char -> bool)
    requires forall c :: drop(c) ==> !Alnum(c)
    ensures Keep(StripRight(s, drop), Alnums()) == Keep(s, Alnums())
    decreases |s|
  {
    if s != "" && drop(s[|s| - 1]) {
      var front, last := s[..|s| - 1], s[|s| - 1];
      StripRightKeepsAlnum(front, drop);
      KeepConcat(front, [last], Alnums());
      assert s == front + [last];
      assert Keep([last], Alnums()) == "";
      assert Keep(front, Alnums()) + "" == Keep(front, Alnums());
    }
  }

  lemma {:induction false} KeepKeepsAlnum(s: string)
    ensures Keep(Keep(s, Kept()), Alnums()) == Keep(s, Alnums())
  {
    if s != "" {
      KeepKeepsAlnum(s[1..]);
      if Kept()(s[0]) {
        assert ([s[0]] + Keep(s[1..], Kept()))[1..] == Keep(s[1..], Kept());
      }
    }
  }

  lemma {:induction false} CollapseKeepsAlnum(s: string)
    ensures Keep(Collapse(s), Alnums()) == Keep(s, Alnums())
    decreases |s|
  {
    if s != "" {
      if Separator(s[0]) {
        var rest := StripLeft(s[1..], Separators());
        StripLeftShrinks(s[1..], Separators());
        CollapseKeepsAlnum(rest);
        StripLeftKeepsAlnum(s[1..], Separators());
        assert ("-" + Collapse(rest))[1..] == Collapse(rest);
      } else {
        CollapseKeepsAlnum(s[1..]);
        assert ([s[0]] + Collapse(s[1..]))[1..] == Collapse(s[1..]);
      }
    }
  }

  /** The letters and digits of the lower-cased text survive, in order, and no other do. */
  lemma SlugifyKeepsLettersAndDigits(text: string)
    ensures Keep(Slugify(text), Alnums()) == Keep(Lower(text), Alnums())
  {
    var low := Lower(text);
    var stripped := Strip(low, Spaces());
    StripLeftKeepsAlnum(low, Spaces());
    StripRightKeepsAlnum(StripLeft(low, Spaces()), Spaces());
    KeepKeepsAlnum(stripped);
    var joined := Collapse(Keep(stripped, Kept()));
    CollapseKeepsAlnum(Keep(stripped, Kept()));
    StripLeftKeepsAlnum(joined, Hyphens());
    StripRightKeepsAlnum(StripLeft(joined, Hyphens()), Hyphens());
  }

  // ------------------------------------------------------------------
  // One pass over the text gives the same
  // ------------------------------------------------------------------

  /** The letters and digits of ASCII, capitals as their small letters. */
  function SmallOf(c: char): char {
    if 'A' <= c <= 'Z' then ['a', 'b', 'c', 'd', 'e', 'f', 'g', 'h', 'i', 'j', 'k', 'l', 'm', 'n', 'o', 'p', 'q',
                             'r', 's', 't', 'u', 'v', 'w', 'x', 'y', 'z'][c as int - 'A' as int]
    else c
  }

  predicate Breaks(c: char) {
    c in {' ', '\t', '\n', '\U{b}', '\U{c}', '\r', '\U{1c}', '\U{1d}', '\U{1e}', '\U{1f}', '_', '-'}
  }

  /**
   * Letters and digits are written out, a hyphen goes between two of them when a space, an underscore or
   * a hyphen came between, and everything else is dropped.
   */
  function OnePass(text: string, begun: bool, gap: bool): string {
    if text == "" then ""
    else
      var c, rest := SmallOf(text[0]), text[1..];
      if 'a' <= c <= 'z' || '0' <= c <= '9' then
        (if begun && gap then "-" else "") + [c] + OnePass(rest, true, false)
      else if Breaks(c) then OnePass(rest, begun, true)
      else OnePass(rest, begun, gap)
  }

  lemma CharsAgree(c: char)
    ensures SmallOf(c) == LowerChar(c) && SmallOf(SmallOf(c)) == SmallOf(c)
    ensures Breaks(c) <==> Separator(c)
  {
  }

  lemma {:induction false} OnePassOfLower(s: string, begun: bool, gap: bool)
    ensures OnePass(Lower(s), begun, gap) == OnePass(s, begun, gap)
  {
    if s != "" {
      var c := s[0];
      CharsAgree(c);
      CharsAgree(SmallOf(c));
      assert Lower(s)[1..] == Lower(s[1..]);
      OnePassOfLower(s[1..], true, false);
      OnePassOfLower(s[1..], begun, true);
      OnePassOfLower(s[1..], begun, gap);
    }
  }

  predicate AllLow(s: string) {
    forall i | 0 <= i < |s| :: !('A' <= s[i] <= 'Z')
  }

  lemma {:induction false} LowerIsLow(s: string)
    ensures AllLow(Lower(s))
  {
    if s != "" {
      LowerIsLow(s[1..]);
    }
  }

  lemma {:induction false} KeepOfLow(s: string)
    requires AllLow(s)
    ensures AllLow(Keep(s, Kept()))
  {
    if s != "" {
      KeepOfLow(s[1..]);
    }
  }

  lemma {:induction false} OnePassOfKept(s: string, begun: bool, gap: bool)
    requires AllLow(s)
    ensures OnePass(Keep(s, Kept()), begun, gap) == OnePass(s, begun, gap)
  {
    if s != "" {
      CharsAgree(s[0]);
      var rest := Keep(s[1..], Kept());
      assert Kept()(s[0]) ==> Keep(s, Kept())[1..] == rest;
      OnePassOfKept(s[1..], true, false);
      OnePassOfKept(s[1..], begun, true);
      OnePassOfKept(s[1..], begun, gap);
    }
  }

  lemma {:induction false} GapNeedsBeginning(s: string, gap: bool, other: bool)
    ensures OnePass(s, false, gap) == OnePass(s, false, other)
  {
    if s != "" {
      GapNeedsBeginning(s[1..], gap, other);
    }
  }

  /** Separators before the next word leave a gap, once something is written. */
  lemma {:induction false} OnePassOfStripped(s: string, begun: bool)
    ensures OnePass(StripLeft(s, Separators()), begun, true) == OnePass(s, begun, true)
  {
    if s != "" && Separator(s[0]) {
      CharsAgree(s[0]);
      OnePassOfStripped(s[1..], begun);
    }
  }

  lemma {:induction false} OnePassOfSpaces(s: string, gap: bool)
    ensures OnePass(StripLeft(s, Spaces()), false, gap) == OnePass(s, false, gap)
  {
    if s != "" && Space(s[0]) {
      CharsAgree(s[0]);
      OnePassOfSpaces(s[1..], gap);
      GapNeedsBeginning(s[1..], gap, true);
    }
  }

  /** A separator at the end writes nothing. */
  lemma {:induction false} OnePassOfTail(s: string, c: char, begun: bool, gap: bool)
    requires Separator(c)
    ensures OnePass(s + [c], begun, gap) == OnePass(s, begun, gap)
  {
    if s == "" {
      CharsAgree(c);
      assert ("" + [c])[1..] == "";
    } else {
      assert (s + [c])[0] == s[0] && (s + [c])[1..] == s[1..] + [c];
      OnePassOfTail(s[1..], c, true, false);
      OnePassOfTail(s[1..], c, begun, true);
      OnePassOfTail(s[1..], c, begun, gap);
    }
  }

  lemma {:induction false} OnePassOfTrimmed(s: string, begun: bool, gap: bool)
    ensures OnePass(StripRight(s, Spaces()), begun, gap) == OnePass(s, begun, gap)
    decreases |s|
  {
    if s != "" && Space(s[|s| - 1]) {
      var front := s[..|s| - 1];
      OnePassOfTrimmed(front, begun, gap);
      OnePassOfTail(front, s[|s| - 1], begun, gap);
      assert s == front + [s[|s| - 1]];
    }
  }

  lemma {:induction false} StripRightCons(c: char, s: string)
    ensures StripRight([c] + s, Hyphens()) ==
            if c == '-' && StripRight(s, Hyphens()) == "" then "" else [c] + StripRight(s, Hyphens())
    decreases |s|
  {
    var t := [c] + s;
    if s != "" && s[|s| - 1] == '-' {
      assert t[..|t| - 1] == [c] + s[..|s| - 1];
      StripRightCons(c, s[..|s| - 1]);
    } else if s == "" {
      assert t[..0] == "";
    }
  }

  lemma WordStart(s: string)
    requires s != "" && Clean(s) && AllLow(s) && !Separator(s[0])
    ensures Alnum(s[0]) && SmallOf(s[0]) == s[0] != '-'
  {
    CharsAgree(s[0]);
  }

  lemma WordWritten(s: string, begun: bool, gap: bool)
    requires s != "" && Alnum(s[0]) && SmallOf(s[0]) == s[0]
    ensures OnePass(s, begun, gap) == (if begun && gap then "-" else "") + ([s[0]] + OnePass(s[1..], true, false))
  {
    var rest := OnePass(s[1..], true, false);
    assert "" + [s[0]] + rest == "" + ([s[0]] + rest) && "-" + [s[0]] + rest == "-" + ([s[0]] + rest);
  }

  /** A text that starts with a letter or digit, when the rest of it is known. */
  lemma WordFirst(s: string, begun: bool, gap: bool)
    requires s != "" && Clean(s) && AllLow(s) && !Separator(s[0])
    requires StripRight(Collapse(s[1..]), Hyphens()) == OnePass(s[1..], true, false)
    ensures OnePass(s, begun, gap) == (if begun && gap then "-" else "") + StripRight(Collapse(s), Hyphens())
    ensures Collapse(s) != "" && Collapse(s)[0] == s[0] != '-'
    ensures StripRight(Collapse(s), Hyphens()) != ""
  {
    WordStart(s);
    WordWritten(s, begun, gap);
    StripRightCons(s[0], Collapse(s[1..]));
  }

  lemma SuffixIsClean(s: string, n: nat)
    requires Clean(s) && AllLow(s) && n <= |s|
    ensures Clean(s[n..]) && AllLow(s[n..])
  {
  }

  /** What follows a letter: collapsed, and without the last hyphen, it is what one pass writes. */
  lemma {:induction false} CollapseIsOnePass(s: string)
    requires Clean(s) && AllLow(s)
    ensures StripRight(Collapse(s), Hyphens()) == OnePass(s, true, false)
    decreases |s|
  {
    if s != "" {
      SuffixIsClean(s, 1);
      if Separator(s[0]) {
        CharsAgree(s[0]);
        var rest := StripLeft(s[1..], Separators());
        StripLeftShrinks(s[1..], Separators());
        SuffixIsClean(s[1..], |s[1..]| - |rest|);
        OnePassOfStripped(s[1..], true);
        StripRightCons('-', Collapse(rest));
        if rest != "" {
          SuffixIsClean(rest, 1);
          CollapseIsOnePass(rest[1..]);
          WordFirst(rest, true, true);
          WordFirst(rest, true, false);
        }
      } else {
        CollapseIsOnePass(s[1..]);
        WordFirst(s, true, false);
      }
    }
  }

  lemma WordIsOnePass(s: string, gap: bool)
    requires s != "" && Clean(s) && AllLow(s) && !Separator(s[0])
    ensures Strip(Collapse(s), Hyphens()) == OnePass(s, false, gap)
  {
    SuffixIsClean(s, 1);
    CollapseIsOnePass(s[1..]);
    WordFirst(s, false, gap);
  }

  lemma CleanIsOnePass(s: string)
    requires Clean(s) && AllLow(s)
    ensures Strip(Collapse(s), Hyphens()) == OnePass(s, false, false)
  {
    if s != "" {
      if Separator(s[0]) {
        CharsAgree(s[0]);
        var rest := StripLeft(s[1..], Separators());
        StripLeftShrinks(s[1..], Separators());
        SuffixIsClean(s[1..], |s[1..]| - |rest|);
        OnePassOfStripped(s[1..], false);
        assert ("-" + Collapse(rest))[1..] == Collapse(rest);
        if rest != "" {
          WordIsOnePass(rest, true);
        }
      } else {
        WordIsOnePass(s, false);
      }
    }
  }

  /** The five passes of the regular expressions write what one pass writes. */
  lemma SlugifyIsOnePass(text: string)
    ensures Slugify(text) == OnePass(text, false, false)
  {
    var low := Lower(text);
    var left := StripLeft(low, Spaces());
    var stripped := StripRight(left, Spaces());
    LowerIsLow(text);
    StripLeftShrinks(low, Spaces());
    StripRightShrinks(left, Spaces());
    KeepOfLow(stripped);
    KeepIsClean(stripped);
    CleanIsOnePass(Keep(stripped, Kept()));
    OnePassOfKept(stripped, false, false);
    OnePassOfTrimmed(left, false, false);
    OnePassOfSpaces(low, false);
    OnePassOfLower(text, false, false);
  }
}
