/**
 * squidtools/names.py: cleaning, parsing and comparing person names
 * ("Zheng, Sylvan A." or "sylvan a zheng jr"), and the heuristic match score
 * built on them.
 */
module Names {
  import opened Wrappers
  import opened Text

  // ---------------------------------------------------------------------------
  // clean

  /** `string.punctuation` */
  const PUNCTUATION: string := "!\"#$%&'()*+,-./:;<=>?@[\\]^_`{|}~"

  predicate IsPunct(c: char) {
    c in PUNCTUATION
  }

  /** `s.translate(str.maketrans('', '', string.punctuation))` */
  function RemovePunct(s: string): string {
    if s == [] then [] else (if IsPunct(s[0]) then [] else [s[0]]) + RemovePunct(s[1..])
  }

  /** `clean(name, remove_punct)` */
  function Clean(name: string, removePunct: bool): string {
    var n := Strip(Lower(name));
    if removePunct then Strip(RemovePunct(n)) else n
  }

  predicate NoUpper(s: string) {
    forall c :: c in s ==> !IsUpperAscii(c)
  }

  predicate NoPunct(s: string) {
    forall c :: c in s ==> !IsPunct(c)
  }

  predicate Trimmed(s: string) {
    s == [] || (!IsSpace(s[0]) && !IsSpace(s[|s| - 1]))
  }

  /**
   * Deleting punctuation leaves none, brings in nothing new, keeps every
   * other character, and leaves a string without punctuation as it is.
   */
  lemma {:induction false} RemovePunctSpec(s: string)
    ensures NoPunct(RemovePunct(s))
    ensures forall c :: c in RemovePunct(s) ==> c in s
    ensures forall c :: c in s && !IsPunct(c) ==> c in RemovePunct(s)
    ensures NoPunct(s) ==> RemovePunct(s) == s
  {
    if s != [] {
      RemovePunctSpec(s[1..]);
      assert [s[0]] + s[1..] == s;
      forall c | c in s && !IsPunct(c)
        ensures c in RemovePunct(s)
      {
        if c != s[0] {
          assert c in s[1..];
        }
      }
    }
  }

  /** A single character is dropped exactly when it is punctuation. */
  lemma RemovePunctChar(c: char)
    ensures RemovePunct([c]) == if IsPunct(c) then [] else [c]
  {
    assert [c][1..] == [];
  }

  /** Deletion works piece by piece, so the characters kept stay in order. */
  lemma {:induction false} RemovePunctConcat(a: string, b: string)
    ensures RemovePunct(a + b) == RemovePunct(a) + RemovePunct(b)
    decreases |a|
  {
    if a == [] {
      assert a + b == b;
    } else {
      assert (a + b)[0] == a[0] && (a + b)[1..] == a[1..] + b;
      RemovePunctConcat(a[1..], b);
    }
  }

  lemma StripProps(s: string)
    ensures Trimmed(Strip(s))
    ensures NoUpper(s) ==> NoUpper(Strip(s))
    ensures NoPunct(s) ==> NoPunct(Strip(s))
  {
    StripSpec(s);
    StripSub(s);
  }

  /**
   * A cleaned name has no capital letter and no leading or trailing
   * whitespace; with `remove_punct` it has no punctuation either, otherwise
   * its punctuation is kept.
   */
  lemma CleanSpec(name: string, removePunct: bool)
    ensures NoUpper(Clean(name, removePunct)) && Trimmed(Clean(name, removePunct))
    ensures removePunct ==> NoPunct(Clean(name, removePunct))
    ensures !removePunct ==> Clean(name, removePunct) == Strip(Lower(name))
  {
    LowerSpec(name);
    var n := Strip(Lower(name));
    StripProps(Lower(name));
    RemovePunctSpec(n);
    StripProps(RemovePunct(n));
  }

  /** Cleaning a cleaned name changes nothing. */
  lemma CleanIdempotent(name: string, removePunct: bool)
    ensures Clean(Clean(name, removePunct), removePunct) == Clean(name, removePunct)
  {
    var x := Clean(name, removePunct);
    CleanSpec(name, removePunct);
    LowerUnchanged(x);
    StripTrimmed(x);
    if removePunct {
      RemovePunctSpec(x);
    }
  }

  // ---------------------------------------------------------------------------
  // isSuffix, isInitial, isNormalizedName, unnormalize

  const SUFFIXES: seq<string> := ["jr", "sr", "i", "ii", "iii", "iv", "v"]

  /** `isSuffix(s)` */
  predicate IsSuffix(s: string) {
    Clean(s, true) in SUFFIXES
  }

  /** `isInitial(s)` */
  predicate IsInitial(s: string) {
    |Clean(s, true)| == 1
  }

  /** `isNormalizedName(s)`: splitting on commas gives two pieces. */
  predicate IsNormalizedName(s: string) {
    |Split(s, ',')| == 2
  }

  /** A name is normalized exactly when it holds one comma. */
  lemma NormalizedOneComma(s: string)
    ensures IsNormalizedName(s) <==> Count(s, ',') == 1
  {
    SplitCount(s, ',');
  }

  /** `unnormalize(name)`: "Last, First M" becomes "First M Last". */
  function Unnormalize(name: string): string {
    if ',' in name then
      var names := Split(name, ',');
      Strip(ReplaceAll(Join(names[1..] + [names[0]], " "), "  ", " "))
    else name
  }

  /** The result never holds a comma: every comma-separated piece is kept and joined with spaces. */
  lemma UnnormalizeNoComma(name: string)
    ensures ',' !in Unnormalize(name)
  {
    if ',' in name {
      var names := Split(name, ',');
      SplitPiecesFree(name, ',');
      var moved := names[1..] + [names[0]];
      assert forall k :: 0 <= k < |moved| ==> moved[k] in names;
      JoinFree(moved, " ", ',');
      var joined := Join(moved, " ");
      ReplaceFree(joined, "  ", " ", ',');
      StripSub(ReplaceAll(joined, "  ", " "));
    }
  }

  /** Unnormalizing twice is unnormalizing once. */
  lemma UnnormalizeIdempotent(name: string)
    ensures Unnormalize(Unnormalize(name)) == Unnormalize(name)
  {
    UnnormalizeNoComma(name);
  }

  // ---------------------------------------------------------------------------
  // Parsed names

  /** The dict the parsers return; `None` entries are `None` values. */
  datatype ParsedName = ParsedName(first: Option<string>, middle: Option<string>, last: Option<string>,
                                   suffix: Option<string>)

  /** The text before the comma of a normalized name. */
  function LastText(s: string): string {
    Split(s, ',')[0]
  }

  /** `components[1].strip().split(' ')`: the pieces of the given names after the comma. */
  function GivenParts(s: string): seq<string>
    requires IsNormalizedName(s)
  {
    Split(Strip(Split(s, ',')[1]), ' ')
  }

  /** With two given parts the second is never empty: `strip` left no trailing space. */
  lemma SecondPartNonEmpty(s: string)
    requires IsNormalizedName(s) && |GivenParts(s)| == 2
    ensures GivenParts(s)[1] != ""
  {
    var t := Strip(Split(s, ',')[1]);
    StripSpec(Split(s, ',')[1]);
    assert t != [];
    assert IsSpace(' ');
    SplitLast(t, ' ');
  }

  /**
   * `parseNormalizedName(s)`, whose assertion demands a normalized name: the
   * last name is the untrimmed text before the comma; the given names decide
   * the rest, trying an initial, then a suffix, then a middle name cut to
   * its first character.
   */
  function ParseNormalizedName(s: string): Option<ParsedName>
    requires IsNormalizedName(s)
  {
    var lastname := LastText(s);
    var f := GivenParts(s);
    if |f| == 1 then Some(ParsedName(Some(f[0]), None, Some(lastname), None))
    else if |f| == 2 && IsInitial(f[1]) then Some(ParsedName(Some(f[0]), Some(f[1]), Some(lastname), None))
    else if |f| == 2 && IsSuffix(f[1]) then Some(ParsedName(Some(f[0]), None, Some(lastname), Some(f[1])))
    else if |f| == 2 then
      SecondPartNonEmpty(s);
      Some(ParsedName(Some(f[0]), Some([f[1][0]]), Some(lastname), None))
    else None
  }

  /** A normalized name is its last name, the comma, and the given names. */
  lemma NormalizedParts(s: string)
    requires IsNormalizedName(s)
    ensures s == LastText(s) + "," + Split(s, ',')[1]
    ensures ',' !in LastText(s)
  {
    JoinSplit(s, ',');
    SplitPiecesFree(s, ',');
    var p := Split(s, ',');
    assert Join(p, [',']) == p[0] + [','] + Join(p[1..], [',']);
  }

  /**
   * How a normalized name parses: it fails on more than two given names;
   * otherwise the first given name and the text before the comma are the
   * first and last names, a suffix is recorded only when the second part
   * is a suffix and not an initial, and a middle initial exactly when there
   * is a second part that is not recorded as the suffix. Never both.
   */
  lemma NormalizedCases(s: string)
    requires IsNormalizedName(s)
    ensures var r := ParseNormalizedName(s);
            var f := GivenParts(s);
            && (r.None? <==> |f| > 2)
            && (r.Some? ==> r.value.first == Some(f[0]) && r.value.last == Some(LastText(s)))
            && (r.Some? ==> (r.value.suffix.Some? <==> |f| == 2 && !IsInitial(f[1]) && IsSuffix(f[1])))
            && (r.Some? ==> (r.value.middle.Some? <==> |f| == 2 && !(!IsInitial(f[1]) && IsSuffix(f[1]))))
            && (r.Some? ==> !(r.value.middle.Some? && r.value.suffix.Some?))
  {
  }

  /** A middle name that is neither an initial nor a suffix is cut to its first character. */
  lemma NormalizedMiddleCut(s: string)
    requires IsNormalizedName(s)
    requires |GivenParts(s)| == 2 && !IsInitial(GivenParts(s)[1]) && !IsSuffix(GivenParts(s)[1])
    ensures ParseNormalizedName(s).Some?
    ensures var m := ParseNormalizedName(s).value.middle;
            m.Some? && |m.value| == 1 && m.value <= GivenParts(s)[1]
  {
    SecondPartNonEmpty(s);
  }

  /** `list.remove(x)`: drops the first element equal to `x`. */
  function RemoveFirst(xs: seq<string>, x: string): seq<string> {
    if xs == [] then [] else if xs[0] == x then xs[1..] else [xs[0]] + RemoveFirst(xs[1..], x)
  }

  /** The position of the first element equal to `x`. */
  function FirstIndex(xs: seq<string>, x: string): (i: nat)
    requires x in xs
    ensures i < |xs| && xs[i] == x && x !in xs[..i]
  {
    if xs[0] == x then 0
    else
      var j := FirstIndex(xs[1..], x);
      assert xs[..j + 1] == [xs[0]] + xs[1..][..j];
      j + 1
  }

  /** `remove` takes out the first match, wherever it is, and keeps the rest in order. */
  lemma {:induction false} RemoveFirstSpec(xs: seq<string>, x: string)
    requires x in xs
    ensures RemoveFirst(xs, x) == xs[..FirstIndex(xs, x)] + xs[FirstIndex(xs, x) + 1..]
  {
    if xs[0] != x {
      RemoveFirstSpec(xs[1..], x);
      var j := FirstIndex(xs[1..], x);
      assert xs[..j + 1] == [xs[0]] + xs[1..][..j];
      assert xs[j + 2..] == xs[1..][j + 1..];
    }
  }

  /** The name read off the words left once a suffix is taken out. */
  function FromComponents(cs: seq<string>, suffix: Option<string>): Option<ParsedName> {
    if |cs| == 2 && !IsInitial(cs[1]) then Some(ParsedName(Some(cs[0]), None, Some(cs[1]), suffix))
    else if |cs| == 3 && IsInitial(cs[1]) then Some(ParsedName(Some(cs[0]), Some(cs[1]), Some(cs[2]), suffix))
    else None
  }

  /** The words of a raw name: `clean(namestr).split(' ')`. */
  function Words(namestr: string): seq<string> {
    Split(Clean(namestr, true), ' ')
  }

  /** What `parseRawName(namestr)` returns; `ParseRawName` computes it, the lemmas use this. */
  function RawName(namestr: string): Option<ParsedName> {
    var components := Words(namestr);
    var last := components[|components| - 1];
    if IsSuffix(last) then FromComponents(RemoveFirst(components, last), Some(last))
    else FromComponents(components, None)
  }

  /**
   * `parseRawName(namestr)`: take a trailing suffix off with `remove`, then
   * read "first last" (the last not an initial) or "first initial last".
   */
  method ParseRawName(namestr: string) returns (r: Option<ParsedName>)
    ensures r == RawName(namestr)
  {
    var suffix: Option<string> := None;
    var components := Split(Clean(namestr, true), ' ');
    var last := components[|components| - 1];
    if IsSuffix(last) {
      suffix := Some(last);
      components := RemoveFirst(components, last);
    }
    if |components| == 2 && !IsInitial(components[1]) {
      r := Some(ParsedName(Some(components[0]), None, Some(components[1]), suffix));
    } else if |components| == 3 && IsInitial(components[1]) {
      r := Some(ParsedName(Some(components[0]), Some(components[1]), Some(components[2]), suffix));
    } else {
      r := None;
    }
  }

  /**
   * How a raw name parses: a suffix is recorded exactly when the last word
   * is one; the words left are "first last" with a last name that is not an
   * initial, or "first initial last"; anything else fails.
   */
  lemma RawCases(namestr: string)
    ensures var ws := Words(namestr);
            var last := ws[|ws| - 1];
            var left := if IsSuffix(last) then RemoveFirst(ws, last) else ws;
            var r := RawName(namestr);
            && (r.Some? <==> (|left| == 2 && !IsInitial(left[1])) || (|left| == 3 && IsInitial(left[1])))
            && (r.Some? ==> r.value.first == Some(left[0]) && r.value.last == Some(left[|left| - 1]))
            && (r.Some? ==> (r.value.middle.Some? <==> |left| == 3))
            && (r.Some? ==> (r.value.suffix.Some? <==> IsSuffix(last)))
            && (r.Some? && r.value.suffix.Some? ==> r.value.suffix.value == last)
  {
  }

  /**
   * `remove` takes out the first word equal to the suffix, not the last
   * one: "jr smith jr" keeps "smith jr", so "smith" is the first name and
   * "jr" the last.
   */
  lemma SuffixRemovesFirstMatch(a: string, b: string)
    requires IsSuffix(a) && !IsInitial(a)
    ensures FromComponents(RemoveFirst([a, b, a], a), Some(a)) == Some(ParsedName(Some(b), None, Some(a), Some(a)))
  {
    assert RemoveFirst([a, b, a], a) == [b, a];
  }

  /** `parseName(name)` */
  function ParseName(name: string): Option<ParsedName> {
    if IsNormalizedName(name) then ParseNormalizedName(name) else RawName(name)
  }

  /** Whichever parser runs, a parsed name has a first and a last name. */
  lemma ParsedHasFirstAndLast(name: string)
    ensures ParseName(name).Some? ==> ParseName(name).value.first.Some? && ParseName(name).value.last.Some?
  {
  }

  // ---------------------------------------------------------------------------
  // Comparing

  /** `cmp_part`: 0.2 when either side lacks the part, else 1 or 0 by cleaned equality. */
  function CmpPart(a: Option<string>, b: Option<string>): real {
    if a.None? || b.None? then 0.2 else if Clean(a.value, true) == Clean(b.value, true) then 1.0 else 0.0
  }

  /** The dict `parseAndCompareNames` returns. */
  datatype PartScores = PartScores(first: real, middle: real, last: real)

  /** `parseAndCompareNames(name1, name2)` */
  function ParseAndCompareNames(name1: string, name2: string): Option<PartScores> {
    var no1 := ParseName(name1);
    var no2 := ParseName(name2);
    if no1.None? || no2.None? then None
    else Some(PartScores(CmpPart(no1.value.first, no2.value.first),
                         CmpPart(no1.value.middle, no2.value.middle),
                         CmpPart(no1.value.last, no2.value.last)))
  }

  /**
   * The comparison exists exactly when both names parse; first and last
   * names always score 1 or 0, and only the middle initial can score 0.2,
   * when one side lacks it.
   */
  lemma CompareScores(name1: string, name2: string)
    ensures ParseAndCompareNames(name1, name2).Some? <==> ParseName(name1).Some? && ParseName(name2).Some?
    ensures var p := ParseAndCompareNames(name1, name2);
            p.Some? ==> && (p.value.first == 1.0 || p.value.first == 0.0)
                        && (p.value.last == 1.0 || p.value.last == 0.0)
                        && (p.value.middle == 1.0 || p.value.middle == 0.0 || p.value.middle == 0.2)
    ensures var p := ParseAndCompareNames(name1, name2);
            p.Some? ==> (p.value.middle == 0.2 <==> ParseName(name1).value.middle.None? || ParseName(name2).value.middle.None?)
  {
    var no1 := ParseName(name1);
    var no2 := ParseName(name2);
    ParsedHasFirstAndLast(name1);
    ParsedHasFirstAndLast(name2);
    if no1.Some? && no2.Some? {
      assert ParseAndCompareNames(name1, name2) ==
             Some(PartScores(CmpPart(no1.value.first, no2.value.first),
                             CmpPart(no1.value.middle, no2.value.middle),
                             CmpPart(no1.value.last, no2.value.last)));
    }
  }

  /** The comparison does not depend on the order of the names. */
  lemma CompareSymmetric(name1: string, name2: string)
    ensures ParseAndCompareNames(name1, name2) == ParseAndCompareNames(name2, name1)
  {
    var no1 := ParseName(name1);
    var no2 := ParseName(name2);
    if no1.Some? && no2.Some? {
      CmpPartSymmetric(no1.value.first, no2.value.first);
      CmpPartSymmetric(no1.value.middle, no2.value.middle);
      CmpPartSymmetric(no1.value.last, no2.value.last);
    }
  }

  lemma CmpPartSymmetric(a: Option<string>, b: Option<string>)
    ensures CmpPart(a, b) == CmpPart(b, a)
  {
  }

  /** `set(clean(name).split(" "))` */
  function Pieces(name: string): set<string> {
    set p | p in Words(name)
  }

  function Max(a: nat, b: nat): nat {
    if a >= b then a else b
  }

  /**
   * The tiers of `simpleMatchScore`, given what it computes of the two names:
   * exact match, cleaned match, same set of words, the weighted part
   * comparison (a non-empty dict is always truthy), else the share of
   * common words.
   */
  function Tiered(exact: bool, cleanEqual: bool, pieces1: set<string>, pieces2: set<string>,
                  pc: Option<PartScores>): real {
    if exact then 1.0
    else if cleanEqual then 0.99
    else
      var common := pieces1 * pieces2;
      if |common| == |pieces1| && |common| == |pieces2| then 0.95
      else if pc.Some? then pc.value.last * 0.5 + pc.value.first * 0.3 + pc.value.middle * 0.1
      else (|common| as real) / ((Max(|pieces1|, |pieces2|) as real) + 0.1)
  }

  /** `simpleMatchScore(name1, name2)`, in exact arithmetic. */
  function SimpleMatchScore(name1: string, name2: string): real {
    Tiered(name1 == name2, Clean(name1, true) == Clean(name2, true), Pieces(name1), Pieces(name2),
           ParseAndCompareNames(name1, name2))
  }

  lemma {:induction false} SubsetCard(a: set<string>, b: set<string>)
    requires a <= b
    ensures |a| <= |b|
    ensures |a| == |b| ==> a == b
    decreases |a|
  {
    if a != {} {
      var x :| x in a;
      SubsetCard(a - {x}, b - {x});
      assert |a - {x}| == |a| - 1 && |b - {x}| == |b| - 1;
      if |a| == |b| {
        assert a - {x} == b - {x};
        assert a == (a - {x}) + {x} && b == (b - {x}) + {x};
      }
    } else if |b| == 0 {
      assert b == {};
    }
  }

  /** The word-set test asks whether the two names have the same set of words. */
  lemma SameWordSets(name1: string, name2: string)
    ensures var p1 := Pieces(name1);
            var p2 := Pieces(name2);
            var common := p1 * p2;
            |common| == |p1| && |common| == |p2| <==> p1 == p2
  {
    var p1 := Pieces(name1);
    var p2 := Pieces(name2);
    SubsetCard(p1 * p2, p1);
    SubsetCard(p1 * p2, p2);
    if p1 == p2 {
      assert p1 * p2 == p1;
    }
  }

  lemma RatioBelowOne(a: real, b: real)
    requires 0.0 <= a < b
    ensures 0.0 <= a / b < 1.0
  {
    var q := a / b;
    assert q * b == a;
    assert (1.0 - q) * b == b - a;
  }

  lemma ShareBelowOne(c: nat, m: nat)
    requires c <= m
    ensures 0.0 <= (c as real) / ((m as real) + 0.1) < 1.0
  {
    RatioBelowOne(c as real, (m as real) + 0.1);
  }

  /** The score lies between 0 and 1, and is 1 exactly for identical strings. */
  lemma ScoreBounds(name1: string, name2: string)
    ensures 0.0 <= SimpleMatchScore(name1, name2) <= 1.0
    ensures SimpleMatchScore(name1, name2) == 1.0 <==> name1 == name2
  {
    CompareScores(name1, name2);
    TieredBounds(name1 == name2, Clean(name1, true) == Clean(name2, true), Pieces(name1), Pieces(name2),
                 ParseAndCompareNames(name1, name2));
  }

  /** With part scores between 0 and 1, every tier but the exact match lies in [0, 1). */
  lemma TieredBounds(exact: bool, cleanEqual: bool, pieces1: set<string>, pieces2: set<string>,
                     pc: Option<PartScores>)
    requires pc.Some? ==> && 0.0 <= pc.value.first <= 1.0 && 0.0 <= pc.value.middle <= 1.0
                          && 0.0 <= pc.value.last <= 1.0
    ensures 0.0 <= Tiered(exact, cleanEqual, pieces1, pieces2, pc) <= 1.0
    ensures Tiered(exact, cleanEqual, pieces1, pieces2, pc) == 1.0 <==> exact
  {
    SubsetCard(pieces1 * pieces2, pieces1);
    ShareBelowOne(|pieces1 * pieces2|, Max(|pieces1|, |pieces2|));
  }

  /** The score does not depend on the order of the names. */
  lemma ScoreSymmetric(name1: string, name2: string)
    ensures SimpleMatchScore(name1, name2) == SimpleMatchScore(name2, name1)
  {
    CompareSymmetric(name1, name2);
    TieredSymmetric(name1 == name2, Clean(name1, true) == Clean(name2, true), Pieces(name1), Pieces(name2),
                    ParseAndCompareNames(name1, name2));
  }

  lemma TieredSymmetric(exact: bool, cleanEqual: bool, pieces1: set<string>, pieces2: set<string>,
                        pc: Option<PartScores>)
    ensures Tiered(exact, cleanEqual, pieces1, pieces2, pc) == Tiered(exact, cleanEqual, pieces2, pieces1, pc)
  {
    assert pieces1 * pieces2 == pieces2 * pieces1;
  }

  /** Different strings that clean alike score 0.99; names with the same set of words otherwise score 0.95. */
  lemma ScoreTiers(name1: string, name2: string)
    ensures name1 != name2 && Clean(name1, true) == Clean(name2, true) ==> SimpleMatchScore(name1, name2) == 0.99
    ensures Clean(name1, true) != Clean(name2, true) && Pieces(name1) == Pieces(name2) ==>
              SimpleMatchScore(name1, name2) == 0.95
  {
    SameWordSets(name1, name2);
  }
}
