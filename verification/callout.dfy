/**
 * The rebar-callout pattern of `RebarExtractor` (main.py:14),
 *
 *   (\d+)\s*[Ø|Q|q|fi]\s*(\d+)(?:\s*L\s*=\s*(\d+))?   with re.IGNORECASE,
 *
 * as a hand-written matcher. Every run in the pattern is followed by a
 * character the run itself can never contain (a digit run by a space or a
 * symbol, a space run by a symbol, a digit, `L` or `=`), so backtracking
 * never shortens a run: the greedy left-to-right scan below finds exactly the
 * groups `re` finds. `Search` is `re.search`: the match at the leftmost start.
 */
module Callout {
  import opened Wrappers
  import opened Lexing

  /** `[Ø|Q|q|fi]` under re.IGNORECASE: ONE character out of Ø, `|`, Q, q, f,
      i and the characters Python's case-insensitive matching treats as
      their equals: ø, F, I, and the Turkish dotted capital İ (U+0130) and
      dotless ı (U+0131). The two-letter word "fi" is not an alternative of a
      character class. */
  predicate IsSymbol(c: char) {
    || c == '\U{D8}' || c == '\U{F8}'
    || c == '|'
    || c == 'Q' || c == 'q'
    || c == 'f' || c == 'F'
    || c == 'i' || c == 'I' || c == '\U{130}' || c == '\U{131}'
  }

  /** `L` under re.IGNORECASE. */
  predicate IsLengthMarker(c: char) {
    c == 'L' || c == 'l'
  }

  /** A symbol is never a digit, a space or the length marker: this is what
      keeps each run of the pattern from reaching into the next part. */
  lemma SymbolIsDistinct(c: char)
    requires IsSymbol(c)
    ensures !IsDigit(c) && !IsSpace(c) && !IsLengthMarker(c) && c != '='
  {
  }

  /** A match object: where it starts and groups 1, 2 and (optional) 3. */
  datatype Match = Match(start: nat, count: string, diameter: string, length: Option<string>)

  /** The declarative shape of `(\d+)\s*[Ø|Q|q|fi]\s*(\d+)` laid over
      `s[i..e]`: count digits `s[i..a]`, spaces `s[a..b]`, the symbol `s[b]`,
      spaces `s[b+1..c]`, diameter digits `s[c..e]`. */
  ghost predicate CalloutShape(s: string, i: nat, a: nat, b: nat, c: nat, e: nat) {
    && i < a <= b < c < e <= |s|
    && AllOf(IsDigit, s, i, a)
    && AllOf(IsSpace, s, a, b)
    && IsSymbol(s[b])
    && AllOf(IsSpace, s, b + 1, c)
    && AllOf(IsDigit, s, c, e)
  }

  /** The declarative shape of the tail `\s*L\s*=\s*(\d+)` laid over
      `s[e..k]`, with the marker at `f`, `=` at `g` and the digits `s[h..k]`. */
  ghost predicate TailShape(s: string, e: nat, f: nat, g: nat, h: nat, k: nat) {
    && e <= f < g < h < k <= |s|
    && AllOf(IsSpace, s, e, f)
    && IsLengthMarker(s[f])
    && AllOf(IsSpace, s, f + 1, g)
    && s[g] == '='
    && AllOf(IsSpace, s, g + 1, h)
    && AllOf(IsDigit, s, h, k)
  }

  /** Group 3: the optional tail right after the diameter digits that end at `e`. */
  function LengthTail(s: string, e: nat): (t: Option<string>)
    requires e <= |s|
    ensures t.Some? ==> |t.value| > 0 && IsDigits(t.value)
  {
    var f := SkipWhile(IsSpace, s, e);
    if f == |s| || !IsLengthMarker(s[f]) then None
    else
      var g := SkipWhile(IsSpace, s, f + 1);
      if g == |s| || s[g] != '=' then None
      else
        var h := SkipWhile(IsSpace, s, g + 1);
        var k := SkipWhile(IsDigit, s, h);
        if k == h then None else Some(s[h..k])
  }

  /** The pattern anchored at position `i` (`rebar_pattern.match(s, i)`). */
  function MatchAt(s: string, i: nat): (r: Option<Match>)
    requires i <= |s|
    ensures r.Some? ==> r.value.start == i
    ensures r.Some? ==> |r.value.count| > 0 && IsDigits(r.value.count)
    ensures r.Some? ==> |r.value.diameter| > 0 && IsDigits(r.value.diameter)
    ensures r.Some? && r.value.length.Some? ==> IsDigits(r.value.length.value)
  {
    var a := SkipWhile(IsDigit, s, i);
    if a == i then None
    else
      var b := SkipWhile(IsSpace, s, a);
      if b == |s| || !IsSymbol(s[b]) then None
      else
        var c := SkipWhile(IsSpace, s, b + 1);
        var e := SkipWhile(IsDigit, s, c);
        if e == c then None
        else Some(Match(i, s[i..a], s[c..e], LengthTail(s, e)))
  }

  /** `re.search` from position `i` on: the match at the leftmost start. */
  function SearchFrom(s: string, i: nat): (r: Option<Match>)
    requires i <= |s|
    ensures r.Some? ==> i <= r.value.start <= |s| && MatchAt(s, r.value.start) == r
    ensures r.Some? ==> forall j :: i <= j < r.value.start ==> MatchAt(s, j).None?
    ensures r.None? ==> forall j :: i <= j <= |s| ==> MatchAt(s, j).None?
    decreases |s| - i
  {
    if MatchAt(s, i).Some? then MatchAt(s, i)
    else if i == |s| then None
    else SearchFrom(s, i + 1)
  }

  /** `rebar_pattern.search(s)`. */
  function Search(s: string): (r: Option<Match>)
    ensures r.Some? ==> r.value.start <= |s| && MatchAt(s, r.value.start) == r
    ensures r.Some? ==> forall j :: 0 <= j < r.value.start ==> MatchAt(s, j).None?
    ensures r.None? ==> forall j :: 0 <= j <= |s| ==> MatchAt(s, j).None?
  {
    SearchFrom(s, 0)
  }

  // ---------------------------------------------------------------------
  // The matcher agrees with the declarative shape of the pattern.

  /** Whatever the tail scan returns is a tail of the pattern's shape, with
      the digit run taken greedily. */
  lemma LengthTailSound(s: string, e: nat)
    requires e <= |s|
    requires LengthTail(s, e).Some?
    ensures exists f: nat, g: nat, h: nat, k: nat ::
              && TailShape(s, e, f, g, h, k)
              && LengthTail(s, e).value == s[h..k]
              && (k == |s| || !IsDigit(s[k]))
  {
    var f := SkipWhile(IsSpace, s, e);
    var g := SkipWhile(IsSpace, s, f + 1);
    var h := SkipWhile(IsSpace, s, g + 1);
    var k := SkipWhile(IsDigit, s, h);
    assert TailShape(s, e, f, g, h, k);
  }

  /** Whenever the text after `e` has the tail's shape, the tail scan finds
      it (group 3 is present). */
  lemma LengthTailComplete(s: string, e: nat, f: nat, g: nat, h: nat, k: nat)
    requires TailShape(s, e, f, g, h, k)
    ensures LengthTail(s, e).Some?
  {
    SkipWhileAt(IsSpace, s, e, f);
    SkipWhileAt(IsSpace, s, f + 1, g);
    SkipWhileAt(IsSpace, s, g + 1, h);
    assert IsDigit(s[h]);
  }

  /** A match found at `i` lies over the pattern's shape; both digit runs are
      maximal and group 3 is the tail scanned after the diameter. */
  lemma MatchAtSound(s: string, i: nat)
    requires i <= |s|
    requires MatchAt(s, i).Some?
    ensures var m := MatchAt(s, i).value;
            exists a: nat, b: nat, c: nat, e: nat ::
              && CalloutShape(s, i, a, b, c, e)
              && m.count == s[i..a] && m.diameter == s[c..e]
              && (e == |s| || !IsDigit(s[e]))
              && m.length == LengthTail(s, e)
  {
    var a := SkipWhile(IsDigit, s, i);
    var b := SkipWhile(IsSpace, s, a);
    var c := SkipWhile(IsSpace, s, b + 1);
    var e := SkipWhile(IsDigit, s, c);
    assert CalloutShape(s, i, a, b, c, e);
  }

  /** Whenever the pattern's shape starts at `i`, the matcher matches at `i`,
      and its count group is exactly the shape's count digits. */
  lemma MatchAtComplete(s: string, i: nat, a: nat, b: nat, c: nat, e: nat)
    requires CalloutShape(s, i, a, b, c, e)
    ensures MatchAt(s, i).Some? && MatchAt(s, i).value.count == s[i..a]
  {
    SkipWhileAt(IsDigit, s, i, a);
    SkipWhileAt(IsSpace, s, a, b);
    SkipWhileAt(IsSpace, s, b + 1, c);
    assert IsDigit(s[c]);
  }

  /** When the shape's diameter run is maximal, the whole match is the one
      the shape describes. */
  lemma MatchAtExact(s: string, i: nat, a: nat, b: nat, c: nat, e: nat)
    requires CalloutShape(s, i, a, b, c, e)
    requires e == |s| || !IsDigit(s[e])
    ensures MatchAt(s, i) == Some(Match(i, s[i..a], s[c..e], LengthTail(s, e)))
  {
    SkipWhileAt(IsDigit, s, i, a);
    SkipWhileAt(IsSpace, s, a, b);
    SkipWhileAt(IsSpace, s, b + 1, c);
    SkipWhileAt(IsDigit, s, c, e);
  }

  /** No match at `i` when no count digit starts there. */
  lemma NoDigitNoMatch(s: string, i: nat)
    requires i <= |s|
    requires i == |s| || !IsDigit(s[i])
    ensures MatchAt(s, i).None?
  {
    SkipWhileAt(IsDigit, s, i, i);
  }

  /** No match starts anywhere in a stretch `s[lo..hi]` without digits. */
  lemma NoDigitsNoMatch(s: string, lo: nat, hi: nat)
    requires lo <= hi <= |s|
    requires forall k :: lo <= k < hi ==> !IsDigit(s[k])
    ensures forall j :: lo <= j < hi ==> MatchAt(s, j).None?
  {
    forall j | lo <= j < hi
      ensures MatchAt(s, j).None?
    {
      NoDigitNoMatch(s, j);
    }
  }

  /** No match at `i` when the first character after the count digits
      `s[i..a]` and their spaces `s[a..b]` is not a symbol. */
  lemma NoMatchBeforeSymbol(s: string, i: nat, a: nat, b: nat)
    requires i < a <= b <= |s|
    requires forall k :: i <= k < a ==> IsDigit(s[k])
    requires forall k :: a <= k < b ==> IsSpace(s[k])
    requires b == |s| || (!IsSpace(s[b]) && !IsDigit(s[b]) && !IsSymbol(s[b]))
    ensures MatchAt(s, i).None?
  {
    SkipWhileAt(IsDigit, s, i, a);
    SkipWhileAt(IsSpace, s, a, b);
  }

  /** No match at `i` when count digits `s[i..a]`, spaces and a symbol at `b`
      are followed by spaces `s[b+1..c]` and then no digit. */
  lemma NoMatchAfterSymbol(s: string, i: nat, a: nat, b: nat, c: nat)
    requires i < a <= b < c <= |s|
    requires forall k :: i <= k < a ==> IsDigit(s[k])
    requires forall k :: a <= k < b ==> IsSpace(s[k])
    requires IsSymbol(s[b])
    requires forall k :: b + 1 <= k < c ==> IsSpace(s[k])
    requires c == |s| || (!IsSpace(s[c]) && !IsDigit(s[c]))
    ensures MatchAt(s, i).None?
  {
    SkipWhileAt(IsDigit, s, i, a);
    SkipWhileAt(IsSpace, s, a, b);
    SkipWhileAt(IsSpace, s, b + 1, c);
    SkipWhileAt(IsDigit, s, c, c);
  }

  /** Every anchored attempt fails, so `re.search` finds nothing. */
  lemma NoMatchAnywhere(s: string)
    requires forall j :: 0 <= j <= |s| ==> MatchAt(s, j).None?
    ensures Search(s).None?
  {
  }

  /** A digit run reaching the end of the text never starts a match: no
      symbol follows it. */
  lemma TrailingDigitsNoMatch(s: string, lo: nat)
    requires lo <= |s|
    requires forall k :: lo <= k < |s| ==> IsDigit(s[k])
    ensures forall j :: lo <= j <= |s| ==> MatchAt(s, j).None?
  {
    forall j | lo <= j <= |s|
      ensures MatchAt(s, j).None?
    {
      if j < |s| {
        NoMatchBeforeSymbol(s, j, |s|, |s|);
      } else {
        NoDigitNoMatch(s, j);
      }
    }
  }

  /** A word between the count and the symbol (`<count> <word> <symbol><diameter>`)
      defeats the pattern: what follows the count and its spaces is the word,
      which is either no symbol or a symbol with no digit after it, and the
      diameter digits have no symbol after them. */
  lemma WordBeforeSymbolNoMatch(s: string, d1: string, gap1: string, w: string, gap2: string, sym: char, d2: string)
    requires |d1| > 0 && IsDigits(d1) && IsDigits(d2)
    requires forall k :: 0 <= k < |gap1| ==> IsSpace(gap1[k])
    requires forall k :: 0 <= k < |gap2| ==> IsSpace(gap2[k])
    requires |w| > 0 && !IsSpace(w[0])
    requires forall k :: 0 <= k < |w| ==> !IsDigit(w[k])
    requires IsSymbol(sym)
    requires s == d1 + gap1 + w + gap2 + [sym] + d2
    ensures Search(s).None?
  {
    var a := |d1|;
    var b := a + |gap1|;
    var g := b + |w| + |gap2|;
    forall k | 0 <= k < a ensures s[k] == d1[k] { }
    forall k | a <= k < b ensures s[k] == gap1[k - a] { }
    forall k | b <= k < b + |w| ensures s[k] == w[k - b] { }
    forall k | b + |w| <= k < g ensures s[k] == gap2[k - b - |w|] { }
    assert s[g] == sym;
    forall k | g + 1 <= k < |s| ensures s[k] == d2[k - g - 1] { }
    if IsSymbol(w[0]) {
      // The symbol is then `w[0]`, and what follows its spaces is still no digit.
      var c := SkipWhile(IsSpace, s, b + 1);
      assert c <= g by {
        if c > g {
          assert IsSpace(s[g]);
          SymbolIsDistinct(sym);
        }
      }
      forall j | 0 <= j < a
        ensures MatchAt(s, j).None?
      {
        NoMatchAfterSymbol(s, j, a, b, c);
      }
    } else {
      forall j | 0 <= j < a
        ensures MatchAt(s, j).None?
      {
        NoMatchBeforeSymbol(s, j, a, b);
      }
    }
    NoDigitsNoMatch(s, a, g + 1);
    TrailingDigitsNoMatch(s, g + 1);
    NoMatchAnywhere(s);
  }

  /** Two symbol characters in a row (`<count> fi <diameter>`) defeat the
      pattern: the class stands for one character, and the second is neither
      a space nor a digit. */
  lemma DoubleSymbolNoMatch(s: string, d1: string, gap1: string, sym1: char, sym2: char, gap2: string, d2: string)
    requires |d1| > 0 && IsDigits(d1) && IsDigits(d2)
    requires forall k :: 0 <= k < |gap1| ==> IsSpace(gap1[k])
    requires forall k :: 0 <= k < |gap2| ==> IsSpace(gap2[k])
    requires IsSymbol(sym1) && !IsSpace(sym2) && !IsDigit(sym2)
    requires s == d1 + gap1 + [sym1, sym2] + gap2 + d2
    ensures Search(s).None?
  {
    var a := |d1|;
    var b := a + |gap1|;
    var g := b + 2 + |gap2|;
    forall k | 0 <= k < a ensures s[k] == d1[k] { }
    forall k | a <= k < b ensures s[k] == gap1[k - a] { }
    assert s[b] == sym1 && s[b + 1] == sym2;
    forall k | b + 2 <= k < g ensures s[k] == gap2[k - b - 2] { }
    forall k | g <= k < |s| ensures s[k] == d2[k - g] { }
    forall j | 0 <= j < a
      ensures MatchAt(s, j).None?
    {
      NoMatchAfterSymbol(s, j, a, b, b + 1);
    }
    NoDigitsNoMatch(s, a, g);
    TrailingDigitsNoMatch(s, g);
    NoMatchAnywhere(s);
  }

  /** A text with no symbol character anywhere (such as "2045") never matches. */
  lemma NoSymbolNoMatch(s: string)
    requires forall k :: 0 <= k < |s| ==> !IsSymbol(s[k])
    ensures Search(s).None?
  {
    if Search(s).Some? {
      var i := Search(s).value.start;
      MatchAtSound(s, i);
    }
  }

  /** The pattern can be laid over the text starting at `i`. */
  ghost predicate ShapeStartsAt(s: string, i: nat) {
    exists a: nat, b: nat, c: nat, e: nat :: CalloutShape(s, i, a, b, c, e)
  }

  /** The anchored matcher succeeds exactly where the pattern's shape starts. */
  lemma MatchAtIffShape(s: string, i: nat)
    requires i <= |s|
    ensures MatchAt(s, i).Some? <==> ShapeStartsAt(s, i)
  {
    if MatchAt(s, i).Some? {
      MatchAtSound(s, i);
    }
    if ShapeStartsAt(s, i) {
      var a: nat, b: nat, c: nat, e: nat :| CalloutShape(s, i, a, b, c, e);
      MatchAtComplete(s, i, a, b, c, e);
    }
  }

  /** `re.search` returns the occurrence of the pattern's shape with the
      leftmost start, and nothing exactly when the shape occurs nowhere. */
  lemma SearchIsLeftmostShape(s: string)
    ensures Search(s).Some? ==> && Search(s).value.start <= |s|
                                && ShapeStartsAt(s, Search(s).value.start)
                                && forall j :: 0 <= j < Search(s).value.start ==> !ShapeStartsAt(s, j)
    ensures Search(s).None? <==> forall j :: 0 <= j <= |s| ==> !ShapeStartsAt(s, j)
  {
    forall j | 0 <= j <= |s|
      ensures MatchAt(s, j).Some? <==> ShapeStartsAt(s, j)
    {
      MatchAtIffShape(s, j);
    }
  }
}
