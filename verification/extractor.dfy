/**
 * `RebarExtractor.parse_dxf` (main.py:16-40) over the texts of the drawing's
 * TEXT and MTEXT entities, in entity order: every text the callout pattern
 * finds something in gives one record, built from the first match's groups.
 */
module Extractor {
  import opened Wrappers
  import opened Lexing
  import opened Callout

  /** One entry of `extracted_data`: `raw_text`, `count`, `diameter`, `length_cm`. */
  datatype RebarRecord = RebarRecord(rawText: string, count: nat, diameter: nat, lengthCm: nat)

  /** The record built from the groups of a match on `text`; a missing
      group 3 gives length 0. */
  function RecordOf(text: string, m: Match): RebarRecord
    requires IsDigits(m.count) && IsDigits(m.diameter)
    requires m.length.Some? ==> IsDigits(m.length.value)
  {
    RebarRecord(text, Value(m.count), Value(m.diameter),
                if m.length.Some? then Value(m.length.value) else 0)
  }

  /** The record one entity text contributes, if any. */
  function Recognise(text: string): (r: Option<RebarRecord>)
    ensures r.Some? ==> r.value.rawText == text
  {
    match Search(text)
    case None => None
    case Some(m) => Some(RecordOf(text, m))
  }

  /** The records a sequence of entity texts yields, in order. */
  function Extracted(texts: seq<string>): (records: seq<RebarRecord>)
    ensures |records| <= |texts|
  {
    if texts == [] then []
    else
      var last := texts[|texts| - 1];
      Extracted(texts[..|texts| - 1]) + (if Recognise(last).Some? then [Recognise(last).value] else [])
  }

  /** The entity loop of `parse_dxf`: search each text and append a record
      for every text that matches. */
  method ParseTexts(texts: seq<string>) returns (extracted: seq<RebarRecord>)
    ensures extracted == Extracted(texts)
  {
    extracted := [];
    for i := 0 to |texts|
      invariant extracted == Extracted(texts[..i])
    {
      var textContent := texts[i];
      var found := Search(textContent);
      if found.Some? {
        var m := found.value;
        var count := Value(m.count);
        var diameter := Value(m.diameter);
        var length := if m.length.Some? then Value(m.length.value) else 0;
        extracted := extracted + [RebarRecord(textContent, count, diameter, length)];
      }
      assert texts[..i + 1][..i] == texts[..i];
    }
    assert texts[..|texts|] == texts;
  }

  /** Converting the groups inverts printing: groups holding `str(count)`,
      `str(diameter)` and `str(length)` give back those numbers. */
  lemma RecordOfDecimal(text: string, start: nat, count: nat, diameter: nat, length: Option<nat>)
    ensures var m := Match(start, Decimal(count), Decimal(diameter),
                           if length.Some? then Some(Decimal(length.value)) else None);
            RecordOf(text, m) == RebarRecord(text, count, diameter, if length.Some? then length.value else 0)
  {
    ValueOfDecimal(count);
    ValueOfDecimal(diameter);
    if length.Some? {
      ValueOfDecimal(length.value);
    }
  }

  // ---------------------------------------------------------------------
  // What one text yields, stated against the pattern's shape.

  /** The text after position `e` has the shape of the length tail. */
  ghost predicate HasTail(s: string, e: nat) {
    exists f: nat, g: nat, h: nat, k: nat :: TailShape(s, e, f, g, h, k)
  }

  /** `v` is the length the tail after `e` gives: the value of its greedy
      digit run, or 0 when there is no tail. */
  ghost predicate TailGives(s: string, e: nat, v: nat) {
    if HasTail(s, e) then
      exists f: nat, g: nat, h: nat, k: nat ::
        && TailShape(s, e, f, g, h, k)
        && (k == |s| || !IsDigit(s[k]))
        && v == Value(s[h..k])
    else v == 0
  }

  /** `r` is the record read off the leftmost occurrence `s[i..e]` of the
      pattern's shape in `text`: its count is the first digit run, its
      diameter the (whole) digit run after the symbol, its length the `L=`
      digits or 0, and it keeps the whole text. */
  ghost predicate ReadFrom(text: string, i: nat, a: nat, b: nat, c: nat, e: nat, r: RebarRecord) {
    && CalloutShape(text, i, a, b, c, e)
    && (forall j :: 0 <= j < i ==> !ShapeStartsAt(text, j))
    && (e == |text| || !IsDigit(text[e]))
    && r.rawText == text
    && r.count == Value(text[i..a])
    && r.diameter == Value(text[c..e])
    && TailGives(text, e, r.lengthCm)
  }

  /** A text yields a record exactly when the pattern's shape occurs in it. */
  lemma RecogniseIffShape(text: string)
    ensures Recognise(text).None? <==> forall j :: 0 <= j <= |text| ==> !ShapeStartsAt(text, j)
  {
    SearchIsLeftmostShape(text);
  }

  /** The record a text yields is the one read off the leftmost occurrence
      of the pattern's shape. */
  lemma RecogniseReadsLeftmost(text: string)
    requires Recognise(text).Some?
    ensures exists i: nat, a: nat, b: nat, c: nat, e: nat :: ReadFrom(text, i, a, b, c, e, Recognise(text).value)
  {
    SearchIsLeftmostShape(text);
    var m := Search(text).value;
    var i := m.start;
    MatchAtSound(text, i);
    var a: nat, b: nat, c: nat, e: nat :|
      && CalloutShape(text, i, a, b, c, e)
      && m.count == text[i..a] && m.diameter == text[c..e]
      && (e == |text| || !IsDigit(text[e]))
      && m.length == LengthTail(text, e);
    var r := Recognise(text).value;
    if m.length.Some? {
      LengthTailSound(text, e);
    } else if HasTail(text, e) {
      var f: nat, g: nat, h: nat, k: nat :| TailShape(text, e, f, g, h, k);
      LengthTailComplete(text, e, f, g, h, k);
    }
    assert TailGives(text, e, r.lengthCm);
    assert ReadFrom(text, i, a, b, c, e, r);
  }

  /** A text without a single symbol character yields no record. */
  lemma NoSymbolNoRecord(text: string)
    requires forall k :: 0 <= k < |text| ==> !IsSymbol(text[k])
    ensures Recognise(text).None?
  {
    NoSymbolNoMatch(text);
  }

  /** The anchored matcher on a text laid out piece by piece: count digits,
      spaces, a symbol, spaces, diameter digits, then anything that does not
      start with a digit. */
  lemma MatchAtPieces(text: string, d1: string, gap1: string, symbol: char, gap2: string, d2: string, rest: string, e: nat)
    requires |d1| > 0 && IsDigits(d1) && |d2| > 0 && IsDigits(d2)
    requires IsSymbol(symbol)
    requires forall k :: 0 <= k < |gap1| ==> IsSpace(gap1[k])
    requires forall k :: 0 <= k < |gap2| ==> IsSpace(gap2[k])
    requires rest == [] || !IsDigit(rest[0])
    requires text == d1 + gap1 + [symbol] + gap2 + d2 + rest
    requires e == |d1| + |gap1| + 1 + |gap2| + |d2|
    ensures e <= |text|
    ensures MatchAt(text, 0) == Some(Match(0, d1, d2, LengthTail(text, e)))
  {
    var a := |d1|;
    var b := a + |gap1|;
    var c := b + 1 + |gap2|;
    forall k | 0 <= k < a ensures text[k] == d1[k] { }
    forall k | a <= k < b ensures text[k] == gap1[k - a] { }
    assert text[b] == symbol;
    forall k | b + 1 <= k < c ensures text[k] == gap2[k - b - 1] { }
    forall k | c <= k < e ensures text[k] == d2[k - c] { }
    assert e < |text| ==> text[e] == rest[0];
    assert CalloutShape(text, 0, a, b, c, e);
    MatchAtExact(text, 0, a, b, c, e);
    assert text[0..a] == d1;
    assert text[c..e] == d2;
    assert MatchAt(text, 0) == Some(Match(0, d1, d2, LengthTail(text, e)));
  }

  /** The length tail ` L=<digits>` at the very end of a text. */
  lemma LengthTailAtEnd(head: string, d3: string)
    requires |d3| > 0 && IsDigits(d3)
    ensures LengthTail(head + " L=" + d3, |head|) == Some(d3)
  {
    var text := head + " L=" + d3;
    var e := |head|;
    assert text[e] == ' ' && text[e + 1] == 'L' && text[e + 2] == '=';
    forall k | e + 3 <= k < |text| ensures text[k] == d3[k - e - 3] { }
    SkipWhileAt(IsSpace, text, e, e + 1);
    SkipWhileAt(IsSpace, text, e + 2, e + 2);
    SkipWhileAt(IsSpace, text, e + 3, e + 3);
    SkipWhileAt(IsDigit, text, e + 3, |text|);
    assert text[e + 3..|text|] == d3;
  }

  /** Round trip: a callout printed as `<count><spaces><symbol><spaces><diameter> L=<length>`
      is read back as exactly those three numbers. */
  lemma CalloutRoundTrip(count: nat, symbol: char, diameter: nat, length: nat, gap1: string, gap2: string)
    requires IsSymbol(symbol)
    requires forall k :: 0 <= k < |gap1| ==> IsSpace(gap1[k])
    requires forall k :: 0 <= k < |gap2| ==> IsSpace(gap2[k])
    ensures var text := Decimal(count) + gap1 + [symbol] + gap2 + Decimal(diameter) + " L=" + Decimal(length);
            Recognise(text) == Some(RebarRecord(text, count, diameter, length))
  {
    var d1, d2, d3 := Decimal(count), Decimal(diameter), Decimal(length);
    var head := d1 + gap1 + [symbol] + gap2 + d2;
    var text := head + " L=" + d3;
    assert text == d1 + gap1 + [symbol] + gap2 + d2 + (" L=" + d3);
    MatchAtPieces(text, d1, gap1, symbol, gap2, d2, " L=" + d3, |head|);
    LengthTailAtEnd(head, d3);
    ValueOfDecimal(count);
    ValueOfDecimal(diameter);
    ValueOfDecimal(length);
  }

  /** Round trip without the length tail: the length reads as 0. */
  lemma ShortCalloutRoundTrip(count: nat, symbol: char, diameter: nat, gap1: string, gap2: string)
    requires IsSymbol(symbol)
    requires forall k :: 0 <= k < |gap1| ==> IsSpace(gap1[k])
    requires forall k :: 0 <= k < |gap2| ==> IsSpace(gap2[k])
    ensures var text := Decimal(count) + gap1 + [symbol] + gap2 + Decimal(diameter);
            Recognise(text) == Some(RebarRecord(text, count, diameter, 0))
  {
    var d1, d2 := Decimal(count), Decimal(diameter);
    var text := d1 + gap1 + [symbol] + gap2 + d2;
    assert text == d1 + gap1 + [symbol] + gap2 + d2 + [];
    MatchAtPieces(text, d1, gap1, symbol, gap2, d2, [], |text|);
    ValueOfDecimal(count);
    ValueOfDecimal(diameter);
  }

  // ---------------------------------------------------------------------
  // The loop over entities.

  /** Texts are processed one after the other: the records of a longer list
      are those of its first part followed by those of the rest. */
  lemma {:induction false} ExtractedAppend(xs: seq<string>, ys: seq<string>)
    ensures Extracted(xs + ys) == Extracted(xs) + Extracted(ys)
    decreases |ys|
  {
    if ys == [] {
      assert xs + ys == xs;
    } else {
      var ys' := ys[..|ys| - 1];
      assert (xs + ys)[..|xs + ys| - 1] == xs + ys';
      ExtractedAppend(xs, ys');
    }
  }

  /** A single text yields at most one record: the one `Recognise` gives. */
  lemma ExtractedSingle(text: string)
    ensures Extracted([text]) == if Recognise(text).Some? then [Recognise(text).value] else []
  {
    assert [text][..0] == [];
  }

  /** Each record carries one of the input texts verbatim and is what that
      text yields. */
  lemma {:induction false} ExtractedFromInput(texts: seq<string>)
    ensures forall r :: r in Extracted(texts) ==> r.rawText in texts && Recognise(r.rawText) == Some(r)
  {
    if texts != [] {
      var init := texts[..|texts| - 1];
      ExtractedFromInput(init);
      forall r | r in Extracted(texts)
        ensures r.rawText in texts && Recognise(r.rawText) == Some(r)
      {
        if r in Extracted(init) {
          assert r.rawText in init;
        }
      }
    }
  }
}
