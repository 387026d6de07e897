/**
 * Worked examples: single entity texts taken through the recogniser and the
 * calculator.
 */
module Scenarios {
  import opened Wrappers
  import opened Lexing
  import opened Callout
  import opened Extractor
  import opened Calculator

  /** "20 Ø12 L=340" yields one record: 20 bars of 12 mm, 340 cm each. */
  lemma FullCalloutRecord()
    ensures Extracted(["20 \U{D8}12 L=340"]) == [RebarRecord("20 \U{D8}12 L=340", 20, 12, 340)]
  {
    var text := "20 \U{D8}12 L=340";
    assert Decimal(2) == "2" && Decimal(1) == "1" && Decimal(34) == "34";
    assert Decimal(20) == "20" && Decimal(12) == "12" && Decimal(340) == "340";
    assert text == Decimal(20) + " " + ['\U{D8}'] + "" + Decimal(12) + " L=" + Decimal(340);
    CalloutRoundTrip(20, '\U{D8}', 12, 340, " ", "");
    ExtractedSingle(text);
  }

  /** That record makes a 12 mm bucket of 6800 cm, weighing 6800 x 888 cg
      (60.384 kg) and needing 6 stock bars. */
  lemma FullCalloutQuantities(text: string)
    ensures var records := [RebarRecord(text, 20, 12, 340)];
            && Diameters(records) == [12]
            && LineFor(records, 12) == BarLine(6800, 6038400, 6)
            && ProjectWeightCg(records) == 6038400
  {
    var records := [RebarRecord(text, 20, 12, 340)];
    assert records[..0] == [];
    SumOverSingle(records[0], ShareOf(12));
    SumOverSingle(records[0], RecordWeight);
  }

  /** "14 Ø 16": spaces around the symbol are allowed; no `L=` tail gives
      length 0. */
  lemma CalloutWithoutLength()
    ensures Recognise("14 \U{D8} 16") == Some(RebarRecord("14 \U{D8} 16", 14, 16, 0))
  {
    assert Decimal(1) == "1" && Decimal(14) == "14" && Decimal(16) == "16";
    assert "14 \U{D8} 16" == Decimal(14) + " " + ['\U{D8}'] + " " + Decimal(16);
    ShortCalloutRoundTrip(14, '\U{D8}', 16, " ", " ");
  }

  /** "5|12": the `|` written inside the character class is itself a symbol. */
  lemma BarIsASymbol()
    ensures Recognise("5|12") == Some(RebarRecord("5|12", 5, 12, 0))
  {
    assert Decimal(1) == "1" && Decimal(5) == "5" && Decimal(12) == "12";
    assert "5|12" == Decimal(5) + "" + ['|'] + "" + Decimal(12);
    ShortCalloutRoundTrip(5, '|', 12, "", "");
  }

  /** "3ı10": under case-insensitive matching the dotless ı stands for `i`,
      one of the symbols. */
  lemma DotlessIIsASymbol()
    ensures Recognise("3\U{131}10") == Some(RebarRecord("3\U{131}10", 3, 10, 0))
  {
    assert Decimal(1) == "1" && Decimal(3) == "3" && Decimal(10) == "10";
    assert "3\U{131}10" == Decimal(3) + "" + ['\U{131}'] + "" + Decimal(10);
    ShortCalloutRoundTrip(3, '\U{131}', 10, "", "");
  }

  /** "2045": a bare number has no symbol and yields nothing. */
  lemma BareNumber()
    ensures Recognise("2045").None?
  {
    NoSymbolNoRecord("2045");
  }

  /** "14 adet Q16": a word between the count and the symbol defeats the
      pattern; the text yields nothing. */
  lemma WordBeforeSymbol()
    ensures Recognise("14 adet Q16").None?
  {
    assert Decimal(1) == "1" && Decimal(14) == "14" && Decimal(16) == "16";
    assert "14 adet Q16" == Decimal(14) + " " + "adet" + " " + ['Q'] + Decimal(16);
    WordBeforeSymbolNoMatch("14 adet Q16", Decimal(14), " ", "adet", " ", 'Q', Decimal(16));
  }

  /** "14 fi 16": `fi` is two symbol characters, not one, so nothing matches. */
  lemma WordFi()
    ensures Recognise("14 fi 16").None?
  {
    assert Decimal(1) == "1" && Decimal(14) == "14" && Decimal(16) == "16";
    assert "14 fi 16" == Decimal(14) + " " + ['f', 'i'] + " " + Decimal(16);
    DoubleSymbolNoMatch("14 fi 16", Decimal(14), " ", 'f', 'i', " ", Decimal(16));
  }

  /** A record without a length still opens its bucket: 0 cm, 0 weight, 0 bars. */
  lemma ZeroLengthBucket(text: string, count: nat)
    ensures var records := [RebarRecord(text, count, 8, 0)];
            Diameters(records) == [8] && LineFor(records, 8) == BarLine(0, 0, 0)
  {
    var records := [RebarRecord(text, count, 8, 0)];
    assert records[..0] == [];
    SumOverSingle(records[0], ShareOf(8));
  }

  /** A 22 mm record has no unit weight: no bucket and no weight. */
  lemma UnknownDiameter(text: string, count: nat, lengthCm: nat)
    ensures var records := [RebarRecord(text, count, 22, lengthCm)];
            Diameters(records) == [] && ProjectWeightCg(records) == 0
  {
    var records := [RebarRecord(text, count, 22, lengthCm)];
    assert records[..0] == [];
    SumOverSingle(records[0], RecordWeight);
  }

  /** Stock bars at the boundary: 1200 cm is one bar, 1201 cm two, 0 cm none. */
  lemma StockBarBoundaries()
    ensures StockBars(1200) == 1 && StockBars(1201) == 2 && StockBars(0) == 0
  {
  }
}
