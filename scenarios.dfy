/**
 * Concrete inputs worked through the model: time texts, category labels,
 * and a category listing that ends on its second page.
 */
module Scenarios {
  import opened Wrappers
  import opened Text
  import opened ClockTime
  import opened Results
  import opened RowScan
  import opened Pagination

  /** Splitting `h:m:s` on colons gives its three fields, when none holds a colon. */
  lemma SplitClock(h: string, m: string, s: string)
    requires ':' !in h && ':' !in m && ':' !in s
    ensures Split(h + ":" + m + ":" + s, ':') == [h, m, s]
  {
    JoinThree(h, m, s);
    SplitJoin([h, m, s], ':');
  }

  /** The value of a field of one or two digits. */
  lemma FieldValue(p: string)
    requires 1 <= |p| <= 2 && AllDigits(p)
    ensures |p| == 1 ==> DecimalValue(p) == DigitValue(p[0])
    ensures |p| == 2 ==> DecimalValue(p) == DigitValue(p[0]) * 10 + DigitValue(p[1])
  {
    assert p[..|p| - 1][..0] == [];
    if |p| == 2 {
      assert p[..1] == [p[0]];
    }
  }

  /** `h:m:s` with one- or two-digit fields in range reads as the time they spell. */
  lemma ReadsAs(h: string, m: string, s: string, t: Time)
    requires 1 <= |h| <= 2 && 1 <= |m| <= 2 && 1 <= |s| <= 2
    requires AllDigits(h) && AllDigits(m) && AllDigits(s)
    requires t == Time(DecimalValue(h), DecimalValue(m), DecimalValue(s)) && Valid(t)
    ensures ClockTime.Parse(h + ":" + m + ":" + s) == Some(t)
  {
    hide Parse;
    assert Spells(h + ":" + m + ":" + s, h, m, s, t);
    ParseAccepts(h + ":" + m + ":" + s, t);
  }

  /** Zero-padded and unpadded fields are read alike. */
  lemma ParseAcceptsExamples()
    ensures ClockTime.Parse("01:02:03") == Some(Time(1, 2, 3))
    ensures ClockTime.Parse("1:2:3") == Some(Time(1, 2, 3))
    ensures Seconds(Time(1, 2, 3)) == 3723
  {
    hide Parse, Split;
    FieldValue("01"); FieldValue("02"); FieldValue("03");
    ReadsAs("01", "02", "03", Time(1, 2, 3));
    assert "01:02:03" == "01" + ":" + "02" + ":" + "03";
    FieldValue("1"); FieldValue("2"); FieldValue("3");
    ReadsAs("1", "2", "3", Time(1, 2, 3));
    assert "1:2:3" == "1" + ":" + "2" + ":" + "3";
  }

  /** Hour 24 and minute 60 are out of range. */
  lemma ParseRejectsRanges()
    ensures ClockTime.Parse("24:00:00") == None
    ensures ClockTime.Parse("0:60:00") == None
  {
    hide Split;
    assert "24:00:00" == "24" + ":" + "00" + ":" + "00";
    SplitClock("24", "00", "00");
    FieldValue("24");
    assert "0:60:00" == "0" + ":" + "60" + ":" + "00";
    SplitClock("0", "60", "00");
    FieldValue("60");
  }

  /** An empty text, a minutes-and-seconds text and a fractional second are not `%H:%M:%S`. */
  lemma ParseRejectsShapes()
    ensures ClockTime.Parse("") == None
    ensures ClockTime.Parse("02:03") == None
    ensures ClockTime.Parse("01:02:03.5") == None
  {
    hide Split;
    SplitWithoutSeparator("", ':');
    assert "02:03" == "02" + [':'] + "03";
    SplitLeadingPiece("02", ':', "03");
    SplitWithoutSeparator("03", ':');
    assert "01:02:03.5" == "01" + ":" + "02" + ":" + "03.5";
    SplitClock("01", "02", "03.5");
  }

  /** The label is cut at its first colon; a label that starts with one becomes empty. */
  lemma CategoryExamples()
    ensures CategoryName("M30:Men 30-39") == "M30"
    ensures CategoryName("M30") == "M30"
    ensures CategoryName(":Open") == ""
  {
    hide Split;
    SplitLeadingPiece("M30", ':', "Men 30-39");
    assert "M30:Men 30-39" == "M30" + [':'] + "Men 30-39";
    SplitWithoutSeparator("M30", ':');
    SplitLeadingPiece("", ':', "Open");
    assert ":Open" == "" + [':'] + "Open";
  }

  /** A results row with the given start number, time text and category, and blank other cells. */
  function ResultRow(startNumber: string, time: string, category: string): Row {
    ["1", "", "", "", "", time, "", "", startNumber, category]
  }

  /** Page 0 holds a header row and two results, page 1 ends the category, page 2 is never requested. */
  function Listing(c: string): seq<Page> {
    [ [ ["Rank", "Name"],
        ResultRow("101", "0:41:09", "M30:Men 30-39"),
        ResultRow("102", "0:43:30", "W20:Women 20-29") ],
      [ ResultRow("", "", "") ],
      [ ResultRow("103", "bad", "M40") ] ]
  }

  lemma FirstResult()
    ensures RowStep(ResultRow("101", "0:41:09", "M30:Men 30-39")) == Append(ResultData("101", "M30", "0:41:09", 2469))
  {
    hide Parse, Split;
    FieldValue("0"); FieldValue("41"); FieldValue("09");
    ReadsAs("0", "41", "09", Time(0, 41, 9));
    assert "0:41:09" == "0" + ":" + "41" + ":" + "09";
    SplitLeadingPiece("M30", ':', "Men 30-39");
    assert "M30:Men 30-39" == "M30" + [':'] + "Men 30-39";
  }

  /** `str(2469)`, one digit at a time. */
  lemma DecimalExample()
    ensures Decimal(2469) == "2469"
  {
    assert Decimal(2) == "2";
    assert Decimal(24) == Decimal(2) + "4";
    assert Decimal(246) == Decimal(24) + "6";
    assert Decimal(2469) == Decimal(246) + "9";
  }

  /** The record of FirstResult prints as this line. */
  lemma FirstResultLine()
    ensures Serialize(ResultData("101", "M30", "0:41:09", 2469)) == "101,M30,0:41:09,2469"
  {
    hide Serialize, Decimal;
    SerializeSpelledOut(ResultData("101", "M30", "0:41:09", 2469));
    DecimalExample();
  }

  lemma SecondResult()
    ensures RowStep(ResultRow("102", "0:43:30", "W20:Women 20-29")) == Append(ResultData("102", "W20", "0:43:30", 2610))
  {
    hide Parse, Split;
    FieldValue("0"); FieldValue("43"); FieldValue("30");
    ReadsAs("0", "43", "30", Time(0, 43, 30));
    assert "0:43:30" == "0" + ":" + "43" + ":" + "30";
    SplitLeadingPiece("W20", ':', "Women 20-29");
    assert "W20:Women 20-29" == "W20" + [':'] + "Women 20-29";
  }

  lemma HeaderSkipped()
    ensures RowStep(["Rank", "Name"]) == Skip
  {
  }

  lemma SentinelRow()
    ensures RowStep(ResultRow("", "", "")) == EndOfCategory
  {
  }

  /** Page 0 appends its two results and returns True. */
  lemma FirstPage()
    ensures Scan(Listing("c1")[0]) ==
      Run([ResultData("101", "M30", "0:41:09", 2469), ResultData("102", "W20", "0:43:30", 2610)], Returned(true))
  {
    var r0, r1, r2 := ["Rank", "Name"], ResultRow("101", "0:41:09", "M30:Men 30-39"), ResultRow("102", "0:43:30", "W20:Women 20-29");
    assert Listing("c1")[0] == [r0] + [r1, r2];
    hide RowStep, Scan;
    HeaderSkipped();
    FirstResult();
    SecondResult();
    EmptyPageContinues();
    ScanCons(r2, []);
    ScanCons(r1, [r2]);
    ScanCons(r0, [r1, r2]);
  }

  /** Page 1 returns False. */
  lemma SecondPage()
    ensures Scan(Listing("c1")[1]) == Run([], Returned(false))
  {
    hide RowStep, Scan;
    SentinelRow();
    ScanCons(ResultRow("", "", ""), []);
    assert Listing("c1")[1] == [ResultRow("", "", "")] + [];
  }

  /** Two valid rows then an end-of-category row give exactly those two records, in order. */
  lemma TwoResultsThenEnd()
    ensures Fetch(["c1"], Listing) ==
      Completed([ResultData("101", "M30", "0:41:09", 2469), ResultData("102", "W20", "0:43:30", 2610)])
  {
    hide Scan, RowStep;
    var pages := Listing("c1");
    FirstPage();
    SecondPage();
    StopsAtFirstEnd(pages, 1);
    assert pages[..2] == [pages[0], pages[1]];
    assert ["c1"][1..] == [];
  }
}
