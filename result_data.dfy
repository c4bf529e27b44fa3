/**
 * One scraped result (`ResultData`), the normalisation of its category label,
 * and its one-line comma-separated form (`ResultData.__str__`).
 */
module Results {
  import opened Wrappers
  import opened Text

  /**
   * A participant's start number, category, finish time as printed, and that
   * time in whole seconds (the scraper always stores an integer there).
   */
  datatype ResultData = ResultData(startNumber: string, category: string, timeStr: string, timeSeconds: nat)

  /**
   * `text.split(':')[0]`: the category label up to, and not including, the
   * first colon; the whole label when it has none.
   */
  function CategoryName(text: string): (r: string)
    ensures ':' !in r
    ensures r <= text
    ensures |r| < |text| ==> text[|r|] == ':'
  {
    SplitHead(text, ':');
    SplitPieces(text, ':');
    Split(text, ':')[0]
  }

  /** Normalising a normalised category changes nothing. */
  lemma CategoryNameIdempotent(text: string)
    ensures CategoryName(CategoryName(text)) == CategoryName(text)
  {
    SplitWithoutSeparator(CategoryName(text), ':');
  }

  /** `ResultData.__str__`: the four fields joined with commas, the seconds written as by `str`. */
  function Serialize(r: ResultData): string {
    Join([r.startNumber, r.category, r.timeStr, Decimal(r.timeSeconds)], ',')
  }

  /** No text field holds a comma, so the line can be split back unambiguously. */
  predicate CommaFree(r: ResultData) {
    ',' !in r.startNumber && ',' !in r.category && ',' !in r.timeStr
  }

  /** Reads one line in the format Serialize writes; the inverse of Serialize. */
  function ParseLine(line: string): Option<ResultData> {
    var f := Split(line, ',');
    if |f| == 4 && |f[3]| >= 1 && AllDigits(f[3])
    then Some(ResultData(f[0], f[1], f[2], DecimalValue(f[3])))
    else None
  }

  /** The line is the four fields with a comma between each two. */
  lemma SerializeSpelledOut(r: ResultData)
    ensures Serialize(r) == r.startNumber + "," + r.category + "," + r.timeStr + "," + Decimal(r.timeSeconds)
  {
    var parts := [r.startNumber, r.category, r.timeStr, Decimal(r.timeSeconds)];
    assert parts[1..] == [r.category, r.timeStr, Decimal(r.timeSeconds)];
    assert parts[1..][1..] == [r.timeStr, Decimal(r.timeSeconds)];
    assert parts[1..][1..][1..] == [Decimal(r.timeSeconds)];
    assert Join(parts[1..][1..], ',') == r.timeStr + [','] + Decimal(r.timeSeconds);
    assert Join(parts[1..], ',') == r.category + [','] + (r.timeStr + [','] + Decimal(r.timeSeconds));
  }

  /** Splitting the line of a comma-free record on `,` gives back its four fields. */
  lemma {:induction false} SerializeFields(r: ResultData)
    requires CommaFree(r)
    ensures Split(Serialize(r), ',') == [r.startNumber, r.category, r.timeStr, Decimal(r.timeSeconds)]
  {
    SplitJoin([r.startNumber, r.category, r.timeStr, Decimal(r.timeSeconds)], ',');
  }

  /** A comma-free record survives being written and read back. */
  lemma {:induction false} SerializeRoundTrip(r: ResultData)
    requires CommaFree(r)
    ensures ParseLine(Serialize(r)) == Some(r)
  {
    SerializeFields(r);
    DecimalRoundTrip(r.timeSeconds);
  }

  /** A comma inside a field makes the line split into more than four pieces, so it does not read back. */
  lemma {:induction false} CommaBreaksRoundTrip(r: ResultData)
    requires !CommaFree(r)
    ensures |Split(Serialize(r), ',')| > 4
    ensures ParseLine(Serialize(r)) == None
  {
    var parts := [r.startNumber, r.category, r.timeStr, Decimal(r.timeSeconds)];
    if ',' in r.startNumber {
      assert ',' in parts[0];
    } else if ',' in r.category {
      assert ',' in parts[1];
    } else {
      assert ',' in parts[2];
    }
    SplitGrows(parts, ',');
  }

  /** Splitting a join gives at least as many pieces, and more when a piece holds the separator. */
  lemma {:induction false} SplitGrows(parts: seq<string>, d: char)
    requires |parts| >= 1
    ensures |Split(Join(parts, d), d)| >= |parts|
    ensures (exists i :: 0 <= i < |parts| && d in parts[i]) ==> |Split(Join(parts, d), d)| > |parts|
    decreases |parts|
  {
    if |parts| == 1 {
      SplitCount(parts[0], d);
    } else {
      SplitJoinCount(parts[0], d, Join(parts[1..], d));
      SplitCount(parts[0], d);
      SplitGrows(parts[1..], d);
      if exists i :: 0 <= i < |parts| && d in parts[i] {
        var i :| 0 <= i < |parts| && d in parts[i];
        if i > 0 {
          assert d in parts[1..][i - 1];
        }
      }
    }
  }

  /** Text holding the separator splits into more than one piece. */
  lemma {:induction false} SplitCount(s: string, d: char)
    ensures d in s ==> |Split(s, d)| > 1
    decreases |s|
  {
    if s != [] && s[0] != d {
      SplitCount(s[1..], d);
      assert d in s ==> d in s[1..];
    }
  }

  /** Splitting `p + [d] + rest` gives the pieces of `p` followed by those of `rest`. */
  lemma {:induction false} SplitJoinCount(p: string, d: char, rest: string)
    ensures |Split(p + [d] + rest, d)| == |Split(p, d)| + |Split(rest, d)|
    decreases |p|
  {
    if p == [] {
      assert (p + [d] + rest)[1..] == rest;
    } else {
      assert (p + [d] + rest)[1..] == p[1..] + [d] + rest;
      SplitJoinCount(p[1..], d, rest);
    }
  }
}
