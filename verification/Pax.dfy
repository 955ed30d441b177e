/** PAX extended headers: the record parser, the language it accepts, and the fields it hands to an entry. */
module Pax {
  import opened Common
  import opened Text

  const MAX_PAX_BYTES: nat := 1024 * 1024

  datatype Record = Record(key: string, value: Bytes)

  // ---------------------------------------------------------------- the language

  predicate ValidKey(key: string) {
    key != "" && '=' !in key && ValidUtf8(key)
  }

  /** What follows the length of a record. */
  function Body(r: Record): Bytes {
    " " + r.key + "=" + r.value + "\n"
  }

  /** `text` is `<len> <key>=<value>\n` where `<len>` is the decimal length of `text` itself. */
  predicate IsRecord(text: Bytes, r: Record) {
    ValidKey(r.key) && text == Numeral(|text|, 10) + Body(r)
  }

  /** `payload` is a sequence of such records, one after the other. */
  ghost predicate IsConcatenation(payload: Bytes, records: seq<Record>)
    decreases |records|
  {
    if records == [] then payload == ""
    else exists n: nat :: IsCut(payload, n, records[0]) && IsConcatenation(payload[n..], records[1..])
  }

  predicate IsCut(payload: Bytes, n: nat, r: Record) {
    0 < n <= |payload| && IsRecord(payload[..n], r)
  }

  predicate DistinctKeys(records: seq<Record>) {
    forall i, j :: 0 <= i < j < |records| ==> records[i].key != records[j].key
  }

  // ---------------------------------------------------------------- the parser

  datatype Cut = Cut(record: Record, length: nat)

  /** The record at the start of `text`, or None where the parser fails. */
  function FirstRecord(text: Bytes): (c: Option<Cut>)
    ensures c.Some? ==> 0 < c.value.length <= |text|
  {
    var separator := Find(text, ' ');
    var digits := text[..separator];
    if separator == |text| || digits == "" || digits[0] == '0' || !AllDigits(digits, 10) then None
    else
      var n := Value(digits, 10);
      if n > |text| || n <= separator + 2 then None
      else
        var record := text[separator + 1..n];
        if Last(record) != '\n' then None
        else
          var assignment := Front(record);
          var equals := Find(assignment, '=');
          if equals == 0 || equals == |assignment| || !ValidUtf8(assignment[..equals]) then None
          else Some(Cut(Record(assignment[..equals], assignment[equals + 1..]), n))
  }

  predicate KeySeen(seen: seq<Record>, key: string) {
    exists r :: r in seen && r.key == key
  }

  /** The records of `text` after those in `seen`. */
  function RecordsFrom(text: Bytes, seen: seq<Record>): Option<seq<Record>>
    decreases |text|
  {
    if text == "" then Some(seen)
    else
      match FirstRecord(text)
      case None => None
      case Some(cut) =>
        if KeySeen(seen, cut.record.key) then None
        else RecordsFrom(text[cut.length..], seen + [cut.record])
  }

  function Records(payload: Bytes): Option<seq<Record>> {
    if |payload| > MAX_PAX_BYTES then None else RecordsFrom(payload, [])
  }

  /** The body of the loop of `parse_pax_records`: the record at `offset`, and where it ends. */
  method ReadRecord(payload: Bytes, offset: nat) returns (r: Option<Record>, end: nat)
    requires offset < |payload|
    ensures end >= offset
    ensures FirstRecord(payload[offset..]).Some? <==> r.Some?
    ensures r.Some? ==> FirstRecord(payload[offset..]) == Some(Cut(r.value, end - offset))
  {
    ghost var rest := payload[offset..];
    end := offset;
    var separator := offset + Find(payload[offset..], ' ');
    if separator == |payload| {
      return None, end;
    }
    var encodedLength := payload[offset..separator];
    assert encodedLength == rest[..separator - offset];
    if encodedLength == "" || encodedLength[0] == '0' || !AllDigits(encodedLength, 10) {
      return None, end;
    }
    var length := Value(encodedLength, 10);
    if offset + length > |payload| || offset + length <= separator + 2 {
      return None, end;
    }
    end := offset + length;
    var record := payload[separator + 1..end];
    assert record == rest[separator - offset + 1..length];
    if Last(record) != '\n' {
      return None, end;
    }
    var assignment := Front(record);
    var equals := Find(assignment, '=');
    if equals == 0 || equals == |assignment| || !ValidUtf8(assignment[..equals]) {
      return None, end;
    }
    r := Some(Record(assignment[..equals], assignment[equals + 1..]));
  }

  /** `parse_pax_records`; the dictionary is a list in insertion order. */
  method ParsePaxRecords(payload: Bytes) returns (r: Option<seq<Record>>)
    ensures r == Records(payload)
  {
    if |payload| > MAX_PAX_BYTES {
      return None;
    }
    var records: seq<Record> := [];
    var offset := 0;
    while offset < |payload|
      invariant 0 <= offset <= |payload|
      invariant Records(payload) == RecordsFrom(payload[offset..], records)
    {
      var record, end := ReadRecord(payload, offset);
      if record.None? || KeySeen(records, record.value.key) {
        return None;
      }
      records := records + [record.value];
      assert payload[offset..][end - offset..] == payload[end..];
      offset := end;
    }
    return Some(records);
  }

  // ---------------------------------------------------------------- the parser accepts exactly the language

  lemma FirstRecordIsARecord(text: Bytes)
    requires FirstRecord(text).Some?
    ensures IsCut(text, FirstRecord(text).value.length, FirstRecord(text).value.record)
  {
    hide ValidUtf8, Numeral, Value;
    var cut := FirstRecord(text).value;
    var separator := Find(text, ' ');
    var digits := text[..separator];
    var record := text[separator + 1..cut.length];
    var assignment := Front(record);
    var equals := Find(assignment, '=');
    NumeralOfValue(digits, 10);
    assert assignment == cut.record.key + "=" + cut.record.value;
    assert record == assignment + "\n";
    assert text[..cut.length] == digits + " " + record;
    assert text[..cut.length] == digits + Body(cut.record);
    assert '=' !in cut.record.key;
  }

  lemma RecordIsFirst(text: Bytes, n: nat, r: Record)
    requires IsCut(text, n, r)
    ensures FirstRecord(text) == Some(Cut(r, n))
  {
    hide ValidUtf8, Numeral, Value;
    var digits := Numeral(n, 10);
    var body := Body(r);
    var assignment := r.key + "=" + r.value;
    var tail := text[n..];
    assert text == text[..n] + tail;
    assert text == digits + [' '] + (assignment + "\n" + tail);
    DigitsHaveNoSpace(digits);
    FindAfterPrefix(digits, ' ', assignment + "\n" + tail);
    assert text[..|digits|] == digits;
    ValueOfNumeral(n, 10);
    NumeralStartsPositive(n, 10);
    assert text[|digits| + 1..n] == assignment + "\n";
    assert assignment == r.key + ['='] + r.value;
    FindAfterPrefix(r.key, '=', r.value);
    assert assignment[..|r.key|] == r.key && assignment[|r.key| + 1..] == r.value;
  }

  lemma DigitsHaveNoSpace(digits: string)
    requires AllDigits(digits, 10)
    ensures ' ' !in digits
  {
  }

  /** Keys that `records` may still use when those of `seen` are taken. */
  predicate FreshKeys(seen: seq<Record>, records: seq<Record>) {
    && DistinctKeys(records)
    && forall i :: 0 <= i < |records| ==> !KeySeen(seen, records[i].key)
  }

  lemma FreshKeysStep(seen: seq<Record>, records: seq<Record>)
    requires records != []
    ensures FreshKeys(seen, records) <==> !KeySeen(seen, records[0].key) && FreshKeys(seen + [records[0]], records[1..])
  {
    var rest := records[1..];
    forall key
      ensures KeySeen(seen + [records[0]], key) <==> KeySeen(seen, key) || records[0].key == key
    {
      if records[0].key == key { assert records[0] in seen + [records[0]]; }
      if KeySeen(seen, key) {
        var r :| r in seen && r.key == key;
        assert r in seen + [records[0]];
      }
    }
    if FreshKeys(seen, records) {
      forall i | 0 <= i < |rest|
        ensures !KeySeen(seen + [records[0]], rest[i].key)
      {
        assert rest[i] == records[i + 1];
      }
    }
    if !KeySeen(seen, records[0].key) && FreshKeys(seen + [records[0]], rest) {
      forall i | 0 < i < |records|
        ensures records[i].key != records[0].key && !KeySeen(seen, records[i].key)
      {
        assert records[i] == rest[i - 1];
      }
      assert forall i, j :: 0 < i < j < |records| ==> records[i] == rest[i - 1] && records[j] == rest[j - 1];
    }
  }

  lemma PrependRecord(text: Bytes, seen: seq<Record>, n: nat, r: Record, rest: seq<Record>)
    requires IsCut(text, n, r) && IsConcatenation(text[n..], rest)
    requires !KeySeen(seen, r.key) && FreshKeys(seen + [r], rest)
    ensures IsConcatenation(text, [r] + rest) && FreshKeys(seen, [r] + rest)
    ensures seen + [r] + rest == seen + ([r] + rest)
  {
    var records := [r] + rest;
    assert records[1..] == rest && records[0] == r;
    FreshKeysStep(seen, records);
  }

  lemma RecordsFromStep(text: Bytes, seen: seq<Record>) returns (n: nat, r: Record)
    requires text != "" && RecordsFrom(text, seen).Some?
    ensures IsCut(text, n, r) && !KeySeen(seen, r.key)
    ensures RecordsFrom(text[n..], seen + [r]) == RecordsFrom(text, seen)
  {
    FirstRecordIsARecord(text);
    n, r := FirstRecord(text).value.length, FirstRecord(text).value.record;
  }

  lemma {:induction false} RecordsFromSound(text: Bytes, seen: seq<Record>, out: seq<Record>)
    returns (records: seq<Record>)
    requires RecordsFrom(text, seen) == Some(out)
    ensures out == seen + records
    ensures IsConcatenation(text, records) && FreshKeys(seen, records)
    decreases |text|
  {
    if text == "" {
      records := [];
    } else {
      var n, r := RecordsFromStep(text, seen);
      var rest := RecordsFromSound(text[n..], seen + [r], out);
      records := [r] + rest;
      PrependRecord(text, seen, n, r, rest);
    }
  }

  lemma {:induction false} RecordsFromComplete(text: Bytes, seen: seq<Record>, records: seq<Record>)
    requires IsConcatenation(text, records) && FreshKeys(seen, records)
    ensures RecordsFrom(text, seen) == Some(seen + records)
    decreases |records|
  {
    if records == [] {
      assert seen + records == seen;
    } else {
      var n: nat :| IsCut(text, n, records[0]) && IsConcatenation(text[n..], records[1..]);
      RecordIsFirst(text, n, records[0]);
      FreshKeysStep(seen, records);
      RecordsFromComplete(text[n..], seen + [records[0]], records[1..]);
      assert seen + [records[0]] + records[1..] == seen + records;
    }
  }

  /**
   * `parse_pax_records` accepts exactly the concatenations of self-counting records with distinct keys
   * within its size bound, and returns those records.
   */
  lemma PaxBothWays(payload: Bytes, records: seq<Record>)
    ensures Records(payload) == Some(records)
            <==> |payload| <= 1024 * 1024 && IsConcatenation(payload, records) && DistinctKeys(records)
  {
    hide RecordsFrom, IsConcatenation;
    if Records(payload) == Some(records) {
      var found := RecordsFromSound(payload, [], records);
      assert [] + found == found;
    }
    if |payload| <= MAX_PAX_BYTES && IsConcatenation(payload, records) && DistinctKeys(records) {
      RecordsFromComplete(payload, [], records);
      assert [] + records == records;
    }
  }

  /** No payload, of any size and with any keys, can be read as two different lists of records. */
  lemma {:induction false} PaxDecodingIsUnique(payload: Bytes, a: seq<Record>, b: seq<Record>)
    requires IsConcatenation(payload, a) && IsConcatenation(payload, b)
    ensures a == b
    decreases |a|
  {
    hide FirstRecord, IsRecord;
    if a == [] || b == [] {
      NothingIsCutFromNothing(payload, a);
      NothingIsCutFromNothing(payload, b);
    } else {
      var n: nat :| IsCut(payload, n, a[0]) && IsConcatenation(payload[n..], a[1..]);
      var m: nat :| IsCut(payload, m, b[0]) && IsConcatenation(payload[m..], b[1..]);
      RecordIsFirst(payload, n, a[0]);
      RecordIsFirst(payload, m, b[0]);
      PaxDecodingIsUnique(payload[n..], a[1..], b[1..]);
      assert a == [a[0]] + a[1..] && b == [b[0]] + b[1..];
    }
  }

  lemma NothingIsCutFromNothing(payload: Bytes, records: seq<Record>)
    requires IsConcatenation(payload, records)
    ensures payload == "" <==> records == []
  {
  }

  // ---------------------------------------------------------------- self-counting lengths

  /** `n` is the decimal length of its own numeral and `rest` more bytes. */
  predicate CountsItself(n: nat, rest: nat) {
    |Numeral(n, 10)| + rest == n
  }

  /** A self-counting length for `rest` bytes after the digits; `SelfCountIsLeast` says which. */
  function SelfCount(rest: nat): nat {
    var d := |Numeral(rest, 10)|;
    if |Numeral(rest + d, 10)| == d then rest + d else rest + d + 1
  }

  lemma {:induction false} NumeralLength(n: nat, d: nat)
    requires d > 0
    ensures |Numeral(n, 10)| <= d <==> n < Power(10, d)
  {
    if d == 1 {
      assert Power(10, 1) == 10 * Power(10, 0);
    } else if n >= 10 {
      NumeralLength(n / 10, d - 1);
    } else {
      PowerGrows(d);
    }
  }

  lemma {:induction false} PowerGrows(d: nat)
    ensures Power(10, d) > d
  {
    if d > 0 {
      PowerGrows(d - 1);
    }
  }

  /** Every body has a self-counting length. */
  lemma SelfCountCounts(rest: nat)
    ensures CountsItself(SelfCount(rest), rest)
  {
    var d := |Numeral(rest, 10)|;
    NumeralLength(rest, d);
    PowerGrows(d);
    if d > 1 {
      NumeralLength(rest, d - 1);
      NumeralLength(rest + d, d - 1);
    }
    NumeralLength(rest + d, d);
    NumeralLength(rest + d + 1, d);
    NumeralLength(rest + d + 1, d + 1);
    assert Power(10, d + 1) == 10 * Power(10, d);
  }

  /** The text of one record with its least length. */
  function RecordText(r: Record): Bytes {
    Numeral(SelfCount(|Body(r)|), 10) + Body(r)
  }

  lemma RecordTextIsRecord(r: Record)
    requires ValidKey(r.key)
    ensures IsRecord(RecordText(r), r) && RecordText(r) != ""
  {
    SelfCountCounts(|Body(r)|);
  }

  function PaxText(records: seq<Record>): Bytes {
    if records == [] then "" else RecordText(records[0]) + PaxText(records[1..])
  }

  lemma {:induction false} PaxTextIsConcatenation(records: seq<Record>)
    requires forall i :: 0 <= i < |records| ==> ValidKey(records[i].key)
    ensures IsConcatenation(PaxText(records), records)
  {
    if records != [] {
      var first := RecordText(records[0]);
      RecordTextIsRecord(records[0]);
      PaxTextIsConcatenation(records[1..]);
      var text := PaxText(records);
      assert text[..|first|] == first && text[|first|..] == PaxText(records[1..]);
      assert IsCut(text, |first|, records[0]);
    }
  }

  /** Writing records and parsing them gives the records back. */
  lemma PaxRoundTrip(records: seq<Record>)
    requires forall i :: 0 <= i < |records| ==> ValidKey(records[i].key)
    requires DistinctKeys(records) && |PaxText(records)| <= MAX_PAX_BYTES
    ensures Records(PaxText(records)) == Some(records)
  {
    PaxTextIsConcatenation(records);
    PaxBothWays(PaxText(records), records);
  }

  /** Two lengths count themselves around one body only if they are 99..9 and 100..0. */
  lemma TwoSelfCountingLengths(rest: nat, n: nat, m: nat)
    requires n < m && CountsItself(n, rest) && CountsItself(m, rest)
    ensures m == n + 1 && m == Power(10, |Numeral(n, 10)|)
  {
    var d, e := |Numeral(n, 10)|, |Numeral(m, 10)|;
    NumeralLength(n, d);
    NumeralLength(m, d);
    PowerAhead(d, e - d);
    if e > d + 1 {
      NumeralLength(m, e - 1);
      PowerAhead(d, e - 1 - d);
    }
  }

  /** No shorter length counts itself. */
  lemma SelfCountIsLeast(rest: nat, n: nat)
    requires CountsItself(n, rest)
    ensures SelfCount(rest) <= n
  {
    SelfCountCounts(rest);
    if n < SelfCount(rest) {
      TwoSelfCountingLengths(rest, n, SelfCount(rest));
      NumeralLength(n, |Numeral(n, 10)|);
      NumeralLength(rest, |Numeral(n, 10)|);
    }
  }

  /** The length is unique for a body of `rest` bytes. */
  ghost predicate LengthIsUnique(rest: nat) {
    forall n: nat, m: nat :: CountsItself(n, rest) && CountsItself(m, rest) ==> n == m
  }

  /**
   * A body has exactly one self-counting length, unless its least one is all nines; then it has exactly
   * two, and the other one is the power of ten after it.
   */
  lemma LengthIsUniqueExactly(rest: nat)
    ensures LengthIsUnique(rest) <==> SelfCount(rest) + 1 != Power(10, |Numeral(SelfCount(rest), 10)|)
    ensures !LengthIsUnique(rest)
            ==> forall n: nat :: CountsItself(n, rest) <==> n == SelfCount(rest) || n == SelfCount(rest) + 1
  {
    var least := SelfCount(rest);
    var d := |Numeral(least, 10)|;
    SelfCountCounts(rest);
    forall n: nat | CountsItself(n, rest)
      ensures n == least || (n == least + 1 && least + 1 == Power(10, d))
    {
      SelfCountIsLeast(rest, n);
      if n != least {
        TwoSelfCountingLengths(rest, least, n);
      }
    }
    if least + 1 == Power(10, d) {
      NumeralLength(least + 1, d);
      NumeralLength(least + 1, d + 1);
      assert Power(10, d + 1) == 10 * Power(10, d);
      assert CountsItself(least + 1, rest);
    }
  }

  /** The same condition on the body alone, for bodies that `digits` digits can count. */
  lemma AmbiguousBodies(rest: nat)
    ensures !LengthIsUnique(rest) <==> exists digits: nat :: digits > 0 && Ambiguous(rest, digits)
  {
    LengthIsUniqueExactly(rest);
    SelfCountCounts(rest);
    var d := |Numeral(SelfCount(rest), 10)|;
    if !LengthIsUnique(rest) {
      assert Ambiguous(rest, d);
    }
    forall digits: nat | digits > 0 && Ambiguous(rest, digits)
      ensures !LengthIsUnique(rest)
    {
      NinesCount(rest, digits);
    }
  }

  /** `rest + digits` is written with `digits` nines. */
  predicate Ambiguous(rest: nat, digits: nat) {
    rest + digits + 1 == Power(10, digits)
  }

  lemma NinesCount(rest: nat, digits: nat)
    requires digits > 0 && Ambiguous(rest, digits)
    ensures CountsItself(rest + digits, rest) && CountsItself(rest + digits + 1, rest)
  {
    var n := rest + digits;
    NumeralLength(n, digits);
    NumeralLength(n + 1, digits);
    NumeralLength(n + 1, digits + 1);
    assert Power(10, digits + 1) == 10 * Power(10, digits);
    if digits > 1 {
      NumeralLength(n, digits - 1);
      assert Power(10, digits) == 10 * Power(10, digits - 1);
      PowerGrows(digits - 1);
    }
  }

  lemma {:induction false} PowerAhead(d: nat, k: int)
    requires k >= 0 && d > 0
    ensures Power(10, d + k) >= Power(10, d) + 2 * k
  {
    PowerGrows(d);
    if k > 0 {
      PowerAhead(d, k - 1);
    }
  }

  /** A record written with the length `n` decodes exactly if `n` counts itself and is within the bound. */
  lemma SpellingDecodesExactly(r: Record, n: nat)
    requires ValidKey(r.key)
    ensures Records(Numeral(n, 10) + Body(r)) == Some([r]) <==> CountsItself(n, |Body(r)|) && n <= 1024 * 1024
  {
    hide RecordsFrom, ValidUtf8, Numeral;
    var text := Numeral(n, 10) + Body(r);
    PaxBothWays(text, [r]);
    if IsConcatenation(text, [r]) {
      WholeText(text, r);
      ValueOfNumeral(|text|, 10);
      ValueOfNumeral(n, 10);
      assert Numeral(|text|, 10) == text[..|text| - |Body(r)|] == Numeral(n, 10);
    }
    if CountsItself(n, |Body(r)|) {
      assert text[..|text|] == text && [r][1..] == [];
      assert IsCut(text, |text|, [r][0]) && IsConcatenation(text[|text|..], [r][1..]);
    }
  }

  lemma WholeText(text: Bytes, r: Record)
    requires IsConcatenation(text, [r])
    ensures IsRecord(text, r)
  {
    var n: nat :| IsCut(text, n, [r][0]) && IsConcatenation(text[n..], [r][1..]);
    assert n == |text| && text[..n] == text;
  }

  /** Eight other bytes are the shortest ambiguous body: both 9 and 10 count themselves, and both decode. */
  lemma NineOrTen(r: Record)
    requires ValidKey(r.key) && |Body(r)| == 8
    ensures Records("9" + Body(r)) == Records("10" + Body(r)) == Some([r])
  {
    assert Numeral(9, 10) == "9" && Numeral(1, 10) == "1" && Numeral(10, 10) == "10";
    SpellingDecodesExactly(r, 9);
    SpellingDecodesExactly(r, 10);
  }
}
