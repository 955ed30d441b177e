/**
 * What the fields of a tar header mean, without the functions that read them: bytes are added up, numbers
 * and texts are concatenations of literal parts, UTF-8 is the image of an encoder, and a header block is
 * the concatenation of its fields.
 */
module TarFields {
  import opened Common
  import opened Text
  import opened Paths
  import opened Pax
  import opened TarScan

  // ---------------------------------------------------------------- the checksum

  lemma {:induction false} SumOfConcat(a: Bytes, b: Bytes)
    ensures Sum(a + b) == Sum(a) + Sum(b)
  {
    if b == "" {
      assert a + b == a;
    } else {
      assert Front(a + b) == a + Front(b);
      SumOfConcat(a, Front(b));
    }
  }

  lemma SumOfReplaced(s: Bytes, i: nat, c: char)
    requires i < |s|
    ensures Sum(s[i := c]) == Sum(s) - s[i] as int + c as int
  {
    var a, b := s[..i], s[i + 1..];
    assert s == a + [s[i]] + b && s[i := c] == a + [c] + b;
    forall x: char
      ensures Sum(a + [x] + b) == Sum(a) + x as int + Sum(b)
    {
      SumOfConcat(a + [x], b);
      assert Front(a + [x]) == a;
    }
    assert Sum(a + [c] + b) == Sum(a) + c as int + Sum(b);
    assert Sum(a + [s[i]] + b) == Sum(a) + s[i] as int + Sum(b);
  }

  /** Every byte outside the checksum field counts its value; those of the field do not matter. */
  lemma ChecksumOfReplaced(block: Bytes, i: nat, c: char)
    requires |block| == BLOCK && i < BLOCK
    ensures Checksum(block[i := c])
         == Checksum(block) + if 148 <= i < 156 then 0 else c as int - block[i] as int
  {
    var changed := block[i := c];
    if i < 148 {
      assert changed[..148] == block[..148][i := c] && changed[156..] == block[156..];
      SumOfReplaced(block[..148], i, c);
    } else if i < 156 {
      assert changed[..148] == block[..148] && changed[156..] == block[156..];
    } else {
      assert changed[..148] == block[..148] && changed[156..] == block[156..][i - 156 := c];
      SumOfReplaced(block[156..], i - 156, c);
    }
  }

  /** The field itself counts as eight blanks. */
  lemma ChecksumOfZeros()
    ensures Checksum(Zeros(BLOCK)) == 256
  {
    assert Zeros(BLOCK)[..148] == Zeros(148) && Zeros(BLOCK)[156..] == Zeros(356);
    SumOfZeros(148);
    SumOfZeros(356);
  }

  lemma {:induction false} SumOfZeros(n: nat)
    ensures Sum(Zeros(n)) == 0
  {
    if n > 0 {
      assert Front(Zeros(n)) == Zeros(n - 1);
      SumOfZeros(n - 1);
    }
  }

  // ---------------------------------------------------------------- numbers

  /** Every character of `s` is one of `alphabet`. */
  predicate Over(s: string, alphabet: string) {
    forall c :: c in s ==> c in alphabet
  }

  /** The value of `digits` in a positional system, the first digit first; a digit is worth its place in `alphabet`. */
  function Positional(digits: string, alphabet: string): nat {
    if digits == "" then 0
    else Text.Find(alphabet, digits[0]) * Power(|alphabet|, |digits| - 1) + Positional(digits[1..], alphabet)
  }

  const OCTAL := "01234567"
  const DECIMAL := "0123456789"

  lemma PlaceOfDigit(c: char, base: nat, alphabet: string)
    requires (base == 8 && alphabet == OCTAL) || (base == 10 && alphabet == DECIMAL)
    ensures c in alphabet <==> IsDigit(c, base)
    ensures c in alphabet ==> Text.Find(alphabet, c) == c as int - '0' as int
  {
    assert forall k :: 0 <= k < base ==> alphabet[k] == '0' + k as char;
    if IsDigit(c, base) {
      assert alphabet[c as int - '0' as int] == c;
    }
  }

  lemma {:induction false} PositionalSnoc(s: string, c: char, alphabet: string)
    ensures Positional(s + [c], alphabet) == Positional(s, alphabet) * |alphabet| + Text.Find(alphabet, c)
  {
    var all := s + [c];
    if s == "" {
      assert all[1..] == "" && Power(|alphabet|, 0) == 1;
    } else {
      assert all[1..] == s[1..] + [c] && all[0] == s[0];
      PositionalSnoc(s[1..], c, alphabet);
      Shifted(Text.Find(alphabet, s[0]), |alphabet|, Power(|alphabet|, |s| - 1), Positional(s[1..], alphabet));
    }
  }

  lemma Shifted(digit: nat, base: nat, power: nat, rest: nat)
    ensures digit * (base * power) + rest * base == (digit * power + rest) * base
  {
  }

  /** A string of digits is read as a positional numeral. */
  lemma {:induction false} ValueIsPositional(s: string, base: nat, alphabet: string)
    requires (base == 8 && alphabet == OCTAL) || (base == 10 && alphabet == DECIMAL)
    ensures AllDigits(s, base) <==> Over(s, alphabet)
    ensures AllDigits(s, base) ==> Value(s, base) == Positional(s, alphabet)
  {
    forall i | 0 <= i < |s|
      ensures IsDigit(s[i], base) <==> s[i] in alphabet
    {
      PlaceOfDigit(s[i], base, alphabet);
    }
    if AllDigits(s, base) && s != "" {
      ValueIsPositional(Front(s), base, alphabet);
      PositionalSnoc(Front(s), Last(s), alphabet);
      PlaceOfDigit(Last(s), base, alphabet);
      assert s == Front(s) + [Last(s)];
    }
  }

  /** A number field: octal digits with blanks around them, blanks being spaces and NULs; no digits mean zero. */
  ghost predicate OctalField(field: Bytes, n: nat) {
    && (field != "" ==> field[0] as int < 0x80)
    && exists before, digits, after ::
         && field == before + digits + after
         && Over(before, " \0") && Over(digits, OCTAL) && Over(after, " \0")
         && n == Positional(digits, OCTAL)
  }

  lemma BlankIsListed(c: char)
    ensures Blank(c) <==> c in " \0"
  {
  }

  /** `s` is `core` with blanks around it, and `core` neither begins nor ends with one. */
  ghost predicate StripsTo(s: Bytes, core: Bytes) {
    && (core != "" ==> core[0] !in " \0" && Last(core) !in " \0")
    && exists before, after :: s == before + core + after && Over(before, " \0") && Over(after, " \0")
  }

  lemma BlankBefore(c: char, s: Bytes, core: Bytes)
    requires StripsTo(s, core) && Blank(c)
    ensures StripsTo([c] + s, core)
  {
    BlankIsListed(c);
    hide Blank;
    var before, after :| s == before + core + after && Over(before, " \0") && Over(after, " \0");
    assert [c] + s == ([c] + before) + core + after && Over([c] + before, " \0");
  }

  lemma BlankAfter(s: Bytes, c: char, core: Bytes)
    requires StripsTo(s, core) && Blank(c)
    ensures StripsTo(s + [c], core)
  {
    BlankIsListed(c);
    hide Blank;
    var before, after :| s == before + core + after && Over(before, " \0") && Over(after, " \0");
    assert s + [c] == before + core + (after + [c]) && Over(after + [c], " \0");
  }

  lemma NothingToStrip(s: Bytes)
    requires s != "" ==> s[0] !in " \0" && Last(s) !in " \0"
    ensures StripsTo(s, s)
  {
    assert s == "" + s + "" && Over("", " \0");
  }

  /** `strip` takes exactly the blanks at both ends. */
  lemma {:induction false} StripExactly(s: Bytes)
    ensures StripsTo(s, Text.Strip(s))
  {
    hide Blank, StripsTo;
    if s == "" {
      NothingToStrip(s);
    } else {
      BlankIsListed(s[0]);
      BlankIsListed(Last(s));
      if Blank(s[0]) {
        StripExactly(s[1..]);
        BlankBefore(s[0], s[1..], Text.Strip(s));
        assert s == [s[0]] + s[1..];
      } else if Blank(Last(s)) {
        StripExactly(Front(s));
        BlankAfter(Front(s), Last(s), Text.Strip(s));
        assert s == Front(s) + [Last(s)];
      } else {
        NothingToStrip(s);
      }
    }
  }

  /** Only one text without blanks at its ends can be what is between the blanks. */
  lemma {:induction false} StripOfPadded(before: Bytes, core: Bytes, after: Bytes)
    requires Over(before, " \0") && Over(after, " \0") && (core != "" ==> core[0] !in " \0" && Last(core) !in " \0")
    ensures Text.Strip(before + core + after) == core
    decreases |before| + |after|
  {
    hide Blank;
    var s := before + core + after;
    if before != "" {
      BlankIsListed(before[0]);
      assert before[0] in before;
      assert s[0] == before[0] && s[1..] == before[1..] + core + after;
      StripOfPadded(before[1..], core, after);
    } else if core == "" {
      assert s == after;
      if after != "" {
        BlankIsListed(after[0]);
        assert after[0] in after && s[1..] == "" + "" + after[1..];
        StripOfPadded("", "", after[1..]);
      }
    } else {
      BlankIsListed(core[0]);
      assert s[0] == core[0];
      if after != "" {
        BlankIsListed(Last(after));
        assert Last(s) == Last(after) && Last(after) in after && Front(s) == before + core + Front(after);
        StripOfPadded(before, core, Front(after));
      } else {
        BlankIsListed(Last(core));
        assert s == core;
      }
    }
  }

  lemma TarNumberExactly(field: Bytes, n: nat)
    ensures TarNumber(field) == Some(n) <==> OctalField(field, n)
  {
    var core := Text.Strip(field);
    ValueIsPositional(core, 8, OCTAL);
    if TarNumber(field) == Some(n) {
      StripExactly(field);
      assert OctalField(field, n);
    }
    if OctalField(field, n) {
      var before, digits, after :|
        && field == before + digits + after
        && Over(before, " \0") && Over(digits, OCTAL) && Over(after, " \0")
        && n == Positional(digits, OCTAL);
      assert forall c :: c in OCTAL ==> c !in " \0" by { DigitsAreNotBlank(); }
      StripOfPadded(before, digits, after);
    }
  }

  lemma DigitsAreNotBlank()
    ensures forall c :: c in OCTAL ==> c !in " \0"
  {
    forall c | c in OCTAL
      ensures c !in " \0"
    {
      PlaceOfDigit(c, 8, OCTAL);
    }
  }

  /** `int(value)` as PAX numbers are read. */
  lemma DecimalExactly(value: Bytes, n: nat)
    ensures DecimalOf(value, n) <==> value != "" && Over(value, DECIMAL) && n == Positional(value, DECIMAL)
  {
    ValueIsPositional(value, 10, DECIMAL);
  }

  lemma AsciiExactly(s: Bytes)
    ensures Ascii(s) <==> forall c :: c in s ==> c < '\U{80}'
  {
    forall i | 0 <= i < |s|
      ensures s[i] in s && (s[i] as int < 0x80 <==> s[i] < '\U{80}')
    {
      assert '\U{80}' as int == 0x80;
    }
  }

  /**
   * Which PAX records are acceptable before a header: extended attributes with a printable name, texts in
   * UTF-8, numbers equal to those of the header, times that are numbers in ASCII, and nothing else.
   */
  lemma RecordFitsExactly(h: Header, r: Record, isTimestamp: Bytes -> bool)
    ensures RecordFits(h, r, isTimestamp)
            <==> if "SCHILY.xattr." <= r.key then
                   r.key != "SCHILY.xattr." && forall c :: c in r.key[13..] ==> ' ' <= c && c != '\U{7F}'
                 else if r.key in {"path", "linkpath", "uname", "gname", "charset", "hdrcharset", "comment"} then
                   ValidUtf8(r.value)
                 else if r.key in {"size", "uid", "gid"} then
                   && r.value != "" && Over(r.value, "0123456789")
                   && Positional(r.value, "0123456789")
                      == if r.key == "size" then h.size else if r.key == "uid" then h.uid else h.gid
                 else
                   && r.key in {"mtime", "atime", "ctime"}
                   && (forall c :: c in r.value ==> c < '\U{80}') && isTimestamp(r.value)
  {
    AsciiExactly(r.value);
    hide ValidUtf8, DecimalOf, Positional, Ascii, Over;
    if "SCHILY.xattr." <= r.key {
      assert r.key == "SCHILY.xattr." + r.key[13..];
    }
    DecimalExactly(r.value, h.size);
    DecimalExactly(r.value, h.uid);
    DecimalExactly(r.value, h.gid);
  }

  // ---------------------------------------------------------------- texts

  /** A text field: UTF-8 without NULs, and then nothing but NULs. */
  lemma TarTextExactly(field: Bytes, text: string)
    ensures TarText(field) == Some(text)
            <==> '\0' !in text && ValidUtf8(text) && |text| <= |field| && field == text + Zeros(|field| - |text|)
  {
    hide ValidUtf8;
    var end := Text.Find(field, '\0');
    if TarText(field) == Some(text) {
      assert field == text + field[end..];
      assert field[end..] == Zeros(|field| - |text|);
    }
    if '\0' !in text && |text| <= |field| && field == text + Zeros(|field| - |text|) {
      FindInPadded(text, |field| - |text|);
      assert field[..end] == text && field[end..] == Zeros(|field| - |text|);
    }
  }

  // ---------------------------------------------------------------- UTF-8

  /** Unicode scalar values: code points that are not surrogates. */
  predicate Scalar(cp: nat) {
    cp < 0xD800 || 0xE000 <= cp < 0x110000
  }

  /** The encoding of one scalar value (section 3 of RFC 3629). */
  function Encoded(cp: nat): (s: Bytes)
    requires Scalar(cp)
    ensures 1 <= |s| <= 4
  {
    if cp < 0x80 then [cp as char]
    else if cp < 0x800 then [(0xC0 + cp / 0x40) as char, Continuation(cp)]
    else if cp < 0x10000 then [(0xE0 + cp / 0x1000) as char, Continuation(cp / 0x40), Continuation(cp)]
    else [(0xF0 + cp / 0x40000) as char, Continuation(cp / 0x1000), Continuation(cp / 0x40), Continuation(cp)]
  }

  /** A continuation byte holds the low six bits. */
  function Continuation(bits: nat): char {
    (0x80 + bits % 0x40) as char
  }

  predicate AllScalar(text: seq<nat>) {
    forall i :: 0 <= i < |text| ==> Scalar(text[i])
  }

  /** `text.encode("utf-8")`. */
  function EncodedText(text: seq<nat>): Bytes
    requires AllScalar(text)
  {
    if text == [] then "" else Encoded(text[0]) + EncodedText(text[1..])
  }

  /** The validity table accepts every encoding. */
  lemma EncodedIsValid(cp: nat, rest: Bytes)
    requires Scalar(cp)
    ensures Utf8Length(Encoded(cp) + rest) == |Encoded(cp)|
  {
    if cp < 0x800 {
      ShortIsValid(cp, rest);
    } else if cp < 0x10000 {
      TripleIsValid(cp, rest);
    } else {
      QuadrupleIsValid(cp, rest);
    }
  }

  lemma ShortIsValid(cp: nat, rest: Bytes)
    requires cp < 0x800
    ensures Utf8Length(Encoded(cp) + rest) == |Encoded(cp)|
  {
    var e := Encoded(cp);
    var s := e + rest;
    assert s[0] == e[0] && (cp >= 0x80 ==> s[1] == e[1]);
  }

  lemma TripleIsValid(cp: nat, rest: Bytes)
    requires Scalar(cp) && 0x800 <= cp < 0x10000
    ensures Utf8Length(Encoded(cp) + rest) == |Encoded(cp)|
  {
    var e := Encoded(cp);
    var s := e + rest;
    assert s[0] == e[0] && s[1] == e[1] && s[2] == e[2];
  }

  lemma QuadrupleIsValid(cp: nat, rest: Bytes)
    requires Scalar(cp) && cp >= 0x10000
    ensures Utf8Length(Encoded(cp) + rest) == |Encoded(cp)|
  {
    var e := Encoded(cp);
    var s := e + rest;
    assert s[0] == e[0] && s[1] == e[1] && s[2] == e[2] && s[3] == e[3];
  }

  lemma Sixes(a: nat, b: nat, c: nat, d: nat)
    requires b < 0x40 && c < 0x40 && d < 0x40
    ensures var n := ((a * 0x40 + b) * 0x40 + c) * 0x40 + d;
            && n % 0x40 == d && n / 0x40 % 0x40 == c && n / 0x40 == (a * 0x40 + b) * 0x40 + c
            && n / 0x1000 % 0x40 == b && n / 0x1000 == a * 0x40 + b && n / 0x40000 == a
  {
  }

  /** The six low bits of a byte, above the bits that mark its place. */
  function Bits(c: char, mark: nat): int {
    c as int - mark
  }

  lemma ValidPair(s: Bytes) returns (cp: nat)
    requires Utf8Length(s) == 2
    ensures Scalar(cp) && Encoded(cp) == s[..2]
  {
    Sixes(0, 0, Bits(s[0], 0xC0), Bits(s[1], 0x80));
    cp := Bits(s[0], 0xC0) * 0x40 + Bits(s[1], 0x80);
  }

  lemma ValidTriple(s: Bytes) returns (cp: nat)
    requires Utf8Length(s) == 3
    ensures Scalar(cp) && Encoded(cp) == s[..3]
  {
    Sixes(0, Bits(s[0], 0xE0), Bits(s[1], 0x80), Bits(s[2], 0x80));
    cp := (Bits(s[0], 0xE0) * 0x40 + Bits(s[1], 0x80)) * 0x40 + Bits(s[2], 0x80);
  }

  lemma ValidQuadruple(s: Bytes) returns (cp: nat)
    requires Utf8Length(s) == 4
    ensures Scalar(cp) && Encoded(cp) == s[..4]
  {
    Sixes(Bits(s[0], 0xF0), Bits(s[1], 0x80), Bits(s[2], 0x80), Bits(s[3], 0x80));
    cp := ((Bits(s[0], 0xF0) * 0x40 + Bits(s[1], 0x80)) * 0x40 + Bits(s[2], 0x80)) * 0x40 + Bits(s[3], 0x80);
  }

  /** And whatever it accepts is an encoding. */
  lemma ValidIsEncoded(s: Bytes) returns (cp: nat)
    requires Utf8Length(s) > 0
    ensures Scalar(cp) && Encoded(cp) == s[..Utf8Length(s)]
  {
    match Utf8Length(s)
    case 1 => cp := s[0] as int;
    case 2 => cp := ValidPair(s);
    case 3 => cp := ValidTriple(s);
    case _ => assert Utf8Length(s) == 4; cp := ValidQuadruple(s);
  }

  /** A byte string is valid UTF-8 if and only if it is the encoding of some text. */
  lemma Utf8Exactly(s: Bytes)
    ensures ValidUtf8(s) <==> exists text :: AllScalar(text) && EncodedText(text) == s
  {
    if ValidUtf8(s) {
      var text := Decode(s);
    }
    if text :| AllScalar(text) && EncodedText(text) == s {
      EncodedTextIsValid(text);
    }
  }

  lemma EncodedCons(cp: nat, rest: seq<nat>)
    requires Scalar(cp) && AllScalar(rest)
    ensures AllScalar([cp] + rest) && EncodedText([cp] + rest) == Encoded(cp) + EncodedText(rest)
  {
    hide Encoded, Scalar;
    var text := [cp] + rest;
    assert text[0] == cp && text[1..] == rest;
  }

  lemma {:induction false} Decode(s: Bytes) returns (text: seq<nat>)
    requires ValidUtf8(s)
    ensures AllScalar(text) && EncodedText(text) == s
    decreases |s|
  {
    if s == "" {
      text := [];
    } else {
      var n := Utf8Length(s);
      hide Encoded, Utf8Length, EncodedText;
      var cp := ValidIsEncoded(s);
      var rest := Decode(s[n..]);
      text := [cp] + rest;
      EncodedCons(cp, rest);
      assert s == s[..n] + s[n..];
    }
  }

  lemma {:induction false} EncodedTextIsValid(text: seq<nat>)
    requires AllScalar(text)
    ensures ValidUtf8(EncodedText(text))
  {
    if text != [] {
      var first, rest := Encoded(text[0]), EncodedText(text[1..]);
      EncodedTextIsValid(text[1..]);
      EncodedIsValid(text[0], rest);
      assert (first + rest)[|first|..] == rest;
    }
  }

  // ---------------------------------------------------------------- the header block

  /** The fields of a header block, in their order and with their widths. */
  datatype RawHeader = RawHeader(
    name: Bytes, mode: Bytes, uid: Bytes, gid: Bytes, size: Bytes, mtime: Bytes, checksum: Bytes, typeflag: char,
    linkname: Bytes, magic: Bytes, version: Bytes, owner: Bytes, prefix: Bytes, rest: Bytes)
  {
    predicate Sized() {
      && |name| == 100 && |mode| == 8 && |uid| == 8 && |gid| == 8 && |size| == 12 && |mtime| == 12 && |checksum| == 8
      && |linkname| == 100 && |magic| == 6 && |version| == 2 && |owner| == 80 && |prefix| == 155 && |rest| == 12
    }

    function Front(): (s: Bytes)
      requires Sized()
      ensures |s| == 148
    {
      (name + mode + uid + gid) + (size + mtime)
    }

    function Back(): (s: Bytes)
      requires Sized()
      ensures |s| == 356
    {
      ([typeflag] + linkname + magic + version) + (owner + prefix + rest)
    }

    function Block(): (s: Bytes)
      requires Sized()
      ensures |s| == BLOCK
    {
      Front() + checksum + Back()
    }
  }

  /** POSIX headers, and the old GNU ones whose version is blank or `00`. */
  predicate GoodMagic(raw: RawHeader) {
    raw.magic + raw.version in {"ustar\0" + "00", "ustar  \0", "ustar 00"}
  }

  /** The numbers of the block, its checksum among them. */
  ghost predicate NumbersDenote(raw: RawHeader, h: Header)
    requires raw.Sized()
  {
    && OctalField(raw.checksum, Sum(raw.Front()) + 256 + Sum(raw.Back()))
    && OctalField(raw.mode, h.mode) && h.mode < 4096
    && OctalField(raw.uid, h.uid) && OctalField(raw.gid, h.gid) && OctalField(raw.size, h.size)
  }

  /** The path; the prefix field of an old GNU header is not a prefix. */
  predicate NamesDenote(raw: RawHeader, path: string) {
    var name, prefix := TarText(raw.name), TarText(raw.prefix);
    && name.Some?
    && if raw.magic == "ustar " then path == name.value
       else prefix.Some? && path == if prefix.value == "" then name.value else prefix.value + "/" + name.value
  }

  /** `h` is what the fields say. */
  ghost predicate Denotes(raw: RawHeader, h: Header)
    requires raw.Sized()
  {
    && GoodMagic(raw) && NumbersDenote(raw, h) && NamesDenote(raw, h.path)
    && TarText(raw.linkname) == Some(h.linkname) && h.typeflag == raw.typeflag
    && CanonicalTarPath(h.path, h.typeflag == '5').Some?
  }

  lemma FrontFields(raw: RawHeader)
    requires raw.Sized()
    ensures var s := raw.Front();
            && s[..100] == raw.name && s[100..108] == raw.mode && s[108..116] == raw.uid && s[116..124] == raw.gid
            && s[124..136] == raw.size
  {
    var a := raw.name + raw.mode + raw.uid + raw.gid;
    assert a[..100] == raw.name && a[100..108] == raw.mode && a[108..116] == raw.uid && a[116..124] == raw.gid;
    InFirst(a, raw.size + raw.mtime, 0, 100);
    InFirst(a, raw.size + raw.mtime, 100, 108);
    InFirst(a, raw.size + raw.mtime, 108, 116);
    InFirst(a, raw.size + raw.mtime, 116, 124);
    InSecond(a, raw.size + raw.mtime, 0, 12);
    assert raw.Front()[..100] == raw.Front()[0..100] && a[..100] == a[0..100];
  }

  lemma BackFields(raw: RawHeader)
    requires raw.Sized()
    ensures var s := raw.Back();
            && s[0] == raw.typeflag && s[1..101] == raw.linkname && s[101..107] == raw.magic
            && s[107..109] == raw.version && s[189..344] == raw.prefix
  {
    var a, b := [raw.typeflag] + raw.linkname + raw.magic + raw.version, raw.owner + raw.prefix + raw.rest;
    assert a[1..101] == raw.linkname && a[101..107] == raw.magic && a[107..109] == raw.version;
    assert b[80..235] == raw.prefix;
    InFirst(a, b, 1, 101);
    InFirst(a, b, 101, 107);
    InFirst(a, b, 107, 109);
    InSecond(a, b, 80, 235);
  }

  lemma InFirst(a: Bytes, b: Bytes, i: nat, j: nat)
    requires i <= j <= |a|
    ensures (a + b)[i..j] == a[i..j]
  {
  }

  lemma InSecond(a: Bytes, b: Bytes, i: nat, j: nat)
    requires i <= j <= |b|
    ensures (a + b)[|a| + i..|a| + j] == b[i..j]
  {
  }

  lemma BlockFields(raw: RawHeader)
    requires raw.Sized()
    ensures var s := raw.Block();
            && s[..100] == raw.name && s[100..108] == raw.mode && s[108..116] == raw.uid && s[116..124] == raw.gid
            && s[124..136] == raw.size && s[148..156] == raw.checksum && s[156] == raw.typeflag
            && s[157..257] == raw.linkname && s[257..263] == raw.magic && s[263..265] == raw.version
            && s[345..500] == raw.prefix
    ensures Checksum(raw.Block()) == Sum(raw.Front()) + 256 + Sum(raw.Back())
  {
    FrontFields(raw);
    BackFields(raw);
    hide RawHeader.Front, RawHeader.Back, Sum;
    var front, back := raw.Front(), raw.Back();
    var head := front + raw.checksum;
    assert head[..148] == front && head[148..156] == raw.checksum;
    assert raw.Block() == head + back;
    assert raw.Block()[..148] == front && raw.Block()[156..] == back;
    forall i: nat, j: nat | i <= j <= 148
      ensures raw.Block()[i..j] == front[i..j]
    {
      assert raw.Block()[i..j] == raw.Block()[..148][i..j];
    }
    assert raw.Block()[..100] == raw.Block()[0..100] && front[..100] == front[0..100];
    forall i: nat, j: nat | i <= j <= 356
      ensures raw.Block()[156 + i..156 + j] == back[i..j]
    {
      InSecond(head, back, i, j);
    }
    assert raw.Block()[156 + 1..156 + 101] == back[1..101];
    assert raw.Block()[156 + 101..156 + 107] == back[101..107];
    assert raw.Block()[156 + 107..156 + 109] == back[107..109];
    assert raw.Block()[156 + 189..156 + 344] == back[189..344];
  }

  /** The numbers of the block as the scanner reads them. */
  predicate NumbersRead(raw: RawHeader, sum: nat, h: Header) {
    && TarNumber(raw.checksum) == Some(sum) && TarNumber(raw.mode) == Some(h.mode) && h.mode < 4096
    && TarNumber(raw.uid) == Some(h.uid) && TarNumber(raw.gid) == Some(h.gid) && TarNumber(raw.size) == Some(h.size)
  }

  lemma NumbersExactly(raw: RawHeader, h: Header)
    requires raw.Sized()
    ensures NumbersDenote(raw, h) <==> NumbersRead(raw, Sum(raw.Front()) + 256 + Sum(raw.Back()), h)
  {
    hide RawHeader.Front, RawHeader.Back, Sum, TarNumber, OctalField;
    TarNumberExactly(raw.checksum, Sum(raw.Front()) + 256 + Sum(raw.Back()));
    TarNumberExactly(raw.mode, h.mode);
    TarNumberExactly(raw.uid, h.uid);
    TarNumberExactly(raw.gid, h.gid);
    TarNumberExactly(raw.size, h.size);
  }

  lemma ReadFromFields(raw: RawHeader, h: Header)
    requires raw.Sized()
    ensures ReadHeader(raw.Block()) == Some(h)
            <==> && KnownMagic(raw.magic, raw.version) && NumbersRead(raw, Checksum(raw.Block()), h)
                 && NamesDenote(raw, h.path)
                 && TarText(raw.linkname) == Some(h.linkname) && h.typeflag == raw.typeflag
                 && CanonicalTarPath(h.path, h.typeflag == '5').Some?
  {
    BlockFields(raw);
    hide RawHeader.Block, Checksum, TarNumber, TarText, KnownMagic, CanonicalTarPath;
  }

  /** A header block is read as `h` if and only if that is what its fields say. */
  lemma HeaderExactly(raw: RawHeader, h: Header)
    requires raw.Sized()
    ensures ReadHeader(raw.Block()) == Some(h) <==> Denotes(raw, h)
  {
    hide RawHeader.Block, RawHeader.Front, RawHeader.Back, Checksum, Sum, TarText, KnownMagic, GoodMagic;
    hide NumbersRead, NumbersDenote, NamesDenote, CanonicalTarPath, ReadHeader;
    BlockFields(raw);
    ReadFromFields(raw, h);
    NumbersExactly(raw, h);
    MagicExactly(raw);
  }

  lemma MagicExactly(raw: RawHeader)
    requires raw.Sized()
    ensures GoodMagic(raw) <==> KnownMagic(raw.magic, raw.version)
  {
    InOneString(raw.magic, raw.version, "ustar\0", "00");
    InOneString(raw.magic, raw.version, "ustar ", " \0");
    InOneString(raw.magic, raw.version, "ustar ", "00");
    assert "ustar " + " \0" == "ustar  \0" && "ustar " + "00" == "ustar 00";
  }

  lemma InOneString(a: string, b: string, c: string, d: string)
    requires |a| == |c|
    ensures a + b == c + d <==> a == c && b == d
  {
    if a + b == c + d {
      assert a == (a + b)[..|a|] && b == (a + b)[|a|..];
      assert c == (c + d)[..|c|] && d == (c + d)[|c|..];
    }
  }

  /** Every block is such a concatenation. */
  lemma EveryBlockHasFields(block: Bytes) returns (raw: RawHeader)
    requires |block| == BLOCK
    ensures raw.Sized() && raw.Block() == block
  {
    raw := RawHeader(block[..100], block[100..108], block[108..116], block[116..124], block[124..136], block[136..148],
                     block[148..156], block[156], block[157..257], block[257..263], block[263..265], block[265..345],
                     block[345..500], block[500..]);
    assert raw.Front() == block[..148] && raw.Back() == block[156..];
  }
}
