/** A ustar writer with local PAX headers, and the proof that the scanner reads back what it writes. */
module TarWriter {
  import opened Common
  import opened Text
  import opened Paths
  import opened TarScan

  // ---------------------------------------------------------------- header blocks

  /** An octal number of `width - 1` digits and a NUL. */
  function Octal(n: nat, width: nat): (s: Bytes)
    requires width > 0
    ensures |s| == width
  {
    Padded(n, 8, width - 1) + "\0"
  }

  function TextField(text: string, width: nat): (s: Bytes)
    requires |text| <= width
    ensures |s| == width
  {
    text + Zeros(width - |text|)
  }

  /** Where a path is cut for the prefix and name fields: at the first slash that leaves a name of 100 bytes. */
  function CutAt(path: string): (k: nat)
    requires |path| > 100
    ensures k <= |path| && (k < |path| ==> path[k] == '/' && |path| - k - 1 <= 100)
  {
    |path| - 101 + Find(path[|path| - 101..], '/')
  }

  /** The path fits the name field, or the prefix and name fields. */
  predicate PathFits(path: string) {
    |path| <= 100 || (0 < CutAt(path) <= 155 && CutAt(path) + 1 < |path|)
  }

  function NamePart(path: string): (name: string)
    requires PathFits(path)
    ensures |name| <= 100
  {
    if |path| <= 100 then path else path[CutAt(path) + 1..]
  }

  function PrefixPart(path: string): (prefix: string)
    requires PathFits(path)
    ensures |prefix| <= 155
    ensures path == if prefix != "" then prefix + "/" + NamePart(path) else NamePart(path)
  {
    if |path| <= 100 then "" else path[..CutAt(path)]
  }

  /** The magic and version of a header. The old GNU form has no prefix field. */
  datatype Dialect = Posix | OldGnu

  function Magic(h: Header, d: Dialect): (magic: Bytes)
    ensures |magic| == 8
  {
    if d == OldGnu && |h.path| <= 100 then "ustar  \0" else "ustar\0" + "00"
  }

  /** The values a ustar header can hold. */
  predicate FitsHeader(h: Header) {
    && PathFits(h.path) && ValidUtf8(h.path) && CanonicalTarPath(h.path, h.typeflag == '5').Some?
    && |h.linkname| <= 100 && ValidUtf8(h.linkname) && PlainText(h.linkname)
    && h.mode <= 0xfff && h.uid < Power(8, 7) && h.gid < Power(8, 7) && h.size < Power(8, 11)
    && h.typeflag as int < 0x100
  }

  function NameToMode(h: Header): (s: Bytes)
    requires FitsHeader(h)
    ensures |s| == 108
  {
    TextField(NamePart(h.path), 100) + Octal(h.mode, 8)
  }

  function NameToGid(h: Header): (s: Bytes)
    requires FitsHeader(h)
    ensures |s| == 124
  {
    NameToMode(h) + Octal(h.uid, 8) + Octal(h.gid, 8)
  }

  /** The fields before the checksum: name, mode, uid, gid, size and mtime. */
  function BeforeChecksum(h: Header): (s: Bytes)
    requires FitsHeader(h)
    ensures |s| == 148
  {
    NameToGid(h) + Octal(h.size, 12) + Octal(0, 12)
  }

  /** The fields after it: typeflag, linkname, magic, version, uname, gname, devmajor, devminor and prefix. */
  function AfterChecksum(h: Header, d: Dialect): (s: Bytes)
    requires FitsHeader(h)
    ensures |s| == 356
  {
    ([h.typeflag] + TextField(h.linkname, 100) + Magic(h, d))
    + (Zeros(64) + Octal(0, 8) + Octal(0, 8)) + (TextField(PrefixPart(h.path), 155) + Zeros(12))
  }

  function ChecksumOf(h: Header, d: Dialect): nat
    requires FitsHeader(h)
  {
    Sum(BeforeChecksum(h)) + 8 * 0x20 + Sum(AfterChecksum(h, d))
  }

  function HeaderBlock(h: Header, d: Dialect): (s: Bytes)
    requires FitsHeader(h)
    ensures |s| == BLOCK
  {
    BeforeChecksum(h) + (Padded(ChecksumOf(h, d), 8, 6) + "\0 ") + AfterChecksum(h, d)
  }

  // ---------------------------------------------------------------- reading fields back

  lemma Keep(a: Bytes, b: Bytes, i: nat, j: nat)
    requires i <= j <= |a|
    ensures (a + b)[i..j] == a[i..j]
  {
  }

  lemma Shift(a: Bytes, b: Bytes, i: nat, j: nat)
    requires i <= j <= |b|
    ensures (a + b)[|a| + i..|a| + j] == b[i..j]
  {
  }

  lemma Parts(h: Header, d: Dialect)
    requires FitsHeader(h)
    ensures HeaderBlock(h, d)[..148] == BeforeChecksum(h)
    ensures HeaderBlock(h, d)[148..156] == Padded(ChecksumOf(h, d), 8, 6) + "\0 "
    ensures HeaderBlock(h, d)[156..] == AfterChecksum(h, d)
  {
  }

  lemma NumbersReadBack(h: Header)
    requires FitsHeader(h)
    ensures var s := BeforeChecksum(h);
            && s[..100] == TextField(NamePart(h.path), 100)
            && s[100..108] == Octal(h.mode, 8) && s[108..116] == Octal(h.uid, 8)
            && s[116..124] == Octal(h.gid, 8) && s[124..136] == Octal(h.size, 12)
  {
    var s := BeforeChecksum(h);
    var a, b := NameToMode(h), NameToGid(h);
    assert b[..108] == a && b[108..116] == Octal(h.uid, 8) && b[116..124] == Octal(h.gid, 8);
    assert s[..124] == b && s[124..136] == Octal(h.size, 12);
    assert s[..100] == a[..100] && s[100..108] == a[100..108];
    assert s[108..116] == b[108..116] && s[116..124] == b[116..124];
  }

  lemma TailLayout(flag: char, link: Bytes, magic: Bytes, between: Bytes, prefix: Bytes, rest: Bytes)
    requires |link| == 100 && |magic| == 8 && |between| == 80 && |prefix| == 155
    ensures var s := ([flag] + link + magic) + between + (prefix + rest);
            s[0] == flag && s[1..101] == link && s[101..109] == magic && s[189..344] == prefix
  {
    var a, c := [flag] + link + magic, prefix + rest;
    assert a[1..101] == link && a[101..109] == magic;
    assert a + between + c == a + (between + c);
    Keep(a, between + c, 1, 101);
    Keep(a, between + c, 101, 109);
    Shift(a + between, c, 0, 155);
    assert c[0..155] == prefix;
  }

  lemma TailReadsBack(h: Header, d: Dialect)
    requires FitsHeader(h)
    ensures var s := AfterChecksum(h, d);
            && s[0] == h.typeflag && s[1..101] == TextField(h.linkname, 100)
            && s[101..109] == Magic(h, d) && s[189..344] == TextField(PrefixPart(h.path), 155)
  {
    hide Magic, PrefixPart, ValidUtf8, CanonicalTarPath, Octal, TextField, Zeros;
    TailLayout(h.typeflag, TextField(h.linkname, 100), Magic(h, d), Zeros(64) + Octal(0, 8) + Octal(0, 8),
               TextField(PrefixPart(h.path), 155), Zeros(12));
  }

  predicate Octets(s: Bytes) {
    forall i :: 0 <= i < |s| ==> s[i] as int < 0x100
  }

  lemma {:induction false} SumIsBounded(s: Bytes)
    requires Octets(s)
    ensures Sum(s) <= 255 * |s|
  {
    if s != "" {
      SumIsBounded(Front(s));
    }
  }

  lemma {:induction false} Utf8IsOctets(s: Bytes)
    requires ValidUtf8(s)
    ensures Octets(s)
    decreases |s|
  {
    if s != "" {
      var n := Utf8Length(s);
      Utf8IsOctets(s[n..]);
      assert s == s[..n] + s[n..];
      assert forall i :: 0 <= i < n ==> s[i] as int < 0x100;
      assert forall i :: n <= i < |s| ==> s[i] == s[n..][i - n];
    }
  }

  /** The checksum of any block of octets is at most 128776, so six octal digits always hold it. */
  lemma ChecksumFitsSixDigits(block: Bytes)
    requires |block| == BLOCK && Octets(block)
    ensures Checksum(block) <= 128776 < Power(8, 6)
  {
    SumIsBounded(block[..148]);
    SumIsBounded(block[156..]);
    assert Power(8, 6) == 262144;
  }

  lemma DigitsAreOctets(s: string)
    requires AllDigits(s, 8)
    ensures Octets(s)
  {
    assert forall i :: 0 <= i < |s| ==> IsDigit(s[i], 8);
  }

  lemma OctalIsOctets(n: nat, width: nat)
    requires width > 0
    ensures Octets(Octal(n, width))
  {
    DigitsAreOctets(Padded(n, 8, width - 1));
  }

  lemma PathIsOctets(path: string)
    requires PathFits(path) && ValidUtf8(path)
    ensures Octets(NamePart(path)) && Octets(PrefixPart(path))
  {
    Utf8IsOctets(path);
  }

  lemma BeforeIsOctets(h: Header)
    requires FitsHeader(h)
    ensures Octets(BeforeChecksum(h))
  {
    hide NamePart, PrefixPart, Padded, ValidUtf8, CanonicalTarPath;
    PathIsOctets(h.path);
    OctalIsOctets(h.mode, 8);
    OctalIsOctets(h.uid, 8);
    OctalIsOctets(h.gid, 8);
    OctalIsOctets(h.size, 12);
    OctalIsOctets(0, 12);
    assert Octets(NameToMode(h));
    assert Octets(NameToGid(h));
  }

  lemma AfterIsOctets(h: Header, d: Dialect)
    requires FitsHeader(h)
    ensures Octets(AfterChecksum(h, d))
  {
    hide NamePart, PrefixPart, Padded, ValidUtf8, CanonicalTarPath;
    PathIsOctets(h.path);
    Utf8IsOctets(h.linkname);
    OctalIsOctets(0, 8);
    assert Octets([h.typeflag] + TextField(h.linkname, 100) + Magic(h, d));
    assert Octets(Zeros(64) + Octal(0, 8) + Octal(0, 8));
    assert Octets(TextField(PrefixPart(h.path), 155) + Zeros(12));
  }

  lemma WrittenChecksumFits(h: Header, d: Dialect)
    requires FitsHeader(h)
    ensures ChecksumOf(h, d) < Power(8, 6)
  {
    hide FitsHeader, BeforeChecksum, AfterChecksum;
    BeforeIsOctets(h);
    AfterIsOctets(h, d);
    SumIsBounded(BeforeChecksum(h));
    SumIsBounded(AfterChecksum(h, d));
    assert Power(8, 6) == 262144;
  }

  lemma OctalReadsBack(n: nat, width: nat)
    requires width > 1 && n < Power(8, width - 1)
    ensures TarNumber(Octal(n, width)) == Some(n)
  {
    TarNumberOfPadded(n, width - 1, "\0");
  }

  lemma CanonicalHasNoNul(path: string, isDirectory: bool)
    requires CanonicalTarPath(path, isDirectory).Some?
    ensures '\0' !in path
  {
    assert ControlCharacter('\0');
  }

  lemma ChecksumIsWritten(h: Header, d: Dialect)
    requires FitsHeader(h)
    ensures Checksum(HeaderBlock(h, d)) == ChecksumOf(h, d)
  {
    Parts(h, d);
    hide HeaderBlock, BeforeChecksum, AfterChecksum, Sum;
  }

  lemma ChecksumReadsBack(h: Header, d: Dialect)
    requires FitsHeader(h)
    ensures TarNumber(HeaderBlock(h, d)[148..156]) == Some(Checksum(HeaderBlock(h, d)))
  {
    hide HeaderBlock, BeforeChecksum, AfterChecksum, Checksum, ChecksumOf, Padded, TarNumber, FitsHeader;
    Parts(h, d);
    ChecksumIsWritten(h, d);
    WrittenChecksumFits(h, d);
    TarNumberOfPadded(ChecksumOf(h, d), 6, "\0 ");
  }

  lemma Associative(a: Bytes, b: Bytes, c: Bytes)
    ensures a + b + c == a + (b + c)
  {
  }

  lemma HeaderParts(h: Header, d: Dialect)
    requires FitsHeader(h)
    ensures HeaderBlock(h, d) == BeforeChecksum(h) + (Padded(ChecksumOf(h, d), 8, 6) + "\0 ") + AfterChecksum(h, d)
  {
    hide FitsHeader, BeforeChecksum, AfterChecksum, ChecksumOf, Padded;
  }

  lemma FrontSlices(h: Header, d: Dialect)
    requires FitsHeader(h)
    ensures var s := HeaderBlock(h, d);
            && s[..100] == TextField(NamePart(h.path), 100)
            && s[100..108] == Octal(h.mode, 8) && s[108..116] == Octal(h.uid, 8)
            && s[116..124] == Octal(h.gid, 8) && s[124..136] == Octal(h.size, 12)
  {
    hide *;
    HeaderParts(h, d);
    NumbersReadBack(h);
    var front, sum, tail := BeforeChecksum(h), Padded(ChecksumOf(h, d), 8, 6) + "\0 ", AfterChecksum(h, d);
    Associative(front, sum, tail);
    FrontOfConcat(front, sum + tail);
  }

  lemma FrontOfConcat(a: Bytes, b: Bytes)
    requires |a| == 148
    ensures var s := a + b;
            && s[..100] == a[..100] && s[100..108] == a[100..108] && s[108..116] == a[108..116]
            && s[116..124] == a[116..124] && s[124..136] == a[124..136]
  {
  }

  lemma TailSlices(h: Header, d: Dialect)
    requires FitsHeader(h)
    ensures var s := HeaderBlock(h, d);
            && s[156] == h.typeflag && s[157..257] == TextField(h.linkname, 100)
            && s[257..265] == Magic(h, d) && s[345..500] == TextField(PrefixPart(h.path), 155)
  {
    hide *;
    HeaderParts(h, d);
    TailReadsBack(h, d);
    TailOfConcat(BeforeChecksum(h) + (Padded(ChecksumOf(h, d), 8, 6) + "\0 "), AfterChecksum(h, d));
  }

  lemma TailOfConcat(a: Bytes, b: Bytes)
    requires |a| == 156 && |b| == 356
    ensures var s := a + b;
            && s[156] == b[0] && s[157..257] == b[1..101] && s[257..265] == b[101..109] && s[345..500] == b[189..344]
  {
    Shift(a, b, 1, 101);
    Shift(a, b, 101, 109);
    Shift(a, b, 189, 344);
  }

  lemma NumberFields(h: Header, d: Dialect)
    requires FitsHeader(h)
    ensures var s := HeaderBlock(h, d);
            && TarNumber(s[100..108]) == Some(h.mode) && TarNumber(s[108..116]) == Some(h.uid)
            && TarNumber(s[116..124]) == Some(h.gid) && TarNumber(s[124..136]) == Some(h.size)
  {
    FrontSlices(h, d);
    assert Power(8, 7) == 2097152;
    OctalReadsBack(h.mode, 8);
    OctalReadsBack(h.uid, 8);
    OctalReadsBack(h.gid, 8);
    OctalReadsBack(h.size, 12);
  }

  /** Both parts of a path are text if the path is. */
  lemma PartsAreText(path: string)
    requires PathFits(path) && ValidUtf8(path) && '\0' !in path
    ensures ValidUtf8(NamePart(path)) && ValidUtf8(PrefixPart(path))
    ensures '\0' !in NamePart(path) && '\0' !in PrefixPart(path)
  {
    hide ValidUtf8;
    if |path| > 100 {
      assert path == PrefixPart(path) + "/" + NamePart(path);
      Utf8AroundSlash(PrefixPart(path), NamePart(path));
    } else {
      AsciiIsUtf8("");
    }
  }

  lemma TextFieldReadsBack(text: string, width: nat)
    requires |text| <= width && ValidUtf8(text) && '\0' !in text
    ensures TarText(TextField(text, width)) == Some(text)
  {
    hide TarText, ValidUtf8;
    TarTextOfPadded(text, width - |text|);
  }

  lemma LinkHasNoNul(h: Header)
    requires FitsHeader(h)
    ensures '\0' !in h.linkname
  {
    assert ControlCharacter('\0');
  }

  lemma TextFields(h: Header, d: Dialect)
    requires FitsHeader(h)
    ensures var s := HeaderBlock(h, d);
            && TarText(s[..100]) == Some(NamePart(h.path)) && TarText(s[157..257]) == Some(h.linkname)
            && TarText(s[345..500]) == Some(PrefixPart(h.path))
  {
    hide ValidUtf8, NamePart, PrefixPart, HeaderBlock, TextField, TarText, PlainText;
    FrontSlices(h, d);
    TailSlices(h, d);
    CanonicalHasNoNul(h.path, h.typeflag == '5');
    PartsAreText(h.path);
    LinkHasNoNul(h);
    TextFieldReadsBack(NamePart(h.path), 100);
    TextFieldReadsBack(h.linkname, 100);
    TextFieldReadsBack(PrefixPart(h.path), 155);
  }

  lemma MagicIsKnown(h: Header, d: Dialect)
    requires FitsHeader(h)
    ensures var magic := Magic(h, d);
            && KnownMagic(magic[..6], magic[6..]) && magic[0] == 'u'
            && (magic[..6] == "ustar " ==> PrefixPart(h.path) == "")
  {
    var magic := Magic(h, d);
    if d == OldGnu && |h.path| <= 100 {
      assert magic[..6] == "ustar " && magic[6..] == " \0";
    } else {
      assert magic[..6] == "ustar\0" && magic[6..] == "00";
      assert magic[..6][5] != "ustar "[5];
    }
  }

  lemma OtherFields(h: Header, d: Dialect)
    requires FitsHeader(h)
    ensures var s := HeaderBlock(h, d);
            && KnownMagic(s[257..263], s[263..265]) && (s[257..263] == "ustar " ==> PrefixPart(h.path) == "")
            && s[156] == h.typeflag && !AllZero(s)
  {
    hide HeaderBlock, Magic, KnownMagic, PrefixPart, TextField, AllZero, FitsHeader;
    TailSlices(h, d);
    MagicIsKnown(h, d);
    MagicHalves(HeaderBlock(h, d));
  }

  lemma MagicHalves(s: Bytes)
    requires |s| == BLOCK
    ensures s[257..263] == s[257..265][..6] && s[263..265] == s[257..265][6..]
    ensures s[257..265][0] == 'u' ==> !AllZero(s)
  {
    assert s[257..265][0] == s[257];
  }

  /** A written header reads back. */
  lemma HeaderRoundTrip(h: Header, d: Dialect)
    requires FitsHeader(h)
    ensures ReadHeader(HeaderBlock(h, d)) == Some(h) && !AllZero(HeaderBlock(h, d))
  {
    NumberFields(h, d);
    TextFields(h, d);
    OtherFields(h, d);
    ChecksumReadsBack(h, d);
  }
}
