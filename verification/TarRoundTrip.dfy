/** Whole archives: writing members and scanning them gives the members back. */
module TarRoundTrip {
  import opened Common
  import opened Text
  import opened Paths
  import opened Pax
  import opened Layers
  import opened TarScan
  import opened TarWriter

  // ---------------------------------------------------------------- frames

  /** A header, its payload, and the padding up to the next block. */
  function FrameBytes(h: Header, payload: Bytes, d: Dialect): (s: Bytes)
    requires FitsHeader(h) && |payload| == h.size
    ensures |s| == BLOCK + RoundUp(h.size)
  {
    RoundUpBounds(h.size);
    HeaderBlock(h, d) + payload + Zeros(RoundUp(h.size) - h.size)
  }

  lemma Regroup(pre: Bytes, a: Bytes, b: Bytes, c: Bytes, rest: Bytes)
    ensures var data, o := pre + (a + b + c) + rest, |pre|;
            && data[o..o + |a|] == a
            && data[o + |a|..o + |a| + |b|] == b
            && data[o + |a| + |b|..o + |a| + |b| + |c|] == c
  {
  }

  lemma FrameSlices(pre: Bytes, h: Header, payload: Bytes, d: Dialect, rest: Bytes)
    requires FitsHeader(h) && |payload| == h.size
    ensures var data := pre + FrameBytes(h, payload, d) + rest; var o := |pre|;
            && o + BLOCK + RoundUp(h.size) <= |data|
            && data[o..o + BLOCK] == HeaderBlock(h, d)
            && data[o + BLOCK..o + BLOCK + h.size] == payload
            && ZeroPadded(data, o + BLOCK, h.size)
  {
    RoundUpBounds(h.size);
    Regroup(pre, HeaderBlock(h, d), payload, Zeros(RoundUp(h.size) - h.size), rest);
  }

  lemma StepAdvances(data: Bytes, offset: nat, h: Header, st: State, rules: Rules)
    requires offset + BLOCK <= |data|
    requires ReadHeader(data[offset..offset + BLOCK]) == Some(h) && !AllZero(data[offset..offset + BLOCK])
    ensures Step(data, offset, st, rules) == Advance(data, offset, h, st, rules)
  {
  }

  lemma ScanSteps(data: Bytes, offset: nat, st: State, rules: Rules, offset': nat, st': State)
    requires offset < |data| && Step(data, offset, st, rules) == Next(offset', st')
    ensures ScanFrom(data, offset, st, rules) == ScanFrom(data, offset', st', rules)
  {
  }

  lemma AdvanceMoves(data: Bytes, offset: nat, h: Header, st: State, rules: Rules)
    requires offset + BLOCK + h.size <= |data| && offset + BLOCK + RoundUp(h.size) <= |data|
    requires ZeroPadded(data, offset + BLOCK, h.size) && Absorb(data, offset, h, st, rules).Some?
    ensures Advance(data, offset, h, st, rules)
         == Next(offset + BLOCK + RoundUp(h.size), Absorb(data, offset, h, st, rules).value)
  {
  }

  lemma WrittenStep(data: Bytes, offset: nat, h: Header, d: Dialect, st: State, rules: Rules)
    requires FitsHeader(h) && offset + BLOCK <= |data| && data[offset..offset + BLOCK] == HeaderBlock(h, d)
    ensures Step(data, offset, st, rules) == Advance(data, offset, h, st, rules)
  {
    HeaderRoundTrip(h, d);
    StepAdvances(data, offset, h, st, rules);
  }

  lemma StepOverFrame(data: Bytes, pre: Bytes, h: Header, payload: Bytes, d: Dialect, rest: Bytes,
                      st: State, rules: Rules, st': State)
    requires FitsHeader(h) && |payload| == h.size && data == pre + FrameBytes(h, payload, d) + rest
    requires |pre| + BLOCK + h.size <= |data| && Absorb(data, |pre|, h, st, rules) == Some(st')
    ensures Step(data, |pre|, st, rules) == Next(|pre| + BLOCK + RoundUp(h.size), st')
  {
    FrameSlices(pre, h, payload, d, rest);
    AdvanceMoves(data, |pre|, h, st, rules);
    WrittenStep(data, |pre|, h, d, st, rules);
  }

  // ---------------------------------------------------------------- members

  /** An entry a ustar archive with local PAX headers can carry. */
  ghost predicate Writable(e: Entry) {
    && (IsCanonical(e.path) || (e.path == "" && e.kind == Directory)) && ValidUtf8(e.path)
    && e.mode <= 0xfff && e.uid < Power(8, 7) && e.gid < Power(8, 7) && e.size < Power(8, 11)
    && (e.kind != File ==> e.size == 0)
    && (match e.kind
        case HardLink => e.linkname.Some? && IsCanonical(e.linkname.value) && ValidUtf8(e.linkname.value)
        case SymLink => e.linkname.Some? && PlainText(e.linkname.value) && ValidUtf8(e.linkname.value)
        case _ => e.linkname.None?)
    && (forall name :: name in e.xattrs ==> XattrName(name))
    && |PaxText(PaxOf(e))| <= MAX_PAX_BYTES
  }

  predicate XattrName(name: string) {
    name != "" && PlainText(name) && ValidKey(SCHILY_XATTR_PREFIX + name)
  }

  function TypeFlag(kind: Kind): char {
    match kind
    case File => '0'
    case HardLink => '1'
    case SymLink => '2'
    case CharacterDevice => '3'
    case BlockDevice => '4'
    case Directory => '5'
    case Fifo => '6'
  }

  /** The path in the header block: the path itself if it fits, otherwise a stand-in of the same whiteout status. */
  function RawPath(e: Entry): string {
    if PathFits(e.path) then (if e.path == "" then "." else e.path)
    else if WhiteoutName(e.path) then ".wh.p"
    else "p"
  }

  function RawLink(e: Entry): string {
    if e.linkname.Some? && |e.linkname.value| <= 100 then e.linkname.value else ""
  }

  function RawHeader(e: Entry): Header {
    Header(RawPath(e), RawLink(e), e.mode, e.uid, e.gid, e.size, TypeFlag(e.kind))
  }

  ghost function XattrRecords(xattrs: map<string, Bytes>): seq<Record>
    decreases |xattrs|
  {
    if xattrs == map[] then []
    else
      var name :| name in xattrs;
      assert |xattrs - {name}| < |xattrs| by { FewerKeys(xattrs, name); }
      XattrRecords(xattrs - {name}) + [Record(SCHILY_XATTR_PREFIX + name, xattrs[name])]
  }

  lemma FewerKeys(m: map<string, Bytes>, k: string)
    requires k in m
    ensures |m - {k}| < |m|
  {
    assert (m - {k}).Keys == m.Keys - {k};
    assert |m.Keys| == |m| && |(m - {k}).Keys| == |m - {k}|;
  }

  function NameRecords(e: Entry): seq<Record> {
    (if !PathFits(e.path) then [Record("path", e.path)] else [])
    + (if e.linkname.Some? && |e.linkname.value| > 100 then [Record("linkpath", e.linkname.value)] else [])
  }

  ghost function PaxOf(e: Entry): seq<Record> {
    NameRecords(e) + XattrRecords(e.xattrs)
  }

  function PaxHeader(size: nat): Header {
    Header("pax", "", 0, 0, 0, size, 'x')
  }

  /** A member with its payload, and the form its headers are written in. */
  datatype Member = Member(entry: Entry, payload: Bytes, dialect: Dialect)

  ghost predicate WritableMember(m: Member) {
    Writable(m.entry) && |m.payload| == m.entry.size
  }

  ghost function MemberBytes(m: Member): Bytes
    requires WritableMember(m)
  {
    RawHeaderFits(m.entry);
    PaxHeaderFits(m.entry);
    var text := PaxText(PaxOf(m.entry));
    (if PaxOf(m.entry) == [] then "" else FrameBytes(PaxHeader(|text|), text, m.dialect))
    + FrameBytes(RawHeader(m.entry), m.payload, m.dialect)
  }

  lemma ShortNames()
    ensures CanonicalTarPath("p", false) == CanonicalTarPath("p", true) == Some("p")
    ensures CanonicalTarPath(".wh.p", false) == CanonicalTarPath(".wh.p", true) == Some(".wh.p")
    ensures CanonicalTarPath("pax", false) == Some("pax")
    ensures CanonicalTarPath(".", true) == Some("")
  {
    ShortName("p");
    ShortName(".wh.p");
    ShortName("pax");
    SplitWithoutSlash(".");
  }

  lemma ShortName(name: string)
    requires name == "p" || name == ".wh.p" || name == "pax"
    ensures CanonicalTarPath(name, false) == CanonicalTarPath(name, true) == Some(name)
  {
    SplitWithoutSlash(name);
    assert IsCanonical(name);
    CanonicalFixedPoint(name, false);
    CanonicalFixedPoint(name, true);
  }

  lemma ShortPathReadsBack(e: Entry)
    requires Writable(e) && PathFits(e.path)
    ensures ValidUtf8(RawPath(e)) && PathFits(RawPath(e))
    ensures CanonicalTarPath(RawPath(e), e.kind == Directory) == Some(e.path)
  {
    hide ValidUtf8, CanonicalTarPath, IsCanonical, PaxOf;
    assert !IsCanonical("") by { CanonicalFixedPoint("", true); }
    if e.path == "" {
      ShortNames();
      AsciiIsUtf8(".");
    } else {
      CanonicalFixedPoint(e.path, e.kind == Directory);
    }
  }

  lemma StandInReadsBack(e: Entry)
    requires !PathFits(e.path)
    ensures ValidUtf8(RawPath(e)) && PathFits(RawPath(e))
    ensures CanonicalTarPath(RawPath(e), e.kind == Directory) == Some(RawPath(e))
    ensures WhiteoutName(RawPath(e)) <==> WhiteoutName(e.path)
  {
    hide CanonicalTarPath, ValidUtf8, IsCanonical, CutAt;
    ShortName(RawPath(e));
    AsciiIsUtf8(RawPath(e));
    SplitWithoutSlash(RawPath(e));
  }

  /** What the scanner makes of the raw path of an entry. */
  lemma RawPathReadsBack(e: Entry)
    requires Writable(e)
    ensures ValidUtf8(RawPath(e)) && PathFits(RawPath(e))
    ensures var raw := CanonicalTarPath(RawPath(e), e.kind == Directory);
            && raw.Some? && (PathFits(e.path) ==> raw.value == e.path)
            && (WhiteoutName(raw.value) <==> WhiteoutName(e.path))
  {
    if PathFits(e.path) {
      ShortPathReadsBack(e);
    } else {
      StandInReadsBack(e);
    }
  }

  lemma RawLinkFits(e: Entry)
    requires Writable(e)
    ensures |RawLink(e)| <= 100 && ValidUtf8(RawLink(e)) && PlainText(RawLink(e))
  {
    hide PaxOf, PaxText, XattrName;
    AsciiIsUtf8("");
  }

  lemma RawHeaderFits(e: Entry)
    requires Writable(e)
    ensures FitsHeader(RawHeader(e))
  {
    RawPathReadsBack(e);
    RawLinkFits(e);
    hide ValidUtf8, CanonicalTarPath, PathFits, RawPath, RawLink, IsCanonical, PlainText, PaxOf, PaxText;
    hide XattrName, WhiteoutName;
  }

  lemma PaxHeaderFits(e: Entry)
    requires Writable(e)
    ensures FitsHeader(PaxHeader(|PaxText(PaxOf(e))|))
  {
    ShortName("pax");
    AsciiIsUtf8("pax");
    assert Power(8, 7) == 2097152;
    assert Power(8, 11) > Power(8, 7);
  }

  // ---------------------------------------------------------------- fields

  lemma PaxFieldsSnoc(h: Header, records: seq<Record>, r: Record, isTimestamp: Bytes -> bool, f: Fields)
    requires PaxFields(h, records, isTimestamp) == Some(f)
    ensures PaxFields(h, records + [r], isTimestamp) == PaxField(f, h, r, isTimestamp)
  {
    assert Front(records + [r]) == records && Last(records + [r]) == r;
  }

  /** Nothing, or one record that sets a name. */
  lemma OptionalField(h: Header, base: seq<Record>, f: Fields, r: Option<Record>, g: Fields, isTimestamp: Bytes -> bool)
    requires PaxFields(h, base, isTimestamp) == Some(f)
    requires if r.Some? then PaxField(f, h, r.value, isTimestamp) == Some(g) else g == f
    ensures PaxFields(h, base + (if r.Some? then [r.value] else []), isTimestamp) == Some(g)
  {
    hide PaxField, PaxFields;
    if r.Some? {
      PaxFieldsSnoc(h, base, r.value, isTimestamp, f);
    } else {
      assert base + [] == base;
    }
  }

  lemma NameField(f: Fields, h: Header, value: string, isTimestamp: Bytes -> bool)
    requires ValidUtf8(value)
    ensures PaxField(f, h, Record("path", value), isTimestamp) == Some(f.(path := value))
    ensures PaxField(f, h, Record("linkpath", value), isTimestamp) == Some(f.(linkname := value))
  {
    hide ValidUtf8;
  }

  lemma NameFields(e: Entry, isTimestamp: Bytes -> bool)
    requires Writable(e)
    ensures PaxFields(RawHeader(e), NameRecords(e), isTimestamp)
         == Some(Fields(if !PathFits(e.path) then e.path else RawPath(e),
                        if e.linkname.Some? then e.linkname.value else "", map[]))
  {
    var h := RawHeader(e);
    var f := Fields(h.path, h.linkname, map[]);
    assert PaxFields(h, [], isTimestamp) == Some(f);
    hide PaxFields, PaxField, ValidUtf8, RawPath, IsCanonical, PaxText, PaxOf, PathFits, PlainText, XattrName;
    var long := e.linkname.Some? && |e.linkname.value| > 100;
    var path := if !PathFits(e.path) then Some(Record("path", e.path)) else None;
    var link := if long then Some(Record("linkpath", e.linkname.value)) else None;
    var g := if path.Some? then f.(path := e.path) else f;
    NameField(f, h, e.path, isTimestamp);
    OptionalField(h, [], f, path, g, isTimestamp);
    var names: seq<Record> := if path.Some? then [path.value] else [];
    assert [] + names == names;
    if long {
      NameField(g, h, e.linkname.value, isTimestamp);
    }
    OptionalField(h, names, g, link, if long then g.(linkname := e.linkname.value) else g, isTimestamp);
    assert NameRecords(e) == names + (if link.Some? then [link.value] else []);
  }

  lemma {:induction false} XattrFields(h: Header, base: seq<Record>, f: Fields, xattrs: map<string, Bytes>,
                                       isTimestamp: Bytes -> bool)
    requires PaxFields(h, base, isTimestamp) == Some(f) && f.xattrs == map[]
    requires forall name :: name in xattrs ==> XattrName(name)
    ensures PaxFields(h, base + XattrRecords(xattrs), isTimestamp) == Some(f.(xattrs := xattrs))
    decreases |xattrs|
  {
    hide PaxField, PaxFields, XattrName;
    if xattrs == map[] {
      assert base + XattrRecords(xattrs) == base;
    } else {
      var name := PickedName(xattrs);
      var less := xattrs - {name};
      var r := Record(SCHILY_XATTR_PREFIX + name, xattrs[name]);
      FewerKeys(xattrs, name);
      XattrFields(h, base, f, less, isTimestamp);
      PaxFieldsSnoc(h, base + XattrRecords(less), r, isTimestamp, f.(xattrs := less));
      XattrField(f.(xattrs := less), h, name, xattrs[name], isTimestamp);
      assert base + XattrRecords(less) + [r] == base + XattrRecords(xattrs);
      assert less[name := xattrs[name]] == xattrs;
    }
  }

  lemma XattrField(f: Fields, h: Header, name: string, value: Bytes, isTimestamp: Bytes -> bool)
    requires XattrName(name)
    ensures PaxField(f, h, Record(SCHILY_XATTR_PREFIX + name, value), isTimestamp)
         == Some(f.(xattrs := f.xattrs[name := value]))
  {
    assert (SCHILY_XATTR_PREFIX + name)[|SCHILY_XATTR_PREFIX|..] == name;
  }

  /** The name `XattrRecords` takes last. */
  lemma PickedName(xattrs: map<string, Bytes>) returns (name: string)
    requires xattrs != map[]
    ensures name in xattrs
    ensures XattrRecords(xattrs) == XattrRecords(xattrs - {name}) + [Record(SCHILY_XATTR_PREFIX + name, xattrs[name])]
  {
    name := Last(XattrRecords(xattrs)).key[|SCHILY_XATTR_PREFIX|..];
  }

  lemma RecordsCarryTheFields(e: Entry, isTimestamp: Bytes -> bool)
    requires Writable(e)
    ensures PaxFields(RawHeader(e), PaxOf(e), isTimestamp)
         == Some(Fields(if !PathFits(e.path) then e.path else RawPath(e),
                        if e.linkname.Some? then e.linkname.value else "", e.xattrs))
  {
    NameFields(e, isTimestamp);
    XattrFields(RawHeader(e), NameRecords(e), PaxFields(RawHeader(e), NameRecords(e), isTimestamp).value, e.xattrs,
                isTimestamp);
  }

  lemma LongPathHasRecord(e: Entry)
    requires !PathFits(e.path)
    ensures HasKey(PaxOf(e), "path") && e.path != ""
  {
    assert PaxOf(e)[0] == Record("path", e.path);
  }

  /** The raw header and the PAX records of an entry give the entry back. */
  lemma MemberRoundTrip(e: Entry, isTimestamp: Bytes -> bool)
    requires Writable(e)
    ensures MemberEntry(RawHeader(e), PaxOf(e), isTimestamp) == Some(e)
  {
    hide PaxFields, CanonicalTarPath, PaxOf, RawPath, PathFits, BaseName, IsCanonical, ValidUtf8;
    RecordsCarryTheFields(e, isTimestamp);
    RawPathReadsBack(e);
    if !PathFits(e.path) {
      LongPathHasRecord(e);
      CanonicalFixedPoint(e.path, e.kind == Directory);
    }
    if e.kind == HardLink {
      CanonicalFixedPoint(e.linkname.value, false);
    }
  }

  // ---------------------------------------------------------------- the PAX header of a member

  lemma {:induction false} XattrKeys(xattrs: map<string, Bytes>)
    requires forall name :: name in xattrs ==> XattrName(name)
    ensures forall r :: r in XattrRecords(xattrs) ==>
              ValidKey(r.key) && SCHILY_XATTR_PREFIX <= r.key && r.key[|SCHILY_XATTR_PREFIX|..] in xattrs
    ensures DistinctKeys(XattrRecords(xattrs))
    decreases |xattrs|
  {
    if xattrs != map[] {
      var name := PickedName(xattrs);
      var less := xattrs - {name};
      FewerKeys(xattrs, name);
      XattrKeys(less);
      var rest := XattrRecords(less);
      var key := SCHILY_XATTR_PREFIX + name;
      assert key[|SCHILY_XATTR_PREFIX|..] == name;
      forall i | 0 <= i < |rest|
        ensures rest[i].key != key
      {
        assert rest[i] in rest;
      }
    }
  }

  lemma NameKey(key: string)
    requires key == "path" || key == "linkpath"
    ensures ValidKey(key) && !(SCHILY_XATTR_PREFIX <= key)
  {
    hide ValidUtf8;
    AsciiIsUtf8(key);
    assert SCHILY_XATTR_PREFIX[0] != key[0];
  }

  lemma NameKeys(e: Entry)
    ensures forall r :: r in NameRecords(e) ==> ValidKey(r.key) && !(SCHILY_XATTR_PREFIX <= r.key)
    ensures DistinctKeys(NameRecords(e))
  {
    hide ValidKey;
    NameKey("path");
    NameKey("linkpath");
  }

  lemma PaxHeaderReadsBack(e: Entry)
    requires Writable(e)
    ensures Records(PaxText(PaxOf(e))) == Some(PaxOf(e))
  {
    var names, xattrs, all := NameRecords(e), XattrRecords(e.xattrs), PaxOf(e);
    NameKeys(e);
    XattrKeys(e.xattrs);
    forall i | 0 <= i < |all|
      ensures ValidKey(all[i].key)
      ensures SCHILY_XATTR_PREFIX <= all[i].key <==> i >= |names|
    {
      assert all[i] == if i < |names| then names[i] else xattrs[i - |names|];
      assert if i < |names| then names[i] in names else xattrs[i - |names|] in xattrs;
    }
    forall i, j | 0 <= i < j < |all|
      ensures all[i].key != all[j].key
    {
      if j < |names| {
        assert names[i].key != names[j].key;
      } else if i >= |names| {
        assert xattrs[i - |names|].key != xattrs[j - |names|].key;
      }
    }
    PaxRoundTrip(all);
  }

  // ---------------------------------------------------------------- archives

  ghost predicate WritableMembers(ms: seq<Member>) {
    forall i :: 0 <= i < |ms| ==> WritableMember(ms[i])
  }

  /** All members in order, then two zero blocks. */
  ghost function Archive(ms: seq<Member>): Bytes
    requires WritableMembers(ms)
  {
    if ms == [] then Zeros(2 * BLOCK) else MemberBytes(ms[0]) + Archive(ms[1..])
  }

  function Entries(ms: seq<Member>): seq<Entry> {
    seq(|ms|, i requires 0 <= i < |ms| => ms[i].entry)
  }

  lemma AbsorbPax(data: Bytes, offset: nat, text: Bytes, records: seq<Record>, st: State, rules: Rules)
    requires Records(text) == Some(records) && rules.allowLocalPax && st.pending.None?
    requires offset + BLOCK + |text| <= |data| && data[offset + BLOCK..offset + BLOCK + |text|] == text
    ensures Absorb(data, offset, PaxHeader(|text|), st, rules) == Some(st.(pending := Some(records)))
  {
    assert |text| <= MAX_PAX_BYTES;
    hide Records, MemberEntry, PathSeen;
  }

  lemma AbsorbMember(data: Bytes, offset: nat, e: Entry, st: State, rules: Rules)
    requires Writable(e) && |st.entries| < rules.maximumMembers && !PathSeen(st.entries, e.path)
    requires offset + BLOCK + e.size <= |data|
    requires st.pending == if PaxOf(e) == [] then None else Some(PaxOf(e))
    ensures Absorb(data, offset, RawHeader(e), st, rules) == Some(State(st.entries + [e], None))
  {
    hide MemberEntry, PathSeen, Writable, PaxOf, RawPath, RawLink, Records;
    MemberRoundTrip(e, rules.isTimestamp);
  }

  /** From the start of a written member the scanner reaches its end with the entry appended. */
  lemma ScanMember(data: Bytes, pre: Bytes, m: Member, rest: Bytes, entries: seq<Entry>, rules: Rules)
    requires WritableMember(m) && data == pre + MemberBytes(m) + rest
    requires rules.allowLocalPax && |entries| < rules.maximumMembers && !PathSeen(entries, m.entry.path)
    ensures ScanFrom(data, |pre|, State(entries, None), rules)
         == ScanFrom(data, |pre| + |MemberBytes(m)|, State(entries + [m.entry], None), rules)
  {
    hide ScanFrom, FitsHeader, FrameBytes, Writable, PaxOf, PaxText, Records, PathSeen;
    var e := m.entry;
    RawHeaderFits(e);
    PaxHeaderFits(e);
    var text := PaxText(PaxOf(e));
    var frame := FrameBytes(RawHeader(e), m.payload, m.dialect);
    if PaxOf(e) == [] {
      assert MemberBytes(m) == frame;
      ScanPlainMember(data, pre, m, rest, State(entries, None), rules);
    } else {
      var paxFrame := FrameBytes(PaxHeader(|text|), text, m.dialect);
      assert MemberBytes(m) == paxFrame + frame;
      assert data == pre + paxFrame + (frame + rest);
      PaxHeaderReadsBack(e);
      ScanPaxHeader(data, pre, text, PaxOf(e), m.dialect, frame + rest, State(entries, None), rules);
      assert data == (pre + paxFrame) + frame + rest;
      ScanPlainMember(data, pre + paxFrame, m, rest, State(entries, Some(PaxOf(e))), rules);
    }
  }

  /** From the start of a frame whose payload is taken in the scanner reaches the next one. */
  lemma ScanOverFrame(data: Bytes, pre: Bytes, h: Header, payload: Bytes, d: Dialect, rest: Bytes,
                      st: State, rules: Rules, st': State)
    requires FitsHeader(h) && |payload| == h.size && data == pre + FrameBytes(h, payload, d) + rest
    requires |pre| + BLOCK + h.size <= |data| && Absorb(data, |pre|, h, st, rules) == Some(st')
    ensures ScanFrom(data, |pre|, st, rules) == ScanFrom(data, |pre| + |FrameBytes(h, payload, d)|, st', rules)
  {
    hide ScanFrom, Absorb, Step, FitsHeader, FrameBytes, RoundUp;
    StepOverFrame(data, pre, h, payload, d, rest, st, rules, st');
    ScanSteps(data, |pre|, st, rules, |pre| + BLOCK + RoundUp(h.size), st');
  }

  /** Where the payload of a frame is. */
  lemma FramePayload(data: Bytes, pre: Bytes, h: Header, payload: Bytes, d: Dialect, rest: Bytes)
    requires FitsHeader(h) && |payload| == h.size && data == pre + FrameBytes(h, payload, d) + rest
    ensures |pre| + BLOCK + h.size <= |data|
    ensures data[|pre| + BLOCK..|pre| + BLOCK + h.size] == payload
  {
    hide FitsHeader, FrameBytes, RoundUp, ZeroPadded;
    RoundUpBounds(h.size);
    FrameSlices(pre, h, payload, d, rest);
  }

  lemma ScanPlainMember(data: Bytes, pre: Bytes, m: Member, rest: Bytes, st: State, rules: Rules)
    requires WritableMember(m) && FitsHeader(RawHeader(m.entry))
    requires data == pre + FrameBytes(RawHeader(m.entry), m.payload, m.dialect) + rest
    requires |st.entries| < rules.maximumMembers && !PathSeen(st.entries, m.entry.path)
    requires st.pending == if PaxOf(m.entry) == [] then None else Some(PaxOf(m.entry))
    ensures ScanFrom(data, |pre|, st, rules)
         == ScanFrom(data, |pre| + |FrameBytes(RawHeader(m.entry), m.payload, m.dialect)|,
                     State(st.entries + [m.entry], None), rules)
  {
    hide ScanFrom, Absorb, FitsHeader, FrameBytes, PaxOf, Writable, PathSeen;
    FramePayload(data, pre, RawHeader(m.entry), m.payload, m.dialect, rest);
    AbsorbMember(data, |pre|, m.entry, st, rules);
    ScanOverFrame(data, pre, RawHeader(m.entry), m.payload, m.dialect, rest, st, rules,
                  State(st.entries + [m.entry], None));
  }

  lemma ScanPaxHeader(data: Bytes, pre: Bytes, text: Bytes, records: seq<Record>, d: Dialect, rest: Bytes,
                      st: State, rules: Rules)
    requires Records(text) == Some(records) && rules.allowLocalPax && st.pending.None?
    requires FitsHeader(PaxHeader(|text|)) && data == pre + FrameBytes(PaxHeader(|text|), text, d) + rest
    ensures ScanFrom(data, |pre|, st, rules)
         == ScanFrom(data, |pre| + |FrameBytes(PaxHeader(|text|), text, d)|, st.(pending := Some(records)), rules)
  {
    hide ScanFrom, Absorb, FitsHeader, FrameBytes, Records;
    FramePayload(data, pre, PaxHeader(|text|), text, d, rest);
    AbsorbPax(data, |pre|, text, records, st, rules);
    ScanOverFrame(data, pre, PaxHeader(|text|), text, d, rest, st, rules, st.(pending := Some(records)));
  }

  lemma ScanEnd(data: Bytes, pre: Bytes, entries: seq<Entry>, rules: Rules)
    requires data == pre + Zeros(2 * BLOCK)
    ensures ScanFrom(data, |pre|, State(entries, None), rules) == Some(entries)
  {
    assert AllZero(data[|pre|..|pre| + BLOCK]) && AllZero(data[|pre| + BLOCK..]);
    assert Step(data, |pre|, State(entries, None), rules) == End;
  }

  ghost predicate NewPaths(entries: seq<Entry>, ms: seq<Member>) {
    && (forall i :: 0 <= i < |ms| ==> !PathSeen(entries, ms[i].entry.path))
    && (forall i, j :: 0 <= i < j < |ms| ==> ms[i].entry.path != ms[j].entry.path)
  }

  lemma NewPathsAfter(entries: seq<Entry>, ms: seq<Member>)
    requires ms != [] && NewPaths(entries, ms)
    ensures NewPaths(entries + [ms[0].entry], ms[1..])
  {
    SeenAfter(entries, ms[0].entry);
    var rest := ms[1..];
    assert forall i :: 0 <= i < |rest| ==> rest[i] == ms[i + 1];
  }

  lemma {:induction false} ScanArchive(data: Bytes, pre: Bytes, ms: seq<Member>, entries: seq<Entry>, rules: Rules)
    requires WritableMembers(ms) && data == pre + Archive(ms) && NewPaths(entries, ms)
    requires rules.allowLocalPax && |entries| + |ms| <= rules.maximumMembers
    ensures ScanFrom(data, |pre|, State(entries, None), rules) == Some(entries + Entries(ms))
    decreases |ms|
  {
    hide ScanFrom, MemberBytes, WritableMember;
    if ms == [] {
      ScanEnd(data, pre, entries, rules);
      assert entries + Entries(ms) == entries;
    } else {
      var m, rest := ms[0], Archive(ms[1..]);
      assert data == pre + MemberBytes(m) + rest;
      ScanMember(data, pre, m, rest, entries, rules);
      NewPathsAfter(entries, ms);
      ScanArchive(data, pre + MemberBytes(m), ms[1..], entries + [m.entry], rules);
      assert entries + [m.entry] + Entries(ms[1..]) == entries + Entries(ms);
    }
  }

  /** Scanning a written archive returns exactly the entries that were written. */
  lemma TarRoundTrips(ms: seq<Member>, rules: Rules)
    requires WritableMembers(ms) && rules.allowLocalPax && |ms| <= rules.maximumMembers
    requires forall i, j :: 0 <= i < j < |ms| ==> ms[i].entry.path != ms[j].entry.path
    ensures Scan(Archive(ms), rules) == Some(Entries(ms))
  {
    hide ScanFrom, Archive, WritableMember;
    var data := Archive(ms);
    assert data == "" + data;
    ScanArchive(data, "", ms, [], rules);
    assert [] + Entries(ms) == Entries(ms);
  }
}
