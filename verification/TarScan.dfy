/** The raw ustar scanner: headers, local PAX headers, members, padding and the end marker. */
module TarScan {
  import opened Common
  import opened Text
  import opened Paths
  import opened Pax
  import opened Layers

  const BLOCK: nat := 512
  const SCHILY_XATTR_PREFIX := "SCHILY.xattr."

  /** `isTimestamp` says which byte strings the runtime's `float` reads. */
  datatype Rules = Rules(allowLocalPax: bool, maximumMembers: nat, isTimestamp: Bytes -> bool)

  // ---------------------------------------------------------------- headers

  datatype Header = Header(
    path: string, linkname: string, mode: nat, uid: nat, gid: nat, size: nat, typeflag: char)

  function Sum(s: Bytes): nat {
    if s == "" then 0 else Sum(Front(s)) + Last(s) as int
  }

  /** The checksum of a header block, with the checksum field itself read as blanks. */
  function Checksum(block: Bytes): nat
    requires |block| == BLOCK
  {
    Sum(block[..148]) + 8 * 0x20 + Sum(block[156..])
  }

  predicate KnownMagic(magic: Bytes, version: Bytes) {
    || (magic == "ustar\0" && version == "00")
    || (magic == "ustar " && (version == " \0" || version == "00"))
  }

  /** What the scanner reads from a non-zero header block, or None where it fails. */
  function ReadHeader(block: Bytes): Option<Header>
    requires |block| == BLOCK
  {
    var magic := block[257..263];
    var name := TarText(block[..100]);
    var prefix := if magic == "ustar " then Some("") else TarText(block[345..500]);
    var linkname := TarText(block[157..257]);
    var mode, uid, gid := TarNumber(block[100..108]), TarNumber(block[108..116]), TarNumber(block[116..124]);
    var size := TarNumber(block[124..136]);
    var typeflag := block[156];
    if TarNumber(block[148..156]) != Some(Checksum(block)) || !KnownMagic(magic, block[263..265]) then None
    else if name.None? || prefix.None? || linkname.None? || mode.None? || uid.None? || gid.None? || size.None? then None
    else
      var path := if prefix.value != "" then prefix.value + "/" + name.value else name.value;
      if mode.value > 0xfff || CanonicalTarPath(path, typeflag == '5').None? then None
      else Some(Header(path, linkname.value, mode.value, uid.value, gid.value, size.value, typeflag))
  }

  // ---------------------------------------------------------------- members

  datatype Fields = Fields(path: string, linkname: string, xattrs: map<string, Bytes>)

  predicate PlainText(s: string) {
    forall c :: c in s ==> !ControlCharacter(c)
  }

  predicate DecimalOf(value: Bytes, n: nat) {
    value != "" && AllDigits(value, 10) && Value(value, 10) == n
  }

  /** One round of the loop of `pax_entry_fields`. */
  function PaxField(f: Fields, h: Header, r: Record, isTimestamp: Bytes -> bool): Option<Fields> {
    if SCHILY_XATTR_PREFIX <= r.key then
      var name := r.key[|SCHILY_XATTR_PREFIX|..];
      if name == "" || !PlainText(name) then None
      else Some(f.(xattrs := f.xattrs[name := r.value]))
    else if r.key == "path" then
      if ValidUtf8(r.value) then Some(f.(path := r.value)) else None
    else if r.key == "linkpath" then
      if ValidUtf8(r.value) then Some(f.(linkname := r.value)) else None
    else if r.key == "size" then
      if DecimalOf(r.value, h.size) then Some(f) else None
    else if r.key == "uid" then
      if DecimalOf(r.value, h.uid) then Some(f) else None
    else if r.key == "gid" then
      if DecimalOf(r.value, h.gid) then Some(f) else None
    else if r.key in {"uname", "gname", "charset", "hdrcharset", "comment"} then
      if ValidUtf8(r.value) then Some(f) else None
    else if r.key in {"mtime", "atime", "ctime"} then
      if Ascii(r.value) && isTimestamp(r.value) then Some(f) else None
    else None
  }

  /** `pax_entry_fields`. */
  function PaxFields(h: Header, records: seq<Record>, isTimestamp: Bytes -> bool): Option<Fields> {
    if records == [] then Some(Fields(h.path, h.linkname, map[]))
    else
      match PaxFields(h, Front(records), isTimestamp)
      case None => None
      case Some(f) => PaxField(f, h, Last(records), isTimestamp)
  }

  /** Whether a record is acceptable, on its own, before a member with the header `h`. */
  predicate RecordFits(h: Header, r: Record, isTimestamp: Bytes -> bool) {
    if SCHILY_XATTR_PREFIX <= r.key then XattrNameFits(r.key[|SCHILY_XATTR_PREFIX|..])
    else
      match r.key
      case "path" => ValidUtf8(r.value)
      case "linkpath" => ValidUtf8(r.value)
      case "size" => DecimalOf(r.value, h.size)
      case "uid" => DecimalOf(r.value, h.uid)
      case "gid" => DecimalOf(r.value, h.gid)
      case _ =>
        || (r.key in {"uname", "gname", "charset", "hdrcharset", "comment"} && ValidUtf8(r.value))
        || (r.key in {"mtime", "atime", "ctime"} && Ascii(r.value) && isTimestamp(r.value))
  }

  predicate XattrNameFits(name: string) {
    name != "" && forall c :: c in name ==> ' ' <= c && c != '\U{7F}'
  }

  ghost predicate RecordsFit(h: Header, records: seq<Record>, isTimestamp: Bytes -> bool) {
    forall r :: r in records ==> RecordFits(h, r, isTimestamp)
  }

  /** The field with this key: the value of its record, or else what the raw header says. */
  ghost predicate Declares(records: seq<Record>, key: string, raw: string, effective: string) {
    && (forall r :: r in records && r.key == key ==> effective == r.value)
    && (!HasKey(records, key) ==> effective == raw)
  }

  /** What the records say about a member, without reference to their order. */
  ghost predicate DeclaredFields(h: Header, records: seq<Record>, f: Fields) {
    && Declares(records, "path", h.path, f.path)
    && Declares(records, "linkpath", h.linkname, f.linkname)
    && (forall name, value :: (name in f.xattrs && f.xattrs[name] == value)
                              <==> Record(SCHILY_XATTR_PREFIX + name, value) in records)
  }

  lemma FieldAcceptedIfItFits(f: Fields, h: Header, r: Record, isTimestamp: Bytes -> bool)
    ensures PaxField(f, h, r, isTimestamp).Some? <==> RecordFits(h, r, isTimestamp)
  {
  }

  lemma {:induction false} AcceptedExactlyIfAllFit(h: Header, records: seq<Record>, isTimestamp: Bytes -> bool)
    ensures PaxFields(h, records, isTimestamp).Some? <==> RecordsFit(h, records, isTimestamp)
  {
    if records != [] {
      hide PaxField, RecordFits;
      var front, r := Front(records), Last(records);
      AcceptedExactlyIfAllFit(h, front, isTimestamp);
      assert records == front + [r];
      assert RecordsFit(h, records, isTimestamp)
             <==> RecordsFit(h, front, isTimestamp) && RecordFits(h, r, isTimestamp);
      if PaxFields(h, front, isTimestamp).Some? {
        FieldAcceptedIfItFits(PaxFields(h, front, isTimestamp).value, h, r, isTimestamp);
      }
    }
  }

  lemma {:induction false} AcceptedFieldsAreDeclared(h: Header, records: seq<Record>, isTimestamp: Bytes -> bool)
    requires DistinctKeys(records) && PaxFields(h, records, isTimestamp).Some?
    ensures DeclaredFields(h, records, PaxFields(h, records, isTimestamp).value)
  {
    if records != [] {
      hide ValidUtf8, PlainText, DecimalOf, Ascii;
      var front, r := Front(records), Last(records);
      AcceptedFieldsAreDeclared(h, front, isTimestamp);
      assert records == front + [r];
      assert forall x :: x in records <==> x in front || x == r;
      forall x | x in front
        ensures x.key != r.key
      {
        var i :| 0 <= i < |front| && front[i] == x;
        assert records[i].key != records[|front|].key;
      }
      OneMoreRecord(h, front, r, PaxFields(h, front, isTimestamp).value, isTimestamp);
    }
  }

  lemma OneMoreRecord(h: Header, front: seq<Record>, r: Record, f: Fields, isTimestamp: Bytes -> bool)
    requires DeclaredFields(h, front, f) && PaxField(f, h, r, isTimestamp).Some?
    requires forall x :: x in front ==> x.key != r.key
    ensures DeclaredFields(h, front + [r], PaxField(f, h, r, isTimestamp).value)
  {
    hide ValidUtf8, PlainText, DecimalOf, Ascii;
    var records, g := front + [r], PaxField(f, h, r, isTimestamp).value;
    assert forall x :: x in records <==> x in front || x == r;
    assert forall key :: HasKey(records, key) <==> HasKey(front, key) || r.key == key;
    assert !(SCHILY_XATTR_PREFIX <= "path") && !(SCHILY_XATTR_PREFIX <= "linkpath") by {
      assert SCHILY_XATTR_PREFIX[0] == 'S';
    }
    forall name, value
      ensures (name in g.xattrs && g.xattrs[name] == value) <==> Record(SCHILY_XATTR_PREFIX + name, value) in records
    {
      var key := SCHILY_XATTR_PREFIX + name;
      assert key[|SCHILY_XATTR_PREFIX|..] == name;
      assert r.key == key || Record(key, value) != r;
      if SCHILY_XATTR_PREFIX <= r.key {
        assert r.key == SCHILY_XATTR_PREFIX + r.key[|SCHILY_XATTR_PREFIX|..];
      }
    }
  }

  /**
   * The records of one PAX header give `f` exactly if each of them is acceptable on its own and `f` is
   * what they declare.
   */
  lemma PaxFieldsExactly(h: Header, records: seq<Record>, isTimestamp: Bytes -> bool, f: Fields)
    requires DistinctKeys(records)
    ensures PaxFields(h, records, isTimestamp) == Some(f)
            <==> RecordsFit(h, records, isTimestamp) && DeclaredFields(h, records, f)
  {
    hide RecordsFit, DeclaredFields, PaxFields;
    AcceptedExactlyIfAllFit(h, records, isTimestamp);
    if PaxFields(h, records, isTimestamp).Some? {
      AcceptedFieldsAreDeclared(h, records, isTimestamp);
      if DeclaredFields(h, records, f) {
        DeclaredFieldsAreUnique(h, records, f, PaxFields(h, records, isTimestamp).value);
      }
    }
  }

  lemma DeclaredFieldsAreUnique(h: Header, records: seq<Record>, f: Fields, g: Fields)
    requires DeclaredFields(h, records, f) && DeclaredFields(h, records, g)
    ensures f == g
  {
    if HasKey(records, "path") {
      var r :| r in records && r.key == "path";
      assert f.path == r.value == g.path;
    }
    if HasKey(records, "linkpath") {
      var r :| r in records && r.key == "linkpath";
      assert f.linkname == r.value == g.linkname;
    }
    assert f.xattrs == g.xattrs by {
      forall name
        ensures name in f.xattrs <==> name in g.xattrs
        ensures name in f.xattrs && name in g.xattrs ==> f.xattrs[name] == g.xattrs[name]
      {
        if name in f.xattrs {
          assert Record(SCHILY_XATTR_PREFIX + name, f.xattrs[name]) in records;
        }
        if name in g.xattrs {
          assert Record(SCHILY_XATTR_PREFIX + name, g.xattrs[name]) in records;
        }
      }
    }
  }

  /** `pax_entry_fields`; a dictionary of records has distinct keys. */
  method PaxEntryFields(h: Header, records: seq<Record>, isTimestamp: Bytes -> bool) returns (r: Option<Fields>)
    ensures r == PaxFields(h, records, isTimestamp)
    ensures r.Some? <==> RecordsFit(h, records, isTimestamp)
    ensures r.Some? && DistinctKeys(records) ==> DeclaredFields(h, records, r.value)
  {
    hide PaxField, RecordsFit, DeclaredFields;
    var fields := Fields(h.path, h.linkname, map[]);
    AcceptedExactlyIfAllFit(h, records, isTimestamp);
    for i := 0 to |records|
      invariant PaxFields(h, records[..i], isTimestamp) == Some(fields)
    {
      assert Front(records[..i + 1]) == records[..i];
      var next := PaxField(fields, h, records[i], isTimestamp);
      if next.None? {
        PaxFieldsFailEarly(h, records, i + 1, isTimestamp);
        return None;
      }
      fields := next.value;
    }
    assert records[..|records|] == records;
    if DistinctKeys(records) {
      AcceptedFieldsAreDeclared(h, records, isTimestamp);
    }
    return Some(fields);
  }

  lemma {:induction false} PaxFieldsFailEarly(h: Header, records: seq<Record>, n: nat, isTimestamp: Bytes -> bool)
    requires n <= |records| && PaxFields(h, records[..n], isTimestamp).None?
    ensures PaxFields(h, records, isTimestamp).None?
    decreases |records| - n
  {
    if n < |records| {
      assert Front(records[..n + 1]) == records[..n];
      PaxFieldsFailEarly(h, records, n + 1, isTimestamp);
    } else {
      assert records[..n] == records;
    }
  }

  function KindOf(typeflag: char): Option<Kind> {
    match typeflag
    case '\0' => Some(File)
    case '0' => Some(File)
    case '1' => Some(HardLink)
    case '2' => Some(SymLink)
    case '3' => Some(CharacterDevice)
    case '4' => Some(BlockDevice)
    case '5' => Some(Directory)
    case '6' => Some(Fifo)
    case _ => None
  }

  predicate HasKey(records: seq<Record>, key: string) {
    exists r :: r in records && r.key == key
  }

  /** The link name of the entry, or None where the scanner fails. */
  function EntryLink(kind: Kind, linkname: string): Option<Option<string>> {
    match kind
    case HardLink =>
      (match CanonicalTarPath(linkname, false)
       case None => None
       case Some(target) => Some(Some(target)))
    case SymLink => if PlainText(linkname) then Some(Some(linkname)) else None
    case _ => Some(None)
  }

  predicate WhiteoutName(path: string) {
    ".wh." <= BaseName(path)
  }

  /** The entry for a header and the records of the local PAX header before it, or None where the scanner fails. */
  function MemberEntry(h: Header, records: seq<Record>, isTimestamp: Bytes -> bool): Option<Entry> {
    var fields := PaxFields(h, records, isTimestamp);
    var kind := KindOf(h.typeflag);
    if fields.None? || kind.None? then None
    else
      var raw := CanonicalTarPath(h.path, kind.value == Directory);
      var path := CanonicalTarPath(fields.value.path, kind.value == Directory);
      if raw.None? || path.None? then None
      else if raw.value != path.value && !HasKey(records, "path") then None
      else if WhiteoutName(raw.value) != WhiteoutName(path.value) then None
      else
        var linkname := EntryLink(kind.value, fields.value.linkname);
        if linkname.None? || (kind.value != File && h.size != 0) then None
        else Some(Entry(path.value, kind.value, h.mode, h.uid, h.gid, h.size, linkname.value, fields.value.xattrs))
  }

  // ---------------------------------------------------------------- the scan

  /** `entries` and `pending_pax`. */
  datatype State = State(entries: seq<Entry>, pending: Option<seq<Record>>)

  datatype Outcome = Fail | End | Next(offset: nat, state: State)

  predicate MetadataType(typeflag: char) {
    typeflag in "xgXLKS"
  }

  predicate PathSeen(entries: seq<Entry>, path: string) {
    exists e :: e in entries && e.path == path
  }

  function RoundUp(size: nat): nat {
    (size + BLOCK - 1) / BLOCK * BLOCK
  }

  lemma RoundUpBounds(size: nat)
    ensures size <= RoundUp(size) < size + BLOCK && RoundUp(size) % BLOCK == 0
  {
  }

  /** The payload of `size` bytes at `start` is followed by zeros up to a block boundary. */
  predicate ZeroPadded(data: Bytes, start: nat, size: nat) {
    && start + size <= start + RoundUp(size) <= |data|
    && AllZero(data[start + size..start + RoundUp(size)])
  }

  /** What one header and its payload do to the state. */
  function Absorb(data: Bytes, offset: nat, h: Header, st: State, rules: Rules): Option<State>
    requires offset + BLOCK + h.size <= |data|
  {
    if MetadataType(h.typeflag) then
      if h.typeflag != 'x' || !rules.allowLocalPax || st.pending.Some? || h.size > MAX_PAX_BYTES then None
      else
        match Records(data[offset + BLOCK..offset + BLOCK + h.size])
        case None => None
        case Some(records) => Some(st.(pending := Some(records)))
    else if |st.entries| >= rules.maximumMembers then None
    else
      match MemberEntry(h, if st.pending.Some? then st.pending.value else [], rules.isTimestamp)
      case None => None
      case Some(e) => if PathSeen(st.entries, e.path) then None else Some(State(st.entries + [e], None))
  }

  /** What follows a good header: the payload must fit, be taken in, and be padded with zeros. */
  function Advance(data: Bytes, offset: nat, h: Header, st: State, rules: Rules): (out: Outcome)
    ensures out.Next? ==> offset < out.offset <= |data|
  {
    var dataEnd := offset + BLOCK + h.size;
    var paddedEnd := offset + BLOCK + RoundUp(h.size);
    if dataEnd > |data| || paddedEnd > |data| then Fail
    else
      match Absorb(data, offset, h, st, rules)
      case None => Fail
      case Some(st') => if ZeroPadded(data, offset + BLOCK, h.size) then Next(paddedEnd, st') else Fail
  }

  /** One round of the loop of `scan_raw_tar`. */
  function Step(data: Bytes, offset: nat, st: State, rules: Rules): (out: Outcome)
    requires offset < |data|
    ensures out.Next? ==> offset < out.offset <= |data|
  {
    if offset + BLOCK > |data| then Fail
    else
      var block := data[offset..offset + BLOCK];
      if AllZero(block) then
        if offset + 2 * BLOCK <= |data| && AllZero(data[offset + BLOCK..]) && st.pending.None? then End else Fail
      else
        match ReadHeader(block)
        case None => Fail
        case Some(h) => Advance(data, offset, h, st, rules)
  }

  function ScanFrom(data: Bytes, offset: nat, st: State, rules: Rules): Option<seq<Entry>>
    decreases |data| - offset
  {
    if offset >= |data| then None
    else
      match Step(data, offset, st, rules)
      case Fail => None
      case End => Some(st.entries)
      case Next(offset', st') => ScanFrom(data, offset', st', rules)
  }

  function Scan(data: Bytes, rules: Rules): Option<seq<Entry>> {
    ScanFrom(data, 0, State([], None), rules)
  }

  // ---------------------------------------------------------------- the scanner

  /** The member branch of `scan_raw_tar`, up to the entry it appends. */
  method ReadMember(h: Header, records: seq<Record>, isTimestamp: Bytes -> bool) returns (r: Option<Entry>)
    ensures r == MemberEntry(h, records, isTimestamp)
  {
    var fields := PaxEntryFields(h, records, isTimestamp);
    var kind := KindOf(h.typeflag);
    if fields.None? || kind.None? {
      return None;
    }
    var rawCanonical := CanonicalPath(h.path, kind.value == Directory);
    var path := CanonicalPath(fields.value.path, kind.value == Directory);
    if rawCanonical.None? || path.None? {
      return None;
    }
    if rawCanonical.value != path.value && !HasKey(records, "path") {
      return None;
    }
    if WhiteoutName(rawCanonical.value) != WhiteoutName(path.value) {
      return None;
    }
    var linkname := EntryLink(kind.value, fields.value.linkname);
    if linkname.None? || (kind.value != File && h.size != 0) {
      return None;
    }
    return Some(Entry(path.value, kind.value, h.mode, h.uid, h.gid, h.size, linkname.value, fields.value.xattrs));
  }

  /** The two branches on the type flag: a local PAX header is kept pending, a member is appended. */
  method Consume(data: Bytes, offset: nat, h: Header, st: State, seenPaths: set<string>, rules: Rules)
    returns (r: Option<State>, seenPaths': set<string>)
    requires offset + BLOCK + h.size <= |data|
    requires forall path :: path in seenPaths <==> PathSeen(st.entries, path)
    ensures r == Absorb(data, offset, h, st, rules)
    ensures r.Some? ==> forall path :: path in seenPaths' <==> PathSeen(r.value.entries, path)
  {
    seenPaths' := seenPaths;
    if MetadataType(h.typeflag) {
      if h.typeflag != 'x' || !rules.allowLocalPax || st.pending.Some? || h.size > MAX_PAX_BYTES {
        return None, seenPaths;
      }
      var records := ParsePaxRecords(data[offset + BLOCK..offset + BLOCK + h.size]);
      if records.None? {
        return None, seenPaths;
      }
      return Some(st.(pending := records)), seenPaths;
    }
    if |st.entries| >= rules.maximumMembers {
      return None, seenPaths;
    }
    var entry := ReadMember(h, if st.pending.Some? then st.pending.value else [], rules.isTimestamp);
    if entry.None? || entry.value.path in seenPaths {
      return None, seenPaths;
    }
    SeenAfter(st.entries, entry.value);
    return Some(State(st.entries + [entry.value], None)), seenPaths + {entry.value.path};
  }

  lemma SeenAfter(entries: seq<Entry>, e: Entry)
    ensures forall path :: PathSeen(entries + [e], path) <==> PathSeen(entries, path) || path == e.path
  {
    forall path
      ensures PathSeen(entries + [e], path) <==> PathSeen(entries, path) || path == e.path
    {
      assert forall x :: x in entries + [e] <==> x in entries || x == e;
      if path == e.path { assert e in entries + [e]; }
      if PathSeen(entries, path) {
        var x :| x in entries && x.path == path;
        assert x in entries + [e];
      }
    }
  }

  /** The body of the loop of `scan_raw_tar`. */
  method Round(data: Bytes, offset: nat, st: State, seenPaths: set<string>, rules: Rules)
    returns (out: Outcome, seenPaths': set<string>)
    requires offset < |data|
    requires forall path :: path in seenPaths <==> PathSeen(st.entries, path)
    ensures out == Step(data, offset, st, rules)
    ensures out.Next? ==> forall path :: path in seenPaths' <==> PathSeen(out.state.entries, path)
  {
    seenPaths' := seenPaths;
    if offset + BLOCK > |data| {
      return Fail, seenPaths;
    }
    var header := data[offset..offset + BLOCK];
    if AllZero(header) {
      if offset + 2 * BLOCK > |data| || !AllZero(data[offset + BLOCK..]) || st.pending.Some? {
        return Fail, seenPaths;
      }
      return End, seenPaths;
    }
    var h := ReadHeader(header);
    if h.None? {
      return Fail, seenPaths;
    }
    var dataEnd := offset + BLOCK + h.value.size;
    var paddedEnd := offset + BLOCK + RoundUp(h.value.size);
    if dataEnd > |data| || paddedEnd > |data| {
      return Fail, seenPaths;
    }
    var next;
    next, seenPaths' := Consume(data, offset, h.value, st, seenPaths, rules);
    if next.None? || !ZeroPadded(data, offset + BLOCK, h.value.size) {
      return Fail, seenPaths';
    }
    return Next(paddedEnd, next.value), seenPaths';
  }

  /** `scan_raw_tar`; the position in the stream is `offset`. */
  method ScanRawTar(data: Bytes, rules: Rules) returns (r: Option<seq<Entry>>)
    ensures r == Scan(data, rules)
  {
    var st := State([], None);
    var seenPaths: set<string> := {};
    var offset := 0;
    while offset < |data|
      invariant 0 <= offset <= |data|
      invariant forall path :: path in seenPaths <==> PathSeen(st.entries, path)
      invariant Scan(data, rules) == ScanFrom(data, offset, st, rules)
    {
      var out;
      out, seenPaths := Round(data, offset, st, seenPaths, rules);
      match out {
        case Fail => return None;
        case End => return Some(st.entries);
        case Next(offset', st') => offset, st := offset', st';
      }
    }
    return None;
  }
}
