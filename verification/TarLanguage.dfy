/** The language of accepted archives: an exact description of what the scanner accepts and returns. */
module TarLanguage {
  import opened Common
  import opened Text
  import opened Paths
  import opened Pax
  import opened Layers
  import opened TarScan
  import opened TarFraming

  // ---------------------------------------------------------------- one member

  /** The type flags of ustar; a NUL is the flag of a regular file in older archives. */
  predicate DeclaredKind(typeflag: char, kind: Kind) {
    match kind
    case File => typeflag == '0' || typeflag == '\0'
    case HardLink => typeflag == '1'
    case SymLink => typeflag == '2'
    case CharacterDevice => typeflag == '3'
    case BlockDevice => typeflag == '4'
    case Directory => typeflag == '5'
    case Fifo => typeflag == '6'
  }

  lemma KindExactly(typeflag: char, kind: Kind)
    ensures KindOf(typeflag) == Some(kind) <==> DeclaredKind(typeflag, kind)
  {
  }

  /** `e` is what the header `h` and the records before it declare. */
  ghost predicate DeclaredEntry(h: Header, records: seq<Record>, isTimestamp: Bytes -> bool, e: Entry) {
    && RecordsFit(h, records, isTimestamp)
    && DeclaredKind(h.typeflag, e.kind)
    && e.mode == h.mode && e.uid == h.uid && e.gid == h.gid && e.size == h.size
    && (e.kind != File ==> e.size == 0)
    && exists f :: DeclaredFields(h, records, f) && DeclaredNames(h, records, f, e)
  }

  /** A hard link names a canonical path, a symbolic link any text without control characters, the others nothing. */
  predicate DeclaredLink(kind: Kind, linkname: string, link: Option<string>) {
    match kind
    case HardLink => link.Some? && CanonicalTarPath(linkname, false) == link
    case SymLink => link == Some(linkname) && forall c :: c in linkname ==> ' ' <= c && c != '\U{7F}'
    case _ => link == None
  }

  lemma LinkExactly(kind: Kind, linkname: string, link: Option<string>)
    ensures EntryLink(kind, linkname) == Some(link) <==> DeclaredLink(kind, linkname, link)
  {
    hide CanonicalTarPath;
  }

  /** Path, link name and extended attributes. */
  ghost predicate DeclaredNames(h: Header, records: seq<Record>, f: Fields, e: Entry) {
    var raw := CanonicalTarPath(h.path, e.kind == Directory);
    && raw.Some? && CanonicalTarPath(f.path, e.kind == Directory) == Some(e.path)
    && (HasKey(records, "path") || raw.value == e.path)
    && (WhiteoutName(raw.value) <==> WhiteoutName(e.path))
    && DeclaredLink(e.kind, f.linkname, e.linkname)
    && e.xattrs == f.xattrs
  }

  lemma MemberEntryExactly(h: Header, records: seq<Record>, isTimestamp: Bytes -> bool, e: Entry)
    requires DistinctKeys(records)
    ensures MemberEntry(h, records, isTimestamp) == Some(e) <==> DeclaredEntry(h, records, isTimestamp, e)
  {
    hide PaxFields, DeclaredFields, RecordsFit, CanonicalTarPath, EntryLink, WhiteoutName, HasKey, DistinctKeys;
    hide DeclaredLink, DeclaredKind, KindOf;
    KindExactly(h.typeflag, e.kind);
    var fields := PaxFields(h, records, isTimestamp);
    forall linkname
      ensures EntryLink(e.kind, linkname) == Some(e.linkname) <==> DeclaredLink(e.kind, linkname, e.linkname)
    {
      LinkExactly(e.kind, linkname, e.linkname);
    }
    if fields.Some? {
      PaxFieldsExactly(h, records, isTimestamp, fields.value);
    }
    forall f
      ensures DeclaredFields(h, records, f) && RecordsFit(h, records, isTimestamp) ==> fields == Some(f)
    {
      PaxFieldsExactly(h, records, isTimestamp, f);
    }
  }

  // ---------------------------------------------------------------- members and their PAX headers

  /** A member frame with the local PAX header before it. */
  datatype Dressed = Dressed(pax: Option<Frame>, frame: Frame)

  /** The members among `frames`, when `pax` is the header before them. */
  function DressedFrom(pax: Option<Frame>, frames: seq<Frame>): seq<Dressed>
    decreases |frames|
  {
    if frames == [] then []
    else if IsPax(frames[0]) then DressedFrom(Some(frames[0]), frames[1..])
    else [Dressed(pax, frames[0])] + DressedFrom(None, frames[1..])
  }

  predicate IsMetadata(f: Frame) {
    MetadataType(f.header.typeflag)
  }

  /** Metadata headers are allowed local PAX headers, each directly before a member. */
  ghost predicate PaxInPlace(frames: seq<Frame>, rules: Rules) {
    forall j :: 0 <= j < |frames| && IsMetadata(frames[j]) ==>
      IsPax(frames[j]) && rules.allowLocalPax && j + 1 < |frames| && !IsMetadata(frames[j + 1])
  }

  function Payload(data: Bytes, f: Frame): Bytes
    requires f.PayloadEnd() <= |data|
  {
    data[f.PayloadStart()..f.PayloadEnd()]
  }

  /** `records` is what the PAX header says: a concatenation of self-counting records with distinct keys. */
  ghost predicate PaxSays(data: Bytes, pax: Option<Frame>, records: seq<Record>) {
    match pax
    case None => records == []
    case Some(f) =>
      && f.PayloadEnd() <= |data| && f.header.size <= 1024 * 1024
      && IsConcatenation(Payload(data, f), records) && DistinctKeys(records)
  }

  /** `e` is the reading of a member and its PAX header. */
  ghost predicate ReadsAs(data: Bytes, m: Dressed, isTimestamp: Bytes -> bool, e: Entry) {
    exists records :: PaxSays(data, m.pax, records) && DeclaredEntry(m.frame.header, records, isTimestamp, e)
  }

  ghost predicate AllRead(data: Bytes, ms: seq<Dressed>, isTimestamp: Bytes -> bool, es: seq<Entry>) {
    |es| == |ms| && forall i :: 0 <= i < |es| ==> ReadsAs(data, ms[i], isTimestamp, es[i])
  }

  /** The archive `data` holds exactly the entries `es`. */
  ghost predicate Holds(data: Bytes, rules: Rules, es: seq<Entry>) {
    var frames := Frames(data, 0);
    && Tiled(data, 0, frames)
    && PaxInPlace(frames, rules)
    && AllRead(data, DressedFrom(None, frames), rules.isTimestamp, es)
    && |es| <= rules.maximumMembers && DistinctPaths(es)
  }

  // ---------------------------------------------------------------- the rest of an archive

  /** The records of the state. */
  function PendingRecords(st: State): seq<Record> {
    if st.pending.Some? then st.pending.value else []
  }

  /** `pax` is the pending header of the state, which has been taken in. */
  ghost predicate IsPending(data: Bytes, pax: Option<Frame>, st: State, rules: Rules) {
    && (pax.Some? <==> st.pending.Some?)
    && (pax.Some? ==> IsPax(pax.value) && rules.allowLocalPax)
    && PaxSays(data, pax, PendingRecords(st))
  }

  /** What a scan that has the entries `had`, and the header `pax` pending, has to find in `frames`. */
  ghost predicate Reads(data: Bytes, frames: seq<Frame>, had: seq<Entry>, pax: Option<Frame>, rules: Rules,
                        es: seq<Entry>) {
    && PaxInPlace(WithPending(pax, frames), rules)
    && had <= es
    && AllRead(data, DressedFrom(pax, frames), rules.isTimestamp, es[|had|..])
    && |es| <= rules.maximumMembers && DistinctPaths(es)
  }

  ghost predicate HoldsRest(data: Bytes, offset: nat, had: seq<Entry>, pax: Option<Frame>, rules: Rules,
                            es: seq<Entry>) {
    Tiled(data, offset, Frames(data, offset)) && Reads(data, Frames(data, offset), had, pax, rules, es)
  }

  function WithPending(pax: Option<Frame>, frames: seq<Frame>): seq<Frame> {
    if pax.Some? then [pax.value] + frames else frames
  }

  /** The state is one that a scan may be in. */
  ghost predicate Scanning(data: Bytes, pax: Option<Frame>, st: State, rules: Rules) {
    IsPending(data, pax, st, rules) && |st.entries| <= rules.maximumMembers && DistinctPaths(st.entries)
  }

  // ---------------------------------------------------------------- frames one by one

  lemma PlaceOfFirst(f: Frame, rest: seq<Frame>, rules: Rules)
    ensures PaxInPlace([f] + rest, rules)
            <==> && (IsMetadata(f) ==> IsPax(f) && rules.allowLocalPax && rest != [] && !IsMetadata(rest[0]))
                 && PaxInPlace(rest, rules)
  {
    hide IsMetadata, IsPax;
    var frames := [f] + rest;
    assert frames[0] == f && (rest != [] ==> frames[1] == rest[0]);
    assert forall j :: 0 <= j < |rest| ==> frames[j + 1] == rest[j];
    if PaxInPlace(frames, rules) {
      forall j | 0 <= j < |rest| && IsMetadata(rest[j])
        ensures IsPax(rest[j]) && rules.allowLocalPax && j + 1 < |rest| && !IsMetadata(rest[j + 1])
      {
        assert IsMetadata(frames[j + 1]) && (j + 1 < |rest| ==> frames[j + 2] == rest[j + 1]);
      }
    }
    if PaxInPlace(rest, rules) {
      forall j | 0 < j < |frames| && IsMetadata(frames[j])
        ensures IsPax(frames[j]) && rules.allowLocalPax && j + 1 < |frames| && !IsMetadata(frames[j + 1])
      {
        assert rest[j - 1] == frames[j] && (j < |rest| ==> frames[j + 1] == rest[j]);
      }
    }
  }

  lemma PaxSaysExactly(data: Bytes, f: Frame, records: seq<Record>)
    requires f.PayloadEnd() <= |data|
    ensures PaxSays(data, Some(f), records) <==> Records(Payload(data, f)) == Some(records)
  {
    PaxBothWays(Payload(data, f), records);
  }

  lemma PendingIsUnique(data: Bytes, pax: Option<Frame>, a: seq<Record>, b: seq<Record>)
    requires PaxSays(data, pax, a) && PaxSays(data, pax, b)
    ensures a == b
  {
    hide IsConcatenation;
    if pax.Some? {
      PaxDecodingIsUnique(Payload(data, pax.value), a, b);
    }
  }

  /** The reading of a member is what the scanner makes of it. */
  lemma ReadsAsExactly(data: Bytes, pax: Option<Frame>, f: Frame, st: State, rules: Rules, e: Entry)
    requires IsPending(data, pax, st, rules)
    ensures ReadsAs(data, Dressed(pax, f), rules.isTimestamp, e)
            <==> MemberEntry(f.header, PendingRecords(st), rules.isTimestamp) == Some(e)
  {
    hide IsConcatenation, DeclaredEntry, MemberEntry;
    var pending := PendingRecords(st);
    MemberEntryExactly(f.header, pending, rules.isTimestamp, e);
    forall records | PaxSays(data, pax, records)
      ensures records == pending
    {
      PendingIsUnique(data, pax, records, pending);
    }
  }

  lemma NothingToRead(data: Bytes, st: State, pax: Option<Frame>, rules: Rules, es: seq<Entry>)
    requires Scanning(data, pax, st, rules)
    ensures Reads(data, [], st.entries, pax, rules, es) <==> pax.None? && es == st.entries
  {
    hide IsConcatenation, ReadsAs;
    if pax.Some? {
      PlaceOfFirst(pax.value, [], rules);
      assert [pax.value] + [] == WithPending(pax, []);
    }
    assert st.entries[|st.entries|..] == [];
    if st.entries <= es && es[|st.entries|..] == [] {
      assert es == st.entries + es[|st.entries|..];
    }
  }

  /** A PAX header has to be in its place and to have records. */
  lemma ReadPax(data: Bytes, f: Frame, rest: seq<Frame>, had: seq<Entry>, pax: Option<Frame>, rules: Rules,
                es: seq<Entry>)
    requires f.PayloadEnd() <= |data| && IsMetadata(f) && (pax.Some? ==> IsPax(pax.value))
    ensures Reads(data, [f] + rest, had, pax, rules, es)
            <==> && pax.None? && IsPax(f) && rules.allowLocalPax && f.header.size <= MAX_PAX_BYTES
                 && Records(Payload(data, f)).Some? && Reads(data, rest, had, Some(f), rules, es)
  {
    hide IsConcatenation, DeclaredEntry, PaxInPlace, DistinctPaths;
    var frames := [f] + rest;
    assert frames[1..] == rest;
    PlaceOfFirst(f, rest, rules);
    if pax.Some? {
      PlaceOfFirst(pax.value, frames, rules);
    } else if Reads(data, frames, had, pax, rules, es) {
      assert DressedFrom(Some(f), rest)[0] == Dressed(Some(f), rest[0]);
      assert ReadsAs(data, DressedFrom(Some(f), rest)[0], rules.isTimestamp, es[|had|..][0]);
      var records :| PaxSays(data, Some(f), records);
      PaxSaysExactly(data, f, records);
    }
  }

  lemma AllReadOneMore(data: Bytes, m: Dressed, ms: seq<Dressed>, isTimestamp: Bytes -> bool, es: seq<Entry>)
    ensures AllRead(data, [m] + ms, isTimestamp, es)
            <==> es != [] && ReadsAs(data, m, isTimestamp, es[0]) && AllRead(data, ms, isTimestamp, es[1..])
  {
    hide ReadsAs;
    var all := [m] + ms;
    assert forall i :: 0 < i < |all| ==> all[i] == ms[i - 1];
    assert forall i :: 0 < i < |es| ==> es[i] == es[1..][i - 1];
    if es != [] && ReadsAs(data, m, isTimestamp, es[0]) && AllRead(data, ms, isTimestamp, es[1..]) {
      forall i | 0 < i < |es|
        ensures ReadsAs(data, all[i], isTimestamp, es[i])
      {
        assert ReadsAs(data, ms[i - 1], isTimestamp, es[1..][i - 1]);
      }
    }
    if AllRead(data, all, isTimestamp, es) {
      assert ReadsAs(data, all[0], isTimestamp, es[0]);
      forall i | 0 <= i < |ms|
        ensures ReadsAs(data, ms[i], isTimestamp, es[1..][i])
      {
        assert ReadsAs(data, all[i + 1], isTimestamp, es[i + 1]);
      }
    }
  }

  /** A member has to be readable, new, and within the limit. */
  lemma ReadMember(data: Bytes, f: Frame, rest: seq<Frame>, st: State, pax: Option<Frame>, rules: Rules, es: seq<Entry>)
    requires !IsMetadata(f) && Scanning(data, pax, st, rules)
    ensures var e := MemberEntry(f.header, PendingRecords(st), rules.isTimestamp);
            Reads(data, [f] + rest, st.entries, pax, rules, es)
            <==> && e.Some? && |st.entries| < rules.maximumMembers && !PathSeen(st.entries, e.value.path)
                 && Reads(data, rest, st.entries + [e.value], None, rules, es)
  {
    hide IsConcatenation, ReadsAs, PaxInPlace, MemberEntry, AllRead;
    var frames, n := [f] + rest, |st.entries|;
    assert frames[1..] == rest && !IsPax(f);
    PlaceOfFirst(f, rest, rules);
    if pax.Some? {
      PlaceOfFirst(pax.value, frames, rules);
    }
    var left := es[if st.entries <= es then n else 0..];
    AllReadOneMore(data, Dressed(pax, f), DressedFrom(None, rest), rules.isTimestamp, left);
    if st.entries <= es && n < |es| {
      var e := es[n];
      assert es[n..][0] == e && es[n..][1..] == es[n + 1..];
      ReadsAsExactly(data, pax, f, st, rules, e);
      assert st.entries + [e] <= es;
      if DistinctPaths(es) {
        assert forall x :: x in st.entries ==> exists i :: 0 <= i < n && es[i] == x;
      }
    }
  }

  // ---------------------------------------------------------------- the scan

  lemma EndExactly(data: Bytes, offset: nat, st: State, rules: Rules)
    requires offset < |data| && FrameAt(data, offset).None?
    ensures Step(data, offset, st, rules).End? <==> EndMarker(data, offset) && st.pending.None?
    ensures !Step(data, offset, st, rules).Next?
  {
    if Step(data, offset, st, rules).End? {
      StepAtTheEnd(data, offset, st, rules);
    }
    if EndMarker(data, offset) {
      var rest := data[offset..];
      assert data[offset..offset + BLOCK] == rest[..BLOCK] && data[offset + BLOCK..] == rest[BLOCK..];
    }
  }

  lemma FrameSteps(data: Bytes, offset: nat, st: State, rules: Rules)
    requires FrameAt(data, offset).Some?
    ensures offset < |data| && FrameAt(data, offset).value.PayloadEnd() <= |data|
    ensures var f := FrameAt(data, offset).value;
            var absorbed := Absorb(data, offset, f.header, st, rules);
            Step(data, offset, st, rules)
            == if absorbed.Some? && ZeroPadded(data, f.PayloadStart(), f.header.size)
               then Next(f.Next(), absorbed.value) else Fail
  {
    hide ReadHeader, Absorb, AllZero;
    RoundUpBounds(FrameAt(data, offset).value.header.size);
  }

  lemma TiledFrames(data: Bytes, offset: nat)
    requires FrameAt(data, offset).Some? && offset % BLOCK == 0
    ensures var f := FrameAt(data, offset).value;
            && Frames(data, offset) == [f] + Frames(data, f.Next())
            && (Tiled(data, offset, Frames(data, offset))
                <==> ZeroPadded(data, f.PayloadStart(), f.header.size) && Tiled(data, f.Next(), Frames(data, f.Next())))
  {
    var f := FrameAt(data, offset).value;
    var rest := Frames(data, f.Next());
    RoundUpBounds(f.header.size);
    assert ([f] + rest)[1..] == rest;
    EndOfTail([f] + rest, offset);
    ZeroPaddedExactly(data, f);
    if ZeroPadded(data, f.PayloadStart(), f.header.size) {
      FrameIsSound(data, offset);
    }
  }

  lemma BothPending(data: Bytes, pax: Option<Frame>, st: State, rules: Rules)
    requires Scanning(data, pax, st, rules)
    ensures st.pending.None? <==> pax.None?
  {
  }

  lemma AtTheEnd(data: Bytes, offset: nat, st: State, pax: Option<Frame>, rules: Rules, es: seq<Entry>)
    requires FrameAt(data, offset).None? && Scanning(data, pax, st, rules)
    ensures ScanFrom(data, offset, st, rules) == Some(es) <==> HoldsRest(data, offset, st.entries, pax, rules, es)
  {
    hide Step, Reads, Scanning, PaxSays, FrameAt;
    assert Frames(data, offset) == [];
    assert Tiled(data, offset, []) <==> EndMarker(data, offset);
    NothingToRead(data, st, pax, rules, es);
    BothPending(data, pax, st, rules);
    if offset < |data| {
      EndExactly(data, offset, st, rules);
    }
  }

  lemma AbsorbPaxExactly(data: Bytes, offset: nat, f: Frame, st: State, rules: Rules)
    requires f.start == offset && f.PayloadEnd() <= |data| && IsMetadata(f)
    ensures Absorb(data, offset, f.header, st, rules)
            == if st.pending.None? && IsPax(f) && rules.allowLocalPax && f.header.size <= MAX_PAX_BYTES
                  && Records(Payload(data, f)).Some?
               then Some(State(st.entries, Records(Payload(data, f)))) else None
  {
    hide Records;
  }

  lemma ScanningPax(data: Bytes, f: Frame, pax: Option<Frame>, st: State, rules: Rules)
    requires Scanning(data, pax, st, rules) && IsPax(f) && rules.allowLocalPax
    requires f.PayloadEnd() <= |data| && Records(Payload(data, f)).Some?
    ensures Scanning(data, Some(f), State(st.entries, Records(Payload(data, f))), rules)
  {
    PaxSaysExactly(data, f, Records(Payload(data, f)).value);
  }

  lemma AfterPax(data: Bytes, offset: nat, st: State, pax: Option<Frame>, rules: Rules, es: seq<Entry>)
    requires FrameAt(data, offset).Some? && offset % BLOCK == 0 && Scanning(data, pax, st, rules)
    requires IsMetadata(FrameAt(data, offset).value) && offset < |data|
    ensures var f := FrameAt(data, offset).value;
            var step := Step(data, offset, st, rules);
            && !step.End? && (step.Next? ==> step.offset == f.Next() && Scanning(data, Some(f), step.state, rules))
            && (HoldsRest(data, offset, st.entries, pax, rules, es)
                <==> step.Next? && HoldsRest(data, f.Next(), step.state.entries, Some(f), rules, es))
  {
    var f := FrameAt(data, offset).value;
    assert f.start == offset;
    hide Step, Tiled, Reads, Records, Frames, FrameAt, ZeroPadded, Scanning, Absorb, IsMetadata, Frame.Next;
    FrameSteps(data, offset, st, rules);
    TiledFrames(data, offset);
    BothPending(data, pax, st, rules);
    AbsorbPaxExactly(data, offset, f, st, rules);
    ReadPax(data, f, Frames(data, f.Next()), st.entries, pax, rules, es);
    if Step(data, offset, st, rules).Next? {
      ScanningPax(data, f, pax, st, rules);
    }
  }

  lemma AbsorbMemberExactly(data: Bytes, offset: nat, f: Frame, st: State, rules: Rules)
    requires f.start == offset && f.PayloadEnd() <= |data| && !IsMetadata(f)
    ensures var e := MemberEntry(f.header, PendingRecords(st), rules.isTimestamp);
            Absorb(data, offset, f.header, st, rules)
            == if e.Some? && |st.entries| < rules.maximumMembers && !PathSeen(st.entries, e.value.path)
               then Some(State(st.entries + [e.value], None)) else None
  {
    hide MemberEntry, PathSeen;
  }

  lemma ScanningMember(data: Bytes, pax: Option<Frame>, st: State, rules: Rules, e: Entry)
    requires Scanning(data, pax, st, rules) && |st.entries| < rules.maximumMembers && !PathSeen(st.entries, e.path)
    ensures Scanning(data, None, State(st.entries + [e], None), rules)
  {
    assert forall i :: 0 <= i < |st.entries| ==> st.entries[i] in st.entries;
  }

  lemma AfterMember(data: Bytes, offset: nat, st: State, pax: Option<Frame>, rules: Rules, es: seq<Entry>)
    requires FrameAt(data, offset).Some? && offset % BLOCK == 0 && Scanning(data, pax, st, rules)
    requires !IsMetadata(FrameAt(data, offset).value) && offset < |data|
    ensures var f := FrameAt(data, offset).value;
            var step := Step(data, offset, st, rules);
            && !step.End? && (step.Next? ==> step.offset == f.Next() && Scanning(data, None, step.state, rules))
            && (HoldsRest(data, offset, st.entries, pax, rules, es)
                <==> step.Next? && HoldsRest(data, f.Next(), step.state.entries, None, rules, es))
  {
    var f := FrameAt(data, offset).value;
    assert f.start == offset;
    hide Step, Tiled, Reads, Frames, FrameAt, ZeroPadded, Scanning, Absorb, IsMetadata, MemberEntry, PathSeen;
    hide Frame.Next;
    FrameSteps(data, offset, st, rules);
    TiledFrames(data, offset);
    AbsorbMemberExactly(data, offset, f, st, rules);
    ReadMember(data, f, Frames(data, f.Next()), st, pax, rules, es);
    if Step(data, offset, st, rules).Next? {
      ScanningMember(data, pax, st, rules, MemberEntry(f.header, PendingRecords(st), rules.isTimestamp).value);
    }
  }

  lemma {:induction false} ScanExactly(data: Bytes, offset: nat, st: State, pax: Option<Frame>, rules: Rules,
                                       es: seq<Entry>)
    requires offset % BLOCK == 0 && Scanning(data, pax, st, rules)
    ensures ScanFrom(data, offset, st, rules) == Some(es) <==> HoldsRest(data, offset, st.entries, pax, rules, es)
    decreases |data| - offset
  {
    hide Step, HoldsRest, Scanning, FrameAt, IsMetadata, Frame.Next;
    if FrameAt(data, offset).None? {
      AtTheEnd(data, offset, st, pax, rules, es);
    } else {
      var f := FrameAt(data, offset).value;
      FrameSteps(data, offset, st, rules);
      NextIsAligned(data, offset);
      if IsMetadata(f) {
        AfterPax(data, offset, st, pax, rules, es);
      } else {
        AfterMember(data, offset, st, pax, rules, es);
      }
      var step := Step(data, offset, st, rules);
      if step.Next? {
        StepMoves(data, offset, st, rules);
        ScanExactly(data, step.offset, step.state, if IsMetadata(f) then Some(f) else None, rules, es);
      }
    }
  }

  lemma StepMoves(data: Bytes, offset: nat, st: State, rules: Rules)
    requires offset < |data| && Step(data, offset, st, rules).Next?
    ensures offset < Step(data, offset, st, rules).offset <= |data|
  {
    hide Step;
  }

  /**
   * The scanner accepts exactly the archives of the language, and returns their entries: a tiling by good
   * headers, payloads and zero padding up to the end marker; every metadata header an allowed local PAX
   * header directly before a member; every entry the declared reading of its header and records; not too
   * many, and no path twice.
   */
  lemma ScannerAcceptsExactly(data: Bytes, rules: Rules, es: seq<Entry>)
    ensures Scan(data, rules) == Some(es) <==> Holds(data, rules, es)
  {
    hide ScanFrom, Tiled, AllRead, PaxInPlace;
    assert Scanning(data, None, State([], None), rules);
    ScanExactly(data, 0, State([], None), None, rules, es);
    assert es[0..] == es;
  }
}
