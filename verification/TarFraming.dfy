/** How an accepted stream is tiled by its headers, and why PAX payloads cannot change the tiling. */
module TarFraming {
  import opened Common
  import opened Text
  import opened Paths
  import opened Pax
  import opened Layers
  import opened LayerInvariant
  import opened TarScan

  datatype Frame = Frame(start: nat, header: Header) {
    function PayloadStart(): nat { start + BLOCK }
    function PayloadEnd(): nat { start + BLOCK + header.size }
    function Next(): nat { start + BLOCK + RoundUp(header.size) }
  }

  /** The frame whose header block is at `offset`, if a non-zero readable header with room for its payload is there. */
  function FrameAt(data: Bytes, offset: nat): Option<Frame> {
    if offset + BLOCK > |data| || AllZero(data[offset..offset + BLOCK]) then None
    else
      match ReadHeader(data[offset..offset + BLOCK])
      case None => None
      case Some(h) => if Frame(offset, h).Next() <= |data| then Some(Frame(offset, h)) else None
  }

  /** The frames of a stream from `offset` on, until there is no further header. */
  function Frames(data: Bytes, offset: nat): seq<Frame>
    decreases |data| - offset
  {
    match FrameAt(data, offset)
    case None => []
    case Some(f) => [f] + Frames(data, f.Next())
  }

  predicate IsPax(f: Frame) {
    f.header.typeflag == 'x'
  }

  function Members(frames: seq<Frame>): seq<Frame> {
    if frames == [] then []
    else if IsPax(frames[0]) then Members(frames[1..])
    else [frames[0]] + Members(frames[1..])
  }

  // ---------------------------------------------------------------- tiling

  /** One 512-aligned header with a good checksum, its payload, and zero padding up to the next block. */
  ghost predicate SoundFrame(data: Bytes, f: Frame) {
    && f.start % BLOCK == 0
    && f.PayloadEnd() <= f.Next() <= |data|
    && f.Next() < f.PayloadEnd() + BLOCK
    && ReadHeader(data[f.start..f.PayloadStart()]) == Some(f.header)
    && forall k :: f.PayloadEnd() <= k < f.Next() ==> data[k] == '\0'
  }

  lemma ZeroPaddedExactly(data: Bytes, f: Frame)
    requires f.PayloadEnd() <= f.Next() <= |data|
    ensures ZeroPadded(data, f.PayloadStart(), f.header.size)
            <==> forall k :: f.PayloadEnd() <= k < f.Next() ==> data[k] == '\0'
  {
    var padding := data[f.PayloadEnd()..f.Next()];
    assert forall i :: 0 <= i < |padding| ==> padding[i] == data[f.PayloadEnd() + i];
    if AllZero(padding) {
      forall k | f.PayloadEnd() <= k < f.Next()
        ensures data[k] == '\0'
      {
        assert padding[k - f.PayloadEnd()] == '\0';
      }
    }
  }

  /** `frames` cover `data` from `offset` to `end` without gap or overlap. */
  ghost predicate Tiles(data: Bytes, frames: seq<Frame>, offset: nat, end: nat) {
    if frames == [] then offset == end
    else frames[0].start == offset && SoundFrame(data, frames[0]) && Tiles(data, frames[1..], frames[0].Next(), end)
  }

  /** Two zero blocks and nothing but zeros close the archive. */
  ghost predicate EndMarker(data: Bytes, end: nat) {
    end + 2 * BLOCK <= |data| && AllZero(data[end..])
  }

  /** An entry carries exactly the kind, numbers and whiteout status of its raw header. */
  ghost predicate MatchesHeader(e: Entry, h: Header) {
    && KindOf(h.typeflag) == Some(e.kind)
    && e.mode == h.mode && e.uid == h.uid && e.gid == h.gid && e.size == h.size
    && CanonicalTarPath(h.path, e.kind == Directory).Some?
    && (IsWhiteout(e) <==> WhiteoutName(CanonicalTarPath(h.path, e.kind == Directory).value))
  }

  ghost predicate EntriesMatch(es: seq<Entry>, frames: seq<Frame>) {
    |es| == |frames| && forall i :: 0 <= i < |es| ==> MatchesHeader(es[i], frames[i].header)
  }

  lemma StepIsAFrame(data: Bytes, offset: nat, st: State, rules: Rules)
    requires offset < |data| && Step(data, offset, st, rules).Next?
    ensures FrameAt(data, offset).Some?
    ensures var f := FrameAt(data, offset).value;
            && f.Next() == Step(data, offset, st, rules).offset
            && f.PayloadEnd() <= |data|
            && Absorb(data, offset, f.header, st, rules) == Some(Step(data, offset, st, rules).state)
            && ZeroPadded(data, f.PayloadStart(), f.header.size)
  {
  }

  lemma FrameIsSound(data: Bytes, offset: nat)
    requires FrameAt(data, offset).Some? && offset % BLOCK == 0
    requires ZeroPadded(data, offset + BLOCK, FrameAt(data, offset).value.header.size)
    ensures SoundFrame(data, FrameAt(data, offset).value)
  {
    RoundUpBounds(FrameAt(data, offset).value.header.size);
    ZeroPaddedExactly(data, FrameAt(data, offset).value);
  }

  lemma StepAtTheEnd(data: Bytes, offset: nat, st: State, rules: Rules)
    requires offset < |data| && Step(data, offset, st, rules).End?
    ensures FrameAt(data, offset).None? && EndMarker(data, offset) && st.pending.None?
  {
    var block := data[offset..offset + BLOCK];
    forall i | 0 <= i < |data[offset..]|
      ensures data[offset..][i] == '\0'
    {
      if i < BLOCK {
        assert block[i] == '\0';
      } else {
        assert data[offset + BLOCK..][i - BLOCK] == '\0';
      }
    }
  }

  lemma AbsorbedEntry(data: Bytes, offset: nat, h: Header, st: State, rules: Rules)
    requires offset + BLOCK + h.size <= |data| && Absorb(data, offset, h, st, rules).Some?
    ensures var st' := Absorb(data, offset, h, st, rules).value;
            if h.typeflag == 'x' then st'.entries == st.entries
            else |st'.entries| == |st.entries| + 1 && Front(st'.entries) == st.entries
                 && MatchesHeader(Last(st'.entries), h)
  {
  }

  /** The end of the last frame. */
  function EndOf(frames: seq<Frame>, offset: nat): nat {
    if frames == [] then offset else Last(frames).Next()
  }

  lemma EndOfTail(frames: seq<Frame>, offset: nat)
    requires frames != []
    ensures EndOf(frames, offset) == EndOf(frames[1..], frames[0].Next())
  {
  }

  lemma {:induction false} ScanTiles(data: Bytes, offset: nat, st: State, rules: Rules, es: seq<Entry>)
    requires ScanFrom(data, offset, st, rules) == Some(es) && offset % BLOCK == 0
    ensures Tiled(data, offset, Frames(data, offset))
    ensures |st.entries| <= |es| && es[..|st.entries|] == st.entries
    ensures EntriesMatch(es[|st.entries|..], Members(Frames(data, offset)))
    decreases |data| - offset
  {
    match Step(data, offset, st, rules) {
      case End =>
        StepAtTheEnd(data, offset, st, rules);
      case Next(offset', st') =>
        StepIsAFrame(data, offset, st, rules);
        var f := FrameAt(data, offset).value;
        var rest := Frames(data, offset');
        NextIsAligned(data, offset);
        ScanTiles(data, offset', st', rules, es);
        FrameIsSound(data, offset);
        TiledCons(data, offset, f, rest);
        AbsorbedEntry(data, offset, f.header, st, rules);
        PrependMember(es, st.entries, st'.entries, f, rest);
    }
  }

  ghost predicate Tiled(data: Bytes, offset: nat, frames: seq<Frame>) {
    Tiles(data, frames, offset, EndOf(frames, offset)) && EndMarker(data, EndOf(frames, offset))
  }

  lemma NextIsAligned(data: Bytes, offset: nat)
    requires FrameAt(data, offset).Some? && offset % BLOCK == 0
    ensures FrameAt(data, offset).value.Next() % BLOCK == 0
  {
    hide ReadHeader, AllZero, RoundUp;
    RoundUpBounds(FrameAt(data, offset).value.header.size);
  }

  lemma TiledCons(data: Bytes, offset: nat, f: Frame, rest: seq<Frame>)
    requires f.start == offset && SoundFrame(data, f) && Tiled(data, f.Next(), rest)
    ensures Tiled(data, offset, [f] + rest)
  {
    var frames := [f] + rest;
    assert frames[1..] == rest;
    EndOfTail(frames, offset);
  }

  lemma PrependMember(es: seq<Entry>, before: seq<Entry>, after: seq<Entry>, f: Frame, rest: seq<Frame>)
    requires |after| <= |es| && es[..|after|] == after && EntriesMatch(es[|after|..], Members(rest))
    requires if IsPax(f) then after == before
             else |after| == |before| + 1 && Front(after) == before && MatchesHeader(Last(after), f.header)
    ensures |before| <= |es| && es[..|before|] == before
    ensures EntriesMatch(es[|before|..], Members([f] + rest))
  {
    hide MatchesHeader, IsPax;
    assert ([f] + rest)[1..] == rest;
    if !IsPax(f) {
      assert es[|before|] == after[|before|] == Last(after);
      assert es[..|before|] == after[..|before|];
      assert es[|before|..] == [es[|before|]] + es[|after|..];
    }
  }

  /**
   * Every accepted stream is tiled by aligned headers, payloads and zero padding, then two zero blocks
   * and only zeros; and its entries are its member headers, one for one and in order.
   */
  lemma AcceptedStreamIsTiled(data: Bytes, rules: Rules, es: seq<Entry>)
    requires Scan(data, rules) == Some(es)
    ensures Tiled(data, 0, Frames(data, 0)) && EntriesMatch(es, Members(Frames(data, 0)))
  {
    ScanTiles(data, 0, State([], None), rules, es);
    assert es[0..] == es;
  }

  // ---------------------------------------------------------------- PAX cannot change framing

  /** Byte `i` lies in the payload of a local PAX header. */
  predicate InPaxPayload(frames: seq<Frame>, i: nat) {
    exists f :: f in frames && IsPax(f) && f.PayloadStart() <= i < f.PayloadEnd()
  }

  /** The two streams have one length and differ only inside PAX payloads of the first. */
  ghost predicate DifferOnlyInPax(a: Bytes, b: Bytes, offset: nat) {
    && |a| == |b|
    && forall i :: offset <= i < |a| && a[i] != b[i] ==> InPaxPayload(Frames(a, offset), i)
  }

  lemma {:induction false} FramesStartLater(data: Bytes, offset: nat, f: Frame)
    requires f in Frames(data, offset)
    ensures f.start >= offset
    decreases |data| - offset
  {
    var head := FrameAt(data, offset).value;
    if f != head {
      FramesStartLater(data, head.Next(), f);
    }
  }

  lemma SameBlock(a: Bytes, b: Bytes, offset: nat)
    requires DifferOnlyInPax(a, b, offset) && offset + BLOCK <= |a|
    ensures a[offset..offset + BLOCK] == b[offset..offset + BLOCK]
  {
    forall i | offset <= i < offset + BLOCK
      ensures a[i] == b[i]
    {
      if a[i] != b[i] {
        var f :| f in Frames(a, offset) && IsPax(f) && f.PayloadStart() <= i < f.PayloadEnd();
        FramesStartLater(a, offset, f);
      }
    }
  }

  lemma {:induction false} SameFrames(a: Bytes, b: Bytes, offset: nat)
    requires DifferOnlyInPax(a, b, offset)
    ensures Frames(a, offset) == Frames(b, offset)
    decreases |a| - offset
  {
    if offset + BLOCK <= |a| {
      SameBlock(a, b, offset);
    }
    if FrameAt(a, offset).Some? {
      var f := FrameAt(a, offset).value;
      var next := f.Next();
      RoundUpBounds(f.header.size);
      forall i | next <= i < |a| && a[i] != b[i]
        ensures InPaxPayload(Frames(a, next), i)
      {
        var g :| g in Frames(a, offset) && IsPax(g) && g.PayloadStart() <= i < g.PayloadEnd();
        assert g != f;
        assert g in Frames(a, next);
      }
      SameFrames(a, b, next);
    }
  }

  /** What framing fixes about an entry whatever its PAX header says. */
  predicate SameFraming(e: Entry, f: Entry) {
    && e.kind == f.kind && e.mode == f.mode && e.uid == f.uid && e.gid == f.gid && e.size == f.size
    && (IsWhiteout(e) <==> IsWhiteout(f))
  }

  /**
   * Two accepted archives that differ only in the bytes of local PAX payloads have the same headers at
   * the same offsets and the same kind, numbers and whiteout status for every member.
   */
  lemma PaxCannotChangeFraming(a: Bytes, b: Bytes, rules: Rules, es: seq<Entry>, fs: seq<Entry>)
    requires Scan(a, rules) == Some(es) && Scan(b, rules) == Some(fs)
    requires DifferOnlyInPax(a, b, 0)
    ensures Frames(a, 0) == Frames(b, 0)
    ensures |es| == |fs| && forall i :: 0 <= i < |es| ==> SameFraming(es[i], fs[i])
  {
    AcceptedStreamIsTiled(a, rules, es);
    AcceptedStreamIsTiled(b, rules, fs);
    SameFrames(a, b, 0);
    var frames := Members(Frames(a, 0));
    forall i | 0 <= i < |es|
      ensures SameFraming(es[i], fs[i])
    {
      assert MatchesHeader(es[i], frames[i].header) && MatchesHeader(fs[i], frames[i].header);
    }
  }

  // ---------------------------------------------------------------- what the scanner guarantees of entries

  /** Canonical and distinct paths, and canonical hard-link targets. */
  predicate ScannedEntry(e: Entry) {
    && (IsCanonical(e.path) || (e.path == "" && e.kind == Directory))
    && (e.kind == HardLink ==> e.linkname.Some? && IsCanonical(e.linkname.value))
  }

  ghost predicate ScannedEntries(es: seq<Entry>) {
    (forall i :: 0 <= i < |es| ==> ScannedEntry(es[i])) && DistinctPaths(es)
  }

  lemma MemberIsScanned(h: Header, records: seq<Record>, isTimestamp: Bytes -> bool)
    requires MemberEntry(h, records, isTimestamp).Some?
    ensures ScannedEntry(MemberEntry(h, records, isTimestamp).value)
  {
    var fields := PaxFields(h, records, isTimestamp).value;
    var kind := KindOf(h.typeflag).value;
    CanonicalResult(fields.path, kind == Directory);
    if kind == HardLink {
      CanonicalResult(fields.linkname, false);
    }
  }

  lemma OneMoreScanned(es: seq<Entry>, e: Entry)
    requires ScannedEntries(es) && ScannedEntry(e) && !PathSeen(es, e.path)
    ensures ScannedEntries(es + [e])
  {
    hide ScannedEntry;
    forall i | 0 <= i < |es|
      ensures es[i].path != e.path
    {
      assert es[i] in es;
    }
  }

  lemma AbsorbKeepsScanned(data: Bytes, offset: nat, h: Header, st: State, rules: Rules)
    requires offset + BLOCK + h.size <= |data| && ScannedEntries(st.entries) && Absorb(data, offset, h, st, rules).Some?
    ensures ScannedEntries(Absorb(data, offset, h, st, rules).value.entries)
  {
    hide MemberEntry, Records, ScannedEntries, ScannedEntry, PathSeen;
    if !MetadataType(h.typeflag) {
      var records := if st.pending.Some? then st.pending.value else [];
      MemberIsScanned(h, records, rules.isTimestamp);
      OneMoreScanned(st.entries, MemberEntry(h, records, rules.isTimestamp).value);
    }
  }

  lemma {:induction false} ScanYields(data: Bytes, offset: nat, st: State, rules: Rules)
    requires ScanFrom(data, offset, st, rules).Some? && ScannedEntries(st.entries)
    ensures ScannedEntries(ScanFrom(data, offset, st, rules).value)
    decreases |data| - offset
  {
    hide Step, Absorb, ScannedEntries, ReadHeader, AllZero, RoundUp;
    match Step(data, offset, st, rules) {
      case End =>
      case Next(offset', st') =>
        StepIsAFrame(data, offset, st, rules);
        AbsorbKeepsScanned(data, offset, FrameAt(data, offset).value.header, st, rules);
        ScanYields(data, offset', st', rules);
    }
  }

  /** The entries of an accepted archive have canonical, pairwise distinct paths. */
  lemma AcceptedEntriesAreCanonical(data: Bytes, rules: Rules)
    requires Scan(data, rules).Some?
    ensures ScannedEntries(Scan(data, rules).value) && EntriesOk(Scan(data, rules).value)
  {
    ScanYields(data, 0, State([], None), rules);
  }
}
