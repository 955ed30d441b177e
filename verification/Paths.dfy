/** Slash-separated paths: Python's split and join, canonical tar paths, and the prefix test of the layer engine. */
module Paths {
  import opened Common

  const MAX_PATH_BYTES: nat := 4096

  /** `s.split("/")`. */
  function Split(s: string): (parts: seq<string>)
    ensures |parts| >= 1
  {
    if s == "" then [""]
    else
      var rest := Split(s[1..]);
      if s[0] == '/' then [""] + rest
      else [[s[0]] + rest[0]] + rest[1..]
  }

  /** `"/".join(parts)`. */
  function Join(parts: seq<string>): string {
    if parts == [] then ""
    else if |parts| == 1 then parts[0]
    else parts[0] + "/" + Join(parts[1..])
  }

  lemma {:induction false} JoinOfSplit(s: string)
    ensures Join(Split(s)) == s
  {
    if s != "" {
      JoinOfSplit(s[1..]);
      var rest := Split(s[1..]);
      if s[0] == '/' {
        assert ([""] + rest)[1..] == rest;
      } else if |rest| > 1 {
        assert Split(s)[1..] == rest[1..];
      }
    }
  }

  /** One more character in front of the first part. */
  function PutFront(c: char, parts: seq<string>): seq<string>
    requires parts != []
  {
    if c == '/' then [""] + parts else [[c] + parts[0]] + parts[1..]
  }

  lemma PutFrontOfConcat(c: char, a: seq<string>, b: seq<string>)
    requires a != []
    ensures PutFront(c, a + b) == PutFront(c, a) + b
  {
    if c == '/' {
      assert [""] + (a + b) == ([""] + a) + b;
    } else {
      assert (a + b)[0] == a[0] && (a + b)[1..] == a[1..] + b;
      assert [[c] + a[0]] + (a[1..] + b) == ([[c] + a[0]] + a[1..]) + b;
    }
  }

  lemma SplitPutsFront(s: string)
    requires s != ""
    ensures Split(s) == PutFront(s[0], Split(s[1..]))
  {
  }

  lemma SplitOfSlash(r: string)
    ensures Split("/" + r) == [""] + Split(r)
  {
    assert ("/" + r)[1..] == r;
  }

  lemma {:induction false} SplitOfConcat(p: string, r: string)
    ensures Split(p + "/" + r) == Split(p) + Split(r)
  {
    var whole := p + "/" + r;
    if p == "" {
      SplitOfSlash(r);
      assert whole == "/" + r;
    } else {
      assert whole[0] == p[0] && whole[1..] == p[1..] + "/" + r;
      SplitPutsFront(p);
      SplitPutsFront(whole);
      hide Split, PutFront;
      SplitOfConcat(p[1..], r);
      PutFrontOfConcat(p[0], Split(p[1..]), Split(r));
    }
  }

  lemma {:induction false} JoinOfConcat(a: seq<string>, b: seq<string>)
    requires a != [] && b != []
    ensures Join(a + b) == Join(a) + "/" + Join(b)
  {
    assert (a + b)[1..] == a[1..] + b;
    if |a| == 1 {
      assert a[1..] + b == b;
    } else {
      JoinOfConcat(a[1..], b);
    }
  }

  lemma {:induction false} SplitOfJoin(parts: seq<string>)
    requires parts != []
    requires forall i :: 0 <= i < |parts| ==> '/' !in parts[i]
    ensures Split(Join(parts)) == parts
  {
    SplitWithoutSlash(parts[0]);
    if |parts| > 1 {
      SplitOfJoin(parts[1..]);
      SplitOfConcat(parts[0], Join(parts[1..]));
      assert [parts[0]] + parts[1..] == parts;
    } else {
      assert parts == [parts[0]];
    }
  }

  lemma {:induction false} SplitWithoutSlash(s: string)
    requires '/' !in s
    ensures Split(s) == [s]
  {
    if s != "" {
      assert s == [s[0]] + s[1..];
      SplitWithoutSlash(s[1..]);
    }
  }

  lemma {:induction false} PartsHaveNoSlash(s: string)
    ensures forall i :: 0 <= i < |Split(s)| ==> '/' !in Split(s)[i]
  {
    if s != "" {
      PartsHaveNoSlash(s[1..]);
    }
  }

  // ---------------------------------------------------------------- the prefix test

  /** `q.startswith(p + "/")`. */
  predicate Below(q: string, p: string) {
    p + "/" <= q
  }

  /** The flat prefix test is exactly the proper-prefix relation on path components. */
  lemma BelowIsProperComponentPrefix(q: string, p: string)
    ensures Below(q, p) <==> Split(p) < Split(q)
  {
    if Below(q, p) {
      var r := q[|p| + 1..];
      assert q == p + "/" + r;
      SplitOfConcat(p, r);
    }
    if Split(p) < Split(q) {
      var r := Split(q)[|Split(p)|..];
      assert Split(q) == Split(p) + r;
      JoinOfConcat(Split(p), r);
      JoinOfSplit(p);
      JoinOfSplit(q);
    }
  }

  lemma SplitIsInjective(p: string, q: string)
    requires Split(p) == Split(q)
    ensures p == q
  {
    JoinOfSplit(p);
    JoinOfSplit(q);
  }

  lemma BelowIsTransitive(a: string, b: string, c: string)
    requires Below(a, b) && Below(b, c)
    ensures Below(a, c)
  {
    assert b <= a;
  }

  lemma BelowIsIrreflexive(p: string)
    ensures !Below(p, p)
  {
  }

  /** The proper ancestors that `parent_paths` yields, outermost first. */
  function ParentPaths(path: string): seq<string> {
    var parts := Split(path);
    seq(|parts| - 1, k requires 0 <= k < |parts| - 1 => Join(parts[..k + 1]))
  }

  lemma ParentPathsAreTheAncestors(path: string, q: string)
    ensures q in ParentPaths(path) <==> Below(path, q)
  {
    var parts := Split(path);
    if q in ParentPaths(path) {
      var k :| 0 <= k < |parts| - 1 && q == ParentPaths(path)[k];
      assert parts == parts[..k + 1] + parts[k + 1..];
      JoinOfConcat(parts[..k + 1], parts[k + 1..]);
      JoinOfSplit(path);
      assert path == q + "/" + Join(parts[k + 1..]);
    }
    if Below(path, q) {
      BelowIsProperComponentPrefix(path, q);
      var k := |Split(q)| - 1;
      assert parts[..k + 1] == Split(q);
      JoinOfSplit(q);
      assert ParentPaths(path)[k] == q;
    }
  }

  /** `path.rsplit("/", 1)[-1]`. */
  function BaseName(path: string): string {
    Last(Split(path))
  }

  /** `path.rsplit("/", 1)[0]`, or the empty string when the path has no slash. */
  function ParentName(path: string): string {
    Join(Front(Split(path)))
  }

  // ---------------------------------------------------------------- canonical tar paths

  predicate ControlCharacter(c: char) {
    c as int < 32 || c as int == 127
  }

  /** The characters and the length that a tar path may have before its components are looked at. */
  predicate PlainName(name: string) {
    && 0 < |name| <= MAX_PATH_BYTES
    && name[0] != '/'
    && forall c :: c in name ==> c != '\\' && !ControlCharacter(c)
  }

  /** A component that survives canonicalisation. */
  predicate ProperPart(part: string) {
    part != "" && part != "." && part != ".."
  }

  /** Components that may be skipped: "." anywhere, and the empty one a trailing slash leaves behind. */
  predicate PartAllowed(parts: seq<string>, i: nat)
    requires i < |parts|
  {
    parts[i] == "." || ProperPart(parts[i]) || (parts[i] == "" && i == |parts| - 1)
  }

  /** The proper components in order. */
  function Kept(parts: seq<string>): seq<string> {
    if parts == [] then []
    else if ProperPart(Last(parts)) then Kept(Front(parts)) + [Last(parts)]
    else Kept(Front(parts))
  }

  lemma {:induction false} KeptArePartsThatAreProper(parts: seq<string>)
    ensures forall i :: 0 <= i < |Kept(parts)| ==> ProperPart(Kept(parts)[i]) && Kept(parts)[i] in parts
  {
    if parts != [] {
      KeptArePartsThatAreProper(Front(parts));
      assert forall part :: part in Front(parts) ==> part in parts;
    }
  }

  lemma NothingKept()
    ensures Kept([]) == []
  {
  }

  lemma KeptOfPrefix(parts: seq<string>, n: nat)
    requires n < |parts|
    ensures Kept(parts[..n + 1]) == if ProperPart(parts[n]) then Kept(parts[..n]) + [parts[n]] else Kept(parts[..n])
  {
    assert Front(parts[..n + 1]) == parts[..n];
  }

  /** What `canonical_tar_path` returns, or None where it fails. */
  function CanonicalTarPath(name: string, isDirectory: bool): Option<string> {
    if !PlainName(name) then None
    else
      var parts := Split(name);
      if exists i :: 0 <= i < |parts| && !PartAllowed(parts, i) then None
      else
        var canonical := Join(Kept(parts));
        if !isDirectory && (canonical == "" || Last(name) == '/') then None
        else Some(canonical)
  }

  /** The component loop of `canonical_tar_path`. */
  method CanonicalPath(name: string, isDirectory: bool) returns (r: Option<string>)
    ensures r == CanonicalTarPath(name, isDirectory)
  {
    hide Split, Join, Kept, ControlCharacter;
    assert Kept([]) == [] by { NothingKept(); }
    if name == "" || |name| > MAX_PATH_BYTES || name[0] == '/' {
      return None;
    }
    if exists c :: c in name && (c == '\\' || ControlCharacter(c)) {
      return None;
    }
    var hadTrailingSlash := Last(name) == '/';
    var parts: seq<string> := [];
    var rawParts := Split(name);
    LastPartOfTrailingSlash(name);
    for index := 0 to |rawParts|
      invariant parts == Kept(rawParts[..index])
      invariant forall i :: 0 <= i < index ==> PartAllowed(rawParts, i)
    {
      var part := rawParts[index];
      KeptOfPrefix(rawParts, index);
      if part == ".." {
        assert !PartAllowed(rawParts, index);
        return None;
      }
      if part == "." {
        continue;
      }
      if part == "" {
        if index == |rawParts| - 1 && hadTrailingSlash {
          continue;
        }
        assert !PartAllowed(rawParts, index);
        return None;
      }
      parts := parts + [part];
    }
    assert rawParts[..|rawParts|] == rawParts;
    var canonical := Join(parts);
    if canonical == "" && !isDirectory {
      return None;
    }
    if hadTrailingSlash && !isDirectory {
      return None;
    }
    return Some(canonical);
  }

  lemma {:induction false} LastPartOfTrailingSlash(name: string)
    requires name != ""
    ensures Last(Split(name)) == "" <==> Last(name) == '/'
  {
    if |name| > 1 {
      LastPartOfTrailingSlash(name[1..]);
    } else {
      assert Split(name[1..]) == [""];
    }
  }

  /** A path that canonicalisation leaves as it is. */
  predicate IsCanonical(path: string) {
    PlainName(path) && forall i :: 0 <= i < |Split(path)| ==> ProperPart(Split(path)[i])
  }

  lemma {:induction false} KeptAll(parts: seq<string>)
    requires forall i :: 0 <= i < |parts| ==> ProperPart(parts[i])
    ensures Kept(parts) == parts
  {
    if parts != [] {
      var front := Front(parts);
      assert forall i :: 0 <= i < |front| ==> front[i] == parts[i];
      KeptAll(front);
      assert ProperPart(parts[|parts| - 1]);
      assert front + [Last(parts)] == parts;
    }
  }

  /** A non-empty path is a fixed point of canonicalisation, for both kinds of entry, exactly when it is canonical. */
  lemma CanonicalFixedPoint(path: string, isDirectory: bool)
    ensures CanonicalTarPath(path, isDirectory) == Some(path) && path != "" <==> IsCanonical(path)
  {
    var parts := Split(path);
    JoinOfSplit(path);
    if IsCanonical(path) {
      KeptAll(parts);
      LastPartOfTrailingSlash(path);
    }
    if CanonicalTarPath(path, isDirectory) == Some(path) && path != "" {
      CanonicalResult(path, isDirectory);
    }
  }

  lemma {:induction false} JoinCharacters(parts: seq<string>, c: char)
    ensures c in Join(parts) ==> c == '/' || exists i :: 0 <= i < |parts| && c in parts[i]
  {
    if |parts| > 1 {
      JoinCharacters(parts[1..], c);
      if c in Join(parts) && c != '/' && c !in parts[0] {
        var i :| 0 <= i < |parts[1..]| && c in parts[1..][i];
        assert c in parts[i + 1];
      }
    }
  }

  lemma {:induction false} SplitCharacters(s: string, c: char)
    ensures forall i :: 0 <= i < |Split(s)| && c in Split(s)[i] ==> c in s
  {
    if s != "" {
      SplitCharacters(s[1..], c);
      assert s == [s[0]] + s[1..];
    }
  }

  lemma {:induction false} KeptIsNoLonger(parts: seq<string>)
    requires parts != []
    ensures |Join(Kept(parts))| <= |Join(parts)|
    ensures Kept(parts) == [] || |Join(Kept(parts))| <= |Join(parts)|
  {
    var front := Front(parts);
    assert parts == front + [Last(parts)];
    if front == [] {
      assert Kept(front) == [];
    } else {
      KeptIsNoLonger(front);
      JoinOfConcat(front, [Last(parts)]);
      if ProperPart(Last(parts)) && Kept(front) != [] {
        JoinOfConcat(Kept(front), [Last(parts)]);
      }
    }
  }

  /** Whatever canonicalisation returns is the empty path or canonical, hence canonicalisation is idempotent. */
  lemma CanonicalResult(name: string, isDirectory: bool)
    requires CanonicalTarPath(name, isDirectory).Some?
    ensures var c := CanonicalTarPath(name, isDirectory).value; c == "" || IsCanonical(c)
    ensures var c := CanonicalTarPath(name, isDirectory).value; c == "" ==> isDirectory
  {
    var parts := Split(name);
    var kept := Kept(parts);
    var c := Join(kept);
    if kept != [] {
      KeptArePartsThatAreProper(parts);
      PartsHaveNoSlash(name);
      SplitOfJoin(kept);
      forall ch | ch in c
        ensures ch != '\\' && !ControlCharacter(ch)
      {
        JoinCharacters(kept, ch);
        if ch != '/' {
          var i :| 0 <= i < |kept| && ch in kept[i];
          var j :| 0 <= j < |parts| && parts[j] == kept[i];
          SplitCharacters(name, ch);
        }
      }
      KeptIsNoLonger(parts);
      JoinOfSplit(name);
      assert c[0] == kept[0][0];
      assert '/' !in kept[0];
    }
  }

  /** Canonicalising twice is canonicalising once. */
  lemma CanonicalIsIdempotent(name: string, isDirectory: bool, again: bool)
    requires CanonicalTarPath(name, isDirectory).Some?
    requires CanonicalTarPath(name, isDirectory).value != ""
    ensures CanonicalTarPath(CanonicalTarPath(name, isDirectory).value, again) == CanonicalTarPath(name, isDirectory)
  {
    CanonicalResult(name, isDirectory);
    CanonicalFixedPoint(CanonicalTarPath(name, isDirectory).value, again);
  }
}
