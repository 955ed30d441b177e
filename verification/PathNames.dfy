/** Canonical tar paths and path prefixes in terms of substrings and concatenation alone. */
module PathNames {
  import opened Common
  import opened Paths

  /** `part in s`. */
  ghost predicate Occurs(part: string, s: string) {
    exists a, b :: s == a + part + b
  }

  // ---------------------------------------------------------------- components as substrings

  lemma FramedPart(s: string, i: nat)
    requires i < |Split(s)|
    ensures Occurs("/" + Split(s)[i] + "/", "/" + s + "/")
  {
    hide Split, Join;
    var part, before, after := Split(s)[i], Split(s)[..i], Split(s)[i + 1..];
    JoinOfSplit(s);
    assert Split(s) == before + [part] + after;
    JoinThree(before, part, after);
  }

  /** A component is what stands between two slashes, when one is put at either end. */
  lemma ComponentOccurs(s: string, part: string)
    requires '/' !in part
    ensures part in Split(s) <==> Occurs("/" + part + "/", "/" + s + "/")
  {
    hide Split;
    if part in Split(s) {
      var i :| 0 <= i < |Split(s)| && Split(s)[i] == part;
      FramedPart(s, i);
    }
    if Occurs("/" + part + "/", "/" + s + "/") {
      var a, b :| "/" + s + "/" == a + ("/" + part + "/") + b;
      FramedCut(s, part, a, b);
    }
  }

  lemma JoinOne(part: string)
    ensures Join([part]) == part
  {
  }

  lemma JoinThree(before: seq<string>, part: string, after: seq<string>)
    ensures "/" + Join(before + [part] + after) + "/"
         == (if before == [] then "" else "/" + Join(before)) + ("/" + part + "/")
            + (if after == [] then "" else Join(after) + "/")
  {
    hide Join;
    assert before + [part] + after == before + ([part] + after);
    JoinOne(part);
    var rest := [part] + after;
    if after != [] {
      JoinOfConcat([part], after);
    } else {
      assert rest == [part];
    }
    var end := if after == [] then "" else Join(after) + "/";
    assert "/" + Join(rest) + "/" == ("/" + part + "/") + end;
    if before != [] {
      JoinOfConcat(before, rest);
      assert "/" + Join(before + rest) + "/" == ("/" + Join(before)) + ("/" + Join(rest) + "/");
    } else {
      assert before + rest == rest;
    }
  }

  lemma Unframe(x: string, y: string)
    requires "/" + x + "/" == "/" + y + "/"
    ensures x == y
  {
    assert ("/" + x + "/")[1..|x| + 1] == x && ("/" + y + "/")[1..|y| + 1] == y;
  }

  /** The text before a slash of a framed string, without the first one. */
  lemma FrontOfFrame(s: string, a: string, rest: string)
    requires a != "" && "/" + s + "/" == a + rest
    ensures a == "/" + a[1..]
  {
    assert a[0] == ("/" + s + "/")[0];
    assert a == [a[0]] + a[1..];
  }

  lemma BackOfFrame(s: string, rest: string, b: string)
    requires b != "" && "/" + s + "/" == rest + b
    ensures b == Front(b) + "/"
  {
    assert Last(b) == Last("/" + s + "/");
    assert b == Front(b) + [Last(b)];
  }

  lemma FramedCut(s: string, part: string, a: string, b: string)
    requires '/' !in part && "/" + s + "/" == a + ("/" + part + "/") + b
    ensures part in Split(s)
  {
    hide Split;
    SplitWithoutSlash(part);
    var upTo := if a == "" then part else a[1..] + "/" + part;
    assert "/" + upTo == a + ("/" + part) && Last(Split(upTo)) == part by {
      if a != "" {
        assert "/" + s + "/" == a + (("/" + part + "/") + b);
        FrontOfFrame(s, a, ("/" + part + "/") + b);
        SplitOfConcat(a[1..], part);
      }
    }
    if b == "" {
      assert "/" + s + "/" == "/" + upTo + "/";
      Unframe(s, upTo);
    } else {
      BackOfFrame(s, a + ("/" + part + "/"), b);
      Regroup(s, upTo, part, a, b);
      Unframe(s, upTo + "/" + Front(b));
      SplitOfConcat(upTo, Front(b));
    }
  }

  lemma Regroup(s: string, upTo: string, part: string, a: string, b: string)
    requires b != "" && b == Front(b) + "/" && "/" + upTo == a + ("/" + part)
    requires "/" + s + "/" == a + ("/" + part + "/") + b
    ensures "/" + s + "/" == "/" + (upTo + "/" + Front(b)) + "/"
  {
    calc {
      "/" + s + "/";
    ==
      a + ("/" + part) + "/" + b;
    ==
      "/" + upTo + "/" + (Front(b) + "/");
    ==
      "/" + (upTo + "/" + Front(b)) + "/";
    }
  }

  /** The last component of a path and what is before it. */
  lemma NameAndParent(directory: string, name: string)
    requires '/' !in name
    ensures BaseName(directory + "/" + name) == name && ParentName(directory + "/" + name) == directory
    ensures BaseName(name) == name && ParentName(name) == ""
  {
    var path := directory + "/" + name;
    SplitOfConcat(directory, name);
    SplitWithoutSlash(name);
    JoinOfSplit(directory);
    assert Front(Split(path)) == Split(directory);
    assert Front(Split(name)) == [];
  }

  /** Every path has one of these two forms. */
  lemma EveryPathIsNamed(path: string)
    ensures '/' !in BaseName(path)
    ensures '/' in path ==> path == ParentName(path) + "/" + BaseName(path)
    ensures '/' !in path ==> path == BaseName(path)
  {
    var parts := Split(path);
    PartsHaveNoSlash(path);
    JoinOfSplit(path);
    assert parts == Front(parts) + [Last(parts)];
    if Front(parts) == [] {
      assert parts == [Last(parts)];
    } else {
      JoinOfConcat(Front(parts), [Last(parts)]);
    }
    if '/' !in path {
      SplitWithoutSlash(path);
    }
  }

  // ---------------------------------------------------------------- what canonicalisation rejects

  /** What no member may be called. */
  ghost predicate Unfit(name: string) {
    || name == "" || |name| > 4096 || name[0] == '/'
    || (exists c :: c in name && (c == '\\' || c < ' ' || c == '\U{7F}'))
    || Occurs("/../", "/" + name + "/") || Occurs("//", name)
  }

  /** Every component is a dot, but for the empty one after a trailing slash. */
  ghost predicate OnlyDots(name: string) {
    forall part :: '/' !in part && Occurs("/" + part + "/", "/" + name + "/") ==> part == "." || part == ""
  }

  lemma {:induction false} KeptNothing(parts: seq<string>)
    ensures Kept(parts) == [] <==> forall i :: 0 <= i < |parts| ==> !ProperPart(parts[i])
  {
    hide ProperPart;
    if parts != [] {
      KeptNothing(Front(parts));
      assert forall i :: 0 <= i < |Front(parts)| ==> Front(parts)[i] == parts[i];
    }
  }

  lemma EmptyJoin(parts: seq<string>)
    requires forall i :: 0 <= i < |parts| ==> ProperPart(parts[i])
    ensures Join(parts) == "" <==> parts == []
  {
  }

  lemma DotsExactly(name: string)
    requires !Unfit(name)
    ensures Join(Kept(Split(name))) == "" <==> OnlyDots(name)
  {
    hide Split, Kept, Join, Occurs;
    var parts := Split(name);
    KeptArePartsThatAreProper(parts);
    EmptyJoin(Kept(parts));
    KeptNothing(parts);
    PartsHaveNoSlash(name);
    forall part | '/' !in part
      ensures part in parts <==> Occurs("/" + part + "/", "/" + name + "/")
    {
      ComponentOccurs(name, part);
    }
    assert "/" + ".." + "/" == "/../";
    assert !(".." in parts);
    assert forall i :: 0 <= i < |parts| ==> parts[i] in parts;
  }

  lemma FirstComponent(name: string)
    requires name != "" && name[0] != '/'
    ensures Split(name)[0] != ""
  {
  }

  lemma DoubleSlashIsEmptyPart(a: string, b: string)
    ensures var parts := Split(a + "//" + b); |Split(a)| < |parts| - 1 && parts[|Split(a)|] == ""
  {
    hide Split;
    assert a + "//" + b == a + "/" + ("" + "/" + b);
    SplitOfConcat(a, "" + "/" + b);
    SplitOfConcat("", b);
    SplitWithoutSlash("");
  }

  lemma EmptyPartIsDoubleSlash(name: string, i: nat)
    requires 0 < i < |Split(name)| - 1 && Split(name)[i] == ""
    ensures Occurs("//", name)
  {
    hide Split, Join;
    var parts := Split(name);
    var before, after := parts[..i], parts[i + 1..];
    assert parts == before + ([""] + after);
    JoinOfSplit(name);
    JoinOne("");
    JoinOfConcat([""], after);
    JoinOfConcat(before, [""] + after);
    assert name == Join(before) + "//" + Join(after);
  }

  /** Two slashes in a row are an empty component that is not the last. */
  lemma DoubleSlashExactly(name: string)
    requires name != "" && name[0] != '/'
    ensures Occurs("//", name) <==> exists i :: 0 <= i < |Split(name)| - 1 && Split(name)[i] == ""
  {
    hide Split;
    FirstComponent(name);
    if Occurs("//", name) {
      var a, b :| name == a + "//" + b;
      DoubleSlashIsEmptyPart(a, b);
    }
    if i :| 0 <= i < |Split(name)| - 1 && Split(name)[i] == "" {
      EmptyPartIsDoubleSlash(name, i);
    }
  }

  lemma SomePartForbidden(parts: seq<string>)
    ensures (exists i :: 0 <= i < |parts| && !PartAllowed(parts, i))
            <==> ".." in parts || exists i :: 0 <= i < |parts| - 1 && parts[i] == ""
  {
    if i :| 0 <= i < |parts| && parts[i] == ".." {
      assert !PartAllowed(parts, i);
    }
    if i :| 0 <= i < |parts| - 1 && parts[i] == "" {
      assert !PartAllowed(parts, i);
    }
  }

  /** The names that canonicalisation rejects. */
  lemma CanonicalRejectsExactly(name: string, isDirectory: bool)
    ensures CanonicalTarPath(name, isDirectory).None?
            <==> Unfit(name) || (!isDirectory && (Last(name) == '/' || OnlyDots(name)))
  {
    hide Split, Kept, Join, Occurs, OnlyDots;
    var parts := Split(name);
    if PlainName(name) {
      ComponentOccurs(name, "..");
      assert "/" + ".." + "/" == "/../";
      DoubleSlashExactly(name);
      SomePartForbidden(parts);
      if !Unfit(name) {
        DotsExactly(name);
      }
    }
  }

  // ---------------------------------------------------------------- what it returns

  lemma {:induction false} KeptOfConcat(a: seq<string>, b: seq<string>)
    ensures Kept(a + b) == Kept(a) + Kept(b)
  {
    hide ProperPart;
    if b == [] {
      assert a + b == a;
    } else {
      assert Front(a + b) == a + Front(b) && Last(a + b) == Last(b);
      KeptOfConcat(a, Front(b));
    }
  }

  /** A non-directory has the canonical path that a directory of its name would have. */
  lemma CanonicalForEitherKind(name: string)
    requires CanonicalTarPath(name, false).Some?
    ensures CanonicalTarPath(name, false) == CanonicalTarPath(name, true)
  {
  }

  /** A single component stands for itself, a dot for nothing, and a trailing slash makes no difference. */
  lemma CanonicalOfComponent(part: string)
    requires '/' !in part
    ensures CanonicalTarPath(part, true).Some?
            ==> CanonicalTarPath(part, true).value == if part == "." then "" else part
    ensures CanonicalTarPath(part + "/", true).Some?
            ==> CanonicalTarPath(part + "/", true).value == if part == "." then "" else part
  {
    SplitWithoutSlash(part);
    SplitWithoutSlash("");
    SplitOfConcat(part, "");
    assert part + "/" + "" == part + "/";
    KeptOfConcat([part], [""]);
    assert Kept([""]) == [];
    assert Kept([part]) == if ProperPart(part) then [part] else [];
    assert Split(part + "/") == [part, ""] && Split(part) == [part];
    assert Kept([part, ""]) == Kept([part]);
    if CanonicalTarPath(part, true).Some? {
      assert PartAllowed(Split(part), 0);
    }
    if CanonicalTarPath(part + "/", true).Some? {
      assert PartAllowed(Split(part + "/"), 0);
    }
  }

  /** Canonicalisation goes component by component. */
  lemma CanonicalOfConcat(a: string, b: string)
    requires CanonicalTarPath(a, true).Some? && CanonicalTarPath(b, true).Some? && |a| + 1 + |b| <= 4096
    requires Last(a) != '/'
    ensures var c, d := CanonicalTarPath(a, true).value, CanonicalTarPath(b, true).value;
            CanonicalTarPath(a + "/" + b, true) == Some(if c == "" then d else if d == "" then c else c + "/" + d)
  {
    hide Split, Kept, Join, ProperPart;
    var whole := a + "/" + b;
    var parts := Split(whole);
    SplitOfConcat(a, b);
    KeptOfConcat(Split(a), Split(b));
    KeptArePartsThatAreProper(Split(a));
    KeptArePartsThatAreProper(Split(b));
    EmptyJoin(Kept(Split(a)));
    EmptyJoin(Kept(Split(b)));
    LastPartOfTrailingSlash(a);
    forall i | 0 <= i < |parts|
      ensures PartAllowed(parts, i)
    {
      if i < |Split(a)| {
        assert PartAllowed(Split(a), i);
      } else {
        assert PartAllowed(Split(b), i - |Split(a)|);
      }
    }
    assert forall c :: c in whole ==> c in a || c == '/' || c in b;
    assert !ControlCharacter('/');
    var x, y := Kept(Split(a)), Kept(Split(b));
    if x == [] {
      assert x + y == y;
    } else if y == [] {
      assert x + y == x;
    } else {
      JoinOfConcat(x, y);
    }
  }
}
