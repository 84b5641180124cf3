/** What a path is normalised to, split into and trimmed to, stated on the text. */
module PathLaws {
  import opened Texts
  import opened Wrappers
  import opened Paths
  import opened BundleTree
  import opened BundleBatches

  // ----- Trimming -----

  /** The 25 characters Unicode calls white space, by code point. */
  lemma SpacesAre(c: char)
    ensures IsSpace(c) <==>
      c as int in {9, 10, 11, 12, 13, 32, 0x85, 0xa0, 0x1680, 0x2000, 0x2001, 0x2002, 0x2003, 0x2004, 0x2005,
                   0x2006, 0x2007, 0x2008, 0x2009, 0x200a, 0x2028, 0x2029, 0x202f, 0x205f, 0x3000}
  {
  }

  predicate AllSpace(s: string) { forall i :: 0 <= i < |s| ==> IsSpace(s[i]) }

  lemma {:induction false} TrimStartIs(s: string) returns (a: string)
    ensures AllSpace(a) && s == a + TrimStart(s) && (TrimStart(s) != "" ==> !IsSpace(TrimStart(s)[0]))
  {
    a := "";
    if s != "" && IsSpace(s[0]) {
      a := TrimStartIs(s[1..]);
      a := [s[0]] + a;
    }
  }

  lemma {:induction false} TrimEndIs(s: string) returns (b: string)
    ensures AllSpace(b) && s == TrimEnd(s) + b && (TrimEnd(s) != "" ==> !IsSpace(TrimEnd(s)[|TrimEnd(s)| - 1]))
    decreases |s|
  {
    b := "";
    if s != "" && IsSpace(s[|s| - 1]) {
      b := TrimEndIs(s[..|s| - 1]);
      b := b + [s[|s| - 1]];
    }
  }

  /** Trimming takes away white space at both ends, all of it, and nothing else. */
  lemma TrimIs(s: string) returns (a: string, b: string)
    ensures AllSpace(a) && AllSpace(b) && s == a + Trim(s) + b
    ensures Trim(s) != "" ==> !IsSpace(Trim(s)[0]) && !IsSpace(Trim(s)[|Trim(s)| - 1])
  {
    a := TrimStartIs(s);
    b := TrimEndIs(TrimStart(s));
    if Trim(s) != "" { assert Trim(s)[0] == TrimStart(s)[0]; }
  }

  // ----- Normalising -----

  /** What of a path counts: its segments but for empty ones and dots. */
  function Segments(raw: string): seq<string> { Kept(Split(Unified(raw))) }

  predicate Absolute(raw: string) { raw != "" && (raw[0] == '/' || raw[0] == '\\') }

  lemma NormalizedBy(raw: string)
    ensures Normalized(raw) ==
      if Absolute(raw) then Err(MustBeRelative)
      else if ".." in Segments(raw) then Err(Escapes)
      else if Segments(raw) == [] then Err(Required)
      else Ok(Join(Segments(raw)))
  {
  }

  lemma SegmentsConcat(a: string, b: string)
    ensures Segments(a + "/" + b) == Segments(a) + Segments(b)
  {
    UnifiedConcat(a + "/", b);
    UnifiedConcat(a, "/");
    assert Unified("/") == "/" by { assert "/"[1..] == "" && Unified("") == ""; }
    SplitConcat(Unified(a), Unified(b));
    KeptConcat(Split(Unified(a)), Split(Unified(b)));
  }

  lemma OneSegment(part: string)
    requires NoSlash(part) && '\\' !in part
    ensures Segments(part) == if part == "" || part == "." then [] else [part]
  {
    UnifiedStable(part);
    SplitPlain(part);
    assert Kept([part]) == (if part == "" || part == "." then [] else [part]) + Kept([]) by { assert [part][1..] == []; }
  }

  /** Two paths of the same segments, neither or both absolute, come to the same. */
  lemma SameSegments(a: string, b: string)
    requires Absolute(a) <==> Absolute(b)
    requires Segments(a) == Segments(b)
    ensures Normalized(a) == Normalized(b)
  {
    NormalizedBy(a);
    NormalizedBy(b);
  }

  lemma AbsoluteByStart(a: string, b: string)
    requires a != ""
    ensures Absolute(a + b) <==> Absolute(a)
  {
  }

  /** A backslash is a slash. */
  lemma BackslashIsSlash(a: string, b: string)
    ensures Normalized(a + "\\" + b) == Normalized(a + "/" + b)
  {
    UnifiedConcat(a + "\\", b);
    UnifiedConcat(a, "\\");
    UnifiedConcat(a + "/", b);
    UnifiedConcat(a, "/");
    assert "\\"[1..] == "" == "/"[1..] && Unified("") == "";
    assert Unified("\\") == "/" == Unified("/");
  }

  lemma Between(a: string, mid: string, b: string)
    requires a != ""
    ensures var path := a + "/" + mid + "/" + b;
      Segments(path) == Segments(a) + Segments(mid) + Segments(b) && (Absolute(path) <==> Absolute(a))
  {
    SegmentsConcat(a + "/" + mid, b);
    SegmentsConcat(a, mid);
    assert (a + "/" + mid + "/" + b)[0] == a[0];
  }

  lemma After(a: string, b: string)
    requires a != ""
    ensures Segments(a + "/" + b) == Segments(a) + Segments(b) && (Absolute(a + "/" + b) <==> Absolute(a))
  {
    SegmentsConcat(a, b);
    assert (a + "/" + b)[0] == a[0];
  }

  /** An empty segment or a dot within a path makes no difference. */
  lemma EmptyAndDotVanish(a: string, mid: string, b: string)
    requires a != "" && (mid == "" || mid == ".")
    ensures Normalized(a + "/" + mid + "/" + b) == Normalized(a + "/" + b)
  {
    var with, without := a + "/" + mid + "/" + b, a + "/" + b;
    assert Segments(with) == Segments(without) && (Absolute(with) <==> Absolute(without)) by {
      OneSegment(mid);
      Between(a, mid, b);
      After(a, b);
      assert Segments(a) + [] + Segments(b) == Segments(a) + Segments(b);
    }
    SameSegments(with, without);
  }

  /** Nor does either at the end. */
  lemma EndVanishes(a: string, end: string)
    requires a != "" && (end == "" || end == ".")
    ensures Normalized(a + "/" + end) == Normalized(a)
  {
    OneSegment(end);
    After(a, end);
    SameSegments(a + "/" + end, a);
  }

  /** Nor a dot at the start. */
  lemma LeadingDotVanishes(b: string)
    requires !Absolute(b)
    ensures Normalized("./" + b) == Normalized(b)
  {
    OneSegment(".");
    SegmentsConcat(".", b);
    assert "." + "/" + b == "./" + b;
    AbsoluteByStart(".", "/" + b);
    assert "." + ("/" + b) == "./" + b;
    SameSegments("./" + b, b);
  }

  /** A path that starts with a slash, of either kind, is refused as absolute. */
  lemma AbsoluteIsRefused(raw: string)
    requires raw != "" && (raw[0] == '/' || raw[0] == '\\')
    ensures Normalized(raw) == Err(MustBeRelative)
  {
    NormalizedBy(raw);
  }

  /** A segment `..` anywhere in a relative path is refused. */
  lemma DotsAreRefused(a: string, b: string)
    requires !Absolute(a) && a != ""
    ensures Normalized(a + "/" + ".." + "/" + b) == Err(Escapes) && Normalized(a + "/" + "..") == Err(Escapes)
  {
    OneSegment("..");
    Between(a, "..", b);
    After(a, "..");
    NormalizedBy(a + "/" + ".." + "/" + b);
    NormalizedBy(a + "/" + "..");
  }

  lemma LeadingDotsAreRefused(b: string)
    ensures Normalized("../" + b) == Err(Escapes) && Normalized("..") == Err(Escapes)
  {
    OneSegment("..");
    SegmentsConcat("..", b);
    assert ".." + "/" + b == "../" + b;
    NormalizedBy("../" + b);
    NormalizedBy("..");
  }

  /** What is empty or a dot names nothing; a plain segment is itself. */
  lemma SegmentIsNormal(part: string)
    requires NoSlash(part) && '\\' !in part && part != ".."
    ensures Normalized(part) == if part == "" || part == "." then Err(Required) else Ok(part)
  {
    OneSegment(part);
    NormalizedBy(part);
  }

  // ----- Splitting -----

  /** The name is what follows the last slash, the category what precedes the first. */
  lemma NameAndCategory(dir: string, name: string, top: string, rest: string)
    requires NoSlash(name) && NoSlash(top)
    ensures Name(dir + "/" + name) == name && Name(name) == name
    ensures Category(top + "/" + rest) == top && Category(name) == "root"
  {
    SplitConcat(dir, name);
    SplitPlain(name);
    SplitConcat(top, rest);
    SplitPlain(top);
  }

  /** One path lies below another exactly when it continues it with a slash and more. */
  lemma UnderIs(path: string, dir: string)
    ensures Under(path, dir) <==> exists rest :: path == dir + "/" + rest
  {
    if Under(path, dir) { assert path == dir + "/" + path[|dir| + 1..]; }
    if rest :| path == dir + "/" + rest { assert path[..|dir|] == dir; }
  }

  /** An entry that moves into a folder keeps its name, under the folder's normal path. */
  lemma JoinedTarget(targetDir: string, name: string)
    requires Plain(name)
    ensures Trim(targetDir) == "" ==> JoinTargetDir(targetDir, name) == Normalized(name)
    ensures Trim(targetDir) != "" ==> JoinTargetDir(targetDir, name) == Normalized(Trim(targetDir) + "/" + name)
    ensures JoinTargetDir(targetDir, name).Ok? ==> Name(JoinTargetDir(targetDir, name).value) == name
  {
    var raw := RawTarget(Trim(targetDir), name);
    if Normalized(raw).Ok? { NormalizedName(Trim(targetDir), name); }
  }

  lemma NormalizedName(dir: string, name: string)
    requires Plain(name) && Normalized(RawTarget(dir, name)).Ok?
    ensures Name(Normalized(RawTarget(dir, name)).value) == name
  {
    OneSegment(name);
    if dir != "" { SegmentsConcat(dir, name); }
    var parts := Segments(RawTarget(dir, name));
    assert parts[|parts| - 1] == name;
    SplitPartsHaveNoSlash(Unified(RawTarget(dir, name)));
    forall i | 0 <= i < |parts| ensures NoSlash(parts[i]) { KeptFrom(Split(Unified(RawTarget(dir, name))), parts[i]); }
    SplitJoin(parts);
  }
}
