/** Relative paths inside a build: normalisation, the `(name, category)` split and the
    subtree relation that the SQL prefix selections stand for. */
module Paths {
  import opened Wrappers
  import opened LikePatterns

  datatype PathError = MustBeRelative | Escapes | Required

  // ----- Segments -----

  /** The pieces between the slashes; never empty. */
  function Split(path: string): (parts: seq<string>)
    ensures |parts| > 0
  {
    if path == "" then [""]
    else
      Extended(path[0], Split(path[1..]))
  }

  /** The pieces of a path one character longer. */
  function Extended(c: char, parts: seq<string>): (more: seq<string>)
    requires parts != []
    ensures more != []
  {
    if c == '/' then [""] + parts else [[c] + parts[0]] + parts[1..]
  }

  lemma ExtendedConcat(c: char, a: seq<string>, b: seq<string>)
    requires a != []
    ensures Extended(c, a + b) == Extended(c, a) + b
  {
    assert (a + b)[1..] == a[1..] + b;
  }

  function Join(parts: seq<string>): string
    requires parts != []
  {
    if |parts| == 1 then parts[0] else parts[0] + "/" + Join(parts[1..])
  }

  predicate NoSlash(part: string) { '/' !in part }

  predicate Plain(part: string) { part != "" && part != "." && part != ".." && NoSlash(part) && '\\' !in part }

  predicate Normal(path: string) {
    forall i :: 0 <= i < |Split(path)| ==> Plain(Split(path)[i])
  }

  lemma {:induction false} JoinSplit(path: string)
    ensures Join(Split(path)) == path
  {
    if path != "" {
      JoinSplit(path[1..]);
      var rest := Split(path[1..]);
      if path[0] == '/' {
        assert ([""] + rest)[1..] == rest;
      } else if |rest| > 1 {
        assert ([[path[0]] + rest[0]] + rest[1..])[1..] == rest[1..];
        assert [path[0]] + rest[0] + "/" + Join(rest[1..]) == [path[0]] + (rest[0] + "/" + Join(rest[1..]));
      }
      assert [path[0]] + path[1..] == path;
    }
  }

  lemma {:induction false} SplitPlain(part: string)
    requires NoSlash(part)
    ensures Split(part) == [part]
  {
    if part != "" {
      SplitPlain(part[1..]);
      assert [part[0]] + part[1..] == part;
    }
  }

  lemma {:induction false} SplitAt(head: string, tail: string)
    requires NoSlash(head)
    ensures Split(head + "/" + tail) == [head] + Split(tail)
  {
    var path := head + "/" + tail;
    if head == "" {
      assert path[1..] == tail;
    } else {
      assert path[1..] == head[1..] + "/" + tail;
      SplitAt(head[1..], tail);
      assert [head[0]] + head[1..] == head;
    }
  }

  lemma {:induction false} SplitJoin(parts: seq<string>)
    requires parts != [] && forall i :: 0 <= i < |parts| ==> NoSlash(parts[i])
    ensures Split(Join(parts)) == parts
  {
    if |parts| == 1 {
      SplitPlain(parts[0]);
    } else {
      SplitJoin(parts[1..]);
      SplitAt(parts[0], Join(parts[1..]));
    }
  }

  lemma {:induction false} SplitPartsHaveNoSlash(path: string)
    ensures forall i :: 0 <= i < |Split(path)| ==> NoSlash(Split(path)[i])
  {
    if path != "" { SplitPartsHaveNoSlash(path[1..]); }
  }

  // ----- normalize_relative_path -----

  function Unified(raw: string): string {
    if raw == "" then "" else [if raw[0] == '\\' then '/' else raw[0]] + Unified(raw[1..])
  }

  /** The components that are neither empty nor `.`. */
  function Kept(parts: seq<string>): seq<string> {
    if parts == [] then []
    else (if parts[0] == "" || parts[0] == "." then [] else [parts[0]]) + Kept(parts[1..])
  }

  function Normalized(raw: string): Result<string, PathError> {
    var unified := Unified(raw);
    if unified != "" && unified[0] == '/' then Err(MustBeRelative)
    else if ".." in Kept(Split(unified)) then Err(Escapes)
    else if Kept(Split(unified)) == [] then Err(Required)
    else Ok(Join(Kept(Split(unified))))
  }

  method NormalizeRelativePath(raw: string) returns (result: Result<string, PathError>)
    ensures result == Normalized(raw)
  {
    var unified := Unified(raw);
    if unified != "" && unified[0] == '/' { return Err(MustBeRelative); }
    var components := Split(unified);
    var parts: seq<string> := [];
    for i := 0 to |components|
      invariant parts == Kept(components[..i]) && ".." !in parts
    {
      KeptAppend(components[..i], components[i]);
      assert components[..i + 1] == components[..i] + [components[i]];
      if components[i] == ".." {
        KeptContains(components, i);
        return Err(Escapes);
      }
      if components[i] != "" && components[i] != "." {
        parts := parts + [components[i]];
      }
    }
    assert components[..|components|] == components;
    if parts == [] { return Err(Required); }
    return Ok(Join(parts));
  }

  lemma {:induction false} KeptAppend(parts: seq<string>, part: string)
    ensures Kept(parts + [part]) == Kept(parts) + (if part == "" || part == "." then [] else [part])
  {
    if parts == [] {
      assert parts + [part] == [part] && [part][1..] == [];
    } else {
      assert (parts + [part])[1..] == parts[1..] + [part];
      KeptAppend(parts[1..], part);
    }
  }

  lemma {:induction false} KeptContains(parts: seq<string>, i: nat)
    requires i < |parts| && parts[i] != "" && parts[i] != "."
    ensures parts[i] in Kept(parts)
  {
    if i > 0 { KeptContains(parts[1..], i - 1); }
  }

  lemma {:induction false} KeptFrom(parts: seq<string>, part: string)
    requires part in Kept(parts)
    ensures part in parts && part != "" && part != "."
  {
    if parts[0] == "" || parts[0] == "." || part != parts[0] { KeptFrom(parts[1..], part); }
  }

  lemma {:induction false} KeptAll(parts: seq<string>)
    requires forall i :: 0 <= i < |parts| ==> parts[i] != "" && parts[i] != "."
    ensures Kept(parts) == parts
  {
    if parts != [] { KeptAll(parts[1..]); }
  }

  lemma {:induction false} UnifiedHasNoBackslash(raw: string)
    ensures '\\' !in Unified(raw)
  {
    if raw != "" { UnifiedHasNoBackslash(raw[1..]); }
  }

  lemma {:induction false} UnifiedStable(path: string)
    requires '\\' !in path
    ensures Unified(path) == path
  {
    if path != "" { UnifiedStable(path[1..]); }
  }

  lemma {:induction false} SplitChars(path: string, c: char)
    requires c !in path
    ensures forall i :: 0 <= i < |Split(path)| ==> c !in Split(path)[i]
  {
    if path != "" { SplitChars(path[1..], c); }
  }

  /** Whatever is accepted is a normal path: no empty, `.` or `..` segment, no backslash, so
      it names something inside the build; and normalising it again changes nothing. */
  lemma NormalizedIsNormal(raw: string)
    requires Normalized(raw).Ok?
    ensures Normal(Normalized(raw).value) && Normalized(Normalized(raw).value) == Normalized(raw)
  {
    var parts, path := Kept(Split(Unified(raw))), Normalized(raw).value;
    UnifiedHasNoBackslash(raw);
    SplitChars(Unified(raw), '\\');
    SplitPartsHaveNoSlash(Unified(raw));
    forall i | 0 <= i < |parts| ensures Plain(parts[i]) {
      KeptFrom(Split(Unified(raw)), parts[i]);
    }
    SplitJoin(parts);
    NormalIsFixed(path);
  }

  lemma {:induction false} JoinPlainChars(parts: seq<string>)
    requires parts != [] && forall i :: 0 <= i < |parts| ==> Plain(parts[i])
    ensures '\\' !in Join(parts) && Join(parts) != "" && Join(parts)[0] != '/'
  {
    assert Plain(parts[0]);
    if |parts| > 1 {
      JoinPlainChars(parts[1..]);
      assert Join(parts)[0] == parts[0][0];
    }
    assert parts[0][0] in parts[0];
  }

  lemma NormalIsFixed(path: string)
    requires Normal(path)
    ensures Normalized(path) == Ok(path)
  {
    var parts := Split(path);
    JoinSplit(path);
    JoinPlainChars(parts);
    UnifiedStable(path);
    forall i | 0 <= i < |parts| ensures parts[i] != "" && parts[i] != "." && parts[i] != ".." {
      assert Plain(parts[i]);
    }
    KeptAll(parts);
  }

  // ----- split_relative_path -----

  function Name(path: string): string { Split(path)[|Split(path)| - 1] }

  function Category(path: string): string {
    if |Split(path)| > 1 then Split(path)[0] else "root"
  }

  // ----- Subtrees -----

  /** `path` lies strictly below `dir`: it starts with `dir` and a slash. */
  predicate Under(path: string, dir: string) {
    |dir| < |path| && path[..|dir|] == dir && path[|dir|] == '/'
  }

  lemma UnderIsPrefix(path: string, dir: string)
    ensures Under(path, dir) <==> dir + "/" <= path
  {
    if dir + "/" <= path {
      assert path[|dir|] == (dir + "/")[|dir|];
      assert path[..|dir|] == (dir + "/")[..|dir|];
    }
  }

  /** The rows the SQL subtree selection picks are exactly those below the folder. */
  lemma SubtreeSelectionIsExact(path: string, dir: string)
    ensures Like(Escaped(dir + "/") + "%", path) <==> Under(path, dir)
  {
    EscapedPrefixIsExact(dir + "/", path);
    UnderIsPrefix(path, dir);
  }

  lemma {:induction false} SplitConcat(a: string, b: string)
    ensures Split(a + "/" + b) == Split(a) + Split(b)
  {
    var path := a + "/" + b;
    if a == "" {
      assert path[1..] == b;
    } else {
      assert path[1..] == a[1..] + "/" + b;
      SplitConcat(a[1..], b);
      ExtendedConcat(a[0], Split(a[1..]), Split(b));
    }
  }

  lemma UnderHasPrefix(path: string, dir: string)
    requires Under(path, dir)
    ensures |Split(dir)| < |Split(path)| && Split(path)[..|Split(dir)|] == Split(dir)
  {
    var tail := path[|dir| + 1..];
    assert path == dir + "/" + tail;
    SplitConcat(dir, tail);
  }

  lemma PrefixIsUnder(path: string, dir: string)
    requires |Split(dir)| < |Split(path)| && Split(path)[..|Split(dir)|] == Split(dir)
    ensures Under(path, dir)
  {
    var d, tail := Split(dir), Split(path)[|Split(dir)|..];
    JoinSplit(path);
    JoinSplit(dir);
    JoinConcat(d, tail);
    assert Split(path) == d + tail;
    assert path == dir + "/" + Join(tail);
  }

  /** Being below a folder is having its segments as a strict prefix. */
  lemma UnderIsSegmentPrefix(path: string, dir: string)
    ensures Under(path, dir) <==> |Split(dir)| < |Split(path)| && Split(path)[..|Split(dir)|] == Split(dir)
  {
    if Under(path, dir) { UnderHasPrefix(path, dir); }
    if |Split(dir)| < |Split(path)| && Split(path)[..|Split(dir)|] == Split(dir) { PrefixIsUnder(path, dir); }
  }

  lemma {:induction false} JoinConcat(a: seq<string>, b: seq<string>)
    requires a != [] && b != []
    ensures Join(a + b) == Join(a) + "/" + Join(b)
  {
    if |a| == 1 {
      assert (a + b)[1..] == b;
    } else {
      assert (a + b)[1..] == a[1..] + b;
      JoinConcat(a[1..], b);
    }
  }
}
