/** SQL `LIKE ... ESCAPE '\'` and the escaping that makes a needle literal in it. */
module LikePatterns {

  const ESCAPE: char := '\\'

  predicate IsMeta(c: char) { c == ESCAPE || c == '%' || c == '_' }

  /** Whether `s` matches the pattern. A pattern that ends in a lone escape matches nothing. */
  predicate Like(pattern: string, s: string)
    decreases |pattern| + |s|
  {
    if pattern == "" then s == ""
    else if pattern[0] == ESCAPE then
      |pattern| > 1 && s != "" && s[0] == pattern[1] && Like(pattern[2..], s[1..])
    else if pattern[0] == '%' then
      Like(pattern[1..], s) || (s != "" && Like(pattern, s[1..]))
    else if pattern[0] == '_' then s != "" && Like(pattern[1..], s[1..])
    else s != "" && s[0] == pattern[0] && Like(pattern[1..], s[1..])
  }

  /** An underscore stands for any one character, and percent for any string: some cut of `s` leaves
      what the rest matches. An escaped character, and any other, stands for itself. */
  lemma {:induction false} WildcardsAre(c: char, rest: string, s: string)
    ensures Like(['_'] + rest, s) <==> s != "" && Like(rest, s[1..])
    ensures Like(['%'] + rest, s) <==> exists k :: 0 <= k <= |s| && Like(rest, s[k..])
    ensures Like([ESCAPE, c] + rest, s) <==> s != "" && s[0] == c && Like(rest, s[1..])
    ensures !IsMeta(c) ==> (Like([c] + rest, s) <==> s != "" && s[0] == c && Like(rest, s[1..]))
    ensures Like("", s) <==> s == ""
    decreases |s|
  {
    assert (['_'] + rest)[1..] == rest && (['%'] + rest)[1..] == rest && ([c] + rest)[1..] == rest;
    assert ([ESCAPE, c] + rest)[2..] == rest;
    assert s[0..] == s;
    if s != "" {
      WildcardsAre(c, rest, s[1..]);
      assert forall k :: 1 <= k <= |s| ==> s[k..] == s[1..][k - 1..];
      if k :| 0 <= k <= |s[1..]| && Like(rest, s[1..][k..]) { assert s[1..][k..] == s[k + 1..]; }
    }
  }

  function EscapedChar(c: char): string { if IsMeta(c) then [ESCAPE, c] else [c] }

  function Escaped(needle: string): string {
    if needle == "" then ""
    else EscapedChar(needle[0]) + Escaped(needle[1..])
  }

  lemma {:induction false} EscapedAppend(a: string, c: char)
    ensures Escaped(a + [c]) == Escaped(a) + EscapedChar(c)
  {
    if a == "" {
      assert a + [c] == [c] && [c][1..] == "";
    } else {
      assert (a + [c])[1..] == a[1..] + [c];
      EscapedAppend(a[1..], c);
    }
  }

  /** Exactly the backslashes, percents and underscores get a backslash before them; the rest of the
      text stays as it is. */
  lemma {:induction false} EscapesExactly(a: string, c: char, b: string)
    ensures Escaped("") == ""
    ensures Escaped(a + [c] + b) == Escaped(a) + (if c in {'\\', '%', '_'} then "\\" + [c] else [c]) + Escaped(b)
    decreases |a|
  {
    if a == "" {
      assert ([c] + b)[1..] == b && a + [c] + b == [c] + b;
    } else {
      assert (a + [c] + b)[1..] == a[1..] + [c] + b;
      EscapesExactly(a[1..], c, b);
    }
  }

  method EscapeLikePattern(needle: string) returns (escaped: string)
    ensures escaped == Escaped(needle)
  {
    escaped := "";
    for i := 0 to |needle|
      invariant escaped == Escaped(needle[..i])
    {
      EscapedAppend(needle[..i], needle[i]);
      assert needle[..i + 1] == needle[..i] + [needle[i]];
      if IsMeta(needle[i]) {
        escaped := escaped + [ESCAPE];
      }
      escaped := escaped + [needle[i]];
    }
    assert needle[..|needle|] == needle;
  }

  lemma LikeEscapedChar(c: char, rest: string, s: string)
    ensures Like(EscapedChar(c) + rest, s) <==> s != "" && s[0] == c && Like(rest, s[1..])
  {
    var pattern := EscapedChar(c) + rest;
    assert pattern[|EscapedChar(c)|..] == rest;
  }

  lemma PrefixByHead(c: char, tail: string, s: string)
    ensures [c] + tail <= s <==> s != "" && s[0] == c && tail <= s[1..]
    ensures [c] + tail <= s ==> s[|tail| + 1..] == s[1..][|tail|..]
  {
    if s != "" { assert s == [s[0]] + s[1..]; }
  }

  /** An escaped needle matches itself and nothing else, whatever follows it. */
  lemma {:induction false} EscapedIsLiteral(needle: string, rest: string, s: string)
    ensures Like(Escaped(needle) + rest, s) <==> needle <= s && Like(rest, s[|needle|..])
  {
    if needle == "" {
      assert Escaped(needle) + rest == rest && s[0..] == s;
    } else {
      var c, tail := needle[0], needle[1..];
      assert needle == [c] + tail;
      assert Escaped(needle) + rest == EscapedChar(c) + (Escaped(tail) + rest);
      LikeEscapedChar(c, Escaped(tail) + rest, s);
      PrefixByHead(c, tail, s);
      if s != "" { EscapedIsLiteral(tail, rest, s[1..]); }
    }
  }

  lemma {:induction false} PercentMatchesAll(s: string)
    ensures Like("%", s)
  {
    if s != "" { PercentMatchesAll(s[1..]); }
  }

  /** `escape(prefix) || '%'` selects exactly the strings that start with the prefix. */
  lemma EscapedPrefixIsExact(prefix: string, s: string)
    ensures Like(Escaped(prefix) + "%", s) <==> prefix <= s
  {
    EscapedIsLiteral(prefix, "%", s);
    if prefix <= s { PercentMatchesAll(s[|prefix|..]); }
  }

  predicate OccursIn(needle: string, s: string) {
    exists i :: 0 <= i <= |s| && needle <= s[i..]
  }

  /** `'%' || escape(needle) || '%'` selects exactly the strings that contain the needle. */
  lemma {:induction false} EscapedContainsIsExact(needle: string, s: string)
    ensures Like("%" + Escaped(needle) + "%", s) <==> OccursIn(needle, s)
  {
    var tail := Escaped(needle) + "%";
    assert "%" + Escaped(needle) + "%" == "%" + tail && ("%" + tail)[1..] == tail;
    EscapedPrefixIsExact(needle, s);
    assert s[0..] == s;
    if s != "" {
      EscapedContainsIsExact(needle, s[1..]);
      if OccursIn(needle, s[1..]) {
        var i :| 0 <= i <= |s[1..]| && needle <= s[1..][i..];
        assert s[1..][i..] == s[i + 1..];
      }
      if OccursIn(needle, s) && !(needle <= s) {
        var i :| 0 <= i <= |s| && needle <= s[i..];
        assert i > 0 && s[i..] == s[1..][i - 1..];
      }
    }
  }
}
