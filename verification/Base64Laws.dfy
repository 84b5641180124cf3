/** Which texts the normaliser accepts, and which error the others get, stated on the text. */
module Base64Laws {
  import opened Texts
  import opened Wrappers
  import opened Base64
  import opened PathLaws

  /** The bytes of a character in UTF-8 (section 3 of RFC 3629). */
  function Utf8Bytes(c: char): nat {
    var code := c as int;
    if code <= 0x7f then 1 else if code <= 0x7ff then 2 else if code <= 0xffff then 3 else 4
  }

  /** The length that counts is that of the UTF-8 text. */
  lemma {:induction false} LengthIsBytes(a: string, c: char, b: string)
    ensures ByteLength("") == 0 && ByteLength(a + [c] + b) == ByteLength(a + b) + Utf8Bytes(c)
    decreases |a|
  {
    if a == "" {
      assert (a + [c] + b)[1..] == a + b;
    } else {
      LengthIsBytes(a[1..], c, b);
      assert (a + [c] + b)[1..] == a[1..] + [c] + b && (a + b)[1..] == a[1..] + b;
    }
  }

  predicate SpaceAtAnEnd(s: string) { s != "" && (IsSpace(s[0]) || IsSpace(s[|s| - 1])) }

  lemma TrimmedExactly(s: string)
    ensures Trim(s) != s <==> SpaceAtAnEnd(s)
  {
    var a, b := TrimIs(s);
    if Trim(s) != s && a == "" {
      assert b != "" && s[|s| - 1] == b[|b| - 1];
    }
    if a != "" { assert s[0] == a[0]; }
    assert a == "" && b == "" ==> a + Trim(s) + b == Trim(s);
    assert s != "" && Trim(s) == s ==> !IsSpace(s[0]) && !IsSpace(s[|s| - 1]);
  }

  predicate IsLetterDigitPlusSlash(c: char) {
    || 65 <= c as int <= 90 || 97 <= c as int <= 122 || 48 <= c as int <= 57 || c == '+' || c == '/'
  }

  /** `s` is so many symbols, and pads after them. */
  predicate SymbolsBefore(s: string, symbols: nat) {
    && symbols <= |s|
    && (forall i :: 0 <= i < symbols ==> IsLetterDigitPlusSlash(s[i])) && forall i :: symbols <= i < |s| ==> s[i] == '='
  }

  /** Symbols, but for at most two pads at the end. */
  ghost predicate SymbolsThenPads(s: string) {
    exists n: nat :: |s| <= n + 2 && SymbolsBefore(s, n)
  }

  lemma ShapedExactly(s: string)
    ensures IsShaped(s) <==> SymbolsThenPads(s)
  {
    assert forall c :: IsSymbol(c) <==> IsLetterDigitPlusSlash(c);
    forall n: nat ensures n <= |s| && WellFormed(s, n) <==> |s| <= n + 2 && SymbolsBefore(s, n) {}
  }

  /** The empty text, white space at an end, a length of one over a multiple of four, and anything
      but symbols and at most two pads after them are refused, in this order; every other text is
      accepted. */
  lemma RefusesExactly(s: string)
    ensures Normalized64(s) == Err(Empty) <==> s == ""
    ensures Normalized64(s) == Err(Whitespace) <==> SpaceAtAnEnd(s)
    ensures Normalized64(s) == Err(BadLength) <==> s != "" && !SpaceAtAnEnd(s) && ByteLength(s) % 4 == 1
    ensures Normalized64(s) == Err(BadAlphabet) <==> s != "" && !SpaceAtAnEnd(s) && ByteLength(s) % 4 != 1 && !SymbolsThenPads(s)
  {
    TrimmedExactly(s);
    ShapedExactly(s);
  }

  /** What is accepted gets pads to the next multiple of four, at most two. */
  lemma PadsExactly(s: string)
    requires Normalized64(s).Ok?
    ensures var more := if |s| % 4 == 0 then 0 else 4 - |s| % 4;
      more <= 2 && Normalized64(s).value == s + seq(more, i => '=')
  {
    var n: nat :| n <= |s| && WellFormed(s, n);
    assert |s| % 4 != 1 by { ShapedIsAscii(s, n); }
    PadsAre(Missing(|s|));
    assert Pads(Missing(|s|)) == seq(Missing(|s|), i => '=');
  }
}
