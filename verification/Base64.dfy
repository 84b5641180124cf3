/** Base64 text in the standard alphabet (section 4 of RFC 4648), and the normaliser that puts
    missing padding back. */
module Base64 {
  import opened Texts
  import opened Wrappers

  type Byte = x: int | 0 <= x < 256

  type Sextet = x: int | 0 <= x < 64

  datatype Base64Error = Empty | Whitespace | BadLength | BadAlphabet

  // ----- The encoding -----

  function Symbol(v: Sextet): char {
    if v < 26 then 'A' + v as char
    else if v < 52 then 'a' + (v - 26) as char
    else if v < 62 then '0' + (v - 52) as char
    else if v == 62 then '+' else '/'
  }

  predicate IsSymbol(c: char) {
    'A' <= c <= 'Z' || 'a' <= c <= 'z' || '0' <= c <= '9' || c == '+' || c == '/'
  }

  function ValueOf(c: char): Sextet
    requires IsSymbol(c)
  {
    if 'A' <= c <= 'Z' then c as int - 'A' as int
    else if 'a' <= c <= 'z' then c as int - 'a' as int + 26
    else if '0' <= c <= '9' then c as int - '0' as int + 52
    else if c == '+' then 62 else 63
  }

  function Pads(n: nat): string { if n == 0 then "" else Pads(n - 1) + "=" }

  /** How many pads the last group of an encoding takes. */
  function PadCount(bytes: seq<Byte>): nat { (3 - |bytes| % 3) % 3 }

  function GroupOfOne(a: Byte): string { [Symbol(a / 4), Symbol(a % 4 * 16)] }

  function GroupOfTwo(a: Byte, b: Byte): string {
    [Symbol(a / 4), Symbol(a % 4 * 16 + b / 16), Symbol(b % 16 * 4)]
  }

  function GroupOfThree(a: Byte, b: Byte, c: Byte): string {
    [Symbol(a / 4), Symbol(a % 4 * 16 + b / 16), Symbol(b % 16 * 4 + c / 64), Symbol(c % 64)]
  }

  /** The symbols of an encoding, without its padding. */
  function Core(bytes: seq<Byte>): string {
    if |bytes| == 0 then ""
    else if |bytes| == 1 then GroupOfOne(bytes[0])
    else if |bytes| == 2 then GroupOfTwo(bytes[0], bytes[1])
    else GroupOfThree(bytes[0], bytes[1], bytes[2]) + Core(bytes[3..])
  }

  function Encode(bytes: seq<Byte>): string {
    if |bytes| == 0 then ""
    else if |bytes| == 1 then GroupOfOne(bytes[0]) + "=="
    else if |bytes| == 2 then GroupOfTwo(bytes[0], bytes[1]) + "="
    else GroupOfThree(bytes[0], bytes[1], bytes[2]) + Encode(bytes[3..])
  }

  /** The bytes of a group, from its sextets. */
  function FirstByte(a: Sextet, b: Sextet): Byte { a * 4 + b / 16 }

  function SecondByte(b: Sextet, c: Sextet): Byte { b % 16 * 16 + c / 4 }

  function ThirdByte(c: Sextet, d: Sextet): Byte { c % 4 * 64 + d }

  /** Decoding, in groups of four; only the last may be padded, with one or two pads, and the
      bits of it that belong to no byte are zero. */
  function Decode(s: string): Option<seq<Byte>> {
    if s == "" then Some([])
    else if |s| < 4 || !IsSymbol(s[0]) || !IsSymbol(s[1]) then None
    else
      var a, b := ValueOf(s[0]), ValueOf(s[1]);
      if |s| == 4 && s[2] == '=' && s[3] == '=' then
        if b % 16 == 0 then Some([FirstByte(a, b)]) else None
      else if !IsSymbol(s[2]) then None
      else
        var c := ValueOf(s[2]);
        if |s| == 4 && s[3] == '=' then
          if c % 4 == 0 then Some([FirstByte(a, b), SecondByte(b, c)]) else None
        else if !IsSymbol(s[3]) then None
        else
          match Decode(s[4..])
          case None => None
          case Some(rest) => Some([FirstByte(a, b), SecondByte(b, c), ThirdByte(c, ValueOf(s[3]))] + rest)
  }

  lemma SymbolValue(v: Sextet)
    ensures IsSymbol(Symbol(v)) && ValueOf(Symbol(v)) == v && Symbol(v) != '='
  {
  }

  lemma Regrouped(a: Byte, b: Byte, c: Byte)
    ensures FirstByte(a / 4, a % 4 * 16 + b / 16) == a
    ensures SecondByte(a % 4 * 16 + b / 16, b % 16 * 4 + c / 64) == b
    ensures ThirdByte(b % 16 * 4 + c / 64, c % 64) == c
  {
  }

  lemma LastOfOne(p: char, q: char)
    requires IsSymbol(p) && IsSymbol(q)
    ensures Decode([p, q, '=', '=']) == if ValueOf(q) % 16 == 0 then Some([FirstByte(ValueOf(p), ValueOf(q))]) else None
  {
  }

  lemma LastOfTwo(p: char, q: char, r: char)
    requires IsSymbol(p) && IsSymbol(q) && IsSymbol(r)
    ensures Decode([p, q, r, '=']) ==
      if ValueOf(r) % 4 == 0 then Some([FirstByte(ValueOf(p), ValueOf(q)), SecondByte(ValueOf(q), ValueOf(r))]) else None
  {
  }

  lemma NoBitsLeft(a: Byte)
    ensures a % 4 * 16 % 16 == 0 && a % 16 * 4 % 4 == 0
  {
  }

  lemma DecodeOne(a: Byte)
    ensures Decode(GroupOfOne(a) + "==") == Some([a])
  {
    SymbolValue(a / 4);
    SymbolValue(a % 4 * 16);
    Regrouped(a, 0, 0);
    NoBitsLeft(a);
    LastOfOne(Symbol(a / 4), Symbol(a % 4 * 16));
    assert GroupOfOne(a) + "==" == [Symbol(a / 4), Symbol(a % 4 * 16), '=', '='];
  }

  lemma DecodeTwo(a: Byte, b: Byte)
    ensures Decode(GroupOfTwo(a, b) + "=") == Some([a, b])
  {
    var p, q, r := a / 4, a % 4 * 16 + b / 16, b % 16 * 4;
    SymbolValue(p);
    SymbolValue(q);
    SymbolValue(r);
    Regrouped(a, b, 0);
    NoBitsLeft(b);
    LastOfTwo(Symbol(p), Symbol(q), Symbol(r));
    assert GroupOfTwo(a, b) + "=" == [Symbol(p), Symbol(q), Symbol(r), '='];
  }

  lemma DecodeGroup(a: Sextet, b: Sextet, c: Sextet, d: Sextet, rest: string)
    requires Decode(rest).Some?
    ensures Decode([Symbol(a), Symbol(b), Symbol(c), Symbol(d)] + rest)
      == Some([FirstByte(a, b), SecondByte(b, c), ThirdByte(c, d)] + Decode(rest).value)
  {
    var s := [Symbol(a), Symbol(b), Symbol(c), Symbol(d)] + rest;
    SymbolValue(a);
    SymbolValue(b);
    SymbolValue(c);
    SymbolValue(d);
    assert s[4..] == rest;
  }

  lemma DecodeThree(a: Byte, b: Byte, c: Byte, rest: string)
    requires Decode(rest).Some?
    ensures Decode(GroupOfThree(a, b, c) + rest) == Some([a, b, c] + Decode(rest).value)
  {
    Regrouped(a, b, c);
    DecodeGroup(a / 4, a % 4 * 16 + b / 16, b % 16 * 4 + c / 64, c % 64, rest);
  }

  lemma SomePads()
    ensures Pads(0) == "" && Pads(1) == "=" && Pads(2) == "==" && Pads(3) == "===" && Pads(4) == "===="
  {
    assert Pads(1) == Pads(0) + "=" && Pads(2) == Pads(1) + "=" && Pads(3) == Pads(2) + "=" && Pads(4) == Pads(3) + "=";
  }

  /** Decoding undoes encoding. */
  lemma {:induction false} DecodeEncode(bytes: seq<Byte>)
    ensures Decode(Encode(bytes)) == Some(bytes)
    decreases |bytes|
  {
    if |bytes| == 1 {
      DecodeOne(bytes[0]);
      assert bytes == [bytes[0]];
    } else if |bytes| == 2 {
      DecodeTwo(bytes[0], bytes[1]);
      assert bytes == [bytes[0], bytes[1]];
    } else if |bytes| > 2 {
      assert Decode(Encode(bytes)) == Some([bytes[0], bytes[1], bytes[2]] + bytes[3..]) by {
        DecodeEncode(bytes[3..]);
        DecodeThree(bytes[0], bytes[1], bytes[2], Encode(bytes[3..]));
      }
      assert bytes == [bytes[0], bytes[1], bytes[2]] + bytes[3..];
    }
  }

  lemma ValueSymbol(c: char)
    requires IsSymbol(c)
    ensures Symbol(ValueOf(c)) == c
  {
  }

  /** The sextets of a group, from its bytes. */
  lemma Ungrouped(a: Sextet, b: Sextet, c: Sextet, d: Sextet)
    ensures FirstByte(a, b) / 4 == a
    ensures FirstByte(a, b) % 4 * 16 + SecondByte(b, c) / 16 == b
    ensures SecondByte(b, c) % 16 * 4 + ThirdByte(c, d) / 64 == c
    ensures ThirdByte(c, d) % 64 == d
  {
  }

  lemma UngroupedLast(a: Sextet, b: Sextet, c: Sextet)
    ensures b % 16 == 0 ==> FirstByte(a, b) % 4 * 16 == b
    ensures c % 4 == 0 ==> SecondByte(b, c) % 16 * 4 == c
  {
  }

  lemma EncodeFirst(p: char, q: char, r: char, t: char, rest: seq<Byte>)
    requires IsSymbol(p) && IsSymbol(q) && IsSymbol(r) && IsSymbol(t)
    ensures var a, b, c, d := ValueOf(p), ValueOf(q), ValueOf(r), ValueOf(t);
      Encode([FirstByte(a, b), SecondByte(b, c), ThirdByte(c, d)] + rest) == [p, q, r, t] + Encode(rest)
  {
    var a, b, c, d := ValueOf(p), ValueOf(q), ValueOf(r), ValueOf(t);
    var bytes := [FirstByte(a, b), SecondByte(b, c), ThirdByte(c, d)] + rest;
    assert bytes[3..] == rest;
    Ungrouped(a, b, c, d);
    ValueSymbol(p);
    ValueSymbol(q);
    ValueSymbol(r);
    ValueSymbol(t);
  }

  lemma EncodeLastTwo(p: char, q: char, r: char)
    requires IsSymbol(p) && IsSymbol(q) && IsSymbol(r) && ValueOf(r) % 4 == 0
    ensures Encode([FirstByte(ValueOf(p), ValueOf(q)), SecondByte(ValueOf(q), ValueOf(r))]) == [p, q, r, '=']
  {
    Ungrouped(ValueOf(p), ValueOf(q), ValueOf(r), 0);
    UngroupedLast(ValueOf(p), ValueOf(q), ValueOf(r));
    ValueSymbol(p);
    ValueSymbol(q);
    ValueSymbol(r);
  }

  lemma EncodeLastOne(p: char, q: char)
    requires IsSymbol(p) && IsSymbol(q) && ValueOf(q) % 16 == 0
    ensures Encode([FirstByte(ValueOf(p), ValueOf(q))]) == [p, q, '=', '=']
  {
    Ungrouped(ValueOf(p), ValueOf(q), 0, 0);
    UngroupedLast(ValueOf(p), ValueOf(q), 0);
    ValueSymbol(p);
    ValueSymbol(q);
  }

  /** And encoding undoes decoding: a text that decodes is the encoding of those bytes. */
  lemma {:induction false} EncodeDecode(s: string)
    requires Decode(s).Some?
    ensures Encode(Decode(s).value) == s
    decreases |s|
  {
    if s != "" {
      if |s| == 4 && s[2] == '=' && s[3] == '=' {
        assert s == [s[0], s[1], '=', '='];
        EncodeLastOne(s[0], s[1]);
      } else if |s| == 4 && s[3] == '=' {
        assert s == [s[0], s[1], s[2], '='];
        EncodeLastTwo(s[0], s[1], s[2]);
      } else {
        EncodeDecode(s[4..]);
        EncodeFirst(s[0], s[1], s[2], s[3], Decode(s[4..]).value);
        assert s == [s[0], s[1], s[2], s[3]] + s[4..];
      }
    }
  }

  /** The alphabet of table 1 in RFC 4648. */
  lemma AlphabetIs(v: Sextet)
    ensures v < 26 ==> Symbol(v) == "ABCDEFGHIJKLMNOPQRSTUVWXYZ"[v]
    ensures 26 <= v < 52 ==> Symbol(v) == "abcdefghijklmnopqrstuvwxyz"[v - 26]
    ensures 52 <= v < 62 ==> Symbol(v) == "0123456789"[v - 52]
    ensures v == 62 ==> Symbol(v) == '+'
    ensures v == 63 ==> Symbol(v) == '/'
  {
  }

  /** Three bytes and the four sextets that encode them are one number of twenty-four bits; a byte
      or two at the end are followed by zero bits. */
  lemma GroupsAreNumbers(a: Byte, b: Byte, c: Byte)
    ensures var s := GroupOfThree(a, b, c);
      |s| == 4 && (forall k :: 0 <= k < 4 ==> IsSymbol(s[k]))
      && ((ValueOf(s[0]) * 64 + ValueOf(s[1])) * 64 + ValueOf(s[2])) * 64 + ValueOf(s[3]) == (a * 256 + b) * 256 + c
    ensures var s := GroupOfTwo(a, b);
      |s| == 3 && (forall k :: 0 <= k < 3 ==> IsSymbol(s[k]))
      && (ValueOf(s[0]) * 64 + ValueOf(s[1])) * 64 + ValueOf(s[2]) == (a * 256 + b) * 4
    ensures var s := GroupOfOne(a);
      |s| == 2 && (forall k :: 0 <= k < 2 ==> IsSymbol(s[k])) && ValueOf(s[0]) * 64 + ValueOf(s[1]) == a * 16
  {
    SymbolValue(a / 4);
    SymbolValue(a % 4 * 16 + b / 16);
    SymbolValue(b % 16 * 4 + c / 64);
    SymbolValue(c % 64);
    SymbolValue(b % 16 * 4);
    SymbolValue(a % 4 * 16);
  }

  /** An encoding goes group by group, three bytes to four symbols, and pads the last. */
  lemma EncodesByGroups(a: Byte, b: Byte, c: Byte, rest: seq<Byte>)
    ensures Encode([a, b, c] + rest) == GroupOfThree(a, b, c) + Encode(rest)
    ensures Encode([a, b]) == GroupOfTwo(a, b) + "=" && Encode([a]) == GroupOfOne(a) + "==" && Encode([]) == ""
  {
    assert ([a, b, c] + rest)[3..] == rest;
  }

  lemma {:induction false} EncodeIsPaddedCore(bytes: seq<Byte>)
    ensures Encode(bytes) == Core(bytes) + Pads(PadCount(bytes))
    decreases |bytes|
  {
    SomePads();
    if |bytes| > 2 {
      EncodeIsPaddedCore(bytes[3..]);
      var group, rest, pads := GroupOfThree(bytes[0], bytes[1], bytes[2]), Core(bytes[3..]), Pads(PadCount(bytes));
      assert PadCount(bytes) == PadCount(bytes[3..]);
      assert (group + rest) + pads == group + (rest + pads);
    }
  }

  // ----- normalize_base64 -----

  function ByteLength(s: string): nat {
    if s == "" then 0
    else ByteLength(s[1..]) + if s[0] < '\U{80}' then 1 else if s[0] < '\U{800}' then 2 else if s[0] < '\U{10000}' then 3 else 4
  }

  predicate AllSymbols(s: string) { forall i :: 0 <= i < |s| ==> IsSymbol(s[i]) }

  /** Symbols first, then at most two pads. */
  predicate WellFormed(s: string, symbols: nat) {
    && symbols <= |s| <= symbols + 2
    && (forall i :: 0 <= i < symbols ==> IsSymbol(s[i])) && forall i :: symbols <= i < |s| ==> s[i] == '='
  }

  ghost predicate IsShaped(s: string) { exists n: nat :: n <= |s| && WellFormed(s, n) }

  /** The pads that bring `n` characters to a multiple of four. */
  function Missing(n: nat): nat { (4 - n % 4) % 4 }

  ghost function Normalized64(s: string): Result<string, Base64Error> {
    if s == "" then Err(Empty)
    else if Trim(s) != s then Err(Whitespace)
    else if ByteLength(s) % 4 == 1 then Err(BadLength)
    else if !IsShaped(s) then Err(BadAlphabet)
    else Ok(s + Pads(Missing(|s|)))
  }

  method NormalizeBase64(encoded: string) returns (result: Result<string, Base64Error>)
    ensures result == Normalized64(encoded)
  {
    if encoded == "" { return Err(Empty); }
    if Trim(encoded) != encoded { return Err(Whitespace); }
    var length := ByteLength(encoded);
    if length % 4 == 1 { return Err(BadLength); }
    AtLeastOneByteEach(encoded);
    var seenPad, padCount := false, 0;
    for i := 0 to |encoded|
      invariant !seenPad ==> padCount == 0
      invariant padCount <= i && forall k :: 0 <= k < i - padCount ==> IsSymbol(encoded[k])
      invariant seenPad ==> 0 < padCount <= 2 && i - padCount >= length - 2
      invariant forall k :: i - padCount <= k < i ==> encoded[k] == '='
    {
      var ch := encoded[i];
      if IsSymbol(ch) {
        if seenPad { NotShaped(encoded, i - 1, i); return Err(BadAlphabet); }
      } else if ch == '=' {
        seenPad := true;
        padCount := padCount + 1;
        if padCount > 2 || i < (if length < 2 then 0 else length - 2) {
          TooManyPads(encoded, i + 1 - padCount, i, padCount, length);
          return Err(BadAlphabet);
        }
        assert i + 1 - padCount <= i;
      } else {
        BadCharacter(encoded, i);
        return Err(BadAlphabet);
      }
    }
    assert IsShaped(encoded) && length == |encoded| by { ShapedIsAscii(encoded, |encoded| - padCount); }
    var rem := length % 4;
    var pad := if rem == 0 then 0 else 4 - rem;
    var out := Padded(encoded, pad);
    return Ok(out);
  }

  method Padded(s: string, pad: nat) returns (out: string)
    ensures out == s + Pads(pad)
  {
    out := s;
    for k := 0 to pad
      invariant out == s + Pads(k)
    {
      out := out + "=";
    }
  }

  lemma {:induction false} AtLeastOneByteEach(s: string)
    ensures |s| <= ByteLength(s)
  {
    if s != "" { AtLeastOneByteEach(s[1..]); }
  }

  lemma {:induction false} AsciiLength(s: string)
    requires forall i :: 0 <= i < |s| ==> s[i] < '\U{80}'
    ensures ByteLength(s) == |s|
  {
    if s != "" { AsciiLength(s[1..]); }
  }

  lemma ShapedIsAscii(s: string, n: nat)
    requires n <= |s| && WellFormed(s, n)
    ensures ByteLength(s) == |s| && IsShaped(s)
  {
    forall i | 0 <= i < |s| ensures s[i] < '\U{80}' {
      assert i < n || s[i] == '=';
    }
    AsciiLength(s);
  }

  /** A symbol after a pad. */
  lemma NotShaped(s: string, pad: nat, symbol: nat)
    requires pad < symbol < |s| && s[pad] == '=' && IsSymbol(s[symbol])
    ensures !IsShaped(s)
  {
  }

  lemma BadCharacter(s: string, i: nat)
    requires i < |s| && !IsSymbol(s[i]) && s[i] != '='
    ensures !IsShaped(s)
  {
  }

  /** A pad too early, or one too many. */
  lemma TooManyPads(s: string, first: nat, i: nat, pads: nat, length: nat)
    requires first <= i < |s| <= length == ByteLength(s) && pads == i + 1 - first
    requires (forall k :: first <= k <= i ==> s[k] == '=') && (pads > 2 || i + 2 < length)
    ensures !IsShaped(s)
  {
    forall n: nat | n <= |s| ensures !WellFormed(s, n) {
      assert s[first] == '=' && !IsSymbol('=');
      assert WellFormed(s, n) ==> n <= first;
      if WellFormed(s, n) { ShapedIsAscii(s, n); }
    }
  }

  // ----- What normalising does -----

  lemma {:induction false} PadsAre(n: nat)
    ensures |Pads(n)| == n && forall i :: 0 <= i < n ==> Pads(n)[i] == '='
  {
    if n > 0 { PadsAre(n - 1); }
  }

  lemma {:induction false} PadsAdd(m: nat, n: nat)
    ensures Pads(m) + Pads(n) == Pads(m + n)
  {
    if n > 0 {
      PadsAdd(m, n - 1);
      assert Pads(m) + (Pads(n - 1) + "=") == (Pads(m) + Pads(n - 1)) + "=";
    } else {
      assert Pads(m) + Pads(0) == Pads(m);
    }
  }

  lemma GroupsAreSymbols(a: Byte, b: Byte, c: Byte)
    ensures AllSymbols(GroupOfOne(a)) && AllSymbols(GroupOfTwo(a, b)) && AllSymbols(GroupOfThree(a, b, c))
  {
    SymbolValue(a / 4);
    SymbolValue(a % 4 * 16);
    SymbolValue(a % 4 * 16 + b / 16);
    SymbolValue(b % 16 * 4);
    SymbolValue(b % 16 * 4 + c / 64);
    SymbolValue(c % 64);
  }

  /** How many symbols `n` bytes take. */
  function CoreSize(n: nat): nat { if n == 0 then 0 else if n <= 2 then n + 1 else 4 + CoreSize(n - 3) }

  lemma {:induction false} CoreHasSize(bytes: seq<Byte>)
    ensures |Core(bytes)| == CoreSize(|bytes|)
    decreases |bytes|
  {
    if |bytes| > 2 {
      CoreHasSize(bytes[3..]);
      assert |GroupOfThree(bytes[0], bytes[1], bytes[2])| == 4;
    }
  }

  lemma {:induction false} CoreSizeFills(n: nat)
    ensures (CoreSize(n) + (3 - n % 3) % 3) % 4 == 0 && (n > 0 ==> CoreSize(n) >= 2)
  {
    if n > 2 {
      CoreSizeFills(n - 3);
      assert n % 3 == (n - 3) % 3;
    }
  }

  lemma CoreLength(bytes: seq<Byte>)
    ensures (|Core(bytes)| + PadCount(bytes)) % 4 == 0 && (bytes != [] ==> |Core(bytes)| >= 2)
  {
    CoreHasSize(bytes);
    CoreSizeFills(|bytes|);
  }

  lemma {:induction false} CoreSymbols(bytes: seq<Byte>)
    ensures AllSymbols(Core(bytes))
    decreases |bytes|
  {
    if |bytes| == 1 {
      GroupsAreSymbols(bytes[0], 0, 0);
    } else if |bytes| == 2 {
      GroupsAreSymbols(bytes[0], bytes[1], 0);
    } else if |bytes| > 2 {
      GroupsAreSymbols(bytes[0], bytes[1], bytes[2]);
      CoreSymbols(bytes[3..]);
      SymbolsConcat(GroupOfThree(bytes[0], bytes[1], bytes[2]), Core(bytes[3..]));
    }
  }

  lemma SymbolsConcat(a: string, b: string)
    requires AllSymbols(a) && AllSymbols(b)
    ensures AllSymbols(a + b)
  {
  }

  lemma KeptAndMissing(symbols: nat, pads: nat, kept: nat)
    requires (symbols + pads) % 4 == 0 && kept <= pads <= 2
    ensures (symbols + kept) % 4 != 1 && kept + Missing(symbols + kept) == pads
  {
  }

  lemma ShapeNormalizes(core: string, pads: nat)
    requires core != "" && AllSymbols(core) && pads <= 2
    ensures var s := core + Pads(pads);
      s != "" && Trim(s) == s && ByteLength(s) == |s| == |core| + pads && IsShaped(s)
  {
    var s := core + Pads(pads);
    PadsAre(pads);
    assert forall i :: 0 <= i < |core| ==> s[i] == core[i];
    assert forall i :: |core| <= i < |s| ==> s[i] == Pads(pads)[i - |core|];
    assert WellFormed(s, |core|);
    ShapedIsAscii(s, |core|);
    NothingToTrim(s);
  }

  lemma NormalizedOk(s: string)
    requires s != "" && Trim(s) == s && ByteLength(s) == |s| && IsShaped(s) && |s| % 4 != 1
    ensures Normalized64(s) == Ok(s + Pads(Missing(|s|)))
  {
  }

  /** Symbols followed by at most two pads are accepted unless one character is left over. */
  lemma NormalizedShape(core: string, pads: nat)
    requires core != "" && AllSymbols(core) && pads <= 2 && (|core| + pads) % 4 != 1
    ensures Normalized64(core + Pads(pads)) == Ok(core + Pads(pads + Missing(|core| + pads)))
  {
    var s, more := core + Pads(pads), Missing(|core| + pads);
    assert Normalized64(s) == Ok(s + Pads(more)) by {
      ShapeNormalizes(core, pads);
      NormalizedOk(s);
    }
    PadsAdd(pads, more);
    assert s + Pads(more) == core + (Pads(pads) + Pads(more));
  }

  /** Whatever padding of an encoding was kept, normalising gives the encoding back, and that
      decodes to the bytes. */
  lemma NormalizeRestores(bytes: seq<Byte>, kept: nat)
    requires bytes != [] && kept <= PadCount(bytes)
    ensures Normalized64(Core(bytes) + Pads(kept)) == Ok(Encode(bytes)) && Decode(Encode(bytes)) == Some(bytes)
  {
    assert Normalized64(Core(bytes) + Pads(kept)) == Ok(Core(bytes) + Pads(PadCount(bytes))) by {
      CoreLength(bytes);
      CoreSymbols(bytes);
      CoreNormalizes(Core(bytes), PadCount(bytes), kept);
    }
    EncodeIsPaddedCore(bytes);
    assert Decode(Encode(bytes)) == Some(bytes) by { DecodeEncode(bytes); }
  }

  lemma CoreNormalizes(core: string, pads: nat, kept: nat)
    requires core != "" && AllSymbols(core) && (|core| + pads) % 4 == 0 && kept <= pads <= 2
    ensures Normalized64(core + Pads(kept)) == Ok(core + Pads(pads))
  {
    KeptAndMissing(|core|, pads, kept);
    NormalizedShape(core, kept);
  }

  /** What is accepted is only ever padded: to a multiple of four, with fewer than four pads. */
  lemma NormalizeExtends(s: string)
    requires Normalized64(s).Ok?
    ensures s <= Normalized64(s).value && |Normalized64(s).value| % 4 == 0 && |Normalized64(s).value| < |s| + 4
  {
    PadsAre(Missing(|s|));
  }

  /** The last symbol of an incomplete group carries no bit that belongs to no byte. */
  predicate NothingLeftOver(core: string)
    requires AllSymbols(core)
  {
    && (|core| % 4 == 2 ==> ValueOf(core[|core| - 1]) % 16 == 0)
    && (|core| % 4 == 3 ==> ValueOf(core[|core| - 1]) % 4 == 0)
  }

  lemma LastShape(core: string, pads: nat)
    requires AllSymbols(core) && |core| < 4 && pads <= 4 && (|core| + pads) % 4 == 0
    ensures Decode(core + Pads(pads)).Some? <==> pads <= 2 && NothingLeftOver(core)
  {
    SomePads();
    var s := core + Pads(pads);
    if |core| == 3 {
      assert s == [core[0], core[1], core[2], '='];
      LastOfTwo(core[0], core[1], core[2]);
    } else if |core| == 2 {
      assert s == [core[0], core[1], '=', '='];
      LastOfOne(core[0], core[1]);
    } else if |core| == 1 {
      assert s == [core[0], '=', '=', '='];
    } else if pads == 0 {
      assert s == "";
    } else {
      assert s == "====";
    }
  }

  lemma {:induction false} DecodeShape(core: string, pads: nat)
    requires AllSymbols(core) && pads <= 4 && (|core| + pads) % 4 == 0
    ensures Decode(core + Pads(pads)).Some? <==> pads <= 2 && NothingLeftOver(core)
    decreases |core|
  {
    if |core| < 4 {
      LastShape(core, pads);
    } else {
      WithoutGroup(core, pads);
      DecodeShape(core[4..], pads);
      assert (core + Pads(pads))[4..] == core[4..] + Pads(pads);
      GroupFirst(core, Pads(pads));
    }
  }

  lemma WithoutGroup(core: string, pads: nat)
    requires AllSymbols(core) && |core| >= 4 && (|core| + pads) % 4 == 0
    ensures AllSymbols(core[4..]) && (|core[4..]| + pads) % 4 == 0
    ensures NothingLeftOver(core) <==> NothingLeftOver(core[4..])
  {
    var rest := core[4..];
    FourLess(|core|);
    FourLess(|core| + pads);
    assert |rest| > 0 ==> core[|core| - 1] == rest[|rest| - 1];
  }

  lemma FourLess(n: nat)
    requires 4 <= n
    ensures (n - 4) % 4 == n % 4
  {
  }

  /** A whole group of symbols never stands in the way. */
  lemma GroupFirst(core: string, pads: string)
    requires AllSymbols(core) && |core| >= 4
    ensures Decode(core + pads).Some? <==> Decode((core + pads)[4..]).Some?
  {
    var s := core + pads;
    assert s[0] == core[0] && s[1] == core[1] && s[2] == core[2] && s[3] == core[3];
  }

  /** Exactly when an accepted text decodes: when it carries no padding, or its symbols leave two
      or three over a multiple of four, and no bits are left over. `T=` and `TR` are accepted, and
      do not. */
  lemma AcceptedDecodesExactly(s: string, symbols: nat)
    requires Normalized64(s).Ok? && symbols <= |s| && WellFormed(s, symbols)
    ensures AllSymbols(s[..symbols])
    ensures Decode(Normalized64(s).value).Some? <==> (symbols == |s| || symbols % 4 >= 2) && NothingLeftOver(s[..symbols])
  {
    AcceptedIs(s, symbols);
    PaddedDecodes(s[..symbols], |s| - symbols);
  }

  lemma AcceptedIs(s: string, symbols: nat)
    requires Normalized64(s).Ok? && symbols <= |s| && WellFormed(s, symbols)
    ensures AllSymbols(s[..symbols]) && |s| % 4 != 1 && s == s[..symbols] + Pads(|s| - symbols)
    ensures Normalized64(s).value == s[..symbols] + Pads(|s| - symbols) + Pads(Missing(|s|))
  {
    ShapedIsAscii(s, symbols);
    PadsAre(|s| - symbols);
  }

  lemma PaddedDecodes(core: string, pads: nat)
    requires AllSymbols(core) && pads <= 2 && (|core| + pads) % 4 != 1
    ensures Decode(core + Pads(pads) + Pads(Missing(|core| + pads))).Some? <==> (pads == 0 || |core| % 4 >= 2) && NothingLeftOver(core)
  {
    var more := Missing(|core| + pads);
    assert core + Pads(pads) + Pads(more) == core + Pads(pads + more) by {
      PadsAdd(pads, more);
      assert (core + Pads(pads)) + Pads(more) == core + (Pads(pads) + Pads(more));
    }
    PaddedDecodesTotal(core, pads, pads + more);
  }

  lemma PaddedDecodesTotal(core: string, pads: nat, total: nat)
    requires AllSymbols(core) && pads <= 2 && (|core| + pads) % 4 != 1 && total == pads + Missing(|core| + pads)
    ensures Decode(core + Pads(total)).Some? <==> (pads == 0 || |core| % 4 >= 2) && NothingLeftOver(core)
  {
    TotalPads(|core|, pads);
    DecodeShape(core, total);
  }

  lemma TotalPads(symbols: nat, pads: nat)
    requires pads <= 2 && (symbols + pads) % 4 != 1
    ensures var total := pads + Missing(symbols + pads);
      total <= 4 && (symbols + total) % 4 == 0 && (total <= 2 <==> pads == 0 || symbols % 4 >= 2)
  {
  }

  lemma LonePadDoesNotDecode()
    ensures Normalized64("T=") == Ok("T===") && Decode("T===") == None
  {
    SomePads();
    NormalizedShape("T", 1);
    assert "T" + Pads(1) == "T=" && "T" + Pads(3) == "T===";
  }
}
