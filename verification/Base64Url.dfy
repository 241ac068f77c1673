/**
 * Base64 (section 4 of RFC 4648), as strict decoding reads it, and its URL-safe form
 * without padding (section 5), which is made in place in a C string.
 */
module Base64Url {
  import opened Text

  type Sextet = v: int | 0 <= v < 64

  function Symbol(v: Sextet): char {
    if v < 26 then 'A' + v as char
    else if v < 52 then 'a' + (v - 26) as char
    else if v < 62 then '0' + (v - 52) as char
    else if v == 62 then '+' else '/'
  }

  predicate IsSymbol(c: char) {
    'A' <= c <= 'Z' || 'a' <= c <= 'z' || '0' <= c <= '9' || c == '+' || c == '/'
  }

  function Value(c: char): (v: Sextet)
    requires IsSymbol(c)
    ensures Symbol(v) == c
  {
    if 'A' <= c <= 'Z' then (c - 'A') as int
    else if 'a' <= c <= 'z' then (c - 'a') as int + 26
    else if '0' <= c <= '9' then (c - '0') as int + 52
    else if c == '+' then 62 else 63
  }

  lemma ValueOfSymbol(v: Sextet)
    ensures IsSymbol(Symbol(v)) && Value(Symbol(v)) == v
  {
  }

  // -------------------------------------------------------------------------
  // Base64
  // -------------------------------------------------------------------------

  function Pads(n: nat): (r: string)
    ensures |r| == n && forall i :: 0 <= i < n ==> r[i] == '='
  {
    seq(n, _ => '=')
  }

  /** How many padding characters an encoding ends in. */
  function PadCount(b: Bytes): nat {
    (3 - |b| % 3) % 3
  }

  /** The symbols for three bytes, or for fewer at the end. */
  function Group(b: Bytes): string
    requires 0 < |b| <= 3
  {
    var x := b[0];
    if |b| == 1 then [Symbol(x / 4), Symbol(x % 4 * 16)]
    else
      var y := b[1];
      if |b| == 2 then [Symbol(x / 4), Symbol(x % 4 * 16 + y / 16), Symbol(y % 16 * 4)]
      else [Symbol(x / 4), Symbol(x % 4 * 16 + y / 16), Symbol(y % 16 * 4 + b[2] / 64), Symbol(b[2] % 64)]
  }

  /** The symbols of an encoding, without padding. */
  function Symbols(b: Bytes): string {
    if |b| == 0 then "" else if |b| < 3 then Group(b) else Group(b[..3]) + Symbols(b[3..])
  }

  /** What `php_base64_encode` returns. */
  function Encode(b: Bytes): string {
    Symbols(b) + Pads(PadCount(b))
  }

  /** The bytes of four symbols, or of two or three at the end; the bits left over are dropped. */
  function Ungroup(s: string): (b: Bytes)
    requires 2 <= |s| <= 4 && forall i :: 0 <= i < |s| ==> IsSymbol(s[i])
    ensures |b| == |s| - 1
  {
    var v, w := Value(s[0]), Value(s[1]);
    if |s| == 2 then [v * 4 + w / 16]
    else
      var x := Value(s[2]);
      if |s| == 3 then [v * 4 + w / 16, w % 16 * 16 + x / 4]
      else [v * 4 + w / 16, w % 16 * 16 + x / 4, x % 4 * 64 + Value(s[3])]
  }

  predicate AllSymbols(s: string) {
    forall i :: 0 <= i < |s| ==> IsSymbol(s[i])
  }

  function BytesOf(s: string): Bytes
    requires AllSymbols(s) && |s| % 4 != 1
  {
    if |s| == 0 then [] else if |s| < 4 then Ungroup(s) else Ungroup(s[..4]) + BytesOf(s[4..])
  }

  /** The characters before the first `=`. */
  function DataOf(s: string): (r: string)
    ensures r <= s && '=' !in r
    ensures |r| < |s| ==> s[|r|] == '='
  {
    if s == "" || s[0] == '=' then "" else [s[0]] + DataOf(s[1..])
  }

  predicate IsSpace(c: char) {
    c == ' ' || c == '\t' || c == '\n' || c == '\r'
  }

  /** White space is skipped wherever it stands. */
  function Significant(s: string): string {
    if s == "" then "" else (if IsSpace(s[0]) then "" else [s[0]]) + Significant(s[1..])
  }

  /**
   * Strict decoding, as `php_base64_decode_ex` does it: no other characters, padding only at
   * the end, no lone symbol, and padding, when there is any, that completes the last group.
   */
  function Decode(s: string): Option<Bytes> {
    var t := Significant(s);
    var data := DataOf(t);
    var pads := |t| - |data|;
    if !AllSymbols(data) || t[|data|..] != Pads(pads) then None
    else if |data| % 4 == 1 then None
    else if pads > 0 && (pads > 2 || |t| % 4 != 0) then None
    else Some(BytesOf(data))
  }

  // -------------------------------------------------------------------------
  // The URL-safe form
  // -------------------------------------------------------------------------

  function ToUrl(c: char): char {
    if c == '+' then '-' else if c == '/' then '_' else c
  }

  function FromUrl(c: char): char {
    if c == '-' then '+' else if c == '_' then '/' else c
  }

  /** What compaction makes of one character. */
  function UrlPiece(c: char): (r: string)
    ensures |r| <= 1 && ('\0' in r ==> c == '\0')
  {
    if c == '=' then "" else [ToUrl(c)]
  }

  /** Compaction: the two unsafe symbols are renamed, the padding is dropped. */
  function Compact(s: string): (r: string)
    ensures |r| <= |s|
    ensures '\0' !in s ==> '\0' !in r
  {
    if s == "" then "" else UrlPiece(s[0]) + Compact(s[1..])
  }

  function Restore(s: string): (r: string)
    ensures |r| == |s| && forall i :: 0 <= i < |s| ==> r[i] == FromUrl(s[i])
  {
    seq(|s|, i requires 0 <= i < |s| => FromUrl(s[i]))
  }

  /** The padding that decoding adds: up to three characters. */
  function MissingPads(length: nat): nat {
    (4 - length % 4) % 4
  }

  function UrlEncode(b: Bytes): string {
    Compact(Encode(b))
  }

  function UrlDecode(s: string): Option<Bytes> {
    Decode(Restore(s) + Pads(MissingPads(|s|)))
  }

  /** The length of the string in a buffer. */
  method Strlen(buffer: array<char>) returns (n: nat)
    requires '\0' in buffer[..]
    ensures n < buffer.Length && buffer[n] == '\0' && buffer[..n] == CString(buffer[..])
  {
    n := 0;
    while buffer[n] != '\0'
      invariant n < buffer.Length && '\0' !in buffer[..n] && '\0' in buffer[n..]
      decreases buffer.Length - n
    {
      assert buffer[n..] == [buffer[n]] + buffer[n + 1..];
      n := n + 1;
    }
    CStringIs(buffer[..], buffer[..n]);
  }

  lemma {:induction false} CompactAppends(a: string, c: char)
    ensures Compact(a + [c]) == Compact(a) + UrlPiece(c)
  {
    hide UrlPiece;
    if a == "" {
      assert [c] == a + [c] && [c][1..] == "";
      assert Compact([c]) == UrlPiece(c) + "";
    } else {
      assert (a + [c])[1..] == a[1..] + [c];
      CompactAppends(a[1..], c);
    }
  }

  /** One character at the writing index, which moves on behind what was written. */
  method CompactChar(str: array<char>, t: nat, c: char) returns (next: nat)
    requires t < str.Length
    modifies str
    ensures t <= next <= t + 1 && str[..next] == old(str[..t]) + UrlPiece(c)
    ensures forall k :: t < k < str.Length ==> str[k] == old(str[k])
  {
    next := t;
    match c {
      case '+' =>
        str[t] := '-';
        next := t + 1;
      case '/' =>
        str[t] := '_';
        next := t + 1;
      case '=' =>
      case _ =>
        str[t] := c;
        next := t + 1;
    }
  }

  /** Compaction within the buffer, with a reading index that runs ahead of the writing one. */
  method CompactInPlace(str: array<char>)
    requires '\0' in str[..]
    modifies str
    ensures '\0' in str[..]
    ensures CString(str[..]) == Compact(CString(old(str[..])))
    ensures forall k :: |CString(old(str[..]))| < k < str.Length ==> str[k] == old(str[k])
  {
    assert Compact("") == "";
    hide CString, Compact, UrlPiece;
    var len := Strlen(str);
    ghost var was := str[..];
    var i, t := 0, 0;
    while i < len
      invariant t <= i <= len < str.Length
      invariant str[..t] == Compact(was[..i])
      invariant forall k :: i <= k < str.Length ==> str[k] == was[k]
    {
      var c := str[i];
      CompactAppends(was[..i], c);
      assert was[..i + 1] == was[..i] + [c];
      t := CompactChar(str, t, c);
      i := i + 1;
    }
    ghost var compacted := str[..t];
    str[t] := '\0';
    assert str[..t] == compacted && str[..][t] == '\0';
    CStringIs(str[..], compacted);
  }

  /** The NUL-terminated copy of a string. */
  method Strdup(s: string) returns (copy: array<char>)
    ensures fresh(copy) && copy.Length == |s| + 1 && copy[..] == s + "\0"
  {
    copy := new char[|s| + 1];
    forall i | 0 <= i < |s| {
      copy[i] := s[i];
    }
    copy[|s|] := '\0';
  }

  /** The encoding of the library in a copy, made URL-safe in place. */
  method EncodeForUrl(input: Bytes) returns (result: string)
    ensures result == UrlEncode(input)
  {
    var encoded := Encode(input);
    EncodeHasNoNul(input);
    var copy := Strdup(encoded);
    CStringIs(copy[..], encoded);
    CompactInPlace(copy);
    var n := Strlen(copy);
    result := copy[..n];
  }

  /** Back to standard symbols and padding in a buffer of four characters more than the text. */
  method DecodeFromUrl(src: string) returns (result: Option<Bytes>)
    requires '\0' !in src
    ensures result == UrlDecode(src)
  {
    var len := |src|;
    var buffer := new char[len + 4];
    var i := 0;
    while i < len
      invariant 0 <= i <= len
      invariant forall k :: 0 <= k < i ==> buffer[k] == FromUrl(src[k])
    {
      match src[i] {
        case '-' => buffer[i] := '+';
        case '_' => buffer[i] := '/';
        case _ => buffer[i] := src[i];
      }
      i := i + 1;
    }
    var z := 4 - i % 4;
    if z < 4 {
      while z > 0
        invariant 0 <= z < 4 && len <= i && i + z == len + MissingPads(len) <= len + 3
        invariant forall k :: 0 <= k < len ==> buffer[k] == FromUrl(src[k])
        invariant forall k :: len <= k < i ==> buffer[k] == '='
      {
        z := z - 1;
        buffer[i] := '=';
        i := i + 1;
      }
    }
    buffer[i] := '\0';
    assert buffer[..i] == Restore(src) + Pads(MissingPads(len));
    CStringIs(buffer[..], buffer[..i]);
    var n := Strlen(buffer);
    result := Decode(buffer[..n]);
  }

  // -------------------------------------------------------------------------
  // Decoding undoes encoding
  // -------------------------------------------------------------------------

  lemma GroupOfOne(b: Bytes)
    requires |b| == 1
    ensures |Group(b)| == 2 && AllSymbols(Group(b)) && Ungroup(Group(b)) == b
  {
    var x: int := b[0];
    ValueOfSymbol(x / 4);
    ValueOfSymbol(x % 4 * 16);
    hide Symbol, Value, IsSymbol;
    assert x / 4 * 4 + x % 4 * 16 / 16 == x;
  }

  lemma GroupOfTwo(b: Bytes)
    requires |b| == 2
    ensures |Group(b)| == 3 && AllSymbols(Group(b)) && Ungroup(Group(b)) == b
  {
    var x: int, y: int := b[0], b[1];
    ValueOfSymbol(x / 4);
    ValueOfSymbol(x % 4 * 16 + y / 16);
    ValueOfSymbol(y % 16 * 4);
    hide Symbol, Value, IsSymbol;
    FirstByte(x, y);
    assert (x % 4 * 16 + y / 16) % 16 * 16 + y % 16 * 4 / 4 == y;
  }

  lemma FirstByte(x: Byte, y: Byte)
    ensures x / 4 * 4 + (x % 4 * 16 + y / 16) / 16 == x
  {
  }

  lemma SecondByte(x: Byte, y: Byte, z: Byte)
    ensures (x % 4 * 16 + y / 16) % 16 * 16 + (y % 16 * 4 + z / 64) / 4 == y
  {
  }

  lemma ThirdByte(y: Byte, z: Byte)
    ensures (y % 16 * 4 + z / 64) % 4 * 64 + z % 64 == z
  {
  }

  lemma UngroupIs(s: string, x: Byte, y: Byte, z: Byte)
    requires |s| == 4 && AllSymbols(s)
    requires Value(s[0]) * 4 + Value(s[1]) / 16 == x
    requires Value(s[1]) % 16 * 16 + Value(s[2]) / 4 == y
    requires Value(s[2]) % 4 * 64 + Value(s[3]) == z
    ensures Ungroup(s) == [x, y, z]
  {
    hide Value, IsSymbol;
  }

  lemma GroupOfThree(b: Bytes)
    requires |b| == 3
    ensures |Group(b)| == 4 && AllSymbols(Group(b)) && Ungroup(Group(b)) == b
  {
    var x, y, z := b[0], b[1], b[2];
    ValueOfSymbol(x / 4);
    ValueOfSymbol(x % 4 * 16 + y / 16);
    ValueOfSymbol(y % 16 * 4 + z / 64);
    ValueOfSymbol(z % 64);
    hide Symbol, Value, IsSymbol, Ungroup;
    FirstByte(x, y);
    SecondByte(x, y, z);
    ThirdByte(y, z);
    UngroupIs(Group(b), x, y, z);
  }

  lemma GroupRoundTrip(b: Bytes)
    requires 0 < |b| <= 3
    ensures |Group(b)| == |b| + 1 && AllSymbols(Group(b)) && Ungroup(Group(b)) == b
  {
    hide Group, Ungroup, AllSymbols;
    if |b| == 1 {
      GroupOfOne(b);
    } else if |b| == 2 {
      GroupOfTwo(b);
    } else {
      GroupOfThree(b);
    }
  }

  /** Another whole group changes neither the padding that is missing nor that which is made. */
  lemma WholeGroupNeedsNoPads(length: nat, b: Bytes)
    requires |b| >= 3
    ensures MissingPads(4 + length) == MissingPads(length) && PadCount(b) == PadCount(b[3..])
    ensures (4 + length) % 4 == length % 4
  {
  }

  lemma BytesOfGroupThen(group: string, rest: string)
    requires |group| == 4 && AllSymbols(group) && AllSymbols(rest) && |rest| % 4 != 1
    ensures AllSymbols(group + rest) && |group + rest| % 4 != 1
    ensures BytesOf(group + rest) == Ungroup(group) + BytesOf(rest)
  {
    hide Ungroup, IsSymbol;
    var s := group + rest;
    assert s[..4] == group && s[4..] == rest;
  }

  /** Symbols are symbols, their number leaves just the missing padding, and they decode. */
  lemma {:induction false} SymbolsRoundTrip(b: Bytes)
    ensures AllSymbols(Symbols(b)) && |Symbols(b)| % 4 != 1
    ensures MissingPads(|Symbols(b)|) == PadCount(b) <= 2
    ensures BytesOf(Symbols(b)) == b
  {
    hide Group, Ungroup, Symbol, IsSymbol, Value;
    if |b| == 0 {
    } else if |b| < 3 {
      GroupRoundTrip(b);
    } else {
      hide AllSymbols, MissingPads, PadCount, BytesOf;
      GroupRoundTrip(b[..3]);
      SymbolsRoundTrip(b[3..]);
      WholeGroupNeedsNoPads(|Symbols(b[3..])|, b);
      BytesOfGroupThen(Group(b[..3]), Symbols(b[3..]));
      assert b == b[..3] + b[3..];
    }
  }

  lemma EncodeHasNoNul(b: Bytes)
    ensures '\0' !in Encode(b)
  {
    SymbolsRoundTrip(b);
  }

  lemma {:induction false} CompactOfSymbols(s: string, n: nat)
    requires AllSymbols(s)
    ensures |Compact(s + Pads(n))| == |s|
    ensures forall i :: 0 <= i < |s| ==> Compact(s + Pads(n))[i] == ToUrl(s[i])
  {
    if s == "" {
      assert s + Pads(n) == Pads(n);
      CompactOfPads(n);
    } else {
      assert (s + Pads(n))[1..] == s[1..] + Pads(n);
      CompactOfSymbols(s[1..], n);
    }
  }

  lemma {:induction false} CompactOfPads(n: nat)
    ensures Compact(Pads(n)) == ""
  {
    if n > 0 {
      assert Pads(n)[1..] == Pads(n - 1);
      CompactOfPads(n - 1);
    }
  }

  /**
   * The padding that decoding adds is the padding that encoding removed, and the renamed
   * symbols get their names back: what is decoded is exactly what was encoded.
   */
  lemma RestoredIsEncoded(b: Bytes)
    ensures Restore(UrlEncode(b)) + Pads(MissingPads(|UrlEncode(b)|)) == Encode(b)
    ensures |UrlEncode(b)| + PadCount(b) == |Encode(b)|
  {
    SymbolsRoundTrip(b);
    var s, u := Symbols(b), UrlEncode(b);
    CompactOfSymbols(s, PadCount(b));
    forall i | 0 <= i < |s|
      ensures FromUrl(u[i]) == s[i]
    {
      assert IsSymbol(s[i]);
    }
    hide IsSymbol, Symbols, Compact, PadCount, MissingPads;
    assert Restore(u) == s;
  }

  lemma {:induction false} NothingToSkip(s: string)
    requires forall i :: 0 <= i < |s| ==> !IsSpace(s[i])
    ensures Significant(s) == s
  {
    if s != "" {
      NothingToSkip(s[1..]);
    }
  }

  lemma {:induction false} DataOfPadded(s: string, n: nat)
    requires '=' !in s
    ensures DataOf(s + Pads(n)) == s
  {
    if s == "" {
      assert s + Pads(n) == Pads(n);
    } else {
      assert (s + Pads(n))[1..] == s[1..] + Pads(n);
      DataOfPadded(s[1..], n);
    }
  }

  lemma SymbolsAreData(s: string)
    requires AllSymbols(s)
    ensures '=' !in s && forall i :: 0 <= i < |s| ==> !IsSpace(s[i])
  {
    forall i | 0 <= i < |s| ensures s[i] != '=' && !IsSpace(s[i]) {
      assert IsSymbol(s[i]);
    }
  }

  lemma DecodeSplit(t: string, data: string, pads: string)
    requires t == data + pads && pads == Pads(|pads|) && |pads| <= 2 && |t| % 4 == 0
    requires Significant(t) == t && DataOf(t) == data && AllSymbols(data) && |data| % 4 != 1
    ensures Decode(t) == Some(BytesOf(data))
  {
    hide AllSymbols, Pads, Significant, DataOf, BytesOf;
    assert t[|data|..] == pads;
  }

  lemma SymbolsThenPads(s: string, n: nat)
    requires AllSymbols(s)
    ensures Significant(s + Pads(n)) == s + Pads(n) && DataOf(s + Pads(n)) == s
  {
    SymbolsAreData(s);
    NothingToSkip(s + Pads(n));
    DataOfPadded(s, n);
  }

  /** Symbols with the padding they miss decode to their bytes. */
  lemma DecodePadded(s: string)
    requires AllSymbols(s) && |s| % 4 != 1
    ensures Decode(s + Pads(MissingPads(|s|))) == Some(BytesOf(s))
  {
    hide *;
    var n := MissingPads(|s|);
    WholeGroups(|s|);
    SymbolsThenPads(s, n);
    DecodeSplit(s + Pads(n), s, Pads(n));
  }

  lemma WholeGroups(length: nat)
    requires length % 4 != 1
    ensures MissingPads(length) <= 2 && (length + MissingPads(length)) % 4 == 0
  {
  }

  lemma Base64RoundTrip(b: Bytes)
    ensures Decode(Encode(b)) == Some(b)
  {
    SymbolsRoundTrip(b);
    DecodePadded(Symbols(b));
  }

  /** For every byte string, decoding the URL-safe form gives the byte string back. */
  lemma UrlRoundTrip(b: Bytes)
    ensures UrlDecode(UrlEncode(b)) == Some(b)
  {
    RestoredIsEncoded(b);
    Base64RoundTrip(b);
  }

  predicate IsUrlSymbol(c: char) {
    'A' <= c <= 'Z' || 'a' <= c <= 'z' || '0' <= c <= '9' || c == '-' || c == '_'
  }

  /** The URL-safe form is made of URL-safe symbols only: no padding, no dot, no NUL. */
  lemma UrlEncodeIsSafe(b: Bytes)
    ensures forall i :: 0 <= i < |UrlEncode(b)| ==> IsUrlSymbol(UrlEncode(b)[i])
    ensures |UrlEncode(b)| == (4 * |b| + 2) / 3
  {
    SymbolsRoundTrip(b);
    CompactOfSymbols(Symbols(b), PadCount(b));
    SymbolCount(b);
  }

  lemma {:induction false} SymbolCount(b: Bytes)
    ensures |Symbols(b)| == (4 * |b| + 2) / 3
  {
    if |b| >= 3 {
      SymbolCount(b[3..]);
    }
  }

  // -------------------------------------------------------------------------
  // Which strings are encodings
  // -------------------------------------------------------------------------

  /** The bits of the last symbol that belong to no byte are zero. */
  predicate NoSpareBits(s: string)
    requires AllSymbols(s) && |s| % 4 != 1
  {
    && (|s| % 4 == 2 ==> Value(s[|s| - 1]) % 16 == 0)
    && (|s| % 4 == 3 ==> Value(s[|s| - 1]) % 4 == 0)
  }

  lemma UngroupTwo(s: string)
    requires |s| == 2 && AllSymbols(s)
    ensures Group(Ungroup(s)) == [s[0], Symbol(Value(s[1]) / 16 * 16)]
  {
    var v: int, w: int := Value(s[0]), Value(s[1]);
    assert (v * 4 + w / 16) / 4 == v && (v * 4 + w / 16) % 4 * 16 == w / 16 * 16;
    hide Symbol, Value, IsSymbol;
  }

  lemma UngroupThree(s: string)
    requires |s| == 3 && AllSymbols(s)
    ensures Group(Ungroup(s)) == [s[0], s[1], Symbol(Value(s[2]) / 4 * 4)]
  {
    var v: int, w: int, x: int := Value(s[0]), Value(s[1]), Value(s[2]);
    assert (v * 4 + w / 16) / 4 == v && (v * 4 + w / 16) % 4 * 16 + (w % 16 * 16 + x / 4) / 16 == w;
    assert (w % 16 * 16 + x / 4) % 16 * 4 == x / 4 * 4;
    hide Symbol, Value, IsSymbol;
  }

  lemma FirstSymbols(v: Sextet, w: Sextet, x: Sextet)
    ensures (v * 4 + w / 16) / 4 == v
    ensures (v * 4 + w / 16) % 4 * 16 + (w % 16 * 16 + x / 4) / 16 == w
  {
  }

  lemma ThirdSymbol(w: Sextet, x: Sextet, y: Sextet)
    ensures (w % 16 * 16 + x / 4) % 16 * 4 + (x % 4 * 64 + y) / 64 == x
  {
    assert (w % 16 * 16 + x / 4) % 16 == x / 4;
    LastSymbol(x, y);
  }

  lemma LastSymbol(x: Sextet, y: Sextet)
    ensures (x % 4 * 64 + y) / 64 == x % 4 && (x % 4 * 64 + y) % 64 == y
  {
  }

  lemma GroupIs(b: Bytes, v: Sextet, w: Sextet, x: Sextet, y: Sextet)
    requires |b| == 3
    requires b[0] / 4 == v && b[0] % 4 * 16 + b[1] / 16 == w && b[1] % 16 * 4 + b[2] / 64 == x && b[2] % 64 == y
    ensures Group(b) == [Symbol(v), Symbol(w), Symbol(x), Symbol(y)]
  {
    hide Symbol;
  }

  lemma UngroupFour(s: string)
    requires |s| == 4 && AllSymbols(s)
    ensures Group(Ungroup(s)) == s
  {
    var v, w, x, y := Value(s[0]), Value(s[1]), Value(s[2]), Value(s[3]);
    hide Symbol, Value, IsSymbol, Group;
    FirstSymbols(v, w, x);
    ThirdSymbol(w, x, y);
    LastSymbol(x, y);
    GroupIs(Ungroup(s), v, w, x, y);
  }

  lemma UngroupRoundTripsIff(s: string)
    requires 2 <= |s| <= 4 && AllSymbols(s)
    ensures |Group(Ungroup(s))| == |s|
    ensures Group(Ungroup(s)) == s <==> |s| == 4 || NoSpareBits(s)
  {
    hide Group, Ungroup;
    if |s| == 2 {
      UngroupTwo(s);
      ValueOfSymbol(Value(s[1]) / 16 * 16);
    } else if |s| == 3 {
      UngroupThree(s);
      ValueOfSymbol(Value(s[2]) / 4 * 4);
    } else {
      UngroupFour(s);
    }
  }

  lemma TailSpareBits(s: string)
    requires AllSymbols(s) && |s| % 4 != 1 && |s| >= 4
    ensures |s[4..]| % 4 == |s| % 4 && AllSymbols(s[4..])
    ensures NoSpareBits(s) <==> NoSpareBits(s[4..])
  {
    hide Value, IsSymbol;
  }

  /** The first four symbols and the rest are decoded, and encoded again, on their own. */
  lemma SymbolsOfFirstGroup(s: string)
    requires AllSymbols(s) && |s| % 4 != 1 && |s| >= 4
    ensures |s[4..]| % 4 != 1 && AllSymbols(s[4..])
    ensures Symbols(BytesOf(s)) == s[..4] + Symbols(BytesOf(s[4..]))
  {
    var b, first, rest := BytesOf(s), Ungroup(s[..4]), BytesOf(s[4..]);
    UngroupFour(s[..4]);
    hide Group, Ungroup, Symbol, IsSymbol, Value;
    assert b == first + rest;
    assert b[..3] == first && b[3..] == rest;
  }

  lemma {:induction false} SymbolsOfBytesIff(s: string)
    requires AllSymbols(s) && |s| % 4 != 1
    ensures Symbols(BytesOf(s)) == s <==> NoSpareBits(s)
  {
    hide Group, Ungroup, Symbol, IsSymbol, Value;
    if |s| == 0 {
    } else if |s| < 4 {
      UngroupRoundTripsIff(s);
    } else {
      TailSpareBits(s);
      SymbolsOfFirstGroup(s);
      hide NoSpareBits, Symbols, BytesOf, AllSymbols;
      SymbolsOfBytesIff(s[4..]);
      SameTail(s, Symbols(BytesOf(s[4..])));
    }
  }

  lemma SameTail(s: string, tail: string)
    requires |s| >= 4
    ensures s[..4] + tail == s <==> tail == s[4..]
  {
    if s[..4] + tail == s {
      assert (s[..4] + tail)[4..] == tail;
    } else {
      assert s == s[..4] + s[4..];
    }
  }

  /** URL-safe symbols, in a number that a byte string can have, with no spare bits. */
  predicate Canonical(s: string) {
    && (forall i :: 0 <= i < |s| ==> IsUrlSymbol(s[i]))
    && |s| % 4 != 1
    && NoSpareBits(Restore(s))
  }

  /** Compaction undoes restoration on URL-safe symbols. */
  lemma CompactRestored(s: string, n: nat)
    requires forall i :: 0 <= i < |s| ==> IsUrlSymbol(s[i])
    ensures Compact(Restore(s) + Pads(n)) == s
  {
    CompactOfSymbols(Restore(s), n);
  }

  /**
   * The strings that encoding can produce, and for which decoding and encoding again gives the
   * string back, are exactly the canonical ones.
   */
  lemma ReencodesIff(s: string)
    ensures UrlDecode(s).Some? && UrlEncode(UrlDecode(s).value) == s <==> Canonical(s)
  {
    if Canonical(s) {
      var t := Restore(s);
      DecodePadded(t);
      SymbolsOfBytesIff(t);
      CompactRestored(s, PadCount(BytesOf(t)));
    }
    if UrlDecode(s).Some? && UrlEncode(UrlDecode(s).value) == s {
      EncodingIsCanonical(UrlDecode(s).value);
    }
  }

  lemma EncodingIsCanonical(b: Bytes)
    ensures Canonical(UrlEncode(b))
  {
    UrlEncodeIsSafe(b);
    SymbolsRoundTrip(b);
    CompactOfSymbols(Symbols(b), PadCount(b));
    assert Restore(UrlEncode(b)) == Symbols(b);
    SymbolsOfBytesIff(Symbols(b));
  }
}
