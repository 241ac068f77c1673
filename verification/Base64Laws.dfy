/**
 * What the URL-safe form of base64 says (section 5 of RFC 4648): its alphabet, the number that
 * its symbols write, and what strict decoding makes of any other text.
 */
module Base64Laws {
  import opened Text
  import opened Base64Url

  const UPPER := "ABCDEFGHIJKLMNOPQRSTUVWXYZ"
  const LOWER := "abcdefghijklmnopqrstuvwxyz"
  const ALPHABET := UPPER + LOWER + "0123456789-_"

  lemma LetterIs(v: nat)
    requires v < 26
    ensures |UPPER| == |LOWER| == 26 && UPPER[v] == 'A' + v as char && LOWER[v] == 'a' + v as char
  {
  }

  lemma LaterSymbolIs(v: nat)
    requires v < 12
    ensures "0123456789-_"[v] == if v < 10 then '0' + v as char else if v == 10 then '-' else '_'
  {
  }

  /** The symbols are those of the standard, in its order. */
  lemma AlphabetIs(v: Sextet)
    ensures |ALPHABET| == 64
    ensures ToUrl(Symbol(v)) == ALPHABET[v]
    ensures IsSymbol(FromUrl(ALPHABET[v])) && Value(FromUrl(ALPHABET[v])) == v
  {
    LetterIs(if v < 26 then v else if v < 52 then v - 26 else 0);
    LaterSymbolIs(if v < 52 then 0 else v - 52);
    if v < 26 {
      assert ALPHABET[v] == UPPER[v];
    } else if v < 52 {
      assert ALPHABET[v] == LOWER[v - 26];
    } else {
      assert ALPHABET[v] == "0123456789-_"[v - 52];
    }
    ValueOfSymbol(v);
    assert FromUrl(ALPHABET[v]) == Symbol(v);
  }

  // ------------------------------------------------------------- the number

  /** The number that octets write, the first one weighing most. */
  function Octets(b: Bytes): nat {
    if b == [] then 0 else 256 * Octets(b[..|b| - 1]) + b[|b| - 1]
  }

  /** The number that digits of base 64 write. */
  function Digits(vs: seq<Sextet>): nat {
    if vs == [] then 0 else 64 * Digits(vs[..|vs| - 1]) + vs[|vs| - 1]
  }

  function Power(base: nat, n: nat): nat {
    if n == 0 then 1 else base * Power(base, n - 1)
  }

  lemma {:induction false} OctetsOfBoth(a: Bytes, b: Bytes)
    ensures Octets(a + b) == Octets(a) * Power(256, |b|) + Octets(b)
  {
    if b == [] {
      assert a + b == a;
    } else {
      OctetsOfBoth(a, b[..|b| - 1]);
      assert (a + b)[..|a + b| - 1] == a + b[..|b| - 1];
      Regroup(Octets(a), 256, Power(256, |b| - 1));
    }
  }

  lemma {:induction false} DigitsOfBoth(a: seq<Sextet>, b: seq<Sextet>)
    ensures Digits(a + b) == Digits(a) * Power(64, |b|) + Digits(b)
  {
    if b == [] {
      assert a + b == a;
    } else {
      DigitsOfBoth(a, b[..|b| - 1]);
      assert (a + b)[..|a + b| - 1] == a + b[..|b| - 1];
      Regroup(Digits(a), 64, Power(64, |b| - 1));
    }
  }

  lemma Regroup(x: nat, base: nat, p: nat)
    ensures base * (x * p) == x * (base * p)
  {
  }

  function Values(s: string): (vs: seq<Sextet>)
    requires AllSymbols(s)
    ensures |vs| == |s| && forall i :: 0 <= i < |s| ==> vs[i] == Value(s[i])
  {
    seq(|s|, i requires 0 <= i < |s| => Value(s[i]))
  }

  /** What the bits that are filled up with zeros multiply by. */
  function Shift(pads: nat): nat {
    Power(4, pads)
  }

  lemma DigitsOfTwo(v: Sextet, w: Sextet)
    ensures Digits([v, w]) == 64 * v + w
  {
    assert [v, w][..1] == [v] && [v][..0] == [];
    assert Digits([v]) == v;
  }

  lemma DigitsOfThree(v: Sextet, w: Sextet, x: Sextet)
    ensures Digits([v, w, x]) == 4096 * v + 64 * w + x
  {
    assert [v, w, x][..2] == [v, w];
    DigitsOfTwo(v, w);
  }

  lemma DigitsOfFour(v: Sextet, w: Sextet, x: Sextet, y: Sextet)
    ensures Digits([v, w, x, y]) == 262144 * v + 4096 * w + 64 * x + y
  {
    assert [v, w, x, y][..3] == [v, w, x];
    DigitsOfThree(v, w, x);
  }

  lemma OctetsOfOne(x: Byte)
    ensures Octets([x]) == x
  {
    assert [x][..0] == [];
  }

  lemma OctetsOfTwo(x: Byte, y: Byte)
    ensures Octets([x, y]) == 256 * x + y
  {
    assert [x, y][..1] == [x];
    OctetsOfOne(x);
  }

  lemma OctetsOfThree(x: Byte, y: Byte, z: Byte)
    ensures Octets([x, y, z]) == 65536 * x + 256 * y + z
  {
    assert [x, y, z][..2] == [x, y];
    OctetsOfTwo(x, y);
  }

  /** A group writes the number of its octets, followed by the zeros that fill it up. */
  lemma GroupWritesNumber(b: Bytes)
    requires 0 < |b| <= 3
    ensures AllSymbols(Group(b)) && |Group(b)| == |b| + 1
    ensures Digits(Values(Group(b))) == Octets(b) * Shift(3 - |b|)
  {
    GroupRoundTrip(b);
    hide Digits, Octets, Symbol, Value, IsSymbol;
    if |b| == 1 {
      OneWrites(b);
    } else if |b| == 2 {
      TwoWrite(b);
    } else {
      ThreeWrite(b);
    }
  }

  lemma OneWrites(b: Bytes)
    requires |b| == 1 && AllSymbols(Group(b))
    ensures Digits(Values(Group(b))) == Octets(b) * Shift(2)
  {
    hide *;
    ValuesOfOne(b);
    DigitsOfTwo(b[0] / 4, b[0] % 4 * 16);
    OctetsOfOne(b[0]);
    Shifts();
    BitsOfOne(b[0]);
    assert b == [b[0]];
  }

  lemma Shifts()
    ensures Shift(0) == 1 && Shift(1) == 4 && Shift(2) == 16
  {
    assert Power(4, 2) == 4 * Power(4, 1) && Power(4, 1) == 4 * Power(4, 0);
  }

  lemma ValuesOfOne(b: Bytes)
    requires |b| == 1 && AllSymbols(Group(b))
    ensures Values(Group(b)) == [b[0] / 4, b[0] % 4 * 16]
  {
    ValueOfSymbol(b[0] / 4);
    ValueOfSymbol(b[0] % 4 * 16);
    hide Symbol, Value, IsSymbol;
  }

  lemma BitsOfOne(x: Byte)
    ensures 64 * (x / 4) + x % 4 * 16 == x * 16
  {
  }

  lemma TwoWrite(b: Bytes)
    requires |b| == 2 && AllSymbols(Group(b))
    ensures Digits(Values(Group(b))) == Octets(b) * Shift(1)
  {
    hide *;
    ValuesOfTwo(b);
    SextetsOf(b[0], b[1]);
    DigitsOfThree(b[0] / 4, b[0] % 4 * 16 + b[1] / 16, b[1] % 16 * 4);
    OctetsOfTwo(b[0], b[1]);
    Shifts();
    BitsOfTwo(b[0], b[1]);
    assert b == [b[0], b[1]];
  }

  lemma SextetsOf(x: Byte, y: Byte)
    ensures 0 <= x / 4 < 64 && 0 <= x % 4 * 16 + y / 16 < 64 && 0 <= y % 16 * 4 + x / 64 < 64
    ensures 0 <= y % 16 * 4 < 64 && 0 <= x % 4 * 16 < 64 && 0 <= x % 64 < 64
  {
  }

  lemma ValuesOfTwo(b: Bytes)
    requires |b| == 2 && AllSymbols(Group(b))
    ensures 0 <= b[0] % 4 * 16 + b[1] / 16 < 64
    ensures Values(Group(b)) == [b[0] / 4, b[0] % 4 * 16 + b[1] / 16, b[1] % 16 * 4]
  {
    SextetsOf(b[0], b[1]);
    ValueOfSymbol(b[0] / 4);
    ValueOfSymbol(b[0] % 4 * 16 + b[1] / 16);
    ValueOfSymbol(b[1] % 16 * 4);
    hide Symbol, Value, IsSymbol;
  }

  lemma BitsOfTwo(x: Byte, y: Byte)
    ensures 4096 * (x / 4) + 64 * (x % 4 * 16 + y / 16) + y % 16 * 4 == (256 * x + y) * 4
  {
  }

  lemma ThreeWrite(b: Bytes)
    requires |b| == 3 && AllSymbols(Group(b))
    ensures Digits(Values(Group(b))) == Octets(b) * Shift(0)
  {
    hide *;
    ValuesOfThree(b);
    SextetsOf(b[0], b[1]);
    SextetsOf(b[2], b[1]);
    DigitsOfFour(b[0] / 4, b[0] % 4 * 16 + b[1] / 16, b[1] % 16 * 4 + b[2] / 64, b[2] % 64);
    OctetsOfThree(b[0], b[1], b[2]);
    Shifts();
    BitsOfThree(b[0], b[1], b[2]);
    assert b == [b[0], b[1], b[2]];
  }

  lemma ValuesOfThree(b: Bytes)
    requires |b| == 3 && AllSymbols(Group(b))
    ensures 0 <= b[0] % 4 * 16 + b[1] / 16 < 64 && 0 <= b[1] % 16 * 4 + b[2] / 64 < 64
    ensures Values(Group(b)) == [b[0] / 4, b[0] % 4 * 16 + b[1] / 16, b[1] % 16 * 4 + b[2] / 64, b[2] % 64]
  {
    SextetsOf(b[0], b[1]);
    SextetsOf(b[2], b[1]);
    ValueOfSymbol(b[0] / 4);
    ValueOfSymbol(b[0] % 4 * 16 + b[1] / 16);
    ValueOfSymbol(b[1] % 16 * 4 + b[2] / 64);
    ValueOfSymbol(b[2] % 64);
    hide Symbol, Value, IsSymbol;
  }

  lemma BitsOfThree(x: Byte, y: Byte, z: Byte)
    ensures 262144 * (x / 4) + 4096 * (x % 4 * 16 + y / 16) + 64 * (y % 16 * 4 + z / 64) + z % 64
         == 65536 * x + 256 * y + z
  {
    BitsOfTwo(x, y);
  }

  lemma {:induction false} SymbolsWeigh(b: Bytes)
    ensures Power(64, |Symbols(b)|) == Power(256, |b|) * Shift(PadCount(b))
    decreases |b|
  {
    if |b| == 0 {
    } else if |b| < 3 {
      SmallWeights();
    } else {
      SymbolsWeigh(b[3..]);
      SymbolsHead(b);
      hide *;
      FourMore(|Symbols(b[3..])|);
      ThreeMore(|b[3..]|);
      assert |b[3..]| + 3 == |b|;
      WholeGroupNeedsNoPads(0, b);
      Scaled(Power(256, |b[3..]|), Shift(PadCount(b)));
    }
  }

  lemma SymbolsHead(b: Bytes)
    requires |b| >= 3
    ensures |Group(b[..3])| == 4 && Symbols(b) == Group(b[..3]) + Symbols(b[3..])
  {
    GroupRoundTrip(b[..3]);
  }

  lemma SmallWeights()
    ensures Power(64, 2) == Power(256, 1) * Shift(2) && Power(64, 3) == Power(256, 2) * Shift(1)
  {
    assert Power(64, 3) == 64 * Power(64, 2) && Power(64, 2) == 64 * Power(64, 1) && Power(64, 1) == 64 * Power(64, 0);
    assert Power(256, 2) == 256 * Power(256, 1) && Power(256, 1) == 256 * Power(256, 0);
    assert Power(4, 2) == 4 * Power(4, 1) && Power(4, 1) == 4 * Power(4, 0);
  }

  lemma FourMore(n: nat)
    ensures Power(64, n + 4) == 16777216 * Power(64, n)
  {
    assert Power(64, n + 4) == 64 * Power(64, n + 3) && Power(64, n + 3) == 64 * Power(64, n + 2);
    assert Power(64, n + 2) == 64 * Power(64, n + 1) && Power(64, n + 1) == 64 * Power(64, n);
  }

  lemma ThreeMore(n: nat)
    ensures Power(256, n + 3) == 16777216 * Power(256, n)
  {
    assert Power(256, n + 3) == 256 * Power(256, n + 2) && Power(256, n + 2) == 256 * Power(256, n + 1);
    assert Power(256, n + 1) == 256 * Power(256, n);
  }

  lemma Scaled(p: nat, q: nat)
    ensures 16777216 * (p * q) == (16777216 * p) * q
  {
  }

  lemma {:induction false} SymbolsWriteNumber(b: Bytes)
    ensures AllSymbols(Symbols(b))
    ensures Digits(Values(Symbols(b))) == Octets(b) * Shift(PadCount(b))
    decreases |b|
  {
    hide *;
    SymbolsRoundTrip(b);
    if |b| == 0 {
      NothingWritesZero();
    } else if |b| < 3 {
      FewWriteNumber(b);
    } else {
      SymbolsWriteNumber(b[3..]);
      OneGroupMore(b);
    }
  }

  lemma FewWriteNumber(b: Bytes)
    requires 0 < |b| < 3 && AllSymbols(Symbols(b))
    ensures Digits(Values(Symbols(b))) == Octets(b) * Shift(PadCount(b))
  {
    hide *;
    GroupWritesNumber(b);
    SymbolsOfFew(b);
  }

  lemma NothingWritesZero()
    ensures Symbols([]) == "" && Octets([]) == 0
    ensures Digits(Values("")) == 0
  {
  }

  lemma SymbolsOfFew(b: Bytes)
    requires 0 < |b| < 3
    ensures Symbols(b) == Group(b) && PadCount(b) == 3 - |b|
  {
    hide Group;
  }

  lemma OneGroupMore(b: Bytes)
    requires |b| >= 3 && AllSymbols(Symbols(b[3..])) && AllSymbols(Symbols(b))
    requires Digits(Values(Symbols(b[3..]))) == Octets(b[3..]) * Shift(PadCount(b[3..]))
    ensures Digits(Values(Symbols(b))) == Octets(b) * Shift(PadCount(b))
  {
    hide *;
    var head, rest := Group(b[..3]), Symbols(b[3..]);
    var h, y, p, q := Octets(b[..3]), Octets(b[3..]), Power(256, |b[3..]|), Shift(PadCount(b));
    SymbolsHead(b);
    GroupWritesNumber(b[..3]);
    SymbolsWeigh(b[3..]);
    ValuesOfBoth(head, rest);
    DigitsOfBoth(Values(head), Values(rest));
    OctetsOfBoth(b[..3], b[3..]);
    assert b == b[..3] + b[3..];
    WholeGroupNeedsNoPads(0, b);
    Shifts();
    assert Digits(Values(head)) == h && Power(64, |Values(rest)|) == p * q;
    Collect(h, p, q, y);
  }

  lemma ValuesOfBoth(a: string, b: string)
    requires AllSymbols(a) && AllSymbols(b)
    ensures AllSymbols(a + b) && Values(a + b) == Values(a) + Values(b)
  {
    hide Value, IsSymbol;
    assert forall i :: 0 <= i < |a + b| ==> (a + b)[i] == if i < |a| then a[i] else b[i - |a|];
  }

  lemma Collect(x: nat, p: nat, q: nat, y: nat)
    ensures x * (p * q) + y * q == (x * p + y) * q
  {
  }

  /** The URL-safe form of octets writes their number in base 64, with the standard's alphabet for
      digits, followed by the zeros that fill up the last symbol. */
  lemma UrlFormWritesNumber(b: Bytes)
    ensures exists vs: seq<Sextet> ::
              && |vs| == |UrlEncode(b)| && (forall i :: 0 <= i < |vs| ==> UrlEncode(b)[i] == ALPHABET[vs[i]])
              && Digits(vs) == Octets(b) * Power(4, (3 - |b| % 3) % 3)
  {
    SymbolsWriteNumber(b);
    CompactOfSymbols(Symbols(b), PadCount(b));
    var vs := Values(Symbols(b));
    forall i | 0 <= i < |vs|
      ensures UrlEncode(b)[i] == ALPHABET[vs[i]]
    {
      AlphabetIs(vs[i]);
    }
    assert Digits(vs) == Octets(b) * Shift(PadCount(b));
  }

  // --------------------------------------------------------- strict decoding

  lemma {:induction false} SignificantOfBoth(a: string, b: string)
    ensures Significant(a + b) == Significant(a) + Significant(b)
  {
    if a == "" {
      assert a + b == b;
    } else {
      assert (a + b)[1..] == a[1..] + b;
      SignificantOfBoth(a[1..], b);
    }
  }

  /** Blanks, tabs and line ends may stand anywhere. */
  lemma SpacesDoNotMatter(a: string, c: char, b: string)
    requires c in {' ', '\t', '\n', '\r'}
    ensures Decode(a + [c] + b) == Decode(a + b)
  {
    SignificantOfBoth(a + [c], b);
    SignificantOfBoth(a, [c]);
    SignificantOfBoth(a, b);
    assert [c][1..] == "";
    assert Significant([c]) == "";
    SameSignificant(a + [c] + b, a + b);
  }

  lemma SameSignificant(s: string, t: string)
    requires Significant(s) == Significant(t)
    ensures Decode(s) == Decode(t)
  {
    hide Significant, DataOf, BytesOf, AllSymbols;
  }

  /** These are symbols, as many as there can be, followed by no padding or by what completes the
      last group. */
  ghost predicate Strict(s: string, n: nat) {
    && n <= |s| && AllSymbols(s[..n]) && n % 4 != 1
    && (forall i :: n <= i < |s| ==> s[i] == '=')
    && (n == |s| || (|s| <= n + 2 && |s| % 4 == 0))
  }

  /** Any other text is decoded exactly when it is of this form, and then to what its symbols say. */
  lemma DecodesIff(s: string)
    requires forall c :: c in s ==> c !in {' ', '\t', '\n', '\r'}
    ensures Decode(s).Some? <==> exists n: nat :: Strict(s, n)
    ensures forall n: nat :: Strict(s, n) ==> Decode(s) == Some(BytesOf(s[..n]))
  {
    hide Decode, Significant, BytesOf, AllSymbols, IsSymbol, DataOf, IsSpace;
    NoneIsSpace(s);
    NothingToSkip(s);
    if Decode(s).Some? {
      DecodedIsStrict(s);
    }
    forall n: nat | Strict(s, n)
      ensures Decode(s) == Some(BytesOf(s[..n]))
    {
      StrictIsDecoded(s, n);
    }
  }

  lemma NoneIsSpace(s: string)
    requires forall c :: c in s ==> c !in {' ', '\t', '\n', '\r'}
    ensures forall i :: 0 <= i < |s| ==> !IsSpace(s[i])
  {
    forall i | 0 <= i < |s|
      ensures !IsSpace(s[i])
    {
      assert s[i] in s;
    }
  }

  lemma DecodedIsStrict(s: string)
    requires Significant(s) == s && Decode(s).Some?
    ensures exists n: nat :: Strict(s, n)
  {
    hide Significant, BytesOf, IsSymbol;
    var data := DataOf(s);
    assert s[..|data|] == data;
    assert AllSymbols(data) && |data| % 4 != 1 && s[|data|..] == Pads(|s| - |data|);
    assert |data| == |s| || (|s| <= |data| + 2 && |s| % 4 == 0);
    forall i | |data| <= i < |s|
      ensures s[i] == '='
    {
      assert s[i] == s[|data|..][i - |data|] == Pads(|s| - |data|)[i - |data|];
    }
    assert Strict(s, |data|);
  }

  lemma StrictIsDecoded(s: string, n: nat)
    requires Significant(s) == s && Strict(s, n)
    ensures AllSymbols(s[..n]) && n % 4 != 1 && n <= |s| && Decode(s) == Some(BytesOf(s[..n]))
  {
    StrictData(s, n);
    assert s[n..] == Pads(|s| - n);
    DecodesData(s, n);
  }

  lemma DecodesData(s: string, n: nat)
    requires Significant(s) == s && Strict(s, n) && DataOf(s) == s[..n] && s[n..] == Pads(|s| - n)
    ensures Decode(s) == Some(BytesOf(s[..n]))
  {
    hide Significant, BytesOf, IsSymbol, DataOf;
  }

  lemma StrictData(s: string, n: nat)
    requires Strict(s, n)
    ensures DataOf(s) == s[..n]
  {
    SymbolsAreData(s[..n]);
    assert s == s[..n] + Pads(|s| - n);
    DataOfPadded(s[..n], |s| - n);
  }
}
