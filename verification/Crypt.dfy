/**
 * Padding a text to whole cipher blocks, and taking the padding off again.
 *
 * `Pad` and `Unpad` say what the two routines return; `PadText` and `UnpadText` are the
 * routines, with their fixed buffer and their scanning loops.  The lemmas at the end
 * relate the two directions.
 */
module Crypt {
  import opened Arithmetic
  import opened Text

  datatype Padding = Default | AnsiX923 | Pkcs7 | Iso10126 | Iso7816 | Zero | Space

  /** Padding is applied in these modes only. */
  predicate Padded(mode: string) {
    mode == "ecb" || mode == "cbc"
  }

  function Fill(b: Byte, n: nat): (r: Bytes)
    ensures |r| == n && forall i :: 0 <= i < n ==> r[i] == b
  {
    seq(n, _ => b)
  }

  /** The first bytes of a random source. */
  function Random(n: nat, rand: nat -> Byte): (r: Bytes)
    ensures |r| == n && forall i: nat :: i < n ==> r[i] == rand(i)
  {
    if n == 0 then [] else Random(n - 1, rand) + [rand(n - 1)]
  }

  /** The padding bytes of a scheme; `rand` supplies the random ones. */
  function PaddingOf(padding: Padding, size: nat, rand: nat -> Byte): Bytes
    requires 0 < size < 256
  {
    match padding
    case AnsiX923 => Fill(0, size - 1) + [size]
    case Pkcs7 => Fill(size, size)
    case Iso10126 => Random(size - 1, rand) + [size]
    case Iso7816 => [0x80] + Fill(0, size - 1)
    case Zero => Fill(0, size)
    case Space => Fill(0x20, size)
    case Default => []
  }

  /** How much is missing to the next block boundary: a whole block when nothing is. */
  function PaddingSize(length: nat, blockSize: nat): (n: nat)
    requires blockSize > 0
    ensures 0 < n <= blockSize
  {
    blockSize - length % blockSize
  }

  /** The padded text, or nothing when the padding would not fit its buffer. */
  function Pad(text: Bytes, mode: string, blockSize: nat, padding: Padding, rand: nat -> Byte): Option<Bytes>
    requires blockSize > 0
  {
    if !Padded(mode) then Some(text)
    else
      var size := PaddingSize(|text|, blockSize);
      if size >= 256 then None else Some(text + PaddingOf(padding, size, rand))
  }

  /** How many bytes at the end of a text equal `b`. */
  function Trailing(text: Bytes, b: Byte): (n: nat)
    ensures n <= |text|
    ensures forall i :: |text| - n <= i < |text| ==> text[i] == b
    ensures n < |text| ==> text[|text| - 1 - n] != b
  {
    if text == [] || text[|text| - 1] != b then 0 else 1 + Trailing(text[..|text| - 1], b)
  }

  /** A byte read through a signed `char` and stored in an unsigned 32-bit integer. */
  function SignExtended(b: Byte): nat {
    if b < 0x80 then b else 0xFFFF_FF00 + b
  }

  /** Unpadding is about to happen: the text is a sequence of whole blocks. */
  predicate Unpadded(text: Bytes, mode: string, blockSize: nat)
    requires blockSize > 0
  {
    text != [] && |text| % blockSize == 0 && Padded(mode)
  }

  /**
   * The expected padding is built in a buffer of 256 bytes.  Its length is the sign-extended
   * last byte (less one, in ANSI X.923), so the code is defined only where this stays in the buffer.
   */
  predicate Fits(text: Bytes, blockSize: nat, padding: Padding)
    requires text != []
  {
    var last := text[|text| - 1];
    match padding
    case AnsiX923 => last <= blockSize ==> 0 < last < 0x80
    case Pkcs7 => last <= blockSize ==> last < 0x80
    case _ => true
  }

  /** Unpadding this text stays inside the buffer. */
  predicate Defined(text: Bytes, mode: string, blockSize: nat, padding: Padding)
    requires blockSize > 0
  {
    Unpadded(text, mode, blockSize) ==> Fits(text, blockSize, padding)
  }

  /** How many bytes are taken for padding; 0, or more than a block, where none is recognised. */
  function FoundPadding(text: Bytes, blockSize: nat, padding: Padding): (n: nat)
    requires text != [] && |text| >= blockSize
  {
    var last := text[|text| - 1];
    match padding
    case AnsiX923 =>
      if 0 < last <= blockSize && text[|text| - last..] == Fill(0, last - 1) + [last] then last else 0
    case Pkcs7 =>
      if last <= blockSize && text[|text| - last..] == Fill(last, last) then last else 0
    case Iso10126 => SignExtended(last)
    case Iso7816 =>
      var zeros := Trailing(text, 0);
      if zeros < |text| && zeros < blockSize && text[|text| - 1 - zeros] == 0x80 then zeros + 1 else 0
    case Zero => Trailing(text, 0)
    case Space => Trailing(text, 0x20)
    case Default => 0
  }

  /** A sequence of whole blocks holds at least one. */
  lemma WholeBlocks(length: nat, blockSize: nat)
    requires blockSize > 0 && length > 0 && length % blockSize == 0
    ensures length >= blockSize
  {
    if length < blockSize {
      RemainderIs(length, 0, length, blockSize);
    }
  }

  /** The text without its padding, or as it is when none is recognised. */
  function Unpad(text: Bytes, mode: string, blockSize: nat, padding: Padding): Bytes
    requires blockSize > 0
  {
    if !Unpadded(text, mode, blockSize) then text
    else
      WholeBlocks(|text|, blockSize);
      var n := FoundPadding(text, blockSize, padding);
      if 0 < n <= blockSize then text[..|text| - n] else text
  }

  // -------------------------------------------------------------------------
  // The routines
  // -------------------------------------------------------------------------

  method Memset(buffer: array<Byte>, from: nat, b: Byte, n: nat)
    requires from + n <= buffer.Length
    modifies buffer
    ensures buffer[from..from + n] == Fill(b, n)
    ensures buffer[..from] == old(buffer[..from])
    ensures buffer[from + n..] == old(buffer[from + n..])
  {
    forall i | from <= i < from + n {
      buffer[i] := b;
    }
  }

  /** Fills the buffer with the padding of one scheme; the number of bytes is returned. */
  method FillPadding(buffer: array<Byte>, size: nat, padding: Padding, rand: nat -> Byte) returns (used: nat)
    requires 0 < size < 256 && buffer.Length == 256
    modifies buffer
    ensures used == |PaddingOf(padding, size, rand)| && buffer[..used] == PaddingOf(padding, size, rand)
  {
    used := size;
    match padding {
      case AnsiX923 =>
        Memset(buffer, 0, 0, size - 1);
        buffer[size - 1] := size;
        assert buffer[..size] == buffer[..size - 1] + [size];
      case Pkcs7 =>
        Memset(buffer, 0, size, size);
      case Iso10126 =>
        var i := 0;
        while i < size - 1
          invariant 0 <= i <= size - 1
          invariant buffer[..i] == Random(i, rand)
        {
          buffer[i] := rand(i);
          assert buffer[..i + 1] == buffer[..i] + [rand(i)];
          i := i + 1;
        }
        buffer[size - 1] := size;
        assert buffer[..size] == buffer[..size - 1] + [size];
      case Iso7816 =>
        buffer[0] := 0x80;
        Memset(buffer, 1, 0, size - 1);
        assert buffer[0] == buffer[..1][0];
        assert buffer[..size] == [0x80] + buffer[1..1 + (size - 1)];
      case Zero =>
        Memset(buffer, 0, 0, size);
      case Space =>
        Memset(buffer, 0, 0x20, size);
      case Default =>
        used := 0;
    }
  }

  /** Pads a text. */
  method PadText(text: Bytes, mode: string, blockSize: nat, padding: Padding, rand: nat -> Byte)
    returns (result: Option<Bytes>)
    requires blockSize > 0
    ensures result == Pad(text, mode, blockSize, padding, rand)
  {
    var paddingSize := 0;
    var buffer := new Byte[256];
    if Padded(mode) {
      paddingSize := blockSize - |text| % blockSize;
      if paddingSize >= 256 {
        return None;
      }
      paddingSize := FillPadding(buffer, paddingSize, padding, rand);
    }
    if paddingSize == 0 {
      assert Padded(mode) ==> text + [] == text;
      result := Some(text);
    } else {
      result := Some(text + buffer[..paddingSize]);
    }
  }

  /** The bytes of `text[i + 1..]` all equal `b`, so the trailing run is at least this long. */
  lemma {:induction false} TrailingAtLeast(text: Bytes, b: Byte, n: nat)
    requires n <= |text| && forall k :: |text| - n <= k < |text| ==> text[k] == b
    ensures Trailing(text, b) >= n
  {
    if n > 0 {
      assert text[|text| - 1] == b;
      TrailingAtLeast(text[..|text| - 1], b, n - 1);
    }
  }

  /** The backward scan for zero and space padding, which gives up beyond one block. */
  method ScanBack(text: Bytes, b: Byte, blockSize: nat) returns (paddingSize: nat)
    requires blockSize > 0
    ensures paddingSize == if Trailing(text, b) <= blockSize then Trailing(text, b) else blockSize + 1
  {
    var i := |text| - 1;
    paddingSize := 0;
    while i >= 0 && text[i] == b && paddingSize <= blockSize
      invariant -1 <= i < |text| && paddingSize == |text| - 1 - i <= blockSize + 1
      invariant forall k :: i < k < |text| ==> text[k] == b
    {
      paddingSize := paddingSize + 1;
      i := i - 1;
    }
    TrailingAtLeast(text, b, paddingSize);
  }

  /** The backward scan over zeros to the 0x80 that starts ISO/IEC 7816-4 padding. */
  method ScanToMark(text: Bytes, blockSize: nat) returns (paddingSize: nat)
    requires text != [] && |text| >= blockSize > 0
    ensures paddingSize <= blockSize + 1
    ensures paddingSize <= blockSize ==> paddingSize == FoundPadding(text, blockSize, Iso7816)
    ensures paddingSize > blockSize ==> FoundPadding(text, blockSize, Iso7816) == 0
  {
    var i := |text| - 1;
    paddingSize := 0;
    while i > 0 && text[i] == 0 && paddingSize < blockSize
      invariant 0 <= i < |text| && paddingSize == |text| - 1 - i <= blockSize
      invariant forall k :: i < k < |text| ==> text[k] == 0
    {
      paddingSize := paddingSize + 1;
      i := i - 1;
    }
    TrailingAtLeast(text, 0, paddingSize);
    paddingSize := if text[i] == 0x80 then paddingSize + 1 else 0;
  }

  /** The last `size` bytes compared with the padding expected there; the size if they agree. */
  method Expected(text: Bytes, size: nat, padding: Padding) returns (paddingSize: nat)
    requires size <= |text| && size < 256
    requires padding == Pkcs7 || (padding == AnsiX923 && size > 0)
    ensures paddingSize
         == if size == 0 || text[|text| - size..] == PaddingOf(padding, size, _ => 0) then size else 0
  {
    var buffer := new Byte[256];
    paddingSize := size;
    if size > 0 {
      var used := FillPadding(buffer, size, padding, _ => 0);
      if buffer[..size] != text[|text| - size..] {
        paddingSize := 0;
      }
    }
  }

  /** The number of padding bytes, by scheme. */
  method FindPadding(text: Bytes, blockSize: nat, padding: Padding) returns (paddingSize: nat)
    requires text != [] && |text| >= blockSize > 0
    requires Fits(text, blockSize, padding)
    ensures paddingSize == FoundPadding(text, blockSize, padding)
         || (paddingSize > blockSize && !(0 < FoundPadding(text, blockSize, padding) <= blockSize))
  {
    var last := text[|text| - 1];
    paddingSize := 0;
    match padding {
      case AnsiX923 =>
        if last <= blockSize {
          paddingSize := Expected(text, last, AnsiX923);
        }
      case Pkcs7 =>
        if last <= blockSize {
          paddingSize := Expected(text, last, Pkcs7);
        }
      case Iso10126 =>
        paddingSize := SignExtended(last);
      case Iso7816 =>
        paddingSize := ScanToMark(text, blockSize);
      case Zero =>
        paddingSize := ScanBack(text, 0, blockSize);
      case Space =>
        paddingSize := ScanBack(text, 0x20, blockSize);
      case Default =>
    }
  }

  /** Takes the padding off a text. */
  method UnpadText(text: Bytes, mode: string, blockSize: nat, padding: Padding) returns (result: Bytes)
    requires blockSize > 0
    requires Defined(text, mode, blockSize, padding)
    ensures result == Unpad(text, mode, blockSize, padding)
  {
    var paddingSize := 0;
    if |text| > 0 && |text| % blockSize == 0 && Padded(mode) {
      WholeBlocks(|text|, blockSize);
      paddingSize := FindPadding(text, blockSize, padding);
      if 0 < paddingSize <= blockSize {
        return text[..|text| - paddingSize];
      }
    }
    result := text;
  }

  // -------------------------------------------------------------------------
  // Padding and unpadding undo each other
  // -------------------------------------------------------------------------

  /** Padding reaches a block boundary. */
  lemma PaddingReachesBoundary(length: nat, blockSize: nat)
    requires blockSize > 0
    ensures (length + PaddingSize(length, blockSize)) % blockSize == 0
  {
    var q := length / blockSize;
    Distribute(blockSize, q, 1);
    RemainderIs(length + PaddingSize(length, blockSize), q + 1, 0, blockSize);
  }

  /** Taking one to a block's worth of bytes off whole blocks leaves just that many missing. */
  lemma PaddingSizeAfterCut(length: nat, n: nat, blockSize: nat)
    requires 0 < n <= blockSize && n <= length && length % blockSize == 0
    ensures PaddingSize(length - n, blockSize) == n
  {
    var q := length / blockSize;
    Distribute(blockSize, q - 1, 1);
    RemainderIs(length - n, q - 1, blockSize - n, blockSize);
  }

  /** What padding adds to a text that is padded at all. */
  lemma PaddedShape(text: Bytes, mode: string, blockSize: nat, padding: Padding, rand: nat -> Byte)
    requires blockSize > 0 && Padded(mode) && padding != Default
    requires PaddingSize(|text|, blockSize) < 256
    ensures var size := PaddingSize(|text|, blockSize);
            var x := Pad(text, mode, blockSize, padding, rand).value;
            && |x| == |text| + size && x[..|text|] == text
            && x[|text|..] == PaddingOf(padding, size, rand)
            && Unpadded(x, mode, blockSize) && |x| >= blockSize
  {
    var size := PaddingSize(|text|, blockSize);
    PaddingReachesBoundary(|text|, blockSize);
    WholeBlocks(|text| + size, blockSize);
  }

  /** Padding fails exactly when more than 255 bytes are missing; it never shortens or alters the text. */
  lemma PadFailsIff(text: Bytes, mode: string, blockSize: nat, padding: Padding, rand: nat -> Byte)
    requires blockSize > 0
    ensures Pad(text, mode, blockSize, padding, rand).None?
       <==> mode in {"ecb", "cbc"} && blockSize - |text| % blockSize > 255
    ensures forall x :: Pad(text, mode, blockSize, padding, rand) == Some(x) ==>
              if mode in {"ecb", "cbc"} && padding != Default then
                text < x && |x| % blockSize == 0 && |x| - |text| <= blockSize
              else x == text
  {
    if Padded(mode) && padding != Default && PaddingSize(|text|, blockSize) < 256 {
      PaddedShape(text, mode, blockSize, padding, rand);
    }
  }

  /** The byte at position `k` of a padded text, behind the text itself. */
  predicate PaddingByte(padding: Padding, rand: nat -> Byte, length: nat, x: Bytes, k: nat)
    requires length <= k < |x|
  {
    var n, last := |x| - length, k == |x| - 1;
    match padding
    case AnsiX923 => x[k] as int == if last then n else 0
    case Pkcs7 => x[k] as int == n
    case Iso10126 => x[k] as int == if last then n else rand(k - length)
    case Iso7816 => x[k] == if k == length then 0x80 else 0
    case Zero => x[k] == 0
    case Space => x[k] == 0x20
    case Default => false
  }

  /** What each scheme writes, byte by byte. */
  lemma PaddingBytesAre(text: Bytes, mode: string, blockSize: nat, padding: Padding, rand: nat -> Byte, x: Bytes,
                        k: nat)
    requires blockSize > 0 && Pad(text, mode, blockSize, padding, rand) == Some(x) && |text| <= k < |x|
    ensures mode in {"ecb", "cbc"} && PaddingByte(padding, rand, |text|, x, k)
  {
    var size := PaddingSize(|text|, blockSize);
    assert x == text + PaddingOf(padding, size, rand);
    assert x[k] == PaddingOf(padding, size, rand)[k - |text|];
  }

  /** The trailing run of a text followed by a run of the same byte. */
  lemma TrailingOfRun(text: Bytes, x: Bytes, b: Byte, n: nat)
    requires |x| == |text| + n && x[..|text|] == text && x[|text|..] == Fill(b, n)
    ensures Trailing(x, b) == Trailing(text, b) + n
  {
    var t := Trailing(text, b);
    forall k | |x| - (t + n) <= k < |x| ensures x[k] == b {
      if k < |text| {
        assert x[k] == x[..|text|][k];
      } else {
        assert x[k] == x[|text|..][k - |text|];
      }
    }
    TrailingAtLeast(x, b, t + n);
    if t < |text| {
      assert x[|text| - 1 - t] == x[..|text|][|text| - 1 - t];
      assert x[|x| - 1 - (t + n)] != b;
    }
  }

  /** The last byte of a padded text, for the schemes that write the length there. */
  lemma LastByteIsSize(text: Bytes, mode: string, blockSize: nat, padding: Padding, rand: nat -> Byte)
    requires blockSize > 0 && Padded(mode) && PaddingSize(|text|, blockSize) < 256
    requires padding == AnsiX923 || padding == Pkcs7 || padding == Iso10126
    ensures var x := Pad(text, mode, blockSize, padding, rand).value;
            |x| > 0 && x[|x| - 1] == PaddingSize(|text|, blockSize)
  {
    PaddedShape(text, mode, blockSize, padding, rand);
    var x := Pad(text, mode, blockSize, padding, rand).value;
    assert x[|x| - 1] == x[|text|..][|x| - 1 - |text|];
  }

  /** Unpadding `x` is defined and gives `text`. */
  predicate PaddingUndone(text: Bytes, x: Bytes, mode: string, blockSize: nat, padding: Padding)
    requires blockSize > 0
  {
    Defined(x, mode, blockSize, padding) && Unpad(x, mode, blockSize, padding) == text
  }

  /** ANSI X.923, PKCS7 and ISO 10126 undo their own padding while the length fits a signed byte. */
  lemma CountedRoundTrip(text: Bytes, mode: string, blockSize: nat, padding: Padding, rand: nat -> Byte)
    requires blockSize > 0 && Padded(mode) && PaddingSize(|text|, blockSize) < 0x80
    requires padding == AnsiX923 || padding == Pkcs7 || padding == Iso10126
    ensures PaddingUndone(text, Pad(text, mode, blockSize, padding, rand).value, mode, blockSize, padding)
  {
    var x := Pad(text, mode, blockSize, padding, rand).value;
    PaddedShape(text, mode, blockSize, padding, rand);
    LastByteIsSize(text, mode, blockSize, padding, rand);
    assert x[|x| - PaddingSize(|text|, blockSize)..] == x[|text|..];
    assert FoundPadding(x, blockSize, padding) == PaddingSize(|text|, blockSize);
  }

  /** ISO/IEC 7816-4 undoes its own padding whatever the block size. */
  lemma MarkedRoundTrip(text: Bytes, mode: string, blockSize: nat, rand: nat -> Byte)
    requires blockSize > 0 && Padded(mode) && PaddingSize(|text|, blockSize) < 256
    ensures Unpad(Pad(text, mode, blockSize, Iso7816, rand).value, mode, blockSize, Iso7816) == text
  {
    var size := PaddingSize(|text|, blockSize);
    var x := Pad(text, mode, blockSize, Iso7816, rand).value;
    PaddedShape(text, mode, blockSize, Iso7816, rand);
    assert x == (text + [0x80]) + Fill(0, size - 1);
    TrailingOfRun(text + [0x80], x, 0, size - 1);
    assert Trailing(text + [0x80], 0) == 0;
  }

  /**
   * For every text, block size and mode, unpadding returns what was padded exactly when the
   * scheme records where its padding starts and can read that back: the counting schemes need
   * a count below 128, ISO/IEC 7816-4 needs nothing.
   */
  lemma RoundTripsIff(text: Bytes, mode: string, blockSize: nat, padding: Padding, rand: nat -> Byte)
    requires blockSize > 0 && Pad(text, mode, blockSize, padding, rand).Some?
    requires padding == AnsiX923 || padding == Pkcs7 || padding == Iso10126 || padding == Iso7816
    ensures PaddingUndone(text, Pad(text, mode, blockSize, padding, rand).value, mode, blockSize, padding)
       <==> padding == Iso7816 || mode !in {"ecb", "cbc"} || blockSize - |text| % blockSize < 0x80
  {
    if Padded(mode) {
      if padding == Iso7816 {
        MarkedRoundTrip(text, mode, blockSize, rand);
      } else if PaddingSize(|text|, blockSize) < 0x80 {
        CountedRoundTrip(text, mode, blockSize, padding, rand);
      } else {
        PaddedShape(text, mode, blockSize, padding, rand);
        LastByteIsSize(text, mode, blockSize, padding, rand);
      }
    }
  }

  /** With block sizes up to 127 the four schemes always round trip. */
  lemma RoundTrip(text: Bytes, mode: string, blockSize: nat, padding: Padding, rand: nat -> Byte)
    requires 0 < blockSize < 0x80
    requires padding == AnsiX923 || padding == Pkcs7 || padding == Iso10126 || padding == Iso7816
    ensures Pad(text, mode, blockSize, padding, rand).Some?
    ensures PaddingUndone(text, Pad(text, mode, blockSize, padding, rand).value, mode, blockSize, padding)
  {
    RoundTripsIff(text, mode, blockSize, padding, rand);
  }

  /** Zero and space padding round trip exactly for texts that do not end in the padding byte. */
  lemma BlankRoundTripsIff(text: Bytes, mode: string, blockSize: nat, padding: Padding, rand: nat -> Byte)
    requires blockSize > 0 && mode in {"ecb", "cbc"} && blockSize - |text| % blockSize < 256
    requires padding == Zero || padding == Space
    ensures Unpad(Pad(text, mode, blockSize, padding, rand).value, mode, blockSize, padding) == text
       <==> text == [] || text[|text| - 1] != (if padding == Zero then 0 else 0x20)
  {
    var b := if padding == Zero then 0 else 0x20;
    var x := Pad(text, mode, blockSize, padding, rand).value;
    PaddedShape(text, mode, blockSize, padding, rand);
    TrailingOfRun(text, x, b, PaddingSize(|text|, blockSize));
  }

  /** The zeros before which the mark was found, with the mark, are the padding of that length. */
  lemma MarkedIsPadding(x: Bytes, zeros: nat, rand: nat -> Byte)
    requires zeros < |x| && zeros + 1 < 256 && x[|x| - 1 - zeros] == 0x80
    requires forall i :: |x| - zeros <= i < |x| ==> x[i] == 0
    ensures x[|x| - (zeros + 1)..] == PaddingOf(Iso7816, zeros + 1, rand)
  {
    var tail, expected := x[|x| - (zeros + 1)..], PaddingOf(Iso7816, zeros + 1, rand);
    assert expected == [0x80] + Fill(0, zeros);
    hide PaddingOf, Fill, Random;
    forall i | 0 <= i < |tail|
      ensures tail[i] == expected[i]
    {
      assert tail[i] == x[|x| - (zeros + 1) + i];
    }
  }

  /** In ISO 10126 the last byte counts the random ones before it. */
  lemma CountedIsPadding(x: Bytes, n: nat, rand: nat -> Byte)
    requires 0 < n <= |x| && n < 256 && x[|x| - 1] == n
    requires forall i: nat :: i + 1 < n ==> rand(i) == x[|x| - n + i]
    ensures x[|x| - n..] == PaddingOf(Iso10126, n, rand)
  {
    assert x[|x| - n..] == x[|x| - n..|x| - 1] + [x[|x| - 1]];
    assert x[|x| - n..|x| - 1] == Random(n - 1, rand);
  }

  /** The bytes from here on are the random ones. */
  predicate Redrawn(x: Bytes, from: nat, rand: nat -> Byte) {
    forall i: nat :: from + i + 1 < |x| ==> rand(i) == x[from + i]
  }

  /** Whatever unpadding takes off is what padding the rest would add. */
  lemma StrippedIsPadding(x: Bytes, n: nat, blockSize: nat, padding: Padding, rand: nat -> Byte)
    requires |x| >= blockSize > 0 && Fits(x, blockSize, padding)
    requires n == FoundPadding(x, blockSize, padding) && 0 < n <= blockSize && n < 256
    requires padding == Iso10126 ==> Redrawn(x, |x| - n, rand)
    ensures x[|x| - n..] == PaddingOf(padding, n, rand)
  {
    match padding {
      case Iso10126 => CountedIsPadding(x, n, rand);
      case Iso7816 => MarkedIsPadding(x, n - 1, rand);
      case _ =>
    }
  }

  /**
   * The other direction: when unpadding strips anything at all, padding the result gives the
   * padded text back.  ISO 10126 needs the same random bytes to be drawn again.
   */
  lemma PadUndoesUnpad(x: Bytes, mode: string, blockSize: nat, padding: Padding, rand: nat -> Byte)
    requires blockSize > 0 && Defined(x, mode, blockSize, padding)
    requires Unpad(x, mode, blockSize, padding) != x && |x| - |Unpad(x, mode, blockSize, padding)| < 256
    requires padding == Iso10126 ==> Redrawn(x, |Unpad(x, mode, blockSize, padding)|, rand)
    ensures Pad(Unpad(x, mode, blockSize, padding), mode, blockSize, padding, rand) == Some(x)
  {
    WholeBlocks(|x|, blockSize);
    var n := FoundPadding(x, blockSize, padding);
    var u := Unpad(x, mode, blockSize, padding);
    assert u == x[..|x| - n] && Fits(x, blockSize, padding);
    hide FoundPadding, Unpad, PaddingOf, Fits, Unpadded, Defined;
    PaddingSizeAfterCut(|x|, n, blockSize);
    StrippedIsPadding(x, n, blockSize, padding, rand);
    assert x == u + x[|x| - n..];
  }
}
