/**
 * Elliptic-curve signatures in tokens: the numbers R and S as two big-endian octet strings of
 * the same length, one behind the other (section 3.4 of RFC 7518).
 */
module Ecdsa {
  import opened Text

  /** The shortest big-endian octets of a number, as `BN_bn2bin` writes them. */
  function Binary(x: nat): Bytes {
    if x == 0 then [] else Binary(x / 256) + [x % 256]
  }

  /** The number that big-endian octets stand for, as `BN_bin2bn` reads them. */
  function Number(b: Bytes): nat {
    if b == [] then 0 else 256 * Number(b[..|b| - 1]) + b[|b| - 1]
  }

  /** 256 to the n-th. */
  function Power(n: nat): (p: nat)
    ensures p > 0
  {
    if n == 0 then 1 else 256 * Power(n - 1)
  }

  function Zeros(n: nat): (r: Bytes)
    ensures |r| == n && forall i :: 0 <= i < n ==> r[i] == 0
  {
    seq(n, _ => 0)
  }

  /** Octets per number for a curve of this degree: the least number that has a bit for each. */
  function FieldBytes(degree: nat): (n: nat)
    ensures degree <= 8 * n < degree + 8
  {
    (degree + 7) / 8
  }

  /** Octets with zeros before them, n in all. */
  function LeftPadded(b: Bytes, n: nat): (r: Bytes)
    requires |b| <= n
    ensures |r| == n
  {
    Zeros(n - |b|) + b
  }

  /** The raw signature, or nothing when a number is too long for the curve. */
  function Pack(r: nat, s: nat, degree: nat): Option<Bytes> {
    var n := FieldBytes(degree);
    if |Binary(r)| > n || |Binary(s)| > n then None
    else Some(LeftPadded(Binary(r), n) + LeftPadded(Binary(s), n))
  }

  /** The two numbers of a raw signature, or nothing when its length is not that of the curve. */
  function Unpack(sig: Bytes, degree: nat): Option<(nat, nat)> {
    var n := FieldBytes(degree);
    if 2 * n != |sig| then None else Some((Number(sig[..n]), Number(sig[n..])))
  }

  /** Writes the octets of a number into a buffer. */
  method WriteBinary(x: nat, buffer: array<Byte>, offset: nat)
    requires offset + |Binary(x)| <= buffer.Length
    modifies buffer
    ensures forall k :: offset <= k < offset + |Binary(x)| ==> buffer[k] == Binary(x)[k - offset]
    ensures forall k :: 0 <= k < offset || offset + |Binary(x)| <= k < buffer.Length ==> buffer[k] == old(buffer[k])
  {
    var octets := Binary(x);
    var i := 0;
    while i < |octets|
      invariant 0 <= i <= |octets|
      invariant forall k :: 0 <= k < i ==> buffer[offset + k] == octets[k]
      invariant forall k :: 0 <= k < offset || offset + i <= k < buffer.Length ==> buffer[k] == old(buffer[k])
    {
      buffer[offset + i] := octets[i];
      i := i + 1;
    }
  }

  /** Builds the raw signature in a zeroed buffer, each number up against the end of its half. */
  method PackRaw(r: nat, s: nat, degree: nat) returns (result: Option<Bytes>)
    ensures result == Pack(r, s, degree)
  {
    var rLength, sLength := |Binary(r)|, |Binary(s)|;
    var n := (degree + 7) / 8;
    if rLength > n || sLength > n {
      return None;
    }
    var length := 2 * n;
    var buffer := new Byte[length](_ => 0);
    hide Binary;
    WriteBinary(r, buffer, n - rLength);
    WriteBinary(s, buffer, length - sLength);
    assert buffer[..n] == LeftPadded(Binary(r), n);
    assert buffer[n..] == LeftPadded(Binary(s), n);
    assert buffer[..] == buffer[..n] + buffer[n..];
    result := Some(buffer[..]);
  }

  // -------------------------------------------------------------------------
  // Packing and unpacking undo each other
  // -------------------------------------------------------------------------

  lemma {:induction false} BinaryFitsIff(x: nat, n: nat)
    ensures |Binary(x)| <= n <==> x < Power(n)
  {
    if x == 0 || n == 0 {
    } else {
      BinaryFitsIff(x / 256, n - 1);
      assert x / 256 < Power(n - 1) <==> x < 256 * Power(n - 1);
    }
  }

  lemma {:induction false} NumberOfBinary(x: nat)
    ensures Number(Binary(x)) == x
  {
    if x > 0 {
      NumberOfBinary(x / 256);
      assert Binary(x)[..|Binary(x)| - 1] == Binary(x / 256);
    }
  }

  lemma {:induction false} LeadingZeros(n: nat, b: Bytes)
    ensures Number(Zeros(n) + b) == Number(b)
  {
    var z := Zeros(n) + b;
    if b != [] {
      assert z[..|z| - 1] == Zeros(n) + b[..|b| - 1];
      LeadingZeros(n, b[..|b| - 1]);
    } else if n > 0 {
      assert z[..|z| - 1] == Zeros(n - 1) + b;
      LeadingZeros(n - 1, b);
    }
  }

  /** Octets are the padded octets of the number they stand for. */
  lemma {:induction false} BinaryOfNumber(b: Bytes)
    ensures |Binary(Number(b))| <= |b| && LeftPadded(Binary(Number(b)), |b|) == b
  {
    if b == [] {
    } else {
      var init, last := b[..|b| - 1], b[|b| - 1];
      BinaryOfNumber(init);
      var x := Number(b);
      assert x / 256 == Number(init) && x % 256 == last;
      if x == 0 {
        assert b == init + [0];
        assert Zeros(|b|) == Zeros(|b| - 1) + [0];
      } else {
        assert b == init + [last];
        assert LeftPadded(Binary(x), |b|) == LeftPadded(Binary(Number(init)), |init|) + [last];
      }
    }
  }

  /** Packing fails exactly when a number does not fit the octets of the curve. */
  lemma PackFailsIff(r: nat, s: nat, degree: nat)
    ensures Pack(r, s, degree).None? <==> r >= Power(FieldBytes(degree)) || s >= Power(FieldBytes(degree))
  {
    BinaryFitsIff(r, FieldBytes(degree));
    BinaryFitsIff(s, FieldBytes(degree));
  }

  /** The first half of a packed signature is R, the second is S, in octets from the highest down. */
  lemma PackedHalvesAre(r: nat, s: nat, degree: nat)
    requires Pack(r, s, degree).Some?
    ensures var raw, n := Pack(r, s, degree).value, FieldBytes(degree);
      |raw| == 2 * n && Number(raw[..n]) == r && Number(raw[n..]) == s
  {
    PackFailsIff(r, s, degree);
    UnpackUndoesPack(r, s, degree);
  }

  /** For all numbers that fit the curve, the packed signature unpacks to them. */
  lemma UnpackUndoesPack(r: nat, s: nat, degree: nat)
    requires r < Power(FieldBytes(degree)) && s < Power(FieldBytes(degree))
    ensures Pack(r, s, degree).Some?
    ensures Unpack(Pack(r, s, degree).value, degree) == Some((r, s))
  {
    var n := FieldBytes(degree);
    PackFailsIff(r, s, degree);
    var raw := Pack(r, s, degree).value;
    assert raw[..n] == LeftPadded(Binary(r), n) && raw[n..] == LeftPadded(Binary(s), n);
    LeadingZeros(n - |Binary(r)|, Binary(r));
    LeadingZeros(n - |Binary(s)|, Binary(s));
    NumberOfBinary(r);
    NumberOfBinary(s);
  }

  /** For every raw signature of the curve's length, packing what it unpacks to gives it back. */
  lemma PackUndoesUnpack(sig: Bytes, degree: nat)
    requires |sig| == 2 * FieldBytes(degree)
    ensures Unpack(sig, degree).Some?
    ensures var (r, s) := Unpack(sig, degree).value; Pack(r, s, degree) == Some(sig)
  {
    var n := FieldBytes(degree);
    BinaryOfNumber(sig[..n]);
    BinaryOfNumber(sig[n..]);
    assert sig == sig[..n] + sig[n..];
  }
}
