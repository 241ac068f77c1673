/**
 * Tokens in compact serialization (section 7.1 of RFC 7515): assembled, split at the first
 * two dots, and verified.
 *
 * JSON, message digests and public-key signatures are libraries to the program; here they
 * are the function-valued fields of `Library`.
 */
module Jwt {
  import opened Text
  import opened Base64Url

  datatype Algorithm = Unsupported | Unsigned | Hmac(bits: nat) | PublicKey(name: string)

  /** Algorithm names are compared without regard to case. */
  function AlgorithmNamed(name: string): Algorithm {
    if EqualFold(name, "none") then Unsigned
    else if EqualFold(name, "HS256") then Hmac(256)
    else if EqualFold(name, "HS384") then Hmac(384)
    else if EqualFold(name, "HS512") then Hmac(512)
    else if EqualFold(name, "RS256") then PublicKey("RS256")
    else if EqualFold(name, "RS384") then PublicKey("RS384")
    else if EqualFold(name, "RS512") then PublicKey("RS512")
    else if EqualFold(name, "ES256") then PublicKey("ES256")
    else if EqualFold(name, "ES384") then PublicKey("ES384")
    else if EqualFold(name, "ES512") then PublicKey("ES512")
    else Unsupported
  }

  datatype Error =
    | AlgorithmNotSupported
    | CannotSign
    | MissingPart          // fewer than two dots: nothing is returned, nothing is thrown
    | NotBase64
    | NotJson
    | NoAlgorithm          // a header without `alg`, for which the code follows a null pointer
    | AlgorithmNotAllowed
    | BadSignature
    | ClaimRejected

  datatype Result<T> = Ok(value: T) | Err(error: Error)

  /** What the program calls: `J` is the type of PHP arrays. */
  datatype Library<!J> = Library(
    toJson: J -> Bytes,
    fromJson: Bytes -> Option<J>,                   // nothing when the text is not that of an array
    header: string -> J,
    algorithmOf: J -> Option<string>,
    mac: (nat, Bytes, string) -> Bytes,
    sign: (string, Bytes, string) -> Option<Bytes>,
    check: (string, Bytes, string, Bytes) -> bool,
    acceptable: J -> bool)                          // the checks of registered claims

  datatype Parts = Parts(header: string, payload: string, signature: string)

  // -------------------------------------------------------------------------
  // Splitting and joining
  // -------------------------------------------------------------------------

  function DotAt(s: string): (n: nat)
    ensures n <= |s| && '.' !in s[..n]
    ensures n < |s| ==> s[n] == '.'
  {
    if s == "" || s[0] == '.' then 0
    else
      assert s[..1 + DotAt(s[1..])] == [s[0]] + s[1..][..DotAt(s[1..])];
      1 + DotAt(s[1..])
  }

  /** The first dot is the one with no dot before it. */
  lemma {:induction false} DotAtIs(s: string, n: nat)
    requires n < |s| && '.' !in s[..n] && s[n] == '.'
    ensures DotAt(s) == n
  {
    if n > 0 {
      assert s[0] == s[..n][0];
      assert s[1..][..n - 1] == s[..n][1..];
      DotAtIs(s[1..], n - 1);
    }
  }

  /** What stands before the first dot, and what stands behind it. */
  function Cut(s: string): Option<(string, string)> {
    var n := DotAt(s);
    if n == |s| then None else Some((s[..n], s[n + 1..]))
  }

  lemma CutIff(s: string, before: string, after: string)
    ensures Cut(s) == Some((before, after)) <==> s == before + "." + after && '.' !in before
  {
    if s == before + "." + after && '.' !in before {
      assert s[..|before|] == before && s[|before| + 1..] == after;
      DotAtIs(s, |before|);
    }
  }

  /** The three parts of a token; dots after the second one belong to the signature. */
  function SplitToken(token: string): Option<Parts> {
    match Cut(token)
    case None => None
    case Some((header, rest)) =>
      match Cut(rest)
      case None => None
      case Some((payload, signature)) => Some(Parts(header, payload, signature))
  }

  function SigningInput(header: string, payload: string): string {
    header + "." + payload
  }

  function JoinParts(parts: Parts): string {
    SigningInput(parts.header, parts.payload) + "." + parts.signature
  }

  /** A token is the join of its parts, and no other three parts with dotless first two give it. */
  lemma SplitIff(token: string, parts: Parts)
    ensures SplitToken(token) == Some(parts)
       <==> token == JoinParts(parts) && '.' !in parts.header && '.' !in parts.payload
  {
    var Parts(h, p, s) := parts;
    var rest := p + "." + s;
    assert h + "." + rest == JoinParts(parts);
    hide Cut;
    CutIff(token, h, rest);
    CutIff(rest, p, s);
    if SplitToken(token) == Some(parts) {
      CutIff(token, h, Cut(token).value.1);
      CutIff(Cut(token).value.1, p, s);
    }
  }

  /** From this index on, the buffer holds this string and its terminator. */
  ghost predicate Holds(buffer: array<char>, from: nat, s: string)
    reads buffer
  {
    && from + |s| < buffer.Length && '\0' !in s
    && (forall k :: from <= k < from + |s| ==> buffer[k] == s[k - from])
    && buffer[from + |s|] == '\0'
  }

  lemma HeldIsCString(buffer: array<char>, from: nat, s: string)
    requires Holds(buffer, from, s)
    ensures CString(buffer[from..]) == s && '\0' in buffer[from..]
  {
    assert buffer[from..][..|s|] == s && buffer[from..][|s|] == '\0';
    CStringIs(buffer[from..], s);
  }

  /** Scans for a dot, as far as the end of the C string. */
  method FindDot(buffer: array<char>, from: nat, ghost s: string) returns (found: bool, at: nat)
    requires Holds(buffer, from, s)
    ensures found == Cut(s).Some?
    ensures found ==> at == from + DotAt(s) < from + |s|
    ensures found ==> at < buffer.Length
  {
    at := from;
    while buffer[at] != '.'
      invariant from <= at <= from + |s|
      invariant forall k :: 0 <= k < at - from ==> s[k] != '.'
      decreases from + |s| - at
    {
      if buffer[at] == '\0' {
        return false, at;
      }
      at := at + 1;
    }
    DotAtIs(s, at - from);
    found := true;
  }

  /** Ends the string at its first dot, and tells where the rest begins. */
  method CutInPlace(buffer: array<char>, from: nat, ghost s: string) returns (found: bool, rest: nat)
    requires Holds(buffer, from, s)
    modifies buffer
    ensures found == Cut(s).Some?
    ensures found ==> from + |Cut(s).value.0| < rest < buffer.Length
                      && Holds(buffer, from, Cut(s).value.0) && Holds(buffer, rest, Cut(s).value.1)
    ensures forall k :: 0 <= k < from ==> buffer[k] == old(buffer[k])
  {
    var at;
    found, at := FindDot(buffer, from, s);
    rest := at;
    if found {
      buffer[at] := '\0';
      rest := at + 1;
    }
  }

  /**
   * Splits the token in its own buffer: the first two dots become terminators, and the parts
   * are the strings from the start and from behind each of them.
   */
  method SplitInPlace(head: array<char>) returns (found: bool, body: nat, sig: nat)
    requires '\0' in head[..]
    modifies head
    ensures found <==> SplitToken(CString(old(head[..]))).Some?
    ensures found ==> body <= sig < head.Length
    ensures found ==> Some(PartsFrom(head, body, sig)) == SplitToken(CString(old(head[..])))
  {
    hide CString;
    ghost var t := CString(head[..]);
    NulEnds(head[..]);
    assert head[..][..|t|] == t && head[..][|t|] == '\0';
    found, body := CutInPlace(head, 0, t);
    if !found {
      return false, 0, 0;
    }
    ghost var h, rest := Cut(t).value.0, Cut(t).value.1;
    hide Cut;
    found, sig := CutInPlace(head, body, rest);
    if !found {
      return false, 0, 0;
    }
    assert Holds(head, 0, h);
    HeldIsCString(head, 0, h);
    HeldIsCString(head, body, Cut(rest).value.0);
    HeldIsCString(head, sig, Cut(rest).value.1);
    assert head[0..] == head[..];
  }

  /** The C strings at the start and at two further indices of a buffer. */
  function PartsFrom(head: array<char>, body: nat, sig: nat): Parts
    requires body <= sig <= head.Length
    reads head
  {
    Parts(CString(head[..]), CString(head[body..]), CString(head[sig..]))
  }

  // -------------------------------------------------------------------------
  // Encoding
  // -------------------------------------------------------------------------

  /** The signature bytes of a signing algorithm. */
  function Signature<J>(lib: Library<J>, algorithm: Algorithm, key: Bytes, input: string): Option<Bytes>
    requires algorithm.Hmac? || algorithm.PublicKey?
  {
    match algorithm
    case Hmac(bits) => Some(lib.mac(bits, key, input))
    case PublicKey(name) => lib.sign(name, key, input)
  }

  /** The signed part of the token for a payload. */
  function InputFor<J>(lib: Library<J>, payload: J, alg: string): string {
    SigningInput(UrlEncode(lib.toJson(lib.header(alg))), UrlEncode(lib.toJson(payload)))
  }

  function EncodeToken<J>(lib: Library<J>, payload: J, key: Bytes, alg: string): Result<string> {
    var algorithm := AlgorithmNamed(alg);
    if algorithm == Unsupported then Err(AlgorithmNotSupported)
    else
      var input := InputFor(lib, payload, alg);
      if algorithm == Unsigned then Ok(input + ".")
      else
        match Signature(lib, algorithm, key, input)
        case None => Err(CannotSign)
        case Some(signature) => Ok(input + "." + UrlEncode(signature))
  }

  method Encode<J>(lib: Library<J>, payload: J, key: Bytes, alg: string) returns (result: Result<string>)
    ensures result == EncodeToken(lib, payload, key, alg)
  {
    var algorithm := AlgorithmNamed(alg);
    if algorithm == Unsupported {
      return Err(AlgorithmNotSupported);
    }
    var headerText := EncodeForUrl(lib.toJson(lib.header(alg)));
    var payloadText := EncodeForUrl(lib.toJson(payload));
    var buffer := headerText;
    buffer := buffer + ".";
    buffer := buffer + payloadText;
    if algorithm == Unsigned {
      buffer := buffer + ".";
    } else {
      var signature := Signature(lib, algorithm, key, buffer);
      if signature.None? {
        return Err(CannotSign);
      }
      var signatureText := EncodeForUrl(signature.value);
      buffer := buffer + "." + signatureText;
    }
    result := Ok(buffer);
  }

  // -------------------------------------------------------------------------
  // Decoding
  // -------------------------------------------------------------------------

  /** What is wrong with a header: its `alg` must be the configured algorithm, letter for letter. */
  function HeaderFault<J>(lib: Library<J>, header: string, alg: string): Option<Error> {
    match UrlDecode(header)
    case None => Some(NotBase64)
    case Some(json) =>
      match lib.fromJson(json)
      case None => Some(NotJson)
      case Some(h) =>
        match lib.algorithmOf(h)
        case None => Some(NoAlgorithm)
        case Some(named) => if named == alg then None else Some(AlgorithmNotAllowed)
  }

  /** A digest is compared as text; a public-key signature is decoded and checked. */
  predicate Verified<J>(lib: Library<J>, algorithm: Algorithm, key: Bytes, input: string, signature: string) {
    match algorithm
    case Unsupported => false
    case Unsigned => true
    case Hmac(bits) => signature == UrlEncode(lib.mac(bits, key, input))
    case PublicKey(name) =>
      var decoded := UrlDecode(signature);
      decoded.Some? && lib.check(name, key, input, decoded.value)
  }

  function ReadBody<J>(lib: Library<J>, payload: string): Result<J> {
    match UrlDecode(payload)
    case None => Err(NotBase64)
    case Some(json) =>
      match lib.fromJson(json)
      case None => Err(NotJson)
      case Some(claims) => if lib.acceptable(claims) then Ok(claims) else Err(ClaimRejected)
  }

  function DecodeToken<J>(lib: Library<J>, token: string, key: Bytes, alg: string): Result<J> {
    var algorithm := AlgorithmNamed(alg);
    if algorithm == Unsupported then Err(AlgorithmNotSupported)
    else
      match SplitToken(CString(token))
      case None => Err(MissingPart)
      case Some(parts) =>
        var fault := HeaderFault(lib, parts.header, alg);
        if fault.Some? then Err(fault.value)
        else if !Verified(lib, algorithm, key, SigningInput(parts.header, parts.payload), parts.signature) then
          Err(BadSignature)
        else ReadBody(lib, parts.payload)
  }

  /** Encodes the digest into a buffer, compacts it there, and compares the two C strings. */
  method VerifyHmac(digest: Bytes, sig: string) returns (ok: bool)
    ensures ok == (sig == UrlEncode(digest))
  {
    var encoded := Base64Url.Encode(digest);
    EncodeHasNoNul(digest);
    var buffer := Strdup(encoded);
    CStringIs(buffer[..], encoded);
    CompactInPlace(buffer);
    var n := Strlen(buffer);
    ok := buffer[..n] == sig;
  }

  method VerifySignature<J>(lib: Library<J>, algorithm: Algorithm, key: Bytes, input: string, sig: string)
    returns (ok: bool)
    requires '\0' !in sig
    ensures ok == Verified(lib, algorithm, key, input, sig)
  {
    match algorithm {
      case Unsupported => ok := false;
      case Unsigned => ok := true;
      case Hmac(bits) => ok := VerifyHmac(lib.mac(bits, key, input), sig);
      case PublicKey(name) =>
        var decoded := DecodeFromUrl(sig);
        ok := decoded.Some? && lib.check(name, key, input, decoded.value);
    }
  }

  method VerifyHeader<J>(lib: Library<J>, header: string, alg: string) returns (fault: Option<Error>)
    requires '\0' !in header
    ensures fault == HeaderFault(lib, header, alg)
  {
    var json := DecodeFromUrl(header);
    if json.None? {
      return Some(NotBase64);
    }
    var h := lib.fromJson(json.value);
    if h.None? {
      return Some(NotJson);
    }
    var named := lib.algorithmOf(h.value);
    if named.None? {
      return Some(NoAlgorithm);
    }
    fault := if named.value == alg then None else Some(AlgorithmNotAllowed);
  }

  method VerifyBody<J>(lib: Library<J>, body: string) returns (result: Result<J>)
    requires '\0' !in body
    ensures result == ReadBody(lib, body)
  {
    var json := DecodeFromUrl(body);
    if json.None? {
      return Err(NotBase64);
    }
    var claims := lib.fromJson(json.value);
    if claims.None? {
      return Err(NotJson);
    }
    result := if lib.acceptable(claims.value) then Ok(claims.value) else Err(ClaimRejected);
  }

  method Decode<J>(lib: Library<J>, token: string, key: Bytes, alg: string) returns (result: Result<J>)
    ensures result == DecodeToken(lib, token, key, alg)
  {
    var head := Strdup(CString(token));
    CStringIs(head[..], CString(token));
    var algorithm := AlgorithmNamed(alg);
    if algorithm == Unsupported {
      return Err(AlgorithmNotSupported);
    }
    var found, body, sig := SplitInPlace(head);
    if !found {
      return Err(MissingPart);
    }
    var Parts(header, payload, signature) := PartsFrom(head, body, sig);
    var fault := VerifyHeader(lib, header, alg);
    if fault.Some? {
      return Err(fault.value);
    }
    if algorithm != Unsigned {
      var input := header;
      input := input + ".";
      input := input + payload;
      var ok := VerifySignature(lib, algorithm, key, input, signature);
      if !ok {
        return Err(BadSignature);
      }
    }
    result := VerifyBody(lib, payload);
  }

  // -------------------------------------------------------------------------
  // Properties
  // -------------------------------------------------------------------------

  lemma UrlEncodeHasNone(b: Bytes, c: char)
    requires !IsUrlSymbol(c)
    ensures c !in UrlEncode(b)
  {
    UrlEncodeIsSafe(b);
  }

  lemma {:induction false} CStringOfNulFree(s: string)
    requires '\0' !in s
    ensures CString(s) == s
  {
    if s != "" {
      CStringOfNulFree(s[1..]);
    }
  }

  /** The parts of an encoded token, and what decoding takes for the signed input. */
  lemma EncodedSplits<J>(lib: Library<J>, payload: J, key: Bytes, alg: string)
    requires EncodeToken(lib, payload, key, alg).Ok?
    ensures var parts := SplitToken(CString(EncodeToken(lib, payload, key, alg).value));
            && parts.Some?
            && parts.value.header == UrlEncode(lib.toJson(lib.header(alg)))
            && parts.value.payload == UrlEncode(lib.toJson(payload))
            && SigningInput(parts.value.header, parts.value.payload) == InputFor(lib, payload, alg)
            && (AlgorithmNamed(alg) == Unsigned ==> parts.value.signature == "")
            && (AlgorithmNamed(alg) != Unsigned ==>
                  var signature := Signature(lib, AlgorithmNamed(alg), key, InputFor(lib, payload, alg));
                  signature.Some? && parts.value.signature == UrlEncode(signature.value))
  {
    hide UrlEncode, AlgorithmNamed;
    var h, p := UrlEncode(lib.toJson(lib.header(alg))), UrlEncode(lib.toJson(payload));
    var token := EncodeToken(lib, payload, key, alg).value;
    var s := "";
    if AlgorithmNamed(alg) != Unsigned {
      var signature := Signature(lib, AlgorithmNamed(alg), key, InputFor(lib, payload, alg)).value;
      s := UrlEncode(signature);
      UrlEncodeHasNone(signature, '\0');
    }
    assert token == JoinParts(Parts(h, p, s));
    UrlEncodeHasNone(lib.toJson(lib.header(alg)), '\0');
    UrlEncodeHasNone(lib.toJson(payload), '\0');
    CStringOfNulFree(token);
    UrlEncodeHasNone(lib.toJson(lib.header(alg)), '.');
    UrlEncodeHasNone(lib.toJson(payload), '.');
    SplitIff(token, Parts(h, p, s));
  }

  /** What the library must keep: JSON text reads back, and a signature it made passes its check. */
  ghost predicate Faithful<J>(lib: Library<J>, payload: J, key: Bytes, alg: string) {
    && lib.fromJson(lib.toJson(payload)) == Some(payload)
    && lib.fromJson(lib.toJson(lib.header(alg))) == Some(lib.header(alg))
    && lib.algorithmOf(lib.header(alg)) == Some(alg)
    && (AlgorithmNamed(alg).PublicKey? ==>
          var signature := lib.sign(AlgorithmNamed(alg).name, key, InputFor(lib, payload, alg));
          signature.Some? ==> lib.check(AlgorithmNamed(alg).name, key, InputFor(lib, payload, alg), signature.value))
  }

  /** Decoding an encoded token under the same key and algorithm returns the payload, if its claims pass. */
  lemma TokenRoundTrip<J>(lib: Library<J>, payload: J, key: Bytes, alg: string)
    requires EncodeToken(lib, payload, key, alg).Ok?
    requires Faithful(lib, payload, key, alg)
    ensures DecodeToken(lib, EncodeToken(lib, payload, key, alg).value, key, alg)
         == if lib.acceptable(payload) then Ok(payload) else Err(ClaimRejected)
  {
    hide UrlEncode, UrlDecode, AlgorithmNamed;
    EncodedSplits(lib, payload, key, alg);
    UrlRoundTrip(lib.toJson(lib.header(alg)));
    UrlRoundTrip(lib.toJson(payload));
    if AlgorithmNamed(alg).PublicKey? {
      UrlRoundTrip(Signature(lib, AlgorithmNamed(alg), key, InputFor(lib, payload, alg)).value);
    }
  }

  /** A token signed under one algorithm name is refused under any other spelling of a name. */
  lemma OtherAlgorithmIsRefused<J>(lib: Library<J>, payload: J, key: Bytes, alg: string, other: Bytes, asked: string)
    requires EncodeToken(lib, payload, key, alg).Ok?
    requires Faithful(lib, payload, key, alg)
    requires asked != alg && AlgorithmNamed(asked) != Unsupported
    ensures DecodeToken(lib, EncodeToken(lib, payload, key, alg).value, other, asked) == Err(AlgorithmNotAllowed)
  {
    hide UrlEncode, UrlDecode, AlgorithmNamed;
    EncodedSplits(lib, payload, key, alg);
    UrlRoundTrip(lib.toJson(lib.header(alg)));
  }

  /** The signed token over two segments. */
  function HmacToken<J>(lib: Library<J>, bits: nat, key: Bytes, header: string, payload: string): string {
    JoinParts(Parts(header, payload, UrlEncode(lib.mac(bits, key, SigningInput(header, payload)))))
  }

  /** These are dotless segments with an agreeing header and this body. */
  ghost predicate Segments<J>(lib: Library<J>, alg: string, header: string, payload: string, body: J) {
    && '.' !in header && '.' !in payload
    && HeaderFault(lib, header, alg) == None
    && ReadBody(lib, payload) == Ok(body)
  }

  /**
   * Under HMAC, decoding returns a body exactly when the token is two segments with an agreeing
   * header and that body, followed by the base64url text of the digest of those two segments.
   */
  lemma HmacAcceptsIff<J>(lib: Library<J>, token: string, key: Bytes, alg: string, body: J)
    requires AlgorithmNamed(alg).Hmac?
    ensures DecodeToken(lib, token, key, alg) == Ok(body)
       <==> exists header, payload ::
              && Segments(lib, alg, header, payload, body)
              && CString(token) == HmacToken(lib, AlgorithmNamed(alg).bits, key, header, payload)
  {
    hide UrlEncode, UrlDecode, AlgorithmNamed, HeaderFault, ReadBody, SplitToken;
    var bits := AlgorithmNamed(alg).bits;
    if DecodeToken(lib, token, key, alg) == Ok(body) {
      var parts := SplitToken(CString(token)).value;
      SplitIff(CString(token), parts);
      assert Segments(lib, alg, parts.header, parts.payload, body);
      assert CString(token) == HmacToken(lib, bits, key, parts.header, parts.payload);
    }
    forall header, payload |
      && Segments(lib, alg, header, payload, body)
      && CString(token) == HmacToken(lib, bits, key, header, payload)
      ensures DecodeToken(lib, token, key, alg) == Ok(body)
    {
      var signature := UrlEncode(lib.mac(bits, key, SigningInput(header, payload)));
      SplitIff(CString(token), Parts(header, payload, signature));
    }
  }

  /** An accepted HMAC token with any other signature text, be it another encoding of the same
      digest, is refused for its signature. */
  lemma OtherSignatureIsRefused<J>(lib: Library<J>, token: string, key: Bytes, alg: string, other: string)
    requires AlgorithmNamed(alg).Hmac? && DecodeToken(lib, token, key, alg).Ok?
    requires other != SplitToken(CString(token)).value.signature && '\0' !in other
    ensures var parts := SplitToken(CString(token)).value;
      DecodeToken(lib, JoinParts(parts.(signature := other)), key, alg) == Err(BadSignature)
  {
    hide UrlEncode, UrlDecode, AlgorithmNamed, HeaderFault, ReadBody, SplitToken, JoinParts, CString;
    var parts := SplitToken(CString(token)).value;
    var changed := parts.(signature := other);
    SplitIff(CString(token), parts);
    SplitIff(JoinParts(changed), changed);
    assert '\0' !in JoinParts(changed) by {
      JoinedHasNoNul(CString(token), parts, other);
    }
    CStringOfNulFree(JoinParts(changed));
  }

  lemma JoinedHasNoNul(token: string, parts: Parts, other: string)
    requires token == JoinParts(parts) && '\0' !in token && '\0' !in other
    ensures '\0' !in JoinParts(parts.(signature := other))
  {
    var prefix := SigningInput(parts.header, parts.payload) + ".";
    assert forall i :: 0 <= i < |prefix| ==> token[i] == prefix[i];
    assert JoinParts(parts.(signature := other)) == prefix + other;
  }

  /** No two accepted HMAC tokens carry the same two segments: the signature text cannot vary. */
  lemma SignatureTextIsUnique<J>(lib: Library<J>, a: string, b: string, key: Bytes, alg: string)
    requires AlgorithmNamed(alg).Hmac?
    requires DecodeToken(lib, a, key, alg).Ok? && DecodeToken(lib, b, key, alg).Ok?
    requires SplitToken(CString(a)).value.header == SplitToken(CString(b)).value.header
    requires SplitToken(CString(a)).value.payload == SplitToken(CString(b)).value.payload
    ensures CString(a) == CString(b)
  {
    hide UrlEncode, UrlDecode, AlgorithmNamed, HeaderFault, ReadBody, JoinParts, SplitToken;
    SplitIff(CString(a), SplitToken(CString(a)).value);
    SplitIff(CString(b), SplitToken(CString(b)).value);
  }
}
