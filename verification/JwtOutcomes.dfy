/**
 * What encoding and decoding a token come to, outcome by outcome: which names are algorithms,
 * which tokens are accepted, and which fault every other token is refused for.
 */
module JwtOutcomes {
  import opened Text
  import opened Base64Url
  import opened Jwt

  // ----------------------------------------------------------------- the names

  /** The word, which is in upper case, spelled in either case. */
  ghost predicate Spells(name: string, word: string) {
    && |name| == |word|
    && forall i :: 0 <= i < |word| ==>
         name[i] == word[i] || ('A' <= word[i] <= 'Z' && name[i] as int == word[i] as int + 32)
  }

  predicate UpperCase(word: string) {
    forall i :: 0 <= i < |word| ==> 'A' <= word[i] <= 'Z' || '0' <= word[i] <= '9'
  }

  lemma SpellsIff(name: string, word: string)
    requires UpperCase(word)
    ensures EqualFold(name, word) <==> Spells(name, word)
  {
    if |name| == |word| {
      forall i | 0 <= i < |word|
        ensures Fold(name[i]) == Fold(word[i]) <==>
                name[i] == word[i] || ('A' <= word[i] <= 'Z' && name[i] as int == word[i] as int + 32)
      {
        LetterIff(name[i], word[i]);
      }
    }
  }

  lemma LetterIff(c: char, w: char)
    requires 'A' <= w <= 'Z' || '0' <= w <= '9'
    ensures Fold(c) == Fold(w) <==> c == w || ('A' <= w <= 'Z' && c as int == w as int + 32)
  {
  }

  /** The letter and the digit that tell the algorithms apart. */
  lemma TellsApart(name: string, word: string)
    requires Spells(name, word) && UpperCase(word) && |word| == 5
    ensures |name| == 5 && (name[0] == word[0] || name[0] as int == word[0] as int + 32)
    ensures '0' <= word[2] <= '9' ==> name[2] == word[2]
  {
  }

  const HMAC_NAMES := map[256 := "HS256", 384 := "HS384", 512 := "HS512"]
  const PUBLIC_KEY_NAMES := {"RS256", "RS384", "RS512", "ES256", "ES384", "ES512"}

  lemma Unfolded(name: string)
    ensures EqualFold(name, "none") <==> Spells(name, "NONE")
    ensures forall w :: w in PUBLIC_KEY_NAMES ==> (EqualFold(name, w) <==> Spells(name, w))
    ensures forall bits :: bits in HMAC_NAMES ==>
              (EqualFold(name, HMAC_NAMES[bits]) <==> Spells(name, HMAC_NAMES[bits]))
  {
    SpellsIff(name, "NONE");
    assert forall i :: 0 <= i < 4 ==> Fold("none"[i]) == Fold("NONE"[i]);
    assert EqualFold(name, "none") <==> EqualFold(name, "NONE");
    forall w | w in PUBLIC_KEY_NAMES
      ensures EqualFold(name, w) <==> Spells(name, w)
    {
      SpellsIff(name, w);
    }
    forall bits | bits in HMAC_NAMES
      ensures EqualFold(name, HMAC_NAMES[bits]) <==> Spells(name, HMAC_NAMES[bits])
    {
      SpellsIff(name, HMAC_NAMES[bits]);
    }
  }

  /** At most one of the names is spelled. */
  lemma NamesDiffer(name: string)
    ensures Spells(name, "NONE") ==> |name| == 4
    ensures forall w :: w in PUBLIC_KEY_NAMES && Spells(name, w) ==>
              |name| == 5 && name[2] == w[2] && (name[0] == w[0] || name[0] as int == w[0] as int + 32)
    ensures forall bits :: bits in HMAC_NAMES && Spells(name, HMAC_NAMES[bits]) ==>
              |name| == 5 && name[2] == HMAC_NAMES[bits][2] && name[0] in {'H', 'h'}
  {
    forall w | w in PUBLIC_KEY_NAMES && Spells(name, w)
      ensures |name| == 5 && name[2] == w[2] && (name[0] == w[0] || name[0] as int == w[0] as int + 32)
    {
      TellsApart(name, w);
    }
    forall bits | bits in HMAC_NAMES && Spells(name, HMAC_NAMES[bits])
      ensures |name| == 5 && name[2] == HMAC_NAMES[bits][2] && name[0] in {'H', 'h'}
    {
      TellsApart(name, HMAC_NAMES[bits]);
    }
  }

  /** Which names are algorithms, in whatever case they are spelled: the digest of an HMAC is that
      of its number, and a public-key algorithm goes by its name in upper case. */
  lemma AlgorithmIs(name: string, bits: nat, word: string)
    ensures AlgorithmNamed(name) == Unsigned <==> Spells(name, "NONE")
    ensures AlgorithmNamed(name) == Hmac(bits) <==> bits in HMAC_NAMES && Spells(name, HMAC_NAMES[bits])
    ensures AlgorithmNamed(name) == PublicKey(word) <==> word in PUBLIC_KEY_NAMES && Spells(name, word)
  {
    HmacIs(name, bits);
    PublicKeyIs(name, word);
    Unfolded(name);
    hide EqualFold, Spells;
  }

  lemma HmacIs(name: string, bits: nat)
    ensures AlgorithmNamed(name) == Hmac(bits) <==> bits in HMAC_NAMES && Spells(name, HMAC_NAMES[bits])
  {
    Unfolded(name);
    NamesDiffer(name);
    hide EqualFold, Spells;
    assert HMAC_NAMES[256] == "HS256" && HMAC_NAMES[384] == "HS384" && HMAC_NAMES[512] == "HS512";
  }

  lemma PublicKeyIs(name: string, word: string)
    ensures AlgorithmNamed(name) == PublicKey(word) <==> word in PUBLIC_KEY_NAMES && Spells(name, word)
  {
    Unfolded(name);
    NamesDiffer(name);
    hide EqualFold, Spells;
    assert HMAC_NAMES[256] == "HS256" && HMAC_NAMES[384] == "HS384" && HMAC_NAMES[512] == "HS512";
  }

  // -------------------------------------------------------------- the outcomes

  /** The token is these three parts; dots behind the second one belong to the signature. */
  ghost predicate IsToken(token: string, header: string, payload: string, signature: string) {
    token == header + "." + payload + "." + signature && '.' !in header && '.' !in payload
  }

  /** The array that a segment is the text of. */
  function JsonOf<J>(lib: Library<J>, segment: string): Option<J> {
    var json := UrlDecode(segment);
    if json == None then None else lib.fromJson(json.value)
  }

  /** The header is JSON that names exactly this algorithm. */
  ghost predicate HeaderNames<J>(lib: Library<J>, header: string, alg: string) {
    JsonOf(lib, header).Some? && lib.algorithmOf(JsonOf(lib, header).value) == Some(alg)
  }

  /** The text is base64url, but not of JSON. */
  ghost predicate NoJson<J>(lib: Library<J>, text: string) {
    UrlDecode(text).Some? && JsonOf(lib, text).None?
  }

  /** The signature is one of the two segments: nothing is asked of it under `none`; under HMAC it
      is the text of their digest; else it decodes to bytes that the key confirms. */
  ghost predicate Signed<J>(lib: Library<J>, key: Bytes, alg: string, header: string, payload: string,
                            signature: string) {
    match AlgorithmNamed(alg)
    case Unsupported => false
    case Unsigned => true
    case Hmac(bits) => signature == UrlEncode(lib.mac(bits, key, header + "." + payload))
    case PublicKey(name) =>
      exists octets :: UrlDecode(signature) == Some(octets) && lib.check(name, key, header + "." + payload, octets)
  }

  /** A token of three parts, under an algorithm that is supported. */
  ghost predicate Decodable(alg: string, token: string, header: string, payload: string, signature: string) {
    AlgorithmNamed(alg) != Unsupported && IsToken(CString(token), header, payload, signature)
  }

  lemma PartsAre(token: string, header: string, payload: string, signature: string)
    ensures IsToken(CString(token), header, payload, signature)
       <==> SplitToken(CString(token)) == Some(Parts(header, payload, signature))
  {
    SplitIff(CString(token), Parts(header, payload, signature));
    assert JoinParts(Parts(header, payload, signature)) == header + "." + payload + "." + signature;
    hide SplitToken, CString;
  }

  lemma HeaderFaultIs<J>(lib: Library<J>, header: string, alg: string)
    ensures HeaderFault(lib, header, alg) == None <==> HeaderNames(lib, header, alg)
    ensures HeaderFault(lib, header, alg) == Some(NotBase64) <==> UrlDecode(header) == None
    ensures HeaderFault(lib, header, alg) == Some(NotJson) <==> NoJson(lib, header)
    ensures HeaderFault(lib, header, alg) == Some(NoAlgorithm) <==>
            JsonOf(lib, header).Some? && lib.algorithmOf(JsonOf(lib, header).value) == None
    ensures HeaderFault(lib, header, alg) == Some(AlgorithmNotAllowed) <==>
            JsonOf(lib, header).Some? && lib.algorithmOf(JsonOf(lib, header).value) !in {None, Some(alg)}
    ensures HeaderFault(lib, header, alg) != Some(BadSignature) && HeaderFault(lib, header, alg) != Some(ClaimRejected)
  {
    hide UrlDecode;
  }

  lemma SignedIff<J>(lib: Library<J>, key: Bytes, alg: string, header: string, payload: string, signature: string)
    ensures Verified(lib, AlgorithmNamed(alg), key, SigningInput(header, payload), signature)
       <==> Signed(lib, key, alg, header, payload, signature)
  {
    hide UrlDecode, UrlEncode, AlgorithmNamed;
  }

  lemma BodyIs<J>(lib: Library<J>, payload: string, body: J)
    ensures ReadBody(lib, payload) == Ok(body) <==> JsonOf(lib, payload) == Some(body) && lib.acceptable(body)
    ensures ReadBody(lib, payload) == Err(NotBase64) <==> UrlDecode(payload) == None
    ensures ReadBody(lib, payload) == Err(NotJson) <==> NoJson(lib, payload)
    ensures ReadBody(lib, payload) == Err(ClaimRejected) <==>
            JsonOf(lib, payload).Some? && !lib.acceptable(JsonOf(lib, payload).value)
    ensures ReadBody(lib, payload) != Err(BadSignature)
  {
    hide UrlDecode;
  }

  /** A token is accepted, with this body, exactly when it is three parts, the header names the
      algorithm, the signature is one of the two segments, and the payload is that body. */
  lemma AcceptsIff<J>(lib: Library<J>, token: string, key: Bytes, alg: string, body: J)
    ensures DecodeToken(lib, token, key, alg) == Ok(body)
       <==> exists header, payload, signature ::
              && Decodable(alg, token, header, payload, signature) && HeaderNames(lib, header, alg)
              && Signed(lib, key, alg, header, payload, signature)
              && JsonOf(lib, payload) == Some(body) && lib.acceptable(body)
  {
    hide UrlEncode, UrlDecode, AlgorithmNamed, HeaderFault, ReadBody, SplitToken, Verified, Signed, HeaderNames, JsonOf;
    if DecodeToken(lib, token, key, alg) == Ok(body) {
      var Parts(h, p, s) := SplitToken(CString(token)).value;
      PartsAre(token, h, p, s);
      HeaderFaultIs(lib, h, alg);
      SignedIff(lib, key, alg, h, p, s);
      BodyIs(lib, p, body);
      assert Decodable(alg, token, h, p, s);
    }
    forall h, p, s | && Decodable(alg, token, h, p, s) && HeaderNames(lib, h, alg)
                     && Signed(lib, key, alg, h, p, s) && JsonOf(lib, p) == Some(body) && lib.acceptable(body)
      ensures DecodeToken(lib, token, key, alg) == Ok(body)
    {
      PartsAre(token, h, p, s);
      HeaderFaultIs(lib, h, alg);
      SignedIff(lib, key, alg, h, p, s);
      BodyIs(lib, p, body);
    }
  }

  /** What any other token of three parts is refused for: the header's fault, then the signature,
      then the payload's fault. */
  lemma RefusesIff<J>(lib: Library<J>, token: string, key: Bytes, alg: string, header: string, payload: string,
                      signature: string)
    requires Decodable(alg, token, header, payload, signature)
    ensures var result := DecodeToken(lib, token, key, alg);
      var passed := HeaderNames(lib, header, alg) && Signed(lib, key, alg, header, payload, signature);
      && (result == Err(NotBase64) <==> UrlDecode(header) == None || (passed && UrlDecode(payload) == None))
      && (result == Err(NotJson) <==> NoJson(lib, header) || (passed && NoJson(lib, payload)))
      && (result == Err(NoAlgorithm) <==>
            JsonOf(lib, header).Some? && lib.algorithmOf(JsonOf(lib, header).value) == None)
      && (result == Err(AlgorithmNotAllowed) <==>
            JsonOf(lib, header).Some? && lib.algorithmOf(JsonOf(lib, header).value) !in {None, Some(alg)})
      && (result == Err(BadSignature) <==>
            HeaderNames(lib, header, alg) && !Signed(lib, key, alg, header, payload, signature))
      && (result == Err(ClaimRejected) <==>
            passed && JsonOf(lib, payload).Some? && !lib.acceptable(JsonOf(lib, payload).value))
  {
    PartsAre(token, header, payload, signature);
    HeaderFaultIs(lib, header, alg);
    SignedIff(lib, key, alg, header, payload, signature);
    FaultOfBodyIs(lib, payload);
    hide UrlEncode, UrlDecode, AlgorithmNamed, HeaderFault, ReadBody, SplitToken, Verified, Signed, HeaderNames, JsonOf,
      NoJson;
  }

  /** What is wrong with a payload, whatever body it might hold. */
  lemma FaultOfBodyIs<J>(lib: Library<J>, payload: string)
    ensures ReadBody(lib, payload).Ok? || ReadBody(lib, payload).error in {NotBase64, NotJson, ClaimRejected}
    ensures ReadBody(lib, payload) == Err(NotBase64) <==> UrlDecode(payload) == None
    ensures ReadBody(lib, payload) == Err(NotJson) <==> NoJson(lib, payload)
    ensures ReadBody(lib, payload) == Err(ClaimRejected) <==>
            JsonOf(lib, payload).Some? && !lib.acceptable(JsonOf(lib, payload).value)
  {
    hide UrlDecode;
  }

  /** Without three parts nothing is decoded, and without a supported algorithm nothing is looked at. */
  lemma UndecodableIff<J>(lib: Library<J>, token: string, key: Bytes, alg: string)
    ensures DecodeToken(lib, token, key, alg) == Err(AlgorithmNotSupported) <==> AlgorithmNamed(alg) == Unsupported
    ensures DecodeToken(lib, token, key, alg) == Err(MissingPart) <==>
            && AlgorithmNamed(alg) != Unsupported
            && !exists header, payload, signature :: IsToken(CString(token), header, payload, signature)
  {
    hide UrlEncode, UrlDecode, AlgorithmNamed, SplitToken, Verified;
    forall h, p, s
      ensures IsToken(CString(token), h, p, s) <==> SplitToken(CString(token)) == Some(Parts(h, p, s))
    {
      PartsAre(token, h, p, s);
    }
    if SplitToken(CString(token)).Some? {
      var Parts(h, p, s) := SplitToken(CString(token)).value;
      assert IsToken(CString(token), h, p, s);
    }
  }

  /** Encoding fails for two reasons only: the algorithm is not supported, or the key cannot sign. */
  lemma EncodingFailsIff<J>(lib: Library<J>, payload: J, key: Bytes, alg: string)
    ensures EncodeToken(lib, payload, key, alg) == Err(AlgorithmNotSupported) <==> AlgorithmNamed(alg) == Unsupported
    ensures EncodeToken(lib, payload, key, alg) == Err(CannotSign) <==>
            && AlgorithmNamed(alg).PublicKey?
            && lib.sign(AlgorithmNamed(alg).name, key,
                        UrlEncode(lib.toJson(lib.header(alg))) + "." + UrlEncode(lib.toJson(payload))) == None
    ensures EncodeToken(lib, payload, key, alg).Ok? || EncodeToken(lib, payload, key, alg).error in
              {AlgorithmNotSupported, CannotSign}
  {
    hide UrlEncode, AlgorithmNamed;
  }
}
