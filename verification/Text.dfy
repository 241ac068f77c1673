/** Shared vocabulary: optional values, and text as C and PHP treat it. */
module Text {

  datatype Option<+T> = None | Some(value: T)

  type Byte = b: int | 0 <= b < 256
  type Bytes = seq<Byte>

  /** ASCII case folding, as `strcasecmp` and PCRE's `/i` apply it to a byte. */
  function Fold(c: char): char {
    if 'A' <= c <= 'Z' then c - 'A' + 'a' else c
  }

  predicate EqualFold(a: string, b: string) {
    |a| == |b| && forall i :: 0 <= i < |a| ==> Fold(a[i]) == Fold(b[i])
  }

  /** The same letter in either case, or the same character. */
  predicate SameLetter(c: char, d: char) {
    c == d || ('A' <= c <= 'Z' && d as int == c as int + 32) || ('A' <= d <= 'Z' && c as int == d as int + 32)
  }

  /** Text is compared letter by letter, in either case of the ASCII letters. */
  lemma EqualFoldIff(a: string, b: string)
    ensures EqualFold(a, b) <==> |a| == |b| && forall i :: 0 <= i < |a| ==> SameLetter(a[i], b[i])
  {
    assert forall i :: 0 <= i < |a| && |a| == |b| ==> (Fold(a[i]) == Fold(b[i]) <==> SameLetter(a[i], b[i]));
  }

  /** The C string a buffer holds: what comes before its first NUL. */
  function CString(buffer: string): (s: string)
    ensures s <= buffer && '\0' !in s
    ensures |s| < |buffer| ==> buffer[|s|] == '\0'
  {
    if buffer == "" || buffer[0] == '\0' then "" else [buffer[0]] + CString(buffer[1..])
  }

  lemma {:induction false} NulEnds(buffer: string)
    requires '\0' in buffer
    ensures |CString(buffer)| < |buffer|
  {
    if buffer[0] != '\0' {
      assert buffer == [buffer[0]] + buffer[1..];
      NulEnds(buffer[1..]);
    }
  }

  /** The first NUL ends the string. */
  lemma {:induction false} CStringIs(buffer: string, s: string)
    requires s <= buffer && '\0' !in s && |s| < |buffer| && buffer[|s|] == '\0'
    ensures CString(buffer) == s
  {
    if s != "" {
      assert buffer[0] == s[0];
      CStringIs(buffer[1..], s[1..]);
    }
  }

  /** What PHP's `php_str_to_str` returns: every occurrence of `needle`, taken
      from the left without overlap, replaced by `sub`. */
  function ReplaceAll(s: string, needle: string, sub: string): string
    requires needle != ""
  {
    if s == "" then ""
    else if needle <= s then sub + ReplaceAll(s[|needle|..], needle, sub)
    else [s[0]] + ReplaceAll(s[1..], needle, sub)
  }

  /** A stretch in which no occurrence starts is copied as it is. */
  lemma {:induction false} ReplaceAllSkips(a: string, b: string, needle: string, sub: string)
    requires needle != ""
    requires forall i :: 0 <= i < |a| ==> !(needle <= (a + b)[i..])
    ensures ReplaceAll(a + b, needle, sub) == a + ReplaceAll(b, needle, sub)
  {
    if a == "" {
      assert a + b == b;
    } else {
      var s := a + b;
      assert s[0..] == s;
      assert s[1..] == a[1..] + b;
      forall i | 0 <= i < |a[1..]|
        ensures !(needle <= (a[1..] + b)[i..])
      {
        assert (a[1..] + b)[i..] == s[i + 1..];
      }
      ReplaceAllSkips(a[1..], b, needle, sub);
      assert [s[0]] + (a[1..] + ReplaceAll(b, needle, sub)) == a + ReplaceAll(b, needle, sub);
    }
  }

  /** An occurrence at the front is replaced and the scan goes on behind it. */
  lemma ReplaceAllHits(b: string, needle: string, sub: string)
    requires needle != ""
    ensures ReplaceAll(needle + b, needle, sub) == sub + ReplaceAll(b, needle, sub)
  {
    assert (needle + b)[|needle|..] == b;
  }
}
