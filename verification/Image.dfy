/** Repeating a string by copying an ever longer part of the result behind itself. */
module Image {
  import opened Arithmetic
  import opened Text

  /** The input over and over. */
  function Repeated(input: string, mult: nat): (r: string)
    ensures |r| == |input| * mult
  {
    if mult == 0 then "" else Repeated(input, mult - 1) + input
  }

  /** Copies bytes within a buffer as if by way of a temporary one, so that the areas may overlap. */
  method MemMove(buffer: array<char>, to: nat, from: nat, n: nat)
    requires from + n <= buffer.Length && to + n <= buffer.Length
    modifies buffer
    ensures forall k :: to <= k < to + n ==> buffer[k] == old(buffer[from + (k - to)])
    ensures forall k :: 0 <= k < to || to + n <= k < buffer.Length ==> buffer[k] == old(buffer[k])
  {
    forall k | to <= k < to + n {
      buffer[k] := buffer[from + (k - to)];
    }
  }

  /** These bytes are the input over and over. */
  ghost predicate Turns(buffer: array<char>, input: string, n: nat)
    requires n <= buffer.Length && |input| > 0
    reads buffer
  {
    forall k :: 0 <= k < n ==> buffer[k] == input[k % |input|]
  }

  /** A copy of written bytes behind a whole number of turns goes on where they stop. */
  lemma CopyGoesOn(input: string, written: string, e: nat, l: nat)
    requires |input| > 0 && l <= e <= |written| - l && e % |input| == 0
    requires forall k :: 0 <= k < e ==> written[k] == input[k % |input|]
    requires forall k :: e <= k < e + l ==> written[k] == written[k - e]
    ensures forall k :: 0 <= k < e + l ==> written[k] == input[k % |input|]
    ensures (e + e) % |input| == 0
  {
    forall k | e <= k < e + l
      ensures written[k] == input[k % |input|]
    {
      WholeTurns(e, k - e, |input|);
    }
    WholeTurns(e, e, |input|);
  }

  /** Whole copies of what is already there double the written part; the last is cut to what is missing. */
  method FillByDoubling(buffer: array<char>, input: string, length: nat)
    requires 0 < |input| <= length <= buffer.Length
    modifies buffer
    ensures Turns(buffer, input, length)
  {
    forall k | 0 <= k < |input| {
      buffer[k] := input[k];
    }
    var e := |input|;
    while e < length
      invariant |input| <= e <= length && (e < length ==> e % |input| == 0)
      invariant Turns(buffer, input, e)
    {
      var l := if e < length - e then e else length - e;
      MemMove(buffer, e, 0, l);
      CopyGoesOn(input, buffer[..], e, l);
      e := e + l;
    }
  }

  /**
   * Nothing for a negative multiplier; otherwise the string, whose terminator is in the
   * buffer as well.
   */
  method StrRepeat(input: string, mult: int) returns (result: Option<string>)
    ensures result == if mult < 0 then None else Some(Repeated(input, mult))
  {
    if mult < 0 {
      return None;
    }
    if |input| == 0 || mult == 0 {
      EmptyRepeats(input, mult);
      return Some("");
    }
    var resultLength := |input| * mult;
    AtLeastOnce(|input|, mult);
    var buffer := new char[resultLength + 1];
    if |input| == 1 {
      forall k | 0 <= k < mult {
        buffer[k] := input[0];
      }
    } else {
      FillByDoubling(buffer, input, resultLength);
    }
    buffer[resultLength] := '\0';
    IsRepeated(input, mult, buffer[..resultLength]);
    result := Some(buffer[..resultLength]);
  }

  /** Each position of a repeated string holds the character at that position modulo the length. */
  lemma {:induction false} RepeatedAt(input: string, mult: nat, k: nat)
    requires |input| > 0 && k < |input| * mult
    ensures Repeated(input, mult)[k] == input[k % |input|]
  {
    var before := |input| * (mult - 1);
    Distribute(|input|, mult - 1, 1);
    if k < before {
      RepeatedAt(input, mult - 1, k);
    } else {
      RemainderIs(k, mult - 1, k - before, |input|);
    }
  }

  /** Whatever holds these characters is the repeated string. */
  lemma IsRepeated(input: string, mult: nat, s: string)
    requires |input| > 0 && |s| == |input| * mult
    requires forall k :: 0 <= k < |s| ==> s[k] == input[k % |input|]
    ensures s == Repeated(input, mult)
  {
    forall k | 0 <= k < |s|
      ensures s[k] == Repeated(input, mult)[k]
    {
      RepeatedAt(input, mult, k);
    }
  }

  lemma EmptyRepeats(input: string, mult: nat)
    requires input == "" || mult == 0
    ensures Repeated(input, mult) == ""
  {
  }
}
