/**
 * `generateCsrf` (src/account.js:99-107): 64 characters, each picked from a
 * fixed alphabet by scaling one `Math.random()` draw. The draws are an
 * input here.
 */
module Csrf {
  /** The alphabet, written as in the source: digits, then lower- and upper-case letters in keyboard order. */
  const Alphabet: string := AlphabetStart + AlphabetEnd

  /** The first half of the alphabet: the digits and the lower-case letters in keyboard order. */
  const AlphabetStart: string := "1234567890qazxswedcvfrtgbnhyujm"

  /** The second half: the remaining lower-case and the upper-case letters. */
  const AlphabetEnd: string := "kiolpQAZXSWEDCVFRTGBNHYUJMKIOLP"

  const TokenLength: nat := 64

  /** `Math.random()` returns a number in [0, 1). */
  predicate IsDraw(d: real)
  {
    0.0 <= d < 1.0
  }

  /** The draws one call consumes: one per character. */
  predicate ValidDraws(draws: seq<real>)
  {
    |draws| == TokenLength && forall i :: 0 <= i < |draws| ==> IsDraw(draws[i])
  }

  /** `Math.floor(d * alpha.length)`: always a valid position in the alphabet. */
  function AlphabetIndex(d: real): (k: nat)
    requires IsDraw(d)
    ensures k < |Alphabet|
    ensures k as real <= d * |Alphabet| as real < k as real + 1.0
  {
    (d * |Alphabet| as real).Floor
  }

  /** The character one draw selects. */
  function CharOf(d: real): char
    requires IsDraw(d)
  {
    Alphabet[AlphabetIndex(d)]
  }

  /** An ASCII digit or letter. */
  predicate IsAlphanumeric(c: char)
  {
    ('0' <= c <= '9') || ('a' <= c <= 'z') || ('A' <= c <= 'Z')
  }

  /** A token of the generator's shape: 64 characters of the alphabet. */
  predicate IsToken(t: string)
  {
    |t| == TokenLength && forall i :: 0 <= i < |t| ==> t[i] in Alphabet
  }

  /** The token the draws determine: character `i` comes from draw `i`. */
  function TokenFrom(draws: seq<real>): (t: string)
    requires ValidDraws(draws)
  {
    seq(TokenLength, i requires 0 <= i < TokenLength => CharOf(draws[i]))
  }

  /** `generateCsrf()`: the loop appends one character per draw. */
  method GenerateCsrf(draws: seq<real>) returns (token: string)
    requires ValidDraws(draws)
    ensures token == TokenFrom(draws)
    ensures IsToken(token)
  {
    token := "";
    var i := 0;
    while i < TokenLength
      invariant 0 <= i <= TokenLength
      invariant |token| == i
      invariant forall j :: 0 <= j < i ==> token[j] == CharOf(draws[j])
    {
      token := token + [Alphabet[AlphabetIndex(draws[i])]];
      i := i + 1;
    }
  }

  /** Every generated token is alphanumeric, so it needs no escaping in a cookie or a header. */
  lemma TokenIsAlphanumeric(draws: seq<real>)
    requires ValidDraws(draws)
    ensures IsToken(TokenFrom(draws))
    ensures forall i :: 0 <= i < TokenLength ==> IsAlphanumeric(TokenFrom(draws)[i])
  {
    AlphabetIsAlphanumeric();
  }

  /** Every alphabet character is an ASCII digit or letter. */
  lemma AlphabetIsAlphanumeric()
    ensures |Alphabet| == 62
    ensures forall i :: 0 <= i < |Alphabet| ==> IsAlphanumeric(Alphabet[i])
  {
    AllAlphanumeric(AlphabetStart);
    AllAlphanumeric(AlphabetEnd);
    forall i | 0 <= i < |Alphabet|
      ensures IsAlphanumeric(Alphabet[i])
    {
      if i < |AlphabetStart| {
        assert Alphabet[i] == AlphabetStart[i];
      } else {
        assert Alphabet[i] == AlphabetEnd[i - |AlphabetStart|];
      }
    }
  }

  /** Each half of the alphabet, checked character by character. */
  lemma AllAlphanumeric(s: string)
    requires s == AlphabetStart || s == AlphabetEnd
    ensures |s| == 31
    ensures forall i :: 0 <= i < |s| ==> IsAlphanumeric(s[i])
  {
  }

  /** Every alphabet position is reachable: the draw `k / 62` selects character `k`. */
  lemma EveryCharacterReachable(k: nat)
    requires k < |Alphabet|
    ensures IsDraw(k as real / |Alphabet| as real)
    ensures AlphabetIndex(k as real / |Alphabet| as real) == k
  {
  }
}
