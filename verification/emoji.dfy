/** `convertToEmoji`: a country code becomes a flag by upper-casing each character and
    shifting its code by 127397, which sends `A`..`Z` onto the regional indicator symbols
    U+1F1E6..U+1F1FF (Unicode Standard, chapter 22; flag sequences of UTS #51).
    Input is restricted to ASCII; the flag is a sequence of code points. */
module Emoji {

  /** The shift the source adds to each character code. */
  const Offset: int := 127397

  /** REGIONAL INDICATOR SYMBOL LETTER A and LETTER Z. */
  const RegionalA: int := 0x1F1E6
  const RegionalZ: int := 0x1F1FF

  predicate IsAscii(s: string)
  {
    forall i :: 0 <= i < |s| ==> s[i] as int < 128
  }

  predicate IsUpper(c: char) { 'A' <= c <= 'Z' }
  predicate IsLower(c: char) { 'a' <= c <= 'z' }
  predicate IsLetter(c: char) { IsUpper(c) || IsLower(c) }

  /** Position of a letter in the alphabet, whatever its case. */
  function LetterIndex(c: char): (n: int)
    requires IsLetter(c)
    ensures 0 <= n < 26
  {
    if IsUpper(c) then c as int - 'A' as int else c as int - 'a' as int
  }

  /** `toUpperCase` on one ASCII character. */
  function UpperChar(c: char): (u: char)
    ensures IsLetter(c) ==> IsUpper(u) && LetterIndex(u) == LetterIndex(c)
    ensures !IsLower(c) ==> u == c
  {
    if IsLower(c) then (c as int - 32) as char else c
  }

  /** `toLowerCase` on one ASCII character. */
  function LowerChar(c: char): (l: char)
    ensures IsLetter(c) ==> IsLower(l) && LetterIndex(l) == LetterIndex(c)
    ensures !IsUpper(c) ==> l == c
  {
    if IsUpper(c) then (c as int + 32) as char else c
  }

  function ToUpper(s: string): (r: string)
    ensures |r| == |s|
    ensures forall i :: 0 <= i < |s| ==> r[i] == UpperChar(s[i])
  {
    seq(|s|, i requires 0 <= i < |s| => UpperChar(s[i]))
  }

  function ToLower(s: string): (r: string)
    ensures |r| == |s|
    ensures forall i :: 0 <= i < |s| ==> r[i] == LowerChar(s[i])
  {
    seq(|s|, i requires 0 <= i < |s| => LowerChar(s[i]))
  }

  /** A code of upper-case ASCII letters, such as an ISO 3166-1 alpha-2 code. */
  predicate IsUpperCode(s: string)
  {
    forall i :: 0 <= i < |s| ==> IsUpper(s[i])
  }

  /** The code points a flag may contain: the images of the 128 ASCII characters. */
  predicate InFlagRange(flag: seq<int>)
  {
    forall i :: 0 <= i < |flag| ==> Offset <= flag[i] < Offset + 128
  }

  /** `convertToEmoji(countryCode)`: one code point per input character, in order. A
      letter of either case lands on the regional indicator of its alphabet position;
      any other character is shifted unchanged. */
  function ConvertToEmoji(code: string): (flag: seq<int>)
    requires IsAscii(code)
    ensures |flag| == |code|
    ensures InFlagRange(flag)
    ensures forall i :: 0 <= i < |code| && IsLetter(code[i]) ==>
              RegionalA <= flag[i] <= RegionalZ && flag[i] - RegionalA == LetterIndex(code[i])
    ensures forall i :: 0 <= i < |code| && !IsLetter(code[i]) ==> flag[i] == Offset + code[i] as int
  {
    seq(|code|, i requires 0 <= i < |code| => Offset + UpperChar(code[i]) as int)
  }

  /** Reads a flag back into the upper-case code it came from. */
  function FlagToCode(flag: seq<int>): (code: string)
    requires InFlagRange(flag)
    ensures |code| == |flag|
    ensures IsAscii(code)
  {
    seq(|flag|, i requires 0 <= i < |flag| => (flag[i] - Offset) as char)
  }

  /** Decoding a flag yields the upper-cased input. */
  lemma FlagRoundTrip(code: string)
    requires IsAscii(code)
    ensures FlagToCode(ConvertToEmoji(code)) == ToUpper(code)
  {
  }

  /** Every flag made of upper-case images comes from its decoded code. */
  lemma CodeRoundTrip(flag: seq<int>)
    requires InFlagRange(flag)
    requires IsUpperCode(FlagToCode(flag))
    ensures ConvertToEmoji(FlagToCode(flag)) == flag
  {
  }

  /** Two codes give the same flag exactly when they agree after upper-casing. */
  lemma SameFlagIffSameUpper(a: string, b: string)
    requires IsAscii(a) && IsAscii(b)
    ensures ConvertToEmoji(a) == ConvertToEmoji(b) <==> ToUpper(a) == ToUpper(b)
  {
  }

  /** A lower-case spelling gives the same flag as the code itself. */
  lemma CaseInsensitive(code: string)
    requires IsAscii(code)
    ensures IsAscii(ToLower(code))
    ensures ConvertToEmoji(ToLower(code)) == ConvertToEmoji(code)
  {
  }

  /** Distinct upper-case codes give distinct flags. */
  lemma InjectiveOnUpperCodes(a: string, b: string)
    requires IsUpperCode(a) && IsUpperCode(b)
    ensures IsAscii(a) && IsAscii(b)
    ensures ConvertToEmoji(a) == ConvertToEmoji(b) <==> a == b
  {
  }

  /** "FR" and "fr" both give the French flag, U+1F1EB U+1F1F7; a single character
      gives a single regional indicator. */
  lemma Examples()
    ensures ConvertToEmoji("FR") == [0x1F1EB, 0x1F1F7]
    ensures ConvertToEmoji("fr") == [0x1F1EB, 0x1F1F7]
    ensures ConvertToEmoji("US") == [0x1F1FA, 0x1F1F8]
    ensures ConvertToEmoji("u") == [0x1F1FA]
  {
  }
}
