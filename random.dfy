/**
 * Random strings over a fixed alphabet. The random source is a stream of
 * raw draws `rnd`; step i picks the alphabet index `Intn(rnd[i], n)`.
 */
module Random {

  const LetterRunes: string := "abcdefghijklmnopqrstuvwxyzABCDEFGHIJKLMNOPQRSTUVWXYZ0123456789"
  const NumberRunes: string := "0123456789"

  /** `rnd.Intn(n)`: maps a raw draw into [0, n). */
  function Intn(draw: nat, n: nat): (k: nat)
    requires n > 0
    ensures k < n
  {
    draw % n
  }

  predicate IsAlphanumeric(c: char) {
    'a' <= c <= 'z' || 'A' <= c <= 'Z' || '0' <= c <= '9'
  }

  predicate IsDigit(c: char) {
    '0' <= c <= '9'
  }

  const LowerRunes: string := "abcdefghijklmnopqrstuvwxyz"
  const UpperRunes: string := "ABCDEFGHIJKLMNOPQRSTUVWXYZ"

  lemma LetterRunesSplit()
    ensures LetterRunes == LowerRunes + UpperRunes + NumberRunes
  {
  }

  lemma LowerRunesLetters()
    ensures forall j :: 0 <= j < |LowerRunes| ==> 'a' <= LowerRunes[j] <= 'z'
  {
  }

  lemma UpperRunesLetters()
    ensures forall j :: 0 <= j < |UpperRunes| ==> 'A' <= UpperRunes[j] <= 'Z'
  {
  }

  /** The 62-symbol alphabet holds only letters and digits. */
  lemma LetterRunesAlphanumeric()
    ensures |LetterRunes| == 62
    ensures forall j :: 0 <= j < |LetterRunes| ==> IsAlphanumeric(LetterRunes[j])
  {
    LetterRunesSplit();
    LowerRunesLetters();
    UpperRunesLetters();
    NumberRunesDigits();
    forall j | 0 <= j < |LetterRunes|
      ensures IsAlphanumeric(LetterRunes[j])
    {
      if j < 26 {
        assert LetterRunes[j] == LowerRunes[j];
      } else if j < 52 {
        assert LetterRunes[j] == UpperRunes[j - 26];
      } else {
        assert LetterRunes[j] == NumberRunes[j - 52];
      }
    }
  }

  lemma NumberRunesDigits()
    ensures |NumberRunes| == 10
    ensures forall j :: 0 <= j < |NumberRunes| ==> IsDigit(NumberRunes[j])
  {
  }

  /** `GenerateRandomString(length)`: `length` letters or digits, slot i chosen by draw i. */
  method GenerateRandomString(length: nat, rnd: seq<nat>) returns (s: string)
    requires |rnd| >= length
    ensures |s| == length
    ensures forall k :: 0 <= k < length ==> s[k] == LetterRunes[Intn(rnd[k], |LetterRunes|)]
    ensures forall k :: 0 <= k < length ==> IsAlphanumeric(s[k])
  {
    LetterRunesAlphanumeric();
    var b := new char[length];
    for i := 0 to length
      invariant forall k :: 0 <= k < i ==> b[k] == LetterRunes[Intn(rnd[k], |LetterRunes|)]
    {
      b[i] := LetterRunes[Intn(rnd[i], |LetterRunes|)];
    }
    s := b[..];
  }

  /** `GenerateRandomNumber(length)`: `length` decimal digits, slot i chosen by draw i. */
  method GenerateRandomNumber(length: nat, rnd: seq<nat>) returns (s: string)
    requires |rnd| >= length
    ensures |s| == length
    ensures forall k :: 0 <= k < length ==> s[k] == NumberRunes[Intn(rnd[k], |NumberRunes|)]
    ensures forall k :: 0 <= k < length ==> IsDigit(s[k])
  {
    NumberRunesDigits();
    var b := new char[length];
    for i := 0 to length
      invariant forall k :: 0 <= k < i ==> b[k] == NumberRunes[Intn(rnd[k], |NumberRunes|)]
    {
      b[i] := NumberRunes[Intn(rnd[i], |NumberRunes|)];
    }
    s := b[..];
  }
}
