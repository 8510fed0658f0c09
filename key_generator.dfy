/**
 * `generateApiKey` of lib/api-keys.js: the fixed prefix followed by 32 characters
 * drawn from the 62 ASCII letters and digits. `Math.random` is replaced by the
 * sequence of 32 indices it would have produced.
 */
module KeyGenerator {

  const KeyPrefix: string := "dandi-"
  const RandomLength: nat := 32

  predicate IsAlphanumeric(c: char)
  {
    'A' <= c <= 'Z' || 'a' <= c <= 'z' || '0' <= c <= '9'
  }

  /** The position of an alphanumeric character in `Alphabet`. */
  function AlphabetIndex(c: char): (i: nat)
    requires IsAlphanumeric(c)
    ensures i < 62
  {
    if 'A' <= c <= 'Z' then c as int - 'A' as int
    else if 'a' <= c <= 'z' then c as int - 'a' as int + 26
    else c as int - '0' as int + 52
  }

  const UpperLetters: string := "ABCDEFGHIJKLMNOPQRSTUVWXYZ"
  const LowerLetters: string := "abcdefghijklmnopqrstuvwxyz"
  const DecimalDigits: string := "0123456789"
  /** The 62 characters a key body is drawn from, in the order the source lists them. */
  const Alphabet: string := UpperLetters + LowerLetters + DecimalDigits

  lemma UpperLettersInOrder()
    ensures forall i :: 0 <= i < 26 ==> UpperLetters[i] == ('A' as int + i) as char
  {
  }

  lemma LowerLettersInOrder()
    ensures forall i :: 0 <= i < 26 ==> LowerLetters[i] == ('a' as int + i) as char
  {
  }

  lemma DecimalDigitsInOrder()
    ensures forall i :: 0 <= i < 10 ==> DecimalDigits[i] == ('0' as int + i) as char
  {
  }

  /** `Alphabet` is exactly the 62 characters of `[A-Za-z0-9]`, each once. */
  lemma AlphabetIsAlphanumeric()
    ensures |Alphabet| == 62
    ensures forall i :: 0 <= i < 62 ==> IsAlphanumeric(Alphabet[i]) && AlphabetIndex(Alphabet[i]) == i
  {
    UpperLettersInOrder();
    LowerLettersInOrder();
    DecimalDigitsInOrder();
    forall i | 0 <= i < 62
      ensures IsAlphanumeric(Alphabet[i]) && AlphabetIndex(Alphabet[i]) == i
    {
      if i < 26 {
        assert Alphabet[i] == UpperLetters[i];
      } else if i < 52 {
        assert Alphabet[i] == LowerLetters[i - 26];
      } else {
        assert Alphabet[i] == DecimalDigits[i - 52];
      }
    }
  }

  /** The 32 draws of `Math.floor(Math.random() * 62)`, each an index into `Alphabet`. */
  predicate IsRandomDraw(draw: seq<nat>)
  {
    |draw| == RandomLength && forall i :: 0 <= i < |draw| ==> draw[i] < |Alphabet|
  }

  /** A key of the generated shape: the prefix and 32 characters of `[A-Za-z0-9]`. */
  predicate IsGeneratedKey(key: string)
  {
    |key| == 38 && key[..6] == KeyPrefix && forall i :: 6 <= i < |key| ==> IsAlphanumeric(key[i])
  }

  /** The key generated from a given draw. */
  function KeyFor(draw: seq<nat>): (key: string)
    requires IsRandomDraw(draw)
  {
    KeyPrefix + seq(RandomLength, i requires 0 <= i < RandomLength => Alphabet[draw[i]])
  }

  /** `generateApiKey`: the prefix followed by one alphabet character per draw. */
  method GenerateApiKey(draw: seq<nat>) returns (key: string)
    requires IsRandomDraw(draw)
    ensures key == KeyFor(draw)
    ensures IsGeneratedKey(key)
  {
    AlphabetIsAlphanumeric();
    key := KeyPrefix;
    var i := 0;
    while i < RandomLength
      invariant 0 <= i <= RandomLength
      invariant |key| == |KeyPrefix| + i && key[..|KeyPrefix|] == KeyPrefix
      invariant forall j :: 0 <= j < i ==> key[|KeyPrefix| + j] == Alphabet[draw[j]]
    {
      key := key + [Alphabet[draw[i]]];
      i := i + 1;
    }
  }

  /** Distinct draws give distinct keys: a key determines the draw it came from. */
  lemma {:induction false} KeyDeterminesDraw(d1: seq<nat>, d2: seq<nat>)
    requires IsRandomDraw(d1) && IsRandomDraw(d2)
    requires KeyFor(d1) == KeyFor(d2)
    ensures d1 == d2
  {
    AlphabetIsAlphanumeric();
    forall i | 0 <= i < RandomLength
      ensures d1[i] == d2[i]
    {
      assert KeyFor(d1)[|KeyPrefix| + i] == Alphabet[d1[i]];
      assert KeyFor(d2)[|KeyPrefix| + i] == Alphabet[d2[i]];
      assert AlphabetIndex(Alphabet[d1[i]]) == d1[i];
    }
  }
}
