/** `TripCodeGenerator`: six symbols drawn from a 32-symbol alphabet. The
    secure random source is replaced by the sequence of indices it draws. */
module TripCodes {
  import opened Seqs

  const CHARACTERS := "ABCDEFGHJKLMNPQRSTUVWXYZ23456789"
  const CODE_LENGTH := 6

  /** The symbols of the alphabet, described without the literal: upper-case
      letters except I and O, and the digits 2 to 9. */
  predicate InAlphabet(c: char)
  {
    ('A' <= c <= 'H') || ('J' <= c <= 'N') || ('P' <= c <= 'Z') || ('2' <= c <= '9')
  }

  /** Position of an alphabet symbol in `CHARACTERS`. */
  function SymbolIndex(c: char): (k: nat)
    requires InAlphabet(c)
    ensures k < |CHARACTERS|
  {
    if 'A' <= c <= 'H' then (c as int - 'A' as int) as nat
    else if 'J' <= c <= 'N' then (c as int - 'A' as int - 1) as nat
    else if 'P' <= c <= 'Z' then (c as int - 'A' as int - 2) as nat
    else (c as int - '2' as int + 24) as nat
  }

  /** Each position of the alphabet holds a symbol that decodes back to that
      position; so the alphabet has no repeated symbol. */
  lemma AlphabetDecodes()
    ensures |CHARACTERS| == 32
    ensures forall k :: 0 <= k < |CHARACTERS| ==> InAlphabet(CHARACTERS[k]) && SymbolIndex(CHARACTERS[k]) == k
  {
  }

  lemma AlphabetNoDup()
    ensures NoDup(CHARACTERS)
  {
    AlphabetDecodes();
  }

  /** One random draw per symbol, each as `random.nextInt(32)` returns it. */
  predicate ValidDraws(draws: seq<nat>)
  {
    forall i :: 0 <= i < |draws| ==> draws[i] < |CHARACTERS|
  }

  /** The code a sequence of draws spells. */
  function CodeOf(draws: seq<nat>): (code: string)
    requires ValidDraws(draws)
    ensures |code| == |draws|
    ensures forall i :: 0 <= i < |draws| ==> code[i] == CHARACTERS[draws[i]]
  {
    if draws == [] then ""
    else CodeOf(draws[..|draws| - 1]) + [CHARACTERS[draws[|draws| - 1]]]
  }

  /** `generate()`: appends one alphabet symbol per draw to a builder. */
  method Generate(draws: seq<nat>) returns (code: string)
    requires |draws| == CODE_LENGTH && ValidDraws(draws)
    ensures code == CodeOf(draws)
    ensures |code| == CODE_LENGTH
    ensures forall i :: 0 <= i < |code| ==> InAlphabet(code[i])
  {
    code := "";
    for i := 0 to CODE_LENGTH
      invariant code == CodeOf(draws[..i])
    {
      code := code + [CHARACTERS[draws[i]]];
      assert draws[..i + 1][..i] == draws[..i];
    }
    assert draws[..CODE_LENGTH] == draws;
    AlphabetDecodes();
  }

  /** `generateWithPrefix(prefix)`: the prefix followed by a fresh code. */
  method GenerateWithPrefix(prefix: string, draws: seq<nat>) returns (code: string)
    requires |draws| == CODE_LENGTH && ValidDraws(draws)
    ensures |code| == |prefix| + CODE_LENGTH
    ensures code[..|prefix|] == prefix && code[|prefix|..] == CodeOf(draws)
  {
    var suffix := Generate(draws);
    code := prefix + suffix;
  }

  /** No code holds one of the easily confused characters 0, O, 1 and I. */
  lemma CodeAvoidsConfusables(draws: seq<nat>)
    requires ValidDraws(draws)
    ensures forall i :: 0 <= i < |CodeOf(draws)| ==> CodeOf(draws)[i] !in {'0', 'O', '1', 'I'}
  {
    AlphabetDecodes();
  }

  /** Distinct draw sequences spell distinct codes. */
  lemma CodeOfInjective(a: seq<nat>, b: seq<nat>)
    requires ValidDraws(a) && ValidDraws(b) && |a| == |b|
    requires CodeOf(a) == CodeOf(b)
    ensures a == b
  {
    AlphabetDecodes();
    forall i | 0 <= i < |a|
      ensures a[i] == b[i]
    {
      assert CHARACTERS[a[i]] == CodeOf(a)[i] == CodeOf(b)[i] == CHARACTERS[b[i]];
      assert SymbolIndex(CHARACTERS[a[i]]) == a[i];
    }
  }
}
