/**
 * Short identifiers: `generateId` builds a string of `length` characters
 * (7 by default), each picked at random from a fixed 62-character alphabet.
 *
 * The random source `Math.floor(Math.random() * characters.length)` is
 * replaced by a sequence of draws, one per character, each an index into
 * the alphabet.
 */
module ShortIds {

  /**
   * The alphabet `generateId` picks from, in the source's order: the
   * 62-character literal "ABC...XYZabc...xyz0123456789", written as its
   * three runs.
   */
  const Uppercase: string := "ABCDEFGHIJKLMNOPQRSTUVWXYZ"
  const Lowercase: string := "abcdefghijklmnopqrstuvwxyz"
  const Digits: string := "0123456789"
  const Characters: string := Uppercase + Lowercase + Digits

  /** The default `length` parameter of `generateId`. */
  const DefaultIdLength: nat := 7

  /** One random pick `Math.floor(Math.random() * 62)`: an index into the alphabet. */
  type Draw = i: int | 0 <= i < 62

  /** Reference definition of the alphabet, by character ranges. */
  predicate IsIdChar(c: char) {
    ('A' <= c <= 'Z') || ('a' <= c <= 'z') || ('0' <= c <= '9')
  }

  /** A string that `generateId()` (default length) can produce. */
  predicate IsShortId(s: string) {
    |s| == DefaultIdLength && forall i :: 0 <= i < |s| ==> IsIdChar(s[i])
  }

  /** The character at each position of the alphabet, by arithmetic on code points. */
  lemma CharacterAt(d: Draw)
    ensures |Characters| == 62
    ensures d < 26 ==> Characters[d] as int == 'A' as int + d
    ensures 26 <= d < 52 ==> Characters[d] as int == 'a' as int + (d - 26)
    ensures 52 <= d ==> Characters[d] as int == '0' as int + (d - 52)
  {
    var front := Uppercase + Lowercase;
    assert Characters == front + Digits;
    if d < 26 {
      assert Characters[d] == front[d] == Uppercase[d];
      RunAt(Uppercase, 'A', d);
    } else if d < 52 {
      assert Characters[d] == front[d] == Lowercase[d - 26];
      RunAt(Lowercase, 'a', d - 26);
    } else {
      assert Characters[d] == Digits[d - 52];
      RunAt(Digits, '0', d - 52);
    }
  }

  /** Each of the three runs holds consecutive code points. */
  lemma RunAt(run: string, first: char, i: nat)
    requires (run == Uppercase && first == 'A') || (run == Lowercase && first == 'a') || (run == Digits && first == '0')
    requires i < |run|
    ensures run[i] as int == first as int + i
  {
  }

  /** `characters.charAt(d)` always yields an alphanumeric character. */
  lemma CharacterIsIdChar(d: Draw)
    ensures IsIdChar(Characters[d])
  {
    CharacterAt(d);
  }

  /** The position of an alphanumeric character in the alphabet. */
  function DrawOf(c: char): (d: Draw)
    requires IsIdChar(c)
    ensures Characters[d] == c
  {
    var d: Draw :=
      if 'A' <= c <= 'Z' then c as int - 'A' as int
      else if 'a' <= c <= 'z' then c as int - 'a' as int + 26
      else c as int - '0' as int + 52;
    CharacterAt(d);
    d
  }

  /** The 62 characters of the alphabet are pairwise distinct. */
  lemma CharactersDistinct(d: Draw, e: Draw)
    requires Characters[d] == Characters[e]
    ensures d == e
  {
    CharacterAt(d);
    CharacterAt(e);
  }

  /** The identifier a sequence of draws spells out. */
  function IdOf(draws: seq<Draw>): (id: string)
    ensures |id| == |draws|
    ensures forall i :: 0 <= i < |id| ==> id[i] == Characters[draws[i]] && IsIdChar(id[i])
  {
    assert forall i :: 0 <= i < |draws| ==> IsIdChar(Characters[draws[i]]) by {
      forall i | 0 <= i < |draws| {
        CharacterIsIdChar(draws[i]);
      }
    }
    seq(|draws|, i requires 0 <= i < |draws| => Characters[draws[i]])
  }

  /** The draws that spell out an identifier. */
  function DrawsOf(id: string): (draws: seq<Draw>)
    requires forall i :: 0 <= i < |id| ==> IsIdChar(id[i])
    ensures |draws| == |id|
  {
    seq(|id|, i requires 0 <= i < |id| => DrawOf(id[i]))
  }

  /** Reading the draws back from a generated identifier recovers them. */
  lemma DrawsOfIdOf(draws: seq<Draw>)
    ensures DrawsOf(IdOf(draws)) == draws
  {
    var back := DrawsOf(IdOf(draws));
    forall i | 0 <= i < |draws|
      ensures back[i] == draws[i]
    {
      CharactersDistinct(back[i], draws[i]);
    }
  }

  /**
   * Every alphanumeric string of the right length is produced by exactly
   * one sequence of draws: the identifier space is all 62^n strings.
   */
  lemma IdOfDrawsOf(id: string)
    requires forall i :: 0 <= i < |id| ==> IsIdChar(id[i])
    ensures IdOf(DrawsOf(id)) == id
  {
  }

  /** Different draws never yield the same identifier. */
  lemma IdOfInjective(a: seq<Draw>, b: seq<Draw>)
    requires IdOf(a) == IdOf(b)
    ensures a == b
  {
    DrawsOfIdOf(a);
    DrawsOfIdOf(b);
  }

  /**
   * `generateId(length)`: appends one character per draw to `result`.
   * Draws beyond `length` would not be consumed, so exactly `length` are given.
   */
  method GenerateId(length: nat, draws: seq<Draw>) returns (result: string)
    requires |draws| == length
    ensures result == IdOf(draws)
    ensures |result| == length
    ensures forall i :: 0 <= i < |result| ==> IsIdChar(result[i])
  {
    result := "";
    for i := 0 to length
      invariant |result| == i
      invariant forall k :: 0 <= k < i ==> result[k] == Characters[draws[k]]
    {
      result := result + [Characters[draws[i]]];
    }
  }
}
