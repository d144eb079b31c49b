/** Arithmetic, sequence and text notions that several modules share. */
module Basics {

  function Min(a: nat, b: nat): nat {
    if a < b then a else b
  }

  function Max(a: nat, b: nat): nat {
    if a < b then b else a
  }

  lemma DivMod(n: nat, d: nat)
    requires d > 0
    ensures n / d >= 0 && n % d < d && n == (n / d) * d + n % d
  {
  }

  lemma Shift<T>(front: seq<T>, x: seq<T>, rest: seq<T>)
    ensures front + (x + rest) == (front + x) + rest
  {
  }

  function LowerChar(c: char): char {
    if 'A' <= c <= 'Z' then c - 'A' + 'a' else c
  }

  function Lower(text: string): (r: string)
    ensures |r| == |text|
  {
    seq(|text|, i requires 0 <= i < |text| => LowerChar(text[i]))
  }

  /** The same letter, in the same or the other case; ASCII only. */
  predicate SameLetter(a: char, b: char) {
    || a == b
    || ('A' <= a <= 'Z' && 'a' <= b <= 'z' && b as int - 'a' as int == a as int - 'A' as int)
    || ('A' <= b <= 'Z' && 'a' <= a <= 'z' && a as int - 'a' as int == b as int - 'A' as int)
  }

  /** Equal up to letter case. */
  predicate SameLetters(a: string, b: string) {
    |a| == |b| && forall i :: 0 <= i < |a| ==> SameLetter(a[i], b[i])
  }

  lemma LowerMeetsSame(a: char, b: char)
    ensures SameLetter(a, b) <==> LowerChar(a) == LowerChar(b)
  {
  }

  /** Lowering forgets letter case and nothing else. */
  lemma LowerForgetsCase(a: string, b: string)
    ensures Lower(a) == Lower(b) <==> SameLetters(a, b)
  {
    if |a| == |b| {
      forall i | 0 <= i < |a| ensures SameLetter(a[i], b[i]) <==> Lower(a)[i] == Lower(b)[i] {
        LowerMeetsSame(a[i], b[i]);
      }
    }
  }
}
