/** Case-insensitive comparison of strings, in the two forms the user service
    relies on: the in-memory `String.equalsIgnoreCase` used to decide whether an
    e-mail changed, and the `UPPER(x) = UPPER(y)` comparison that the derived
    query `existsByCorreoIgnoreCase` runs in the database. Case folding is
    modelled for ASCII letters only. */
module Texto {

  /** Upper-case of one character: ASCII 'a'..'z' map to 'A'..'Z', every other
      character is left as it is. */
  function Mayuscula(c: char): (r: char)
    ensures 'a' <= c <= 'z' ==> r as int == c as int - 32
    ensures !('a' <= c <= 'z') ==> r == c
    ensures !('a' <= r <= 'z')
  {
    if 'a' <= c <= 'z' then (c as int - 32) as char else c
  }

  /** The database's UPPER(s): every character upper-cased, in order. */
  function Mayusculas(s: string): string
  {
    if s == [] then [] else [Mayuscula(s[0])] + Mayusculas(s[1..])
  }

  /** Java's `a.equalsIgnoreCase(b)` restricted to ASCII folding: same
      length, and the characters agree pairwise once upper-cased. (Java also
      accepts a pair whose upper-cased forms differ but whose lower-cased
      upper forms agree; with ASCII folding no such pair exists.) */
  predicate EqualsIgnoreCase(a: string, b: string)
  {
    |a| == |b| && forall i :: 0 <= i < |a| ==> Mayuscula(a[i]) == Mayuscula(b[i])
  }

  /** The database comparison `UPPER(a) = UPPER(b)`. */
  predicate IgualesEnMayusculas(a: string, b: string)
  {
    Mayusculas(a) == Mayusculas(b)
  }

  /** UPPER keeps the length and upper-cases each position. */
  lemma {:induction false} MayusculasEn(s: string)
    ensures |Mayusculas(s)| == |s|
    ensures forall i :: 0 <= i < |s| ==> Mayusculas(s)[i] == Mayuscula(s[i])
  {
    if s != [] {
      MayusculasEn(s[1..]);
    }
  }

  /** The in-memory check and the database check agree: a string equals another
      ignoring case exactly when their UPPER forms are equal. This is what lets
      the update path skip the database query when the e-mail is unchanged. */
  lemma EqualsIgnoreCaseSiIgualesEnMayusculas(a: string, b: string)
    ensures EqualsIgnoreCase(a, b) <==> IgualesEnMayusculas(a, b)
  {
    MayusculasEn(a);
    MayusculasEn(b);
    if EqualsIgnoreCase(a, b) {
      assert forall i :: 0 <= i < |a| ==> Mayusculas(a)[i] == Mayusculas(b)[i];
    }
    if IgualesEnMayusculas(a, b) {
      assert forall i :: 0 <= i < |a| ==> Mayuscula(a[i]) == Mayusculas(a)[i] == Mayusculas(b)[i];
    }
  }
}
