/** Bytes, texts that end at a certain byte, and decimal numbers. */
module Bytes {
  newtype byte = x: int | 0 <= x < 256

  /** What comes before the first stop; everything if there is none. */
  function UpTo<T(==)>(s: seq<T>, stop: T): (r: seq<T>)
    ensures r <= s && stop !in r && (|r| < |s| ==> s[|r|] == stop)
  {
    if s == [] || s[0] == stop then [] else [s[0]] + UpTo(s[1..], stop)
  }

  lemma {:induction false} UpToOf<T>(s: seq<T>, stop: T, rest: seq<T>)
    requires stop !in s
    ensures UpTo(s + [stop] + rest, stop) == s
  {
    if s == [] {
      assert (s + [stop] + rest)[0] == stop;
    } else {
      assert (s + [stop] + rest)[1..] == s[1..] + [stop] + rest;
      UpToOf(s[1..], stop, rest);
      assert s == [s[0]] + s[1..];
    }
  }

  /** Once there is a stop, what follows it does not matter. */
  lemma {:induction false} UpToGrows<T>(s: seq<T>, stop: T, more: seq<T>)
    requires |UpTo(s, stop)| < |s|
    ensures UpTo(s + more, stop) == UpTo(s, stop)
  {
    if s[0] != stop {
      UpToGrows(s[1..], stop, more);
      assert (s + more)[1..] == s[1..] + more;
    }
  }

  /** Decimal digits, most significant first, without leading zeros. */
  function Digits(n: nat): (ds: seq<nat>)
    ensures |ds| > 0 && forall i :: 0 <= i < |ds| ==> ds[i] < 10
  {
    if n < 10 then [n] else Digits(n / 10) + [n % 10]
  }

  function Value(ds: seq<nat>): nat {
    if ds == [] then 0 else 10 * Value(ds[..|ds| - 1]) + ds[|ds| - 1]
  }

  lemma {:induction false} ValueOfDigits(n: nat)
    ensures Value(Digits(n)) == n
  {
    if n < 10 {
      assert Digits(n)[..0] == [];
    } else {
      ValueOfDigits(n / 10);
      assert Digits(n)[..|Digits(n)| - 1] == Digits(n / 10);
    }
  }
}
