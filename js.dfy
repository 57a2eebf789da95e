/** The few JavaScript runtime notions that the modelled TypeScript relies on:
    optional values, string slots that may hold `null` or `undefined`, truthiness,
    string `<` and the ASCII part of `toUpperCase`. */
module Js {

  datatype Option<T> = None | Some(value: T)

  datatype Result<T, E> = Ok(value: T) | Err(error: E)

  /** A slot typed `string | null | undefined`. */
  datatype JsString = Undefined | Null | Str(s: string)

  /** JavaScript truthiness of such a slot: only a non-empty string is truthy. */
  predicate Truthy(v: JsString)
  {
    v.Str? && v.s != ""
  }

  /** Truthiness of an optional string (`undefined` or a string). */
  predicate Present(v: Option<string>)
  {
    v.Some? && v.value != ""
  }

  /** `a < b` on strings: lexicographic by character, a proper prefix being the smaller. */
  predicate StrLess(a: string, b: string)
    decreases |a|
  {
    |b| > 0 && (|a| == 0 || (if a[0] != b[0] then a[0] < b[0] else StrLess(a[1..], b[1..])))
  }

  lemma {:induction false} StrLessIrreflexive(a: string)
    ensures !StrLess(a, a)
  {
    if |a| > 0 {
      StrLessIrreflexive(a[1..]);
    }
  }

  lemma {:induction false} StrLessTransitive(a: string, b: string, c: string)
    requires StrLess(a, b) && StrLess(b, c)
    ensures StrLess(a, c)
    decreases |a|
  {
    if |a| > 0 && a[0] == b[0] && b[0] == c[0] {
      StrLessTransitive(a[1..], b[1..], c[1..]);
    }
  }

  /** Two different strings are always ordered one way or the other. */
  lemma {:induction false} StrLessTotal(a: string, b: string)
    requires a != b
    ensures StrLess(a, b) || StrLess(b, a)
    decreases |a|
  {
    if |a| > 0 && |b| > 0 && a[0] == b[0] {
      assert a == [a[0]] + a[1..] && b == [b[0]] + b[1..];
      StrLessTotal(a[1..], b[1..]);
    }
  }

  lemma {:induction false} StrLessAsymmetric(a: string, b: string)
    requires StrLess(a, b)
    ensures !StrLess(b, a)
    decreases |a|
  {
    if |a| > 0 && a[0] == b[0] {
      StrLessAsymmetric(a[1..], b[1..]);
    }
  }

  /** `toUpperCase` on one character, for the ASCII letters; every other character is its own upper case here. */
  function UpperCase(c: char): (u: char)
    ensures u != c <==> 'a' <= c <= 'z'
    ensures 'a' <= c <= 'z' ==> 'A' <= u <= 'Z'
  {
    if 'a' <= c <= 'z' then (c as int - 32) as char else c
  }
}
