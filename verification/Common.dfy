/** Helpers that several modules share. */
module Common {

  datatype Option<T> = None | Some(value: T)

  datatype Result<T> = Ok(value: T) | Err

  /** How relay URLs are normalised. */
  type Norm = string -> string

  ghost predicate Idempotent(norm: Norm) {
    forall u :: norm(norm(u)) == norm(u)
  }

  ghost function Elems<T>(s: seq<T>): set<T> {
    set x | x in s
  }

  lemma SubsetSize<T>(a: set<T>, b: set<T>)
    requires a <= b
    ensures |a| <= |b|
    ensures |a| == |b| ==> a == b
  {
    assert |b| == |a| + |b - a| by { assert a + (b - a) == b; }
  }

  function Map<A, B>(f: A -> B, s: seq<A>): (r: seq<B>)
    ensures |r| == |s|
  {
    if s == [] then [] else Map(f, s[..|s| - 1]) + [f(s[|s| - 1])]
  }

  lemma {:induction false} MapAt<A, B>(f: A -> B, s: seq<A>, i: nat)
    requires i < |s|
    ensures Map(f, s)[i] == f(s[i])
  {
    var n := |s| - 1;
    if i < n {
      MapAt(f, s[..n], i);
    }
  }

  // ----- numbers in keys

  function Digit(n: nat): char
    requires n < 10
  {
    ('0' as int + n) as char
  }

  function Decimal(n: nat): string {
    if n < 10 then [Digit(n)] else Decimal(n / 10) + [Digit(n % 10)]
  }

  lemma {:induction false} DecimalDigits(n: nat)
    ensures |Decimal(n)| >= 1 && ':' !in Decimal(n)
  {
    if n >= 10 {
      DecimalDigits(n / 10);
    }
  }

  lemma {:induction false} DecimalInjective(m: nat, n: nat)
    requires Decimal(m) == Decimal(n)
    ensures m == n
  {
    DecimalDigits(m / 10);
    DecimalDigits(n / 10);
    var a, b := Decimal(m), Decimal(n);
    assert a[|a| - 1] == b[|b| - 1];
    if m >= 10 && n >= 10 {
      assert a[..|a| - 1] == Decimal(m / 10) && b[..|b| - 1] == Decimal(n / 10);
      DecimalInjective(m / 10, n / 10);
    }
  }

  lemma UptoColon(p: string, rest: string, p': string, rest': string)
    requires p + ":" + rest == p' + ":" + rest' && ':' !in p && ':' !in p'
    ensures p == p' && rest == rest'
  {
    var t := p + ":" + rest;
    assert t[|p|] == ':' && t[|p'|] == ':';
    assert forall i :: 0 <= i < |p| ==> t[i] == p[i] && t[i] != ':';
    assert forall i :: 0 <= i < |p'| ==> t[i] == p'[i] && t[i] != ':';
    assert |p| == |p'|;
    assert t[..|p|] == p && t[..|p|] == p';
    assert t[|p| + 1..] == rest && t[|p| + 1..] == rest';
  }
}
