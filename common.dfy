/** Types shared by every part of the model. */
module Common {

  /** One octet, as held by a Uint8Array or a Uint8ClampedArray element. */
  type byte = b: int | 0 <= b < 256

  /** A value that JavaScript may leave out (`null`, `undefined` or a failed step). */
  datatype Option<+T> = None | Some(value: T)

  /** `s.indexOf(x)`: the first index holding `x`, or -1 exactly when `x` is absent. */
  function IndexOf<T(==)>(s: seq<T>, x: T): (k: int)
    ensures -1 <= k < |s|
    ensures k >= 0 ==> s[k] == x && x !in s[..k]
    ensures k < 0 <==> x !in s
  {
    if s == [] then -1
    else if s[0] == x then 0
    else
      var k := IndexOf(s[1..], x);
      if k < 0 then -1
      else
        assert s[..k + 1] == [s[0]] + s[1..][..k];
        k + 1
  }

  /** In `a + [x] + rest` with `x` not in `a`, the first `x` is the one after `a`. */
  lemma {:induction false} IndexOfFirst<T>(a: seq<T>, x: T, rest: seq<T>)
    requires x !in a
    ensures IndexOf(a + [x] + rest, x) == |a|
  {
    var s := a + [x] + rest;
    assert s[|a|] == x;
  }

  function Min(a: int, b: int): int { if a <= b then a else b }

  function Max(a: int, b: int): int { if a <= b then b else a }
}
