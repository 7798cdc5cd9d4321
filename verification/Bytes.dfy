/** Byte strings and the two sequence notions every other module speaks in:
    the concatenation of a sequence of strings, and its last few elements. */
module Bytes {

  /** All the strings of `ss`, end to end. */
  function Flatten(ss: seq<string>): (r: string) {
    if ss == [] then "" else ss[0] + Flatten(ss[1..])
  }

  /** The last `n` elements of `s`, or all of `s` when it has fewer. */
  function LastN<T>(s: seq<T>, n: nat): (r: seq<T>) {
    if |s| <= n then s else s[|s| - n..]
  }

  ghost predicate IsSuffix<T>(a: seq<T>, b: seq<T>) {
    |a| <= |b| && b[|b| - |a|..] == a
  }

  lemma {:induction false} FlattenAppend(a: seq<string>, b: seq<string>)
    ensures Flatten(a + b) == Flatten(a) + Flatten(b)
  {
    if a == [] {
      assert a + b == b;
    } else {
      assert (a + b)[1..] == a[1..] + b;
      FlattenAppend(a[1..], b);
    }
  }

  lemma FlattenCons(x: string, rest: seq<string>)
    ensures Flatten([x] + rest) == x + Flatten(rest)
  {
    assert ([x] + rest)[1..] == rest;
  }

  lemma FlattenSnoc(a: seq<string>, x: string)
    ensures Flatten(a + [x]) == Flatten(a) + x
  {
    FlattenAppend(a, [x]);
    assert Flatten([x]) == x;
  }

  lemma FlattenSplit(a: seq<string>, i: nat)
    requires i <= |a|
    ensures Flatten(a) == Flatten(a[..i]) + Flatten(a[i..])
  {
    assert a == a[..i] + a[i..];
    FlattenAppend(a[..i], a[i..]);
  }

  /** One more string adds its length: where entry `i` starts and ends. */
  lemma FlattenStep(a: seq<string>, i: nat)
    requires i < |a|
    ensures Flatten(a[..i + 1]) == Flatten(a[..i]) + a[i]
  {
    assert a[..i + 1] == a[..i] + [a[i]];
    FlattenSnoc(a[..i], a[i]);
  }

  /** The concatenation of the last `n` strings is a suffix of the whole. */
  lemma FlattenLastN(a: seq<string>, n: nat)
    ensures IsSuffix(Flatten(LastN(a, n)), Flatten(a))
  {
    if |a| > n {
      FlattenSplit(a, |a| - n);
    }
  }
}
