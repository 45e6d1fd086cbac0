/** Taking the operator's own finalizer off an object. */
module Finalizers {

  function Without(fs: seq<string>, f: string): seq<string> {
    if fs == [] then []
    else (if fs[0] == f then [] else [fs[0]]) + Without(fs[1..], f)
  }

  /** Every occurrence goes and every other finalizer stays. */
  lemma {:induction false} WithoutRemoves(fs: seq<string>, f: string)
    ensures f !in Without(fs, f)
    ensures forall g | g != f :: multiset(Without(fs, f))[g] == multiset(fs)[g]
  {
    if fs != [] {
      WithoutRemoves(fs[1..], f);
      assert fs == [fs[0]] + fs[1..];
    }
  }

  /** The others keep their order: filtering works piece by piece. */
  lemma {:induction false} WithoutOfConcat(a: seq<string>, b: seq<string>, f: string)
    ensures Without(a + b, f) == Without(a, f) + Without(b, f)
  {
    if a == [] {
      assert a + b == b;
    } else {
      var head := if a[0] == f then [] else [a[0]];
      var rest := a[1..];
      assert a + b == [a[0]] + (rest + b);
      WithoutOfConcat(rest, b, f);
      assert Without(a, f) == head + Without(rest, f);
      assert Without(a + b, f) == head + Without(rest + b, f);
    }
  }

  /** And it does nothing where there is nothing to take off. */
  lemma {:induction false} WithoutNone(fs: seq<string>, f: string)
    requires f !in fs
    ensures Without(fs, f) == fs
  {
    if fs != [] {
      assert fs[0] != f && f !in fs[1..];
      WithoutNone(fs[1..], f);
    }
  }
}
