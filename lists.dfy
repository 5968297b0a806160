/**
 * Nested list comprehensions `[y for x in s for y in f(x)]`: the lists
 * `f(x)` of the elements of `s`, joined in order.
 */
module Lists {

  function FlatMap<A, B>(s: seq<A>, f: A -> seq<B>): seq<B> {
    if s == [] then [] else FlatMap(s[..|s| - 1], f) + f(s[|s| - 1])
  }

  /** One more element of `s` adds its list at the end. */
  lemma FlatMapStep<A, B>(s: seq<A>, i: nat, f: A -> seq<B>)
    requires i < |s|
    ensures FlatMap(s[..i + 1], f) == FlatMap(s[..i], f) + f(s[i])
  {
    assert s[..i + 1][..i] == s[..i];
  }

  lemma FlatMapSingle<A, B>(x: A, f: A -> seq<B>)
    ensures FlatMap([x], f) == f(x)
  {
    assert [x][..0] == [];
  }

  /** The comprehension distributes over concatenation. */
  lemma {:induction false} FlatMapAppend<A, B>(a: seq<A>, b: seq<A>, f: A -> seq<B>)
    ensures FlatMap(a + b, f) == FlatMap(a, f) + FlatMap(b, f)
  {
    if b == [] {
      assert a + b == a;
    } else {
      var init, last := b[..|b| - 1], b[|b| - 1];
      assert (a + b)[..|a + b| - 1] == a + init;
      assert (a + b)[|a + b| - 1] == last;
      calc {
        FlatMap(a + b, f);
      ==
        FlatMap(a + init, f) + f(last);
      == { FlatMapAppend(a, init, f); }
        (FlatMap(a, f) + FlatMap(init, f)) + f(last);
      ==
        FlatMap(a, f) + (FlatMap(init, f) + f(last));
      ==
        FlatMap(a, f) + FlatMap(b, f);
      }
    }
  }

  /** Everything in the result comes from the list of some element. */
  lemma {:induction false} FlatMapOrigin<A, B>(s: seq<A>, f: A -> seq<B>, y: B)
    requires y in FlatMap(s, f)
    ensures exists i | 0 <= i < |s| :: y in f(s[i])
  {
    var init := s[..|s| - 1];
    if y in FlatMap(init, f) {
      FlatMapOrigin(init, f, y);
      var i :| 0 <= i < |init| && y in f(init[i]);
      assert s[i] == init[i];
    } else {
      assert y in f(s[|s| - 1]);
    }
  }

  /** Everything in the list of an element is in the result. */
  lemma {:induction false} FlatMapMember<A, B>(s: seq<A>, f: A -> seq<B>, i: nat, y: B)
    requires i < |s| && y in f(s[i])
    ensures y in FlatMap(s, f)
  {
    var init := s[..|s| - 1];
    if i < |s| - 1 {
      assert init[i] == s[i];
      FlatMapMember(init, f, i, y);
    }
  }
}
