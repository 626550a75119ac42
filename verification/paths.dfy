/** Carrying a list of steps through, for any step system given by its partial next-state function. */
module Paths {
  import opened Wrappers

  /** The state the steps lead to, if each is enabled in its turn. */
  function After<S, A>(next: (S, A) -> Option<S>, s: S, steps: seq<A>): Option<S>
    decreases |steps|
  {
    if steps == [] then Some(s)
    else
      var r := next(s, steps[0]);
      if r.Some? then After(next, r.value, steps[1..]) else None
  }

  lemma AfterOne<S, A>(next: (S, A) -> Option<S>, s: S, st: A, rest: seq<A>)
    requires next(s, st).Some?
    ensures After(next, s, [st] + rest) == After(next, next(s, st).value, rest)
  {
    assert ([st] + rest)[1..] == rest;
  }

  lemma {:induction false} AfterBoth<S, A>(next: (S, A) -> Option<S>, s: S, first: seq<A>, second: seq<A>)
    requires After(next, s, first).Some?
    ensures After(next, s, first + second) == After(next, After(next, s, first).value, second)
    decreases |first|
  {
    if first == [] {
      assert first + second == second;
    } else {
      AfterBoth(next, next(s, first[0]).value, first[1..], second);
      assert first + second == [first[0]] + (first[1..] + second);
      AfterOne(next, s, first[0], first[1..] + second);
    }
  }

  lemma Chain2<S, A>(next: (S, A) -> Option<S>, s: S, a: A, s1: S, b: A, s2: S)
    requires next(s, a) == Some(s1) && next(s1, b) == Some(s2)
    ensures After(next, s, [a, b]) == Some(s2)
  {
    AfterOne(next, s1, b, []);
    AfterOne(next, s, a, [b]);
    assert [a] + [b] == [a, b];
  }

  lemma Chain3<S, A>(next: (S, A) -> Option<S>, s: S, a: A, s1: S, b: A, s2: S, c: A, s3: S)
    requires next(s, a) == Some(s1) && next(s1, b) == Some(s2) && next(s2, c) == Some(s3)
    ensures After(next, s, [a, b, c]) == Some(s3)
  {
    Chain2(next, s1, b, s2, c, s3);
    AfterOne(next, s, a, [b, c]);
    assert [a] + [b, c] == [a, b, c];
  }

  lemma Chain4<S, A>(next: (S, A) -> Option<S>, s: S, a: A, s1: S, b: A, s2: S, c: A, s3: S, d: A, s4: S)
    requires next(s, a) == Some(s1) && next(s1, b) == Some(s2) && next(s2, c) == Some(s3) && next(s3, d) == Some(s4)
    ensures After(next, s, [a, b, c, d]) == Some(s4)
  {
    Chain3(next, s1, b, s2, c, s3, d, s4);
    AfterOne(next, s, a, [b, c, d]);
    assert [a] + [b, c, d] == [a, b, c, d];
  }
}
