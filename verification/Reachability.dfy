/** Playing events from a state: the states a protocol can get to. */
module Reachability {
  function Play<S, E>(step: (S, E) -> S, s: S, events: seq<E>): S {
    if events == [] then s else step(Play(step, s, events[..|events| - 1]), events[|events| - 1])
  }

  ghost predicate Reaches<S(!new), E(!new)>(step: (S, E) -> S, s: S, t: S) {
    exists events: seq<E> :: Play(step, s, events) == t
  }

  lemma {:induction false} ReachesItself<S(!new), E(!new)>(step: (S, E) -> S, s: S)
    ensures Reaches(step, s, s)
  {
    assert Play(step, s, []) == s;
  }

  lemma {:induction false} ReachesNext<S(!new), E(!new)>(step: (S, E) -> S, s: S, t: S, e: E)
    requires Reaches(step, s, t)
    ensures Reaches(step, s, step(t, e))
  {
    var events: seq<E> :| Play(step, s, events) == t;
    assert (events + [e])[..|events|] == events;
    assert Play(step, s, events + [e]) == step(t, e);
  }

  lemma {:induction false} PlayFrom<S(!new), E(!new)>(step: (S, E) -> S, s: S, t: S, more: seq<E>)
    requires Reaches(step, s, t)
    ensures Reaches(step, s, Play(step, t, more))
  {
    if more != [] {
      var n := |more| - 1;
      PlayFrom(step, s, t, more[..n]);
      ReachesNext(step, s, Play(step, t, more[..n]), more[n]);
    }
  }

  lemma {:induction false} ReachesOn<S(!new), E(!new)>(step: (S, E) -> S, s: S, t: S, u: S)
    requires Reaches(step, s, t) && Reaches(step, t, u)
    ensures Reaches(step, s, u)
  {
    var more: seq<E> :| Play(step, t, more) == u;
    PlayFrom(step, s, t, more);
  }
}
