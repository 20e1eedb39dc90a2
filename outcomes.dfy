/** Results of Python code that may raise: a value, or the exception that escaped.
    `Except` is a `try ... except (...)` that returns a fallback value, and `Fold` is a
    `for` loop whose body may raise (the loop stops at the first exception). */
module Outcomes {

  /** The Python exceptions the modelled code can raise. */
  datatype Exc =
    | KeyError           // dict lookup of a missing key
    | IndexError         // sequence index out of range, or raised explicitly
    | TypeError          // value of the wrong type: not subscriptable, not iterable, not comparable
    | AttributeError     // method missing on the value (`.strip` on a non-str, `.get` on a non-dict)
    | ValueError         // `int()` of a malformed string
    | UnboundLocalError  // a local variable read before any assignment
    | ZeroDivisionError  // division by zero

  datatype Option<+T> = None | Some(value: T) {
    function GetOr(default: T): T {
      if Some? then value else default
    }
  }

  datatype Outcome<+T> = Ok(value: T) | Raise(exc: Exc) {
    predicate IsFailure() {
      Raise?
    }

    function PropagateFailure<U>(): Outcome<U>
      requires Raise?
    {
      Raise(exc)
    }

    function Extract(): T
      requires Ok?
    {
      value
    }
  }

  /** `try: <o> except <caught>: return fallback` */
  function Except<T>(o: Outcome<T>, caught: set<Exc>, fallback: T): (r: Outcome<T>)
    ensures r.Raise? <==> o.Raise? && o.exc !in caught
    ensures r.Raise? ==> r == o
    ensures o.Ok? ==> r == o
    ensures o.Raise? && o.exc in caught ==> r == Ok(fallback)
  {
    if o.Raise? && o.exc in caught then Ok(fallback) else o
  }

  /** A `for x in xs` loop whose body `step` updates the loop state or raises:
      the state after the whole loop, or the first exception. */
  function Fold<S, X>(xs: seq<X>, init: S, step: (S, X) -> Outcome<S>): Outcome<S>
    decreases |xs|
  {
    if xs == [] then Ok(init)
    else
      var s :- Fold(xs[..|xs| - 1], init, step);
      step(s, xs[|xs| - 1])
  }

  /** One more pass of the loop. */
  lemma FoldNext<S, X>(xs: seq<X>, i: nat, init: S, step: (S, X) -> Outcome<S>)
    requires i < |xs|
    ensures Fold(xs[..i + 1], init, step)
         == (if Fold(xs[..i], init, step).Raise? then Fold(xs[..i], init, step)
             else step(Fold(xs[..i], init, step).value, xs[i]))
  {
    assert xs[..i + 1][..i] == xs[..i];
  }

  /** Once a pass raises, the loop ends with that exception whatever follows. */
  lemma {:induction false} FoldStopsAtRaise<S, X>(xs: seq<X>, i: nat, init: S, step: (S, X) -> Outcome<S>)
    requires i <= |xs|
    requires Fold(xs[..i], init, step).Raise?
    ensures Fold(xs, init, step) == Fold(xs[..i], init, step)
    decreases |xs| - i
  {
    if i < |xs| {
      FoldNext(xs, i, init, step);
      FoldStopsAtRaise(xs, i + 1, init, step);
    } else {
      assert xs[..i] == xs;
    }
  }

  /** A loop that ran to the end also ran through every shorter prefix. */
  lemma {:induction false} FoldPrefixOk<S, X>(xs: seq<X>, i: nat, init: S, step: (S, X) -> Outcome<S>)
    requires i <= |xs|
    requires Fold(xs, init, step).Ok?
    ensures Fold(xs[..i], init, step).Ok?
  {
    if Fold(xs[..i], init, step).Raise? {
      FoldStopsAtRaise(xs, i, init, step);
    }
  }

  /** A loop whose pass either replaces the state by `pick(x)`, when `hit(x)`, or keeps it:
      after the loop the state is still `init` exactly when no element hits, and otherwise
      it is picked from the last element that hits. */
  lemma {:induction false} FoldLastHit<S, X>(xs: seq<X>, init: S, step: (S, X) -> Outcome<S>,
                                           hit: X -> bool, pick: X -> S)
    requires Fold(xs, init, step).Ok?
    requires forall s, x :: step(s, x).Ok? ==>
      step(s, x).value == (if hit(x) then pick(x) else s)
    requires forall x :: hit(x) ==> pick(x) != init
    ensures Fold(xs, init, step).value == init <==> forall k :: 0 <= k < |xs| ==> !hit(xs[k])
    ensures Fold(xs, init, step).value != init ==>
      exists k :: 0 <= k < |xs| && hit(xs[k]) && Fold(xs, init, step).value == pick(xs[k])
        && forall j :: k < j < |xs| ==> !hit(xs[j])
    decreases |xs|
  {
    if xs != [] {
      var n := |xs| - 1;
      var front := xs[..n];
      FoldPrefixOk(xs, n, init, step);
      FoldLastHit(front, init, step, hit, pick);
      var before := Fold(front, init, step).value;
      var after := Fold(xs, init, step).value;
      assert Fold(xs, init, step) == step(before, xs[n]);
      assert after == (if hit(xs[n]) then pick(xs[n]) else before);
      assert forall k :: 0 <= k < n ==> front[k] == xs[k];
      if !hit(xs[n]) && before != init {
        var k :| 0 <= k < n && hit(front[k]) && before == pick(front[k])
          && forall j :: k < j < n ==> !hit(front[j]);
        assert hit(xs[k]) && after == pick(xs[k]);
      }
    }
  }
}
