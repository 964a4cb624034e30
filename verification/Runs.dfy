/** Runs of any deterministic step function, and how to reason about all of their points. */
module Runs {

  /** The world after the first n events. */
  function After<W, E>(step: (W, E) -> W, w0: W, es: seq<E>, n: nat): W
    requires n <= |es|
  {
    if n == 0 then w0 else step(After(step, w0, es, n - 1), es[n - 1])
  }

  /** A run, point by point. */
  lemma {:induction false} Unroll<W, E>(step: (W, E) -> W, w0: W, es: seq<E>)
    ensures After(step, w0, es, 0) == w0
    ensures forall n :: 0 < n <= |es| ==> After(step, w0, es, n) == step(After(step, w0, es, n - 1), es[n - 1])
  {
  }

  /** The first n events, each in the world it meets, satisfy the condition. */
  ghost predicate Throughout<W, E>(step: (W, E) -> W, ok: (W, E) -> bool, w0: W, es: seq<E>, n: nat)
    requires n <= |es|
  {
    n == 0 ||
    (Throughout(step, ok, w0, es, n - 1) && ok(After(step, w0, es, n - 1), es[n - 1]))
  }

  lemma {:induction false} ThroughoutIsEach<W, E>(
      step: (W, E) -> W, ok: (W, E) -> bool, w0: W, es: seq<E>, n: nat)
    requires n <= |es|
    ensures Throughout(step, ok, w0, es, n) <==>
            forall i :: 0 <= i < n ==> ok(After(step, w0, es, i), es[i])
  {
    if n > 0 {
      ThroughoutIsEach(step, ok, w0, es, n - 1);
    }
  }

  lemma {:induction false} ThroughoutPrefix<W, E>(
      step: (W, E) -> W, ok: (W, E) -> bool, w0: W, es: seq<E>, m: nat, n: nat)
    requires m <= n <= |es| && Throughout(step, ok, w0, es, n)
    ensures Throughout(step, ok, w0, es, m)
  {
    if m < n {
      ThroughoutPrefix(step, ok, w0, es, m, n - 1);
    }
  }

  /** The same for the events from m up to n. */
  ghost predicate Between<W, E>(step: (W, E) -> W, ok: (W, E) -> bool, w0: W, es: seq<E>, m: nat, n: nat)
    requires n <= |es|
  {
    n <= m ||
    (Between(step, ok, w0, es, m, n - 1) && ok(After(step, w0, es, n - 1), es[n - 1]))
  }

  lemma {:induction false} BetweenIsEach<W, E>(
      step: (W, E) -> W, ok: (W, E) -> bool, w0: W, es: seq<E>, m: nat, n: nat)
    requires n <= |es|
    ensures Between(step, ok, w0, es, m, n) <==>
            forall i :: m <= i < n ==> ok(After(step, w0, es, i), es[i])
    decreases n
  {
    if m < n {
      BetweenIsEach(step, ok, w0, es, m, n - 1);
    }
  }

  lemma {:induction false} ThroughoutIsBetween<W, E>(
      step: (W, E) -> W, ok: (W, E) -> bool, w0: W, es: seq<E>, n: nat)
    requires n <= |es|
    ensures Throughout(step, ok, w0, es, n) <==> Between(step, ok, w0, es, 0, n)
  {
    if n > 0 {
      ThroughoutIsBetween(step, ok, w0, es, n - 1);
    }
  }

  /** What holds at the start and is kept by every event holds at every point. */
  lemma {:induction false} Invariant<W(!new), E(!new)>(
      step: (W, E) -> W, inv: W -> bool, ok: (W, E) -> bool, w0: W, es: seq<E>, n: nat)
    requires n <= |es|
    requires inv(w0)
    requires Throughout(step, ok, w0, es, n)
    requires forall w, e :: inv(w) && ok(w, e) ==> inv(step(w, e))
    ensures inv(After(step, w0, es, n))
  {
    if n > 0 {
      Invariant(step, inv, ok, w0, es, n - 1);
    }
  }

  /** And whatever condition follows from it meets every event. */
  lemma {:induction false} ThroughoutFollows<W(!new), E(!new)>(
      step: (W, E) -> W, inv: W -> bool, ok: (W, E) -> bool, more: (W, E) -> bool, w0: W, es: seq<E>, n: nat)
    requires n <= |es|
    requires inv(w0)
    requires Throughout(step, ok, w0, es, n)
    requires forall w, e :: inv(w) && ok(w, e) ==> inv(step(w, e)) && more(w, e)
    ensures Throughout(step, more, w0, es, n) && inv(After(step, w0, es, n))
  {
    if n > 0 {
      ThroughoutFollows(step, inv, ok, more, w0, es, n - 1);
    }
  }

  /** The same for what every event keeps. */
  lemma {:induction false} Always<W(!new), E(!new)>(
      step: (W, E) -> W, inv: W -> bool, w0: W, es: seq<E>, n: nat)
    requires n <= |es|
    requires inv(w0)
    requires forall w, e :: inv(w) ==> inv(step(w, e))
    ensures inv(After(step, w0, es, n))
  {
    if n > 0 {
      Always(step, inv, w0, es, n - 1);
    }
  }

  /** All is good at every point from m to n. */
  ghost predicate GoodUpTo<W, E>(step: (W, E) -> W, good: W -> bool, w0: W, es: seq<E>, m: nat, n: nat)
    requires n <= |es|
  {
    forall i :: m <= i <= n ==> good(After(step, w0, es, i))
  }

  /** None of the events from m up to n is a bad one in the world it meets. */
  ghost predicate NoneOf<W, E>(step: (W, E) -> W, bad: (W, E) -> bool, w0: W, es: seq<E>, m: nat, n: nat)
    requires n <= |es|
  {
    forall i :: m <= i < n ==> !bad(After(step, w0, es, i), es[i])
  }

  lemma {:induction false} SameBad<W, E>(
      step: (W, E) -> W, bad: (W, E) -> bool, other: (W, E) -> bool, w0: W, es: seq<E>, m: nat, n: nat)
    requires n <= |es|
    requires forall k :: m <= k < n ==> (bad(After(step, w0, es, k), es[k]) <==> other(After(step, w0, es, k), es[k]))
    ensures NoneOf(step, bad, w0, es, m, n) <==> NoneOf(step, other, w0, es, m, n)
  {
  }

  /** If, as long as all is good, an event spoils it exactly when it is a bad one, then all stays good
      from m to n if and only if no bad event happens in between. */
  lemma {:induction false} GoodIffNoneBad<W(!new), E(!new)>(
      step: (W, E) -> W, tied: W -> bool, good: W -> bool, ok: (W, E) -> bool, bad: (W, E) -> bool,
      w0: W, es: seq<E>, m: nat, n: nat)
    requires m <= n <= |es|
    requires tied(After(step, w0, es, m)) && good(After(step, w0, es, m))
    requires Between(step, ok, w0, es, m, n)
    requires forall w, e :: tied(w) && good(w) && ok(w, e) ==>
               (good(step(w, e)) <==> !bad(w, e)) && (good(step(w, e)) ==> tied(step(w, e)))
    ensures GoodUpTo(step, good, w0, es, m, n) <==> NoneOf(step, bad, w0, es, m, n)
    ensures GoodUpTo(step, good, w0, es, m, n) ==> tied(After(step, w0, es, n))
    decreases n
  {
    if m < n {
      GoodIffNoneBad(step, tied, good, ok, bad, w0, es, m, n - 1);
      var w := After(step, w0, es, n - 1);
      assert GoodUpTo(step, good, w0, es, m, n) <==>
             GoodUpTo(step, good, w0, es, m, n - 1) && good(After(step, w0, es, n));
      assert NoneOf(step, bad, w0, es, m, n) <==>
             NoneOf(step, bad, w0, es, m, n - 1) && !bad(w, es[n - 1]);
    }
  }

  /** Event k explains why the property holds after it: it held before, or the event starts it. */
  ghost predicate Explained<W, E>(
      step: (W, E) -> W, now: W -> bool, start: (W, E) -> bool, w0: W, es: seq<E>, k: nat)
    requires k < |es|
  {
    now(After(step, w0, es, k + 1)) ==>
      now(After(step, w0, es, k)) || start(After(step, w0, es, k), es[k])
  }

  /** What is false at the start, is brought about only by certain events and is true now, has been
      true since the last such event. */
  lemma {:induction false} Since<W(!new), E(!new)>(
      step: (W, E) -> W, now: W -> bool, start: (W, E) -> bool, w0: W, es: seq<E>, n: nat)
    returns (i: nat)
    requires 0 < n <= |es|
    requires !now(w0)
    requires now(After(step, w0, es, n))
    requires forall k :: 0 <= k < n ==> Explained(step, now, start, w0, es, k)
    ensures i < n && start(After(step, w0, es, i), es[i])
    ensures forall j :: i < j <= n ==> now(After(step, w0, es, j))
    ensures forall j :: i < j < n ==> !start(After(step, w0, es, j), es[j])
  {
    i := n - 1;
    while !start(After(step, w0, es, i), es[i])
      invariant 0 <= i < n
      invariant forall j :: i < j <= n ==> now(After(step, w0, es, j))
      invariant forall j :: i < j < n ==> !start(After(step, w0, es, j), es[j])
      decreases i
    {
      assert Explained(step, now, start, w0, es, i);
      i := i - 1;
    }
  }

  /** Event k keeps the property. */
  ghost predicate Carried<W, E>(step: (W, E) -> W, inv: W -> bool, w0: W, es: seq<E>, k: nat)
    requires k < |es|
  {
    inv(After(step, w0, es, k)) ==> inv(After(step, w0, es, k + 1))
  }

  /** What holds at point m and is kept by the events up to n holds at n. */
  lemma {:induction false} Stays<W(!new), E(!new)>(
      step: (W, E) -> W, inv: W -> bool, w0: W, es: seq<E>, m: nat, n: nat)
    requires m <= n <= |es|
    requires inv(After(step, w0, es, m))
    requires forall k :: m <= k < n ==> Carried(step, inv, w0, es, k)
    ensures inv(After(step, w0, es, n))
  {
    if m < n {
      Stays(step, inv, w0, es, m, n - 1);
      assert Carried(step, inv, w0, es, n - 1);
    }
  }

  /** Worlds depend only on the events before them. */
  lemma {:induction false} AfterPrefix<W, E>(
      step: (W, E) -> W, w0: W, es: seq<E>, more: seq<E>, n: nat)
    requires n <= |es|
    ensures After(step, w0, es + more, n) == After(step, w0, es, n)
  {
    if n > 0 {
      AfterPrefix(step, w0, es, more, n - 1);
    }
  }

  /** The first n events without those that are to be dropped in the world they meet. */
  ghost function Kept<W, E>(step: (W, E) -> W, drop: (W, E) -> bool, w0: W, es: seq<E>, n: nat): seq<E>
    requires n <= |es|
  {
    if n == 0 then [] else
      var before := Kept(step, drop, w0, es, n - 1);
      if drop(After(step, w0, es, n - 1), es[n - 1]) then before else before + [es[n - 1]]
  }

  /** Dropping events that do nothing changes no world: the remaining run reaches every world of the
      full run, at the point where the dropped events are skipped. */
  lemma {:induction false} Erasure<W(!new), E(!new)>(
      step: (W, E) -> W, drop: (W, E) -> bool, w0: W, es: seq<E>, i: nat, n: nat)
    requires i <= n <= |es|
    requires forall w, e :: drop(w, e) ==> step(w, e) == w
    ensures |Kept(step, drop, w0, es, i)| <= |Kept(step, drop, w0, es, n)|
    ensures After(step, w0, Kept(step, drop, w0, es, n), |Kept(step, drop, w0, es, i)|)
         == After(step, w0, es, i)
    decreases n, i
  {
    if n > 0 {
      var before := Kept(step, drop, w0, es, n - 1);
      var more := if drop(After(step, w0, es, n - 1), es[n - 1]) then [] else [es[n - 1]];
      assert Kept(step, drop, w0, es, n) == before + more;
      if i == n {
        Erasure(step, drop, w0, es, n - 1, n - 1);
        AfterPrefix(step, w0, before, more, |before|);
      } else {
        Erasure(step, drop, w0, es, i, n - 1);
        AfterPrefix(step, w0, before, more, |Kept(step, drop, w0, es, i)|);
      }
    }
  }

  /** An event that is not dropped stands right after what is kept of the events before it. */
  lemma {:induction false} KeptInPlace<W, E>(
      step: (W, E) -> W, drop: (W, E) -> bool, w0: W, es: seq<E>, i: nat, n: nat)
    requires i < n <= |es|
    requires !drop(After(step, w0, es, i), es[i])
    ensures var met, kept := Kept(step, drop, w0, es, i), Kept(step, drop, w0, es, n);
      |met| < |kept| && kept[|met|] == es[i]
    decreases n
  {
    if i < n - 1 {
      KeptInPlace(step, drop, w0, es, i, n - 1);
    }
  }

  /** A run of two parts is the second part run from where the first one ends. */
  lemma {:induction false} AfterBoth<W, E>(
      step: (W, E) -> W, w0: W, first: seq<E>, second: seq<E>, n: nat)
    requires n <= |second|
    ensures After(step, w0, first + second, |first| + n)
         == After(step, After(step, w0, first, |first|), second, n)
  {
    if n == 0 {
      AfterPrefix(step, w0, first, second, |first|);
    } else {
      AfterBoth(step, w0, first, second, n - 1);
    }
  }

  lemma {:induction false} ThroughoutMore<W, E>(
      step: (W, E) -> W, ok: (W, E) -> bool, w0: W, es: seq<E>, more: seq<E>, n: nat)
    requires n <= |es| && Throughout(step, ok, w0, es, n)
    ensures Throughout(step, ok, w0, es + more, n)
  {
    if n > 0 {
      ThroughoutMore(step, ok, w0, es, more, n - 1);
      AfterPrefix(step, w0, es, more, n - 1);
    }
  }

  lemma {:induction false} ThroughoutBoth<W, E>(
      step: (W, E) -> W, ok: (W, E) -> bool, w0: W, first: seq<E>, second: seq<E>, n: nat)
    requires n <= |second|
    requires Throughout(step, ok, w0, first, |first|)
    requires Throughout(step, ok, After(step, w0, first, |first|), second, n)
    ensures Throughout(step, ok, w0, first + second, |first| + n)
  {
    if n == 0 {
      ThroughoutMore(step, ok, w0, first, second, |first|);
    } else {
      ThroughoutBoth(step, ok, w0, first, second, n - 1);
      AfterBoth(step, w0, first, second, n - 1);
      assert (first + second)[|first| + n - 1] == second[n - 1];
    }
  }

  /** One lawful run after another. */
  lemma {:induction false} LawfulBoth<W, E>(
      step: (W, E) -> W, ok: (W, E) -> bool, w0: W, first: seq<E>, second: seq<E>)
    requires Throughout(step, ok, w0, first, |first|)
    requires Throughout(step, ok, After(step, w0, first, |first|), second, |second|)
    ensures Throughout(step, ok, w0, first + second, |first + second|)
    ensures After(step, w0, first + second, |first + second|)
         == After(step, After(step, w0, first, |first|), second, |second|)
  {
    ThroughoutBoth(step, ok, w0, first, second, |second|);
    AfterBoth(step, w0, first, second, |second|);
  }
}
