/** What the adapter reports of removals for a stream of callbacks, exactly. */
module Removals {
  import opened Vocabulary
  import opened AdapterSpec

  predicate Final(cb: Callback) {
    cb.RemoveResult? && cb.remaining == 0
  }

  /** How many removal callbacks of the stream count down to 0. */
  function Zeros(cbs: seq<Callback>): nat {
    if cbs == [] then 0 else (if Final(cbs[0]) then 1 else 0) + Zeros(cbs[1..])
  }

  /** The position of the first (id, 0) removal callback, or the length of the stream. */
  function FirstFinal(id: U32, cbs: seq<Callback>): (i: nat)
    ensures i <= |cbs|
    ensures i < |cbs| ==> cbs[i] == RemoveResult(id, 0)
    ensures forall j :: 0 <= j < i ==> cbs[j] != RemoveResult(id, 0)
  {
    if cbs == [] || cbs[0] == RemoveResult(id, 0) then 0 else 1 + FirstFinal(id, cbs[1..])
  }

  function Clears(n: nat): seq<Notice> {
    seq(n, _ => RemovedId(0))
  }

  /** The removals among some notices. */
  function RemovalsIn(notices: seq<Notice>): seq<Notice> {
    if notices == [] then [] else
      (if notices[0].RemovedId? then [notices[0]] else []) + RemovalsIn(notices[1..])
  }

  lemma {:induction false} RemovalsInBoth(first: seq<Notice>, second: seq<Notice>)
    ensures RemovalsIn(first + second) == RemovalsIn(first) + RemovalsIn(second)
    decreases |first|
  {
    if first == [] {
      assert first + second == second;
    } else {
      assert (first + second)[1..] == first[1..] + second;
      RemovalsInBoth(first[1..], second);
    }
  }

  /** Callbacks of other kinds report no removal and leave the pending one alone. */
  lemma {:induction false} OthersRemoveNothing(a: Adapter, cb: Callback)
    requires !cb.RemoveResult?
    ensures var (a', out) := OnCallback(a, cb); a'.removing == a.removing && RemovalsIn(out) == []
  {
    var (a', out) := OnCallback(a, cb);
    if |out| == 2 {
      assert out[1..] == [out[1]] && out[1..][1..] == [];
      assert RemovalsIn(out) == RemovalsIn(out[1..]) == RemovalsIn(out[1..][1..]);
    } else if |out| == 1 {
      assert out[1..] == [];
    }
  }

  /** What the first callback adds to the removals reported. */
  lemma {:induction false} FirstRemoval(a: Adapter, cbs: seq<Callback>)
    requires cbs != []
    ensures var (a', out) := OnCallback(a, cbs[0]);
      && RemovalsIn(Reported(a, cbs)) == RemovalsIn(out) + RemovalsIn(Reported(a', cbs[1..]))
      && RemovalsIn(out) == (if Final(cbs[0]) && (a.removing == 0 || a.removing == cbs[0].id)
                             then [RemovedId(a.removing)] else [])
      && a'.removing == (if RemovalsIn(out) == [] then a.removing else 0)
  {
    var (a', out) := OnCallback(a, cbs[0]);
    RemovalsInBoth(out, Reported(a', cbs[1..]));
    if !cbs[0].RemoveResult? {
      OthersRemoveNothing(a, cbs[0]);
    } else if out != [] {
      assert out[1..] == [];
    }
  }

  /** With no single removal pending, every removal callback that counts down to 0 reports a clear. */
  lemma {:induction false} ClearReports(a: Adapter, cbs: seq<Callback>)
    requires a.removing == 0
    ensures RemovalsIn(Reported(a, cbs)) == Clears(Zeros(cbs))
    decreases |cbs|
  {
    if cbs != [] {
      FirstRemoval(a, cbs);
      ClearReports(OnCallback(a, cbs[0]).0, cbs[1..]);
    }
  }

  /** A pending removal reports its id at its first final callback; whatever counts down to 0 after
      that is taken for a clear. */
  lemma {:induction false} RemoveReports(a: Adapter, id: U32, cbs: seq<Callback>)
    requires id != 0 && a.removing == id
    ensures var i := FirstFinal(id, cbs);
      RemovalsIn(Reported(a, cbs)) == if i == |cbs| then [] else [RemovedId(id)] + Clears(Zeros(cbs[i + 1..]))
    decreases |cbs|
  {
    if cbs != [] {
      FirstRemoval(a, cbs);
      var a' := OnCallback(a, cbs[0]).0;
      if cbs[0] == RemoveResult(id, 0) {
        ClearReports(a', cbs[1..]);
      } else {
        RemoveReports(a', id, cbs[1..]);
        var i := FirstFinal(id, cbs);
        if i < |cbs| {
          assert cbs[1..][i..] == cbs[i + 1..];
        }
      }
    }
  }

  /** Among callbacks of any kinds, a removal completes exactly once, as itself, exactly when no removal
      callback counts down to 0 after its first final one. */
  lemma {:induction false} RemovalCompletesOnce(a: Adapter, id: U32, cbs: seq<Callback>)
    requires id != 0
    ensures RemovalsIn(Reported(Remove(a, id), cbs)) == [RemovedId(id)]
       <==> (var i := FirstFinal(id, cbs);
             i < |cbs| && forall j :: i < j < |cbs| ==> !Final(cbs[j]))
  {
    RemoveReports(Remove(a, id), id, cbs);
    var i := FirstFinal(id, cbs);
    if i < |cbs| {
      NoZeros(cbs[i + 1..]);
      assert forall j :: i < j < |cbs| ==> cbs[j] == cbs[i + 1..][j - i - 1];
      assert |RemovalsIn(Reported(Remove(a, id), cbs))| == 1 + Zeros(cbs[i + 1..]);
      if Zeros(cbs[i + 1..]) == 0 {
        assert Clears(0) == [];
      }
    }
  }

  lemma {:induction false} NoZeros(cbs: seq<Callback>)
    ensures Zeros(cbs) == 0 <==> forall j :: 0 <= j < |cbs| ==> !Final(cbs[j])
  {
    if cbs != [] {
      NoZeros(cbs[1..]);
      assert forall j :: 1 <= j < |cbs| ==> cbs[j] == cbs[1..][j - 1];
    }
  }

  /** The counter values of the removal callbacks, in order. */
  function Counters(cbs: seq<Callback>): seq<U32> {
    if cbs == [] then [] else
      (if cbs[0].RemoveResult? then [cbs[0].remaining] else []) + Counters(cbs[1..])
  }

  predicate CountsDown(rs: seq<U32>) {
    forall i :: 0 <= i < |rs| ==> rs[i] == |rs| - 1 - i
  }

  lemma {:induction false} CountsDownOn(r: U32, rest: seq<U32>)
    requires CountsDown([r] + rest)
    ensures r == |rest| && CountsDown(rest)
  {
    var rs := [r] + rest;
    assert rs[0] == |rs| - 1;
    forall i | 0 <= i < |rest| ensures rest[i] == |rest| - 1 - i {
      assert rs[i + 1] == |rs| - 1 - (i + 1);
    }
  }

  /** A clear answered by a countdown n-1, ..., 0 over any ids, among any other callbacks, completes
      exactly once, as a clear; over an empty store, that is without any removal callback, it never does. */
  lemma {:induction false} ClearCompletesOnce(a: Adapter, cbs: seq<Callback>)
    requires CountsDown(Counters(cbs))
    ensures RemovalsIn(Reported(Clear(a), cbs)) == if Counters(cbs) == [] then [] else [RemovedId(0)]
  {
    ClearReports(Clear(a), cbs);
    CountdownHasOneZero(cbs);
  }

  lemma {:induction false} CountdownHasOneZero(cbs: seq<Callback>)
    requires CountsDown(Counters(cbs))
    ensures Zeros(cbs) == if Counters(cbs) == [] then 0 else 1
  {
    if cbs != [] {
      var rest := Counters(cbs[1..]);
      if cbs[0].RemoveResult? {
        CountsDownOn(cbs[0].remaining, rest);
      } else {
        assert Counters(cbs) == rest;
      }
      CountdownHasOneZero(cbs[1..]);
    }
  }
}
