/** A bounded, most-recent-first history of values with a pluggable reducer
(agc::WeightedEvaluator<T, S>).

The constructor sizes the history to `capacity` default values, so the history
is full from the start; every `addValue` drops the oldest value, puts the new one
at the front and returns the reducer applied to the whole history.
 */
module WeightedEvaluator {

  /** An evaluator: its capacity, its history (newest first) and its reducer. */
  datatype Evaluator<!T, S> = Evaluator(capacity: nat, history: seq<T>, reducer: seq<T> -> S)

  /** The evaluator after `addValue`, and the value `addValue` returned. */
  datatype Added<!T, S> = Added(next: Evaluator<T, S>, result: S)

  /** The evaluator after a run of `addValue` calls, and the values they returned, in order. */
  datatype Run<!T, S> = Run(final: Evaluator<T, S>, results: seq<S>)

  /** The state invariant: a usable capacity and a history no longer than it. */
  predicate Valid<T, S>(e: Evaluator<T, S>) {
    e.capacity >= 1 && |e.history| <= e.capacity
  }

  predicate IsHistoryFull<T, S>(e: Evaluator<T, S>) {
    |e.history| == e.capacity
  }

  /** The constructor: `m_history(capacity)` holds `capacity` default values. */
  function New<T, S>(capacity: nat, zero: T, reducer: seq<T> -> S): (e: Evaluator<T, S>)
    ensures e.capacity == capacity && e.reducer == reducer
    ensures |e.history| == capacity
    ensures forall i :: 0 <= i < |e.history| ==> e.history[i] == zero
    ensures IsHistoryFull(e)
    ensures capacity >= 1 ==> Valid(e)
  {
    Evaluator(capacity, seq(capacity, _ => zero), reducer)
  }

  /** `addValue`: evict the oldest value when full, insert `value` at the front
      and reduce the new history. A capacity of 0 is excluded because the
      history is then full and empty, and `pop_back` on it is undefined. */
  function AddValue<T, S>(e: Evaluator<T, S>, value: T): (a: Added<T, S>)
    requires e.capacity >= 1
    ensures a.next.capacity == e.capacity && a.next.reducer == e.reducer
    ensures |a.next.history| == if IsHistoryFull(e) then e.capacity else |e.history| + 1
    ensures a.next.history[0] == value
    ensures forall i :: 1 <= i < |a.next.history| ==> a.next.history[i] == e.history[i - 1]
    ensures a.result == e.reducer(a.next.history)
    ensures Valid(e) ==> Valid(a.next)
    ensures IsHistoryFull(e) ==> IsHistoryFull(a.next)
  {
    var kept := if IsHistoryFull(e) then e.history[..|e.history| - 1] else e.history;
    var next := e.(history := [value] + kept);
    Added(next, e.reducer(next.history))
  }

  /** `addValue` called once per element of `values`, first element first. */
  function AddValues<T, S>(e: Evaluator<T, S>, values: seq<T>): (r: Run<T, S>)
    requires e.capacity >= 1
    ensures |r.results| == |values|
    ensures r.final.capacity == e.capacity && r.final.reducer == e.reducer
    ensures Valid(e) ==> Valid(r.final)
    ensures IsHistoryFull(e) ==> IsHistoryFull(r.final)
    decreases |values|
  {
    if |values| == 0 then Run(e, [])
    else
      var r := AddValues(e, values[..|values| - 1]);
      var a := AddValue(r.final, values[|values| - 1]);
      Run(a.next, r.results + [a.result])
  }

  /** The history a fresh evaluator holds after `values` were added: position i
      holds the i-th most recent value, or `zero` once the values run out. That
      is the last min(|values|, capacity) values, newest first, followed by
      capacity - min(|values|, capacity) zeros. */
  function Window<T>(values: seq<T>, capacity: nat, zero: T): (w: seq<T>)
    ensures |w| == capacity
  {
    seq(capacity, i requires 0 <= i < capacity => if i < |values| then values[|values| - 1 - i] else zero)
  }

  /** Every state reachable from the constructor has a full history. */
  lemma {:induction false} ReachableIsFull<T, S>(capacity: nat, zero: T, reducer: seq<T> -> S, values: seq<T>)
    requires capacity >= 1
    ensures IsHistoryFull(New(capacity, zero, reducer))
    ensures IsHistoryFull(AddValues(New(capacity, zero, reducer), values).final)
  {
  }

  /** The history after any sequence of insertions into a fresh evaluator. */
  lemma {:induction false} HistoryAfterInserts<T, S>(capacity: nat, zero: T, reducer: seq<T> -> S, values: seq<T>)
    requires capacity >= 1
    ensures AddValues(New(capacity, zero, reducer), values).final.history == Window(values, capacity, zero)
    decreases |values|
  {
    var e := New(capacity, zero, reducer);
    if |values| == 0 {
      assert e.history == Window(values, capacity, zero);
    } else {
      var n := |values|;
      var prefix := values[..n - 1];
      HistoryAfterInserts(capacity, zero, reducer, prefix);
      var r := AddValues(e, prefix);
      var a := AddValue(r.final, values[n - 1]);
      assert IsHistoryFull(r.final);
      var w := Window(values, capacity, zero);
      forall i | 0 <= i < capacity
        ensures a.next.history[i] == w[i]
      {
        if i > 0 {
          assert a.next.history[i] == Window(prefix, capacity, zero)[i - 1];
        }
      }
    }
  }

  /** The k-th value returned is the reducer applied to the window of the first
      k + 1 inserted values. */
  lemma {:induction false} ResultsAreReductions<T, S>(capacity: nat, zero: T, reducer: seq<T> -> S, values: seq<T>)
    requires capacity >= 1
    ensures forall k :: 0 <= k < |values| ==>
      AddValues(New(capacity, zero, reducer), values).results[k] == reducer(Window(values[..k + 1], capacity, zero))
    decreases |values|
  {
    if |values| > 0 {
      var n := |values|;
      var prefix := values[..n - 1];
      ResultsAreReductions(capacity, zero, reducer, prefix);
      HistoryAfterInserts(capacity, zero, reducer, values);
      var run := AddValues(New(capacity, zero, reducer), values);
      forall k | 0 <= k < n
        ensures run.results[k] == reducer(Window(values[..k + 1], capacity, zero))
      {
        if k < n - 1 {
          assert prefix[..k + 1] == values[..k + 1];
        } else {
          assert values[..k + 1] == values;
        }
      }
    }
  }

  /** Once a fresh evaluator has received at least `capacity` copies of `v`,
      its history holds nothing but `v`. */
  lemma SaturatedByConstant<T, S>(capacity: nat, zero: T, reducer: seq<T> -> S, values: seq<T>, v: T)
    requires capacity >= 1 && |values| >= capacity
    requires forall j :: 0 <= j < |values| ==> values[j] == v
    ensures AddValues(New(capacity, zero, reducer), values).final.history == seq(capacity, _ => v)
  {
    HistoryAfterInserts(capacity, zero, reducer, values);
  }

  /** A window that lies entirely in a stretch of copies of `v` holds only `v`. */
  lemma SettledWindow<T>(values: seq<T>, capacity: nat, zero: T, v: T, from: nat, k: nat)
    requires from + capacity <= k + 1 <= |values|
    requires forall j :: from <= j < |values| ==> values[j] == v
    ensures Window(values[..k + 1], capacity, zero) == seq(capacity, _ => v)
  {
  }

  /** Once the inputs of a fresh evaluator are `v` from index `from` on, every
      result from index from + capacity - 1 on is the reducer applied to a
      history of nothing but `v`. */
  lemma SettledResults<T, S>(capacity: nat, zero: T, reducer: seq<T> -> S, values: seq<T>, v: T, from: nat)
    requires capacity >= 1
    requires forall j :: from <= j < |values| ==> values[j] == v
    ensures forall k :: from + capacity - 1 <= k < |values| ==>
      AddValues(New(capacity, zero, reducer), values).results[k] == reducer(seq(capacity, _ => v))
  {
    ResultsAreReductions(capacity, zero, reducer, values);
    forall k | from + capacity - 1 <= k < |values|
      ensures AddValues(New(capacity, zero, reducer), values).results[k] == reducer(seq(capacity, _ => v))
    {
      SettledWindow(values, capacity, zero, v, from, k);
    }
  }
}
