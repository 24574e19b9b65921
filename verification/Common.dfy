/** Datatypes and list operations shared by every module of the model. */
module Common {

  datatype Option<+T> = None | Some(value: T)

  datatype Result<+T, +E> = Ok(value: T) | Err(error: E)

  function Reversed<T>(items: seq<T>): (r: seq<T>)
    ensures |r| == |items|
    ensures forall i :: 0 <= i < |items| ==> r[i] == items[|items| - 1 - i]
  {
    seq(|items|, i requires 0 <= i < |items| => items[|items| - 1 - i])
  }

  /** The `slice` of a JavaScript array: a negative bound counts from the end, and
      bounds outside the array are moved to its edge. */
  function Slice<T>(items: seq<T>, start: int, end: int): seq<T> {
    var from := Bound(start, |items|);
    var to := Bound(end, |items|);
    if from < to then items[from..to] else []
  }

  function Bound(at: int, length: nat): (bound: nat)
    ensures bound <= length
  {
    if length + at < 0 then 0
    else if at < 0 then length + at
    else if at <= length then at
    else length
  }

  /** At or past the start and before the end, where a negative bound means so many places
      from the end. */
  predicate InSlice(length: nat, start: int, end: int, place: nat) {
    && (if start < 0 then place - length >= start else place >= start)
    && if end < 0 then place - length < end else place < end
  }

  /** A slice is the run of exactly those places. */
  lemma SliceHolds<T>(items: seq<T>, start: int, end: int) returns (from: nat, to: nat)
    ensures from <= to <= |items| && Slice(items, start, end) == items[from..to]
    ensures forall p :: 0 <= p < |items| ==> (InSlice(|items|, start, end, p) <==> from <= p < to)
  {
    from, to := Bound(start, |items|), Bound(end, |items|);
    if from > to {
      to := from;
    }
  }

  lemma Regroup<T>(a: seq<T>, b: seq<T>, c: seq<T>)
    ensures a + b + c == a + (b + c)
  {
  }

  lemma Cancel<T>(front: seq<T>, a: seq<T>, b: seq<T>)
    requires front + a == front + b
    ensures a == b
  {
    assert (front + a)[|front|..] == a && (front + b)[|front|..] == b;
  }
}
