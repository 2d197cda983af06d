/** Fixed windows: what a counter that restarts only once its window has passed lets
    through in a sliding interval. Shared by the attempt limiter and the hub. */
module FixedWindow {

  /** One counted event: its moment, when its window started, and its number in it. */
  datatype Mark = Mark(at: int, start: int, count: int)

  /** The next event is counted in the same window, or opens one after it has passed. */
  predicate Follows(m: Mark, n: Mark, window: int) {
    && m.at <= n.at
    && ((n.start == m.start && n.count == m.count + 1) || (n.count == 1 && n.start > m.start + window))
  }

  ghost predicate Counted(marks: seq<Mark>, allowance: int, window: int) {
    && (forall k :: 0 <= k < |marks| ==>
          1 <= marks[k].count <= allowance && marks[k].start <= marks[k].at <= marks[k].start + window)
    && (forall k :: 0 < k < |marks| ==> Follows(marks[k - 1], marks[k], window))
  }

  lemma {:induction false} Ordered(marks: seq<Mark>, allowance: int, window: int, i: nat, j: nat)
    requires Counted(marks, allowance, window) && i <= j < |marks|
    ensures marks[i].at <= marks[j].at
    decreases j
  {
    if i < j {
      Ordered(marks, allowance, window, i, j - 1);
      assert Follows(marks[j - 1], marks[j], window);
    }
  }

  /** The allowance runs out: a window that is not over by then is followed by another. */
  lemma {:induction false} NextWindow(marks: seq<Mark>, allowance: int, window: int, k: nat) returns (j: nat)
    requires Counted(marks, allowance, window) && window >= 0
    requires k < |marks| && k + (allowance - marks[k].count) + 1 < |marks|
    ensures k < j <= k + (allowance - marks[k].count) + 1
    ensures marks[j].count == 1 && marks[j].start > marks[k].start + window
    decreases allowance - marks[k].count
  {
    assert 1 <= marks[k].count <= allowance;
    assert Follows(marks[k], marks[k + 1], window);
    if marks[k + 1].start == marks[k].start && marks[k + 1].count == marks[k].count + 1 {
      assert marks[k + 1].count <= allowance;
      j := NextWindow(marks, allowance, window, k + 1);
    } else {
      j := k + 1;
    }
  }

  /** However the windows fall, twice the allowance and one more do not fit in one window's length. */
  lemma AtMostTwice(marks: seq<Mark>, allowance: int, window: int, i: nat, j: nat)
    requires Counted(marks, allowance, window) && window >= 0 && allowance >= 1
    requires i <= j < |marks| && j - i >= 2 * allowance
    ensures marks[j].at - marks[i].at > window
  {
    assert 1 <= marks[i].count;
    var k := NextWindow(marks, allowance, window, i);
    assert k <= i + allowance;
    var l := NextWindow(marks, allowance, window, k);
    Ordered(marks, allowance, window, l, j);
    assert marks[i].at <= marks[i].start + window && marks[l].start <= marks[l].at;
  }

  /** When every window opens on an event, twice the allowance do not fit either. */
  lemma FewerThanTwice(marks: seq<Mark>, allowance: int, window: int, i: nat, j: nat)
    requires Counted(marks, allowance, window) && window >= 0 && allowance >= 1
    requires forall k :: 0 <= k < |marks| && marks[k].count == 1 ==> marks[k].at == marks[k].start
    requires i <= j < |marks| && j - i >= 2 * allowance - 1
    ensures marks[j].at - marks[i].at > window
  {
    assert 1 <= marks[i].count;
    if marks[i].count == 1 {
      var k := NextWindow(marks, allowance, window, i);
      Ordered(marks, allowance, window, k, j);
    } else {
      var k := NextWindow(marks, allowance, window, i);
      var l := NextWindow(marks, allowance, window, k);
      Ordered(marks, allowance, window, l, j);
    }
  }
}
