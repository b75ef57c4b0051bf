/** A deterministic walk that may stop: facts that hold whatever the step function is. */
module PartialWalk {
  import opened Collections

  /** Where the walk is after k steps. */
  function Position<T>(start: Option<T>, next: T -> Option<T>, k: nat): Option<T> {
    if k == 0 then start
    else
      var before := Position(start, next, k - 1);
      if before.None? then None else next(before.value)
  }

  lemma {:induction false} EarlierPositions<T>(start: Option<T>, next: T -> Option<T>, j: nat, k: nat)
    requires j <= k && Position(start, next, k).Some?
    ensures Position(start, next, j).Some?
    decreases k - j
  {
    if j < k {
      EarlierPositions(start, next, j + 1, k);
    }
  }

  lemma {:induction false} LaterPositions<T>(start: Option<T>, next: T -> Option<T>, j: nat, k: nat)
    requires j <= k && Position(start, next, j).None?
    ensures Position(start, next, k).None?
    decreases k - j
  {
    if Position(start, next, k).Some? {
      EarlierPositions(start, next, j, k);
    }
  }

  ghost predicate Returns<T(!new)>(start: Option<T>, next: T -> Option<T>) {
    exists i: nat, j: nat :: i < j && Position(start, next, j).Some?
                             && Position(start, next, i) == Position(start, next, j)
  }

  lemma {:induction false} SameAhead<T>(start: Option<T>, next: T -> Option<T>, i: nat, j: nat, k: nat)
    requires Position(start, next, i) == Position(start, next, j)
    ensures Position(start, next, i + k) == Position(start, next, j + k)
  {
    if k > 0 {
      SameAhead(start, next, i, j, k - 1);
    }
  }

  /** A walk that comes back goes on for ever. */
  lemma {:induction false} NeverEnds<T>(start: Option<T>, next: T -> Option<T>, i: nat, j: nat, k: nat)
    requires i < j && Position(start, next, j).Some? && Position(start, next, i) == Position(start, next, j)
    ensures Position(start, next, k).Some?
    decreases k
  {
    if k <= j {
      EarlierPositions(start, next, k, j);
    } else {
      NeverEnds(start, next, i, j, i + (k - j));
      SameAhead(start, next, i, j, k - j);
    }
  }

  /** Within a finite set, a walk longer than the set has come back. */
  lemma LongWalkReturns<T(!new)>(start: Option<T>, next: T -> Option<T>, k: nat, all: set<T>)
    requires Position(start, next, k).Some? && |all| <= k
    requires forall i: nat :: i <= k && Position(start, next, i).Some? ==> Position(start, next, i).value in all
    ensures Returns(start, next)
  {
    forall i: nat | i <= k ensures Position(start, next, i).Some? {
      EarlierPositions(start, next, i, k);
    }
    var visits := seq(k + 1, i requires 0 <= i <= k => Position(start, next, i).value);
    Pigeonhole(visits, all);
    var i, j :| 0 <= i < j < |visits| && visits[i] == visits[j];
    assert Position(start, next, i) == Position(start, next, j);
  }
}
