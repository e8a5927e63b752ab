/**
 * Following a successor function from a start point until a goal is hit: the meaning behind the
 * waypoint tables of day 8, whose entries record how far the next goal is and which one it is.
 */
module Chains {
  /** The point reached after `k` applications of `succ`. */
  function Follow<T>(succ: T -> T, w: T, k: nat): T
  {
    if k == 0 then w else Follow(succ, succ(w), k - 1)
  }

  /** The first goal on the way from `w` is `k` steps away. */
  predicate HitsAt<T>(succ: T -> T, goal: T -> bool, w: T, k: nat)
  {
    if k == 0 then goal(w) else !goal(w) && HitsAt(succ, goal, succ(w), k - 1)
  }

  /** Some goal lies on the way from `w`. */
  ghost predicate Reaches<T>(succ: T -> T, goal: T -> bool, w: T)
  {
    exists k: nat :: HitsAt(succ, goal, w, k)
  }

  /** Following `k` steps and then one more is following `k + 1` steps. */
  lemma {:induction false} FollowSnoc<T>(succ: T -> T, w: T, k: nat)
    ensures Follow(succ, w, k + 1) == succ(Follow(succ, w, k))
  {
    if k > 0 {
      FollowSnoc(succ, succ(w), k - 1);
    }
  }

  /** The first hit, stated on the points along the way: the goal holds after `k` steps and at none before. */
  lemma {:induction false} HitsAtFollow<T>(succ: T -> T, goal: T -> bool, w: T, k: nat)
    ensures HitsAt(succ, goal, w, k) ==> goal(Follow(succ, w, k)) && forall i: nat :: i < k ==> !goal(Follow(succ, w, i))
    ensures goal(Follow(succ, w, k)) && (forall i: nat :: i < k ==> !goal(Follow(succ, w, i))) ==> HitsAt(succ, goal, w, k)
  {
    if k > 0 {
      HitsAtFollow(succ, goal, succ(w), k - 1);
      assert Follow(succ, w, k) == Follow(succ, succ(w), k - 1);
      if HitsAt(succ, goal, w, k) {
        assert HitsAt(succ, goal, succ(w), k - 1);
        assert goal(Follow(succ, w, k));
        forall i: nat | i < k
          ensures !goal(Follow(succ, w, i))
        {
          if i > 0 {
            assert !goal(Follow(succ, succ(w), i - 1));
            assert Follow(succ, w, i) == Follow(succ, succ(w), i - 1);
          } else {
            assert Follow(succ, w, i) == w;
          }
        }
      }
      if goal(Follow(succ, w, k)) && forall i: nat :: i < k ==> !goal(Follow(succ, w, i)) {
        forall i: nat | i < k - 1
          ensures !goal(Follow(succ, succ(w), i))
        {
          assert Follow(succ, w, i + 1) == Follow(succ, succ(w), i);
        }
        assert !goal(Follow(succ, w, 0));
        assert HitsAt(succ, goal, succ(w), k - 1);
        assert HitsAt(succ, goal, w, k);
      }
    }
  }

  /** One step before a point whose first hit is `k` away, off the goal, the first hit is `k + 1` away, at the same point. */
  lemma HitsAtStep<T>(succ: T -> T, goal: T -> bool, w: T, k: nat)
    requires !goal(w) && HitsAt(succ, goal, succ(w), k)
    ensures HitsAt(succ, goal, w, k + 1) && Follow(succ, w, k + 1) == Follow(succ, succ(w), k)
  {
  }

  /** A point has at most one first hit. */
  lemma {:induction false} HitsUnique<T>(succ: T -> T, goal: T -> bool, w: T, k: nat, m: nat)
    requires HitsAt(succ, goal, w, k) && HitsAt(succ, goal, w, m)
    ensures k == m
  {
    if k > 0 && m > 0 {
      HitsUnique(succ, goal, succ(w), k - 1, m - 1);
    }
  }
}
