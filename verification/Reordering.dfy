/**
 * The out-of-order pass on one machine's sequence: a fold of backward swaps, slot by slot, and how far it can carry an
 * event either way.
 */
module Reordering {

  function Swap<T>(s: seq<T>, i: nat, j: nat): seq<T>
    requires i < |s| && j < |s|
  {
    s[i := s[j]][j := s[i]]
  }

  /** How far each slot's event is drawn back: never past the start. */
  ghost predicate WithinSlots(backs: seq<nat>)
  {
    forall k :: 0 <= k < |backs| ==> backs[k] <= k
  }

  /** The sequence after the slots below |backs| have had their turn; a draw of 0 leaves the slot alone. */
  ghost function Shuffle<T>(s: seq<T>, backs: seq<nat>): (r: seq<T>)
    requires |backs| <= |s| && WithinSlots(backs)
    ensures |r| == |s|
    decreases |backs|
  {
    if backs == [] then s
    else
      var k := |backs| - 1;
      Swap(Shuffle(s, backs[..k]), k, k - backs[k])
  }

  /** Slots whose turn has not come still hold their original event: the one logged is the one moved. */
  lemma {:induction false} LaterSlotsUntouched<T>(s: seq<T>, backs: seq<nat>, slot: nat)
    requires |backs| <= slot < |s| && WithinSlots(backs)
    ensures Shuffle(s, backs)[slot] == s[slot]
    decreases |backs|
  {
    if backs != [] {
      LaterSlotsUntouched(s, backs[..|backs| - 1], slot);
    }
  }

  lemma SwapPermutes<T>(s: seq<T>, i: nat, j: nat)
    requires i < |s| && j < |s|
    ensures multiset(Swap(s, i, j)) == multiset(s)
  {
  }

  lemma {:induction false} ShufflePermutes<T>(s: seq<T>, backs: seq<nat>)
    requires |backs| <= |s| && WithinSlots(backs)
    ensures multiset(Shuffle(s, backs)) == multiset(s)
    decreases |backs|
  {
    if backs != [] {
      var k := |backs| - 1;
      ShufflePermutes(s, backs[..k]);
      SwapPermutes(Shuffle(s, backs[..k]), k, k - backs[k]);
    }
  }

  lemma {:induction false} NoDrawsNoChange<T>(s: seq<T>, backs: seq<nat>)
    requires |backs| <= |s| && forall k :: 0 <= k < |backs| ==> backs[k] == 0
    ensures Shuffle(s, backs) == s
    decreases |backs|
  {
    if backs != [] {
      NoDrawsNoChange(s, backs[..|backs| - 1]);
    }
  }

  ghost function Slots(n: nat): (r: seq<nat>)
    ensures |r| == n && forall i :: 0 <= i < n ==> r[i] == i
  {
    if n == 0 then [] else Slots(n - 1) + [n - 1]
  }

  /** Which original slot each slot holds. */
  ghost function Origins(n: nat, backs: seq<nat>): seq<nat>
    requires |backs| <= n && WithinSlots(backs)
  {
    Shuffle(Slots(n), backs)
  }

  /** Shuffling any sequence is reading it through the origins. */
  lemma {:induction false} ShuffleByOrigin<T>(s: seq<T>, backs: seq<nat>, slot: nat)
    requires |backs| <= |s| && WithinSlots(backs) && slot < |s|
    ensures Origins(|s|, backs)[slot] < |s|
    ensures Shuffle(s, backs)[slot] == s[Origins(|s|, backs)[slot]]
    decreases |backs|
  {
    if backs != [] {
      var k := |backs| - 1;
      ShuffleByOrigin(s, backs[..k], slot);
      ShuffleByOrigin(s, backs[..k], k);
      ShuffleByOrigin(s, backs[..k], k - backs[k]);
    }
  }

  /**
   * No event ends more than its own draw ahead of where it began, hence none more than the configured shift, and an
   * event with no draw of its own only ever moves later.
   */
  lemma {:induction false} EarlierOnlyByOwnDraw(n: nat, backs: seq<nat>, slot: nat)
    requires |backs| <= n && WithinSlots(backs) && slot < n
    ensures var o := Origins(n, backs)[slot];
            o < n && o <= slot + (if o < |backs| then backs[o] else 0)
    decreases |backs|
  {
    if backs != [] {
      var k := |backs| - 1;
      EarlierOnlyByOwnDraw(n, backs[..k], slot);
      EarlierOnlyByOwnDraw(n, backs[..k], k - backs[k]);
      LaterSlotsUntouched(Slots(n), backs[..k], k);
    }
  }

  /** Every slot but the first draws the one before it. */
  ghost function Ones(m: nat): (r: seq<nat>)
    ensures |r| == m && forall k :: 0 <= k < m ==> r[k] == if k == 0 then 0 else 1
  {
    if m == 0 then [] else Ones(m - 1) + [if m == 1 then 0 else 1]
  }

  /** Later moves have no bound: with such draws the first event is carried to the last slot. */
  lemma {:induction false} FirstCarriedToLast(n: nat, m: nat)
    requires 0 < m <= n
    ensures WithinSlots(Ones(m)) && Origins(n, Ones(m))[m - 1] == 0
    decreases m
  {
    var rest := Ones(m)[..m - 1];
    if m == 1 {
      assert rest == [] && Shuffle(Slots(n), rest) == Slots(n);
    } else {
      FirstCarriedToLast(n, m - 1);
      assert rest == Ones(m - 1);
    }
  }

  /** One turn moves back only the turn's own event, by exactly its draw; it moves at most one other, and that one later. */
  lemma TurnMovesOneBack(n: nat, backs: seq<nat>, slot: nat)
    requires backs != [] && |backs| <= n && WithinSlots(backs) && slot < n
    ensures var k := |backs| - 1;
            var before, after := Origins(n, backs[..k]), Origins(n, backs);
            && (slot == k ==> before[slot] == k && after[k - backs[k]] == k)
            && (slot == k - backs[k] && slot != k ==> after[k] == before[slot] && k > slot)
            && (slot != k && slot != k - backs[k] ==> after[slot] == before[slot])
  {
    var k := |backs| - 1;
    LaterSlotsUntouched(Slots(n), backs[..k], k);
  }
}
