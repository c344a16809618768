/**
 * Sorting by a key, as the order in which indices are visited: the list of positions that a stable sort reads, so that
 * passes which log or change what they visit can be stated by rank. The generator's three sort keys are here too.
 */
module Ranking {
  import opened Events
  import opened Ordering

  type Order = (EventValue, EventValue) -> bool

  function Tag(vals: seq<EventValue>): (r: seq<(EventValue, nat)>)
    ensures |r| == |vals| && forall i :: 0 <= i < |vals| ==> r[i] == (vals[i], i)
  {
    seq(|vals|, i requires 0 <= i < |vals| => (vals[i], i as nat))
  }

  function Untag(tagged: seq<(EventValue, nat)>): (r: seq<nat>)
    ensures |r| == |tagged| && forall i :: 0 <= i < |tagged| ==> r[i] == tagged[i].1
  {
    seq(|tagged|, i requires 0 <= i < |tagged| => tagged[i].1)
  }

  function Lift(le: Order): ((EventValue, nat), (EventValue, nat)) -> bool
  {
    (a: (EventValue, nat), b: (EventValue, nat)) => le(a.0, b.0)
  }

  /** `sorted(vals, key=…)` as positions: stable, so ties keep their order. */
  function Rank(le: Order, vals: seq<EventValue>): seq<nat>
  {
    Untag(Sort(Lift(le), Tag(vals)))
  }

  /** Each index below n exactly once. */
  ghost predicate Permutation(rank: seq<nat>, n: nat)
  {
    && |rank| == n
    && (forall r :: 0 <= r < n ==> rank[r] < n)
    && (forall r, q :: 0 <= r < n && 0 <= q < n && rank[r] == rank[q] ==> r == q)
    && (forall i :: 0 <= i < n ==> i in rank)
  }

  lemma SortedTagsAreTags(le: Order, vals: seq<EventValue>)
    ensures var sorted := Sort(Lift(le), Tag(vals));
            && |sorted| == |vals|
            && (forall r :: 0 <= r < |sorted| ==> sorted[r].1 < |vals| && sorted[r].0 == vals[sorted[r].1])
            && (forall i :: 0 <= i < |vals| ==> (vals[i], i) in sorted)
  {
    var tagged, sorted := Tag(vals), Sort(Lift(le), Tag(vals));
    SortPermutes(Lift(le), tagged);
    forall r | 0 <= r < |sorted| ensures sorted[r].1 < |vals| && sorted[r].0 == vals[sorted[r].1] {
      assert sorted[r] in multiset(sorted);
      assert sorted[r] in tagged;
    }
    forall i | 0 <= i < |vals| ensures (vals[i], i) in sorted {
      assert tagged[i] in multiset(tagged);
    }
  }

  lemma {:induction false} TagsOnce(vals: seq<EventValue>, n: nat, x: (EventValue, nat))
    requires n <= |vals|
    ensures multiset(Tag(vals)[..n])[x] <= 1
    ensures x.1 >= n ==> multiset(Tag(vals)[..n])[x] == 0
    decreases n
  {
    if n > 0 {
      TagsOnce(vals, n - 1, x);
      assert Tag(vals)[..n] == Tag(vals)[..n - 1] + [Tag(vals)[n - 1]];
    } else {
      assert Tag(vals)[..0] == [];
    }
  }

  /** Sorting visits every index once, in an order that `le` respects. */
  lemma RankPermutes(le: Order, vals: seq<EventValue>)
    ensures Permutation(Rank(le, vals), |vals|)
  {
    var rank, tagged, sorted := Rank(le, vals), Tag(vals), Sort(Lift(le), Tag(vals));
    SortPermutes(Lift(le), tagged);
    SortedTagsAreTags(le, vals);
    assert tagged[..|vals|] == tagged;
    forall r, q | 0 <= r < |vals| && 0 <= q < |vals| && rank[r] == rank[q] ensures r == q {
      if r != q {
        OnceInMultiset(sorted, if r < q then r else q, if r < q then q else r);
        TagsOnce(vals, |vals|, sorted[r]);
      }
    }
    forall i | 0 <= i < |vals| ensures i in rank {
      var r :| 0 <= r < |sorted| && sorted[r] == (vals[i], i);
      assert rank[r] == i;
    }
  }

  lemma RankSorts(le: Order, vals: seq<EventValue>)
    requires TotalPreorder(le)
    ensures |Rank(le, vals)| == |vals| && forall r :: 0 <= r < |vals| ==> Rank(le, vals)[r] < |vals|
    ensures forall r, q :: 0 <= r < q < |vals| ==> le(vals[Rank(le, vals)[r]], vals[Rank(le, vals)[q]])
  {
    var lifted := Lift(le);
    forall a: (EventValue, nat), b: (EventValue, nat), c: (EventValue, nat)
      ensures lifted(a, b) || lifted(b, a)
      ensures lifted(a, b) && lifted(b, c) ==> lifted(a, c)
    {
      assert le(a.0, b.0) || le(b.0, a.0);
      assert le(a.0, b.0) && le(b.0, c.0) ==> le(a.0, c.0);
    }
    SortSorts(Lift(le), Tag(vals));
    SortedTagsAreTags(le, vals);
  }

  // ---- the three keys ----

  predicate TimeLe(a: EventValue, b: EventValue)
  {
    a.eventTime <= b.eventTime
  }

  predicate NameLe(a: EventValue, b: EventValue)
  {
    if a.machine == b.machine then StrLe(a.id, b.id) else StrLe(a.machine, b.machine)
  }

  /** `(event_time, machine_id, event_id)`. */
  predicate EventKeyLe(a: EventValue, b: EventValue)
  {
    a.eventTime < b.eventTime || (a.eventTime == b.eventTime && NameLe(a, b))
  }

  /** `(publish_time, machine_id, event_id)`. */
  predicate PublishKeyLe(a: EventValue, b: EventValue)
  {
    a.publishTime < b.publishTime || (a.publishTime == b.publishTime && NameLe(a, b))
  }

  lemma NameLeIsTotal(a: EventValue, b: EventValue, c: EventValue)
    ensures NameLe(a, b) || NameLe(b, a)
    ensures NameLe(a, b) && NameLe(b, c) ==> NameLe(a, c)
    ensures NameLe(a, b) && NameLe(b, a) ==> a.id == b.id && a.machine == b.machine
  {
    StrLeTotal(a.machine, b.machine);
    StrLeTotal(a.id, b.id);
    if StrLe(a.machine, b.machine) && StrLe(b.machine, c.machine) { StrLeTransitive(a.machine, b.machine, c.machine); }
    if StrLe(a.id, b.id) && StrLe(b.id, c.id) { StrLeTransitive(a.id, b.id, c.id); }
    if StrLe(a.machine, b.machine) && StrLe(b.machine, a.machine) { StrLeAntisymmetric(a.machine, b.machine); }
    if StrLe(b.machine, c.machine) && StrLe(c.machine, b.machine) { StrLeAntisymmetric(b.machine, c.machine); }
    if StrLe(a.id, b.id) && StrLe(b.id, a.id) { StrLeAntisymmetric(a.id, b.id); }
  }

  lemma KeysAreTotalPreorders()
    ensures TotalPreorder(TimeLe) && TotalPreorder(EventKeyLe) && TotalPreorder(PublishKeyLe)
  {
    forall a, b, c: EventValue
      ensures EventKeyLe(a, b) || EventKeyLe(b, a)
      ensures EventKeyLe(a, b) && EventKeyLe(b, c) ==> EventKeyLe(a, c)
      ensures PublishKeyLe(a, b) || PublishKeyLe(b, a)
      ensures PublishKeyLe(a, b) && PublishKeyLe(b, c) ==> PublishKeyLe(a, c)
    {
      NameLeIsTotal(a, b, c);
    }
  }
}
