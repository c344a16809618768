/**
 * Stored rows one by one: where each lies, how many there are, and when none lies twice. An object that was not there
 * before adds its rows.
 */
module StoredRows {
  import opened Events
  import opened BronzeLog

  // ---- counting through a function ----

  ghost predicate OneToOne<T(!new), U>(s: set<T>, f: T -> U)
  {
    forall a, b :: a in s && b in s && f(a) == f(b) ==> a == b
  }

  function Image<T, U>(s: set<T>, f: T -> U): set<U>
  {
    set a | a in s :: f(a)
  }

  lemma ImageSplit<T, U>(s: set<T>, f: T -> U, a: T)
    requires a in s
    ensures Image(s, f) == Image(s - {a}, f) + {f(a)}
  {
    assert s == s - {a} + {a};
  }

  /** An image is no larger than its set, and as large exactly when nothing is met twice. */
  lemma {:induction false} ImageSize<T(!new), U>(s: set<T>, f: T -> U)
    ensures |Image(s, f)| <= |s|
    ensures |Image(s, f)| == |s| <==> OneToOne(s, f)
    decreases s
  {
    if s == {} {
      assert Image(s, f) == {};
    } else {
      var a :| a in s;
      var rest := s - {a};
      ImageSize(rest, f);
      ImageSplit(s, f, a);
      if f(a) in Image(rest, f) {
        var b :| b in rest && f(b) == f(a);
        assert !OneToOne(s, f);
      } else {
        assert OneToOne(rest, f) <==> OneToOne(s, f);
      }
    }
  }

  // ---- rows of an area ----

  /** A stored row: an object, and a row of it. */
  datatype Spot = Spot(key: Key, index: nat)

  function Spots(area: Area): set<Spot>
  {
    set k, i | k in area && 0 <= i < |area[k].entries| :: Spot(k, i)
  }

  /** What lies there. */
  function EntryIn(area: Area, s: Spot): Entry
  {
    if s.key in area && s.index < |area[s.key].entries| then area[s.key].entries[s.index]
    else Entry(0, 0, Message(Option.None, Tombstone))
  }

  /** Where these entries lie. */
  function SpotsOf(area: Area, es: set<Entry>): set<Spot>
  {
    set s | s in Spots(area) && EntryIn(area, s) in es
  }

  function Fresh(key: Key, n: nat): set<Spot>
  {
    set i | 0 <= i < n :: Spot(key, i)
  }

  lemma {:induction false} FreshSize(key: Key, n: nat)
    ensures |Fresh(key, n)| == n
    decreases n
  {
    if n == 0 {
      assert Fresh(key, n) == {};
    } else {
      FreshSize(key, n - 1);
      assert Fresh(key, n) == Fresh(key, n - 1) + {Spot(key, n - 1)};
    }
  }

  /** A new object adds its rows. */
  lemma NewObjectAddsSpots(area: Area, key: Key, o: Object)
    requires key !in area
    ensures Spots(area[key := o]) == Spots(area) + Fresh(key, |o.entries|) && Spots(area) !! Fresh(key, |o.entries|)
  {
    var after := area[key := o];
    forall s ensures s in Spots(after) <==> s in Spots(area) + Fresh(key, |o.entries|) {
      if s in Spots(area) { assert s.key in after && s.index < |after[s.key].entries|; }
    }
  }

  lemma NewObjectAddsRows(area: Area, key: Key, o: Object)
    requires key !in area
    ensures |Spots(area[key := o])| == |Spots(area)| + |o.entries|
  {
    FreshSize(key, |o.entries|);
    NewObjectAddsSpots(area, key, o);
  }

  // ---- rows that lie once ----

  /** Two objects of one partition name disjoint ranges. */
  ghost predicate Apart(area: Area)
  {
    forall k, l :: k in area && l in area && k != l && k.partition == l.partition ==> k.last < l.first || l.last < k.first
  }

  lemma {:induction false} EntriesIncrease(log: Log, partition: int, lo: nat, hi: nat, parses: bool, i: nat, j: nat)
    requires lo <= hi <= |log| && i < j < |Entries(log, partition, lo, hi, parses)|
    ensures Entries(log, partition, lo, hi, parses)[i].offset < Entries(log, partition, lo, hi, parses)[j].offset
    decreases hi - lo
  {
    if lo < hi {
      var before := Entries(log, partition, lo, hi - 1, parses);
      if j < |before| {
        EntriesIncrease(log, partition, lo, hi - 1, parses, i, j);
      } else {
        assert before[i] in before;
        EntriesMembers(log, partition, lo, hi - 1, parses, before[i]);
      }
    }
  }

  /** Within one well-named object no row repeats. */
  lemma RowsOfObjectDiffer(logs: Logs, parses: bool, area: Area, k: Key, i: nat, j: nat)
    requires WellNamed(logs, parses, area) && k in area && i < |area[k].entries| && j < |area[k].entries|
    requires area[k].entries[i] == area[k].entries[j]
    ensures i == j
  {
    assert Named(logs, parses, k, area[k]);
    if i < j { EntriesIncrease(logs[k.partition], k.partition, k.first, k.last + 1, parses, i, j); }
    if j < i { EntriesIncrease(logs[k.partition], k.partition, k.first, k.last + 1, parses, j, i); }
  }

  lemma RowIsInRange(logs: Logs, parses: bool, area: Area, k: Key, e: Entry)
    requires WellNamed(logs, parses, area) && k in area && e in area[k].entries
    ensures e.partition == k.partition && k.first <= e.offset <= k.last
  {
    assert Named(logs, parses, k, area[k]);
    EntriesMembers(logs[k.partition], k.partition, k.first, k.last + 1, parses, e);
  }

  /** Each of these entries lies in one object at most. */
  ghost predicate OnceOf(area: Area, es: set<Entry>)
  {
    forall k, l, e :: k in area && l in area && e in es && e in area[k].entries && e in area[l].entries ==> k == l
  }

  lemma ApartMeansOnce(logs: Logs, parses: bool, area: Area, es: set<Entry>)
    requires WellNamed(logs, parses, area) && Apart(area)
    ensures OnceOf(area, es)
  {
    forall k, l, e | k in area && l in area && e in es && e in area[k].entries && e in area[l].entries ensures k == l {
      RowIsInRange(logs, parses, area, k, e);
      RowIsInRange(logs, parses, area, l, e);
    }
  }

  function Reader(area: Area): Spot -> Entry
  {
    (s: Spot) => EntryIn(area, s)
  }

  lemma OnceOfBySpots(area: Area, es: set<Entry>)
    requires OneToOne(SpotsOf(area, es), Reader(area))
    ensures OnceOf(area, es)
  {
    var spots := SpotsOf(area, es);
    forall k, l, e | k in area && l in area && e in es && e in area[k].entries && e in area[l].entries ensures k == l {
      var i :| 0 <= i < |area[k].entries| && area[k].entries[i] == e;
      var j :| 0 <= j < |area[l].entries| && area[l].entries[j] == e;
      assert Spot(k, i) in spots && Spot(l, j) in spots;
      assert Reader(area)(Spot(k, i)) == Reader(area)(Spot(l, j));
    }
  }

  lemma SpotsByOnceOf(logs: Logs, parses: bool, area: Area, es: set<Entry>)
    requires WellNamed(logs, parses, area) && OnceOf(area, es)
    ensures OneToOne(SpotsOf(area, es), Reader(area))
  {
    var spots := SpotsOf(area, es);
    forall a, b | a in spots && b in spots && Reader(area)(a) == Reader(area)(b) ensures a == b {
      SpotOfEntry(logs, parses, area, es, a, b);
    }
  }

  lemma SpotOfEntry(logs: Logs, parses: bool, area: Area, es: set<Entry>, a: Spot, b: Spot)
    requires WellNamed(logs, parses, area) && OnceOf(area, es)
    requires a in SpotsOf(area, es) && b in SpotsOf(area, es) && EntryIn(area, a) == EntryIn(area, b)
    ensures a == b
  {
    var e := EntryIn(area, a);
    assert e in area[a.key].entries && e in area[b.key].entries;
    RowsOfObjectDiffer(logs, parses, area, a.key, a.index, b.index);
  }

  lemma ReadersImage(area: Area, es: set<Entry>)
    requires forall e :: e in es ==> Holds(area, e)
    ensures Image(SpotsOf(area, es), Reader(area)) == es
  {
    var spots := SpotsOf(area, es);
    forall e | e in es ensures e in Image(spots, Reader(area)) {
      assert Holds(area, e);
      var k :| k in area && e in area[k].entries;
      var i :| 0 <= i < |area[k].entries| && area[k].entries[i] == e;
      assert Spot(k, i) in spots && Reader(area)(Spot(k, i)) == e;
    }
  }

  /** Of entries that are all stored: their rows are at least as many, and exactly as many iff no two objects share one. */
  lemma RowsOfEntries(logs: Logs, parses: bool, area: Area, es: set<Entry>)
    requires WellNamed(logs, parses, area) && forall e :: e in es ==> Holds(area, e)
    ensures |es| <= |SpotsOf(area, es)|
    ensures |es| == |SpotsOf(area, es)| <==> OnceOf(area, es)
  {
    ImageSize(SpotsOf(area, es), Reader(area));
    ReadersImage(area, es);
    if OnceOf(area, es) { SpotsByOnceOf(logs, parses, area, es); }
    if OneToOne(SpotsOf(area, es), Reader(area)) { OnceOfBySpots(area, es); }
  }
}
