/** The contract registry: diffing two payload schemas, and what the diff does and does not promise. */
module Registry {
  import opened Events
  import opened Ordering
  import opened Draws

  // ---- JSON Schema, as far as the cycle payload uses it ----

  datatype Json = JString(text: string) | JNumber(value: real) | JBool(flag: bool) | JNull | JArray(items: seq<Json>) | JObject

  datatype JsonType = StringType | NumberType | IntegerType | BooleanType | NullType | ArrayType | ObjectType

  /** One declared property: its `type` when it has one, and its numeric bounds. */
  datatype Property = Property(jtype: Option<JsonType>, minimum: Option<real>, exclusiveMinimum: Option<real>)

  datatype Schema = Schema(properties: map<string, Property>, required: set<string>)

  /** JSON Schema 2020-12, Validation section 6.1.1: a number without a fractional part is also an integer. */
  predicate HasType(v: Json, t: JsonType)
  {
    match t
    case StringType => v.JString?
    case NumberType => v.JNumber?
    case IntegerType => v.JNumber? && Whole(v.value)
    case BooleanType => v.JBool?
    case NullType => v.JNull?
    case ArrayType => v.JArray?
    case ObjectType => v.JObject?
  }

  /** Sections 6.2.4 and 6.2.5: bounds speak of numbers only. */
  predicate InBounds(v: Json, p: Property)
  {
    v.JNumber? ==>
      && (p.minimum.Some? ==> v.value >= p.minimum.value)
      && (p.exclusiveMinimum.Some? ==> v.value > p.exclusiveMinimum.value)
  }

  predicate Accepts(p: Property, v: Json)
  {
    (p.jtype.Some? ==> HasType(v, p.jtype.value)) && InBounds(v, p)
  }

  type Document = map<string, Json>

  /** Section 6.5.3 (`required`) and Core section 10.3.2.1 (`properties`): undeclared keys are not looked at. */
  ghost predicate ValidFor(d: Document, s: Schema)
  {
    && (forall name :: name in s.required ==> name in d)
    && (forall name :: name in d && name in s.properties ==> Accepts(s.properties[name], d[name]))
  }

  // ---- the diff ----

  datatype ChangeKind = AddedField | RemovedField | TypeChanged

  datatype Change = Change(kind: ChangeKind, name: string, breaksForward: bool, breaksBackward: bool)

  function Added(name: string, next: Schema): Change
  {
    Change(AddedField, name, false, name in next.required)
  }

  function Removed(name: string, old_: Schema): Change
  {
    Change(RemovedField, name, name in old_.required, false)
  }

  function Retyped(name: string): Change
  {
    Change(TypeChanged, name, true, true)
  }

  /** A change the diff reports for this name. */
  predicate Reported(c: Change, was: Schema, now: Schema)
  {
    var o, n := c.name in was.properties, c.name in now.properties;
    || (n && !o && c == Added(c.name, now))
    || (o && !n && c == Removed(c.name, was))
    || (o && n && was.properties[c.name].jtype != now.properties[c.name].jtype && c == Retyped(c.name))
  }

  /** The list holds every difference once, and nothing else. */
  ghost predicate IsDiff(changes: seq<Change>, was: Schema, now: Schema)
  {
    && (forall i :: 0 <= i < |changes| ==> Reported(changes[i], was, now))
    && (forall c :: Reported(c, was, now) ==> c in changes)
    && (forall i, j :: 0 <= i < j < |changes| ==> changes[i].name != changes[j].name)
  }

  predicate BreaksBackward(changes: seq<Change>)
  {
    exists i :: 0 <= i < |changes| && changes[i].breaksBackward
  }

  predicate BreaksForward(changes: seq<Change>)
  {
    exists i :: 0 <= i < |changes| && changes[i].breaksForward
  }

  datatype Compatibility = Full | Backward | Forward | Neither

  /** `Diff.compatibility`. */
  function CompatibilityOf(changes: seq<Change>): Compatibility
  {
    var forward, backward := BreaksForward(changes), BreaksBackward(changes);
    if !forward && !backward then Full
    else if forward && backward then Neither
    else if !backward then Backward
    else Forward
  }

  // ---- compare ----

  /** `sorted(s)`. */
  method SortedNames(s: set<string>) returns (names: seq<string>)
    ensures Lists(names, s) && Sorted(StrLe, names)
  {
    var listed := [];
    var left := s;
    while left != {}
      invariant left <= s && Lists(listed, s - left)
    {
      var name := Choose(left);
      listed := listed + [name];
      left := left - {name};
    }
    names := Sort(StrLe, listed);
    StrLeIsTotalPreorder();
    SortSorts(StrLe, listed);
    SortLists(StrLe, listed, s);
  }

  /** The changes for a list of names, one each; `retyped` names with equal types give none. */
  function AddedAll(names: seq<string>, now: Schema): (r: seq<Change>)
    ensures |r| == |names| && forall i :: 0 <= i < |r| ==> r[i] == Added(names[i], now)
  {
    seq(|names|, i requires 0 <= i < |names| => Added(names[i], now))
  }

  function RemovedAll(names: seq<string>, was: Schema): (r: seq<Change>)
    ensures |r| == |names| && forall i :: 0 <= i < |r| ==> r[i] == Removed(names[i], was)
  {
    seq(|names|, i requires 0 <= i < |names| => Removed(names[i], was))
  }

  function RetypedAll(names: seq<string>): (r: seq<Change>)
    ensures |r| == |names| && forall i :: 0 <= i < |r| ==> r[i] == Retyped(names[i])
  {
    seq(|names|, i requires 0 <= i < |names| => Retyped(names[i]))
  }

  /** The names both schemas declare with different types. */
  function RetypedNames(was: Schema, now: Schema): set<string>
  {
    set name | name in was.properties.Keys * now.properties.Keys && was.properties[name].jtype != now.properties[name].jtype
  }

  lemma ThreeListsAreDiff(was: Schema, now: Schema, added: seq<string>, removed: seq<string>, retyped: seq<string>)
    requires Lists(added, now.properties.Keys - was.properties.Keys)
    requires Lists(removed, was.properties.Keys - now.properties.Keys)
    requires Lists(retyped, RetypedNames(was, now))
    ensures IsDiff(AddedAll(added, now) + RemovedAll(removed, was) + RetypedAll(retyped), was, now)
  {
    var a, r, t := AddedAll(added, now), RemovedAll(removed, was), RetypedAll(retyped);
    var all := a + r + t;
    forall i | 0 <= i < |all| ensures Reported(all[i], was, now) {
      if i < |a| {
        assert all[i] == a[i] && added[i] in added;
      } else if i < |a| + |r| {
        assert all[i] == r[i - |a|] && removed[i - |a|] in removed;
      } else {
        assert all[i] == t[i - |a| - |r|] && retyped[i - |a| - |r|] in retyped;
      }
    }
    forall c | Reported(c, was, now) ensures c in all {
      if c.kind.AddedField? {
        assert c.name in added;
        var i :| 0 <= i < |added| && added[i] == c.name;
        assert all[i] == c;
      } else if c.kind.RemovedField? {
        assert c.name in removed;
        var i :| 0 <= i < |removed| && removed[i] == c.name;
        assert all[|a| + i] == c;
      } else {
        assert c.name in retyped;
        var i :| 0 <= i < |retyped| && retyped[i] == c.name;
        assert all[|a| + |r| + i] == c;
      }
    }
    NamesDiffer(was, now, added, removed, retyped);
  }

  lemma NamesDiffer(was: Schema, now: Schema, added: seq<string>, removed: seq<string>, retyped: seq<string>)
    requires Lists(added, now.properties.Keys - was.properties.Keys)
    requires Lists(removed, was.properties.Keys - now.properties.Keys)
    requires Lists(retyped, RetypedNames(was, now))
    ensures var all := AddedAll(added, now) + RemovedAll(removed, was) + RetypedAll(retyped);
            forall i, j :: 0 <= i < j < |all| ==> all[i].name != all[j].name
  {
    var names := added + removed + retyped;
    var all := AddedAll(added, now) + RemovedAll(removed, was) + RetypedAll(retyped);
    assert forall i :: 0 <= i < |all| ==> all[i].name == names[i];
    forall i | 0 <= i < |names|
      ensures i < |added| ==> names[i] in now.properties.Keys - was.properties.Keys
      ensures |added| <= i < |added| + |removed| ==> names[i] in was.properties.Keys - now.properties.Keys
      ensures |added| + |removed| <= i ==> names[i] in RetypedNames(was, now)
    {
      if i < |added| {
        assert names[i] == added[i];
      } else if i < |added| + |removed| {
        assert names[i] == removed[i - |added|];
      } else {
        assert names[i] == retyped[i - |added| - |removed|];
      }
    }
  }

  lemma MapSnoc(names: seq<string>, i: nat, was: Schema, now: Schema)
    requires i < |names|
    ensures AddedAll(names[..i + 1], now) == AddedAll(names[..i], now) + [Added(names[i], now)]
    ensures RemovedAll(names[..i + 1], was) == RemovedAll(names[..i], was) + [Removed(names[i], was)]
  {
    assert names[..i + 1] == names[..i] + [names[i]];
  }

  method AddedLoop(was: Schema, now: Schema) returns (changes: seq<Change>, ghost names: seq<string>)
    ensures Lists(names, now.properties.Keys - was.properties.Keys) && Sorted(StrLe, names) && changes == AddedAll(names, now)
  {
    var sorted := SortedNames(now.properties.Keys - was.properties.Keys);
    names, changes := sorted, [];
    for i := 0 to |sorted|
      invariant changes == AddedAll(sorted[..i], now)
    {
      MapSnoc(sorted, i, was, now);
      changes := changes + [Change(AddedField, sorted[i], false, sorted[i] in now.required)];
    }
    assert sorted[..|sorted|] == sorted;
  }

  method RemovedLoop(was: Schema, now: Schema) returns (changes: seq<Change>, ghost names: seq<string>)
    ensures Lists(names, was.properties.Keys - now.properties.Keys) && Sorted(StrLe, names) && changes == RemovedAll(names, was)
  {
    var sorted := SortedNames(was.properties.Keys - now.properties.Keys);
    names, changes := sorted, [];
    for i := 0 to |sorted|
      invariant changes == RemovedAll(sorted[..i], was)
    {
      MapSnoc(sorted, i, was, now);
      changes := changes + [Change(RemovedField, sorted[i], sorted[i] in was.required, false)];
    }
    assert sorted[..|sorted|] == sorted;
  }

  /** The retyped names among the first i shared ones. */
  ghost predicate RetypedAmong(retyped: seq<string>, shared: seq<string>, i: nat, was: Schema, now: Schema)
    requires i <= |shared| && forall j :: 0 <= j < |shared| ==> shared[j] in was.properties && shared[j] in now.properties
  {
    && Distinct(retyped)
    && forall name :: name in retyped <==> name in shared[..i] && name in RetypedNames(was, now)
  }

  method RetypedLoop(was: Schema, now: Schema) returns (changes: seq<Change>, ghost names: seq<string>)
    ensures Lists(names, RetypedNames(was, now)) && Sorted(StrLe, names) && changes == RetypedAll(names)
  {
    var shared := SortedNames(was.properties.Keys * now.properties.Keys);
    names, changes := [], [];
    assert forall j :: 0 <= j < |shared| ==> shared[j] in shared;
    for i := 0 to |shared|
      invariant RetypedAmong(names, shared, i, was, now) && changes == RetypedAll(names)
      invariant Sorted(StrLe, names)
    {
      var name := shared[i];
      assert shared[..i + 1] == shared[..i] + [name];
      assert name !in shared[..i];
      assert forall k :: 0 <= k < |names| ==> names[k] in names;
      if was.properties[name].jtype != now.properties[name].jtype {
        var narrowed := was.properties[name].jtype == Option.Some(NumberType) && now.properties[name].jtype == Option.Some(IntegerType);
        changes := changes + [Change(TypeChanged, name, true, narrowed || was.properties[name].jtype != now.properties[name].jtype)];
        names := names + [name];
      }
    }
    assert shared[..|shared|] == shared;
  }

  /** `compare`: three loops over sorted names. */
  method Compare(was: Schema, now: Schema)
    returns (changes: seq<Change>, ghost added: seq<string>, ghost removed: seq<string>, ghost retyped: seq<string>)
    ensures IsDiff(changes, was, now)
    ensures changes == AddedAll(added, now) + RemovedAll(removed, was) + RetypedAll(retyped)
    ensures Sorted(StrLe, added) && Sorted(StrLe, removed) && Sorted(StrLe, retyped)
  {
    var first, second, third;
    first, added := AddedLoop(was, now);
    second, removed := RemovedLoop(was, now);
    third, retyped := RetypedLoop(was, now);
    ThreeListsAreDiff(was, now, added, removed, retyped);
    changes := first + second + third;
  }

  // ---- what the verdict means ----

  /** Data of `writer` may be refused by `reader`, as far as the diff looks: a field only the reader has and requires, or a shared field of another type. */
  predicate RefusedAt(reader: Schema, writer: Schema, name: string)
  {
    && name in reader.properties
    && if name in writer.properties then writer.properties[name].jtype != reader.properties[name].jtype else name in reader.required
  }

  ghost predicate Refuses(reader: Schema, writer: Schema)
  {
    exists name :: RefusedAt(reader, writer, name)
  }

  /** The flags of the diff are those two questions. */
  lemma DiffSaysBreaks(changes: seq<Change>, was: Schema, now: Schema)
    requires IsDiff(changes, was, now)
    ensures BreaksBackward(changes) <==> Refuses(now, was)
    ensures BreaksForward(changes) <==> Refuses(was, now)
  {
    if BreaksBackward(changes) {
      var i :| 0 <= i < |changes| && changes[i].breaksBackward;
      assert Reported(changes[i], was, now);
      assert RefusedAt(now, was, changes[i].name);
    }
    if BreaksForward(changes) {
      var i :| 0 <= i < |changes| && changes[i].breaksForward;
      assert Reported(changes[i], was, now);
      assert RefusedAt(was, now, changes[i].name);
    }
    if Refuses(now, was) {
      var name :| RefusedAt(now, was, name);
      var c := if name in was.properties then Retyped(name) else Added(name, now);
      assert Reported(c, was, now) && c.breaksBackward;
    }
    if Refuses(was, now) {
      var name :| RefusedAt(was, now, name);
      var c := if name in now.properties then Retyped(name) else Removed(name, was);
      assert Reported(c, was, now) && c.breaksForward;
    }
  }

  function Mirror(c: Compatibility): Compatibility
  {
    match c
    case Backward => Forward
    case Forward => Backward
    case other => other
  }

  /** Swapping the versions swaps the directions. */
  lemma VerdictsAreDual(there: seq<Change>, back: seq<Change>, was: Schema, now: Schema)
    requires IsDiff(there, was, now) && IsDiff(back, now, was)
    ensures BreaksBackward(back) <==> BreaksForward(there)
    ensures BreaksForward(back) <==> BreaksBackward(there)
    ensures CompatibilityOf(back) == Mirror(CompatibilityOf(there))
  {
    DiffSaysBreaks(there, was, now);
    DiffSaysBreaks(back, now, was);
  }

  /** Every document that one schema accepts, carrying only fields it declares, the other accepts too. */
  ghost predicate Reads(reader: Schema, writer: Schema)
  {
    forall d: Document :: ValidFor(d, writer) && d.Keys <= writer.properties.Keys ==> ValidFor(d, reader)
  }

  /** Requirements name declared fields, and the bounds of shared fields are the same: what the diff does not look at. */
  ghost predicate Comparable(was: Schema, now: Schema)
  {
    && was.required <= was.properties.Keys && now.required <= now.properties.Keys
    && forall name :: name in was.properties && name in now.properties ==>
         was.properties[name].minimum == now.properties[name].minimum
         && was.properties[name].exclusiveMinimum == now.properties[name].exclusiveMinimum
  }

  /** No shared field is required by the reader and optional to the writer. */
  ghost predicate NoNewDemand(reader: Schema, writer: Schema)
  {
    forall name :: name in writer.properties && name in reader.required ==> name in writer.required
  }

  /** Values of the one type are values of the other: the same type, none at all, or a number for an integer. */
  predicate Widens(from: Option<JsonType>, to: Option<JsonType>)
  {
    to == from || to.None? || (from == Option.Some(IntegerType) && to == Option.Some(NumberType))
  }

  ghost predicate SharedTypesWiden(reader: Schema, writer: Schema)
  {
    forall name :: name in writer.properties && name in reader.properties ==>
      Widens(writer.properties[name].jtype, reader.properties[name].jtype)
  }

  function Larger(x: real, bound: Option<real>): real
  {
    if bound.Some? && bound.value > x then bound.value else x
  }

  /** A whole number beyond every lower bound. */
  function Beyond(p: Property): int
  {
    Larger(Larger(0.0, p.minimum), p.exclusiveMinimum).Floor + 1
  }

  /** A value that one type admits and the other does not. */
  function Telltale(p: Property, to: JsonType): Json
  {
    match p.jtype
    case None => if to.NullType? then JBool(true) else JNull
    case Some(StringType) => JString("")
    case Some(NumberType) => JNumber(Beyond(p) as real + 0.5)
    case Some(IntegerType) => JNumber(Beyond(p) as real)
    case Some(BooleanType) => JBool(true)
    case Some(NullType) => JNull
    case Some(ArrayType) => JArray([])
    case Some(ObjectType) => JObject
  }

  lemma BeyondIsInBounds(p: Property, more: real)
    requires 0.0 <= more < 1.0
    ensures InBounds(JNumber(Beyond(p) as real + more), p)
    ensures Whole(Beyond(p) as real + more) <==> more == 0.0
  {
    var x := Beyond(p) as real + more;
    assert x.Floor == Beyond(p);
  }

  lemma TelltaleTells(p: Property, to: JsonType)
    requires !Widens(p.jtype, Option.Some(to))
    ensures Accepts(p, Telltale(p, to)) && !HasType(Telltale(p, to), to)
  {
    BeyondIsInBounds(p, 0.0);
    BeyondIsInBounds(p, 0.5);
  }

  /**
   * When a schema reads all that another wrote. Bounds aside, and given that there is a document at all: exactly when it
   * requires no field that the writer did not, and gives every shared field its type, no type, or a number's for an
   * integer's.
   */
  lemma ReadsIff(reader: Schema, writer: Schema, sample: Document)
    requires Comparable(writer, reader)
    requires ValidFor(sample, writer) && sample.Keys <= writer.properties.Keys
    ensures Reads(reader, writer) <==> reader.required <= writer.required && SharedTypesWiden(reader, writer)
  {
    if name :| name in reader.required && name !in writer.required {
      var without := sample - {name};
      assert ValidFor(without, writer) && without.Keys <= writer.properties.Keys;
      assert !ValidFor(without, reader);
    } else if !SharedTypesWiden(reader, writer) {
      RetypedIsRefused(reader, writer, sample);
    } else {
      forall d: Document | ValidFor(d, writer) && d.Keys <= writer.properties.Keys ensures ValidFor(d, reader) {
        WidenedIsRead(reader, writer, d);
      }
    }
  }

  lemma RetypedIsRefused(reader: Schema, writer: Schema, sample: Document)
    requires Comparable(writer, reader) && !SharedTypesWiden(reader, writer)
    requires ValidFor(sample, writer) && sample.Keys <= writer.properties.Keys
    ensures !Reads(reader, writer)
  {
    var name :| name in writer.properties && name in reader.properties
                && !Widens(writer.properties[name].jtype, reader.properties[name].jtype);
    var p, to := writer.properties[name], reader.properties[name].jtype.value;
    TelltaleTells(p, to);
    var d := sample[name := Telltale(p, to)];
    assert ValidFor(d, writer) && d.Keys <= writer.properties.Keys;
    assert !Accepts(reader.properties[name], d[name]);
    assert !ValidFor(d, reader);
  }

  lemma WidenedIsRead(reader: Schema, writer: Schema, d: Document)
    requires Comparable(writer, reader) && reader.required <= writer.required && SharedTypesWiden(reader, writer)
    requires ValidFor(d, writer) && d.Keys <= writer.properties.Keys
    ensures ValidFor(d, reader)
  {
    forall name | name in d && name in reader.properties ensures Accepts(reader.properties[name], d[name]) {
      assert Accepts(writer.properties[name], d[name]);
      assert Widens(writer.properties[name].jtype, reader.properties[name].jtype);
    }
  }

  /**
   * What a clean verdict is worth. When the diff sees no backward break, the new schema reads all old data exactly when
   * no field the versions share became required: a change of that flag is the one the diff cannot see.
   */
  lemma CleanBackwardMeansReadsIff(changes: seq<Change>, was: Schema, now: Schema, sample: Document)
    requires IsDiff(changes, was, now) && !BreaksBackward(changes) && Comparable(was, now)
    requires ValidFor(sample, was) && sample.Keys <= was.properties.Keys
    ensures Reads(now, was) <==> NoNewDemand(now, was)
  {
    DiffSaysBreaks(changes, was, now);
    ReadsIff(now, was, sample);
    CleanTypesAgree(now, was);
  }

  /** The same for the other direction, by duality. */
  lemma CleanForwardMeansReadsIff(changes: seq<Change>, was: Schema, now: Schema, sample: Document)
    requires IsDiff(changes, was, now) && !BreaksForward(changes) && Comparable(was, now)
    requires ValidFor(sample, now) && sample.Keys <= now.properties.Keys
    ensures Reads(was, now) <==> NoNewDemand(was, now)
  {
    DiffSaysBreaks(changes, was, now);
    ReadsIff(was, now, sample);
    CleanTypesAgree(was, now);
  }

  lemma CleanTypesAgree(reader: Schema, writer: Schema)
    requires !Refuses(reader, writer) && Comparable(writer, reader)
    ensures SharedTypesWiden(reader, writer)
    ensures reader.required <= writer.required <==> NoNewDemand(reader, writer)
  {
    forall name | name in reader.properties
      ensures name in writer.properties ==> writer.properties[name].jtype == reader.properties[name].jtype
      ensures name in reader.required ==> name in writer.properties
    {
      assert !RefusedAt(reader, writer, name);
    }
  }

  /** A shared field whose type was dropped, or widened from integer to number. */
  ghost predicate SomeTypeWidened(reader: Schema, writer: Schema)
  {
    exists name :: name in writer.properties && name in reader.properties
      && writer.properties[name].jtype != reader.properties[name].jtype
      && Widens(writer.properties[name].jtype, reader.properties[name].jtype)
  }

  /** A reported break that refuses nothing. */
  ghost predicate FalseAlarm(reader: Schema, writer: Schema)
  {
    reader.required <= writer.required && SharedTypesWiden(reader, writer) && SomeTypeWidened(reader, writer)
  }

  lemma RefusesThoughReads(reader: Schema, writer: Schema)
    requires Comparable(writer, reader) && reader.required <= writer.required && SharedTypesWiden(reader, writer)
    ensures Refuses(reader, writer) <==> SomeTypeWidened(reader, writer)
  {
    if Refuses(reader, writer) {
      var name :| RefusedAt(reader, writer, name);
      assert name in writer.properties;
    }
    if SomeTypeWidened(reader, writer) {
      var name :| name in writer.properties && name in reader.properties
                  && writer.properties[name].jtype != reader.properties[name].jtype;
      assert RefusedAt(reader, writer, name);
    }
  }

  /**
   * What a reported break is worth. The new schema nevertheless reads all old data exactly when it requires nothing new
   * and every shared field kept its type or had it dropped or widened, at least one of them the latter.
   */
  lemma BackwardFalseAlarmIff(changes: seq<Change>, was: Schema, now: Schema, sample: Document)
    requires IsDiff(changes, was, now) && Comparable(was, now)
    requires ValidFor(sample, was) && sample.Keys <= was.properties.Keys
    ensures BreaksBackward(changes) && Reads(now, was) <==> FalseAlarm(now, was)
  {
    DiffSaysBreaks(changes, was, now);
    ReadsIff(now, was, sample);
    if now.required <= was.required && SharedTypesWiden(now, was) { RefusesThoughReads(now, was); }
  }

  /** The same for the other direction: there, a shared field must be narrowed, or gain a type. */
  lemma ForwardFalseAlarmIff(changes: seq<Change>, was: Schema, now: Schema, sample: Document)
    requires IsDiff(changes, was, now) && Comparable(was, now)
    requires ValidFor(sample, now) && sample.Keys <= now.properties.Keys
    ensures BreaksForward(changes) && Reads(was, now) <==> FalseAlarm(was, now)
  {
    DiffSaysBreaks(changes, was, now);
    ReadsIff(was, now, sample);
    if was.required <= now.required && SharedTypesWiden(was, now) { RefusesThoughReads(was, now); }
  }

  /** A false clean bill: an optional field made required is reported as fully compatible, and old data is refused. */
  lemma RequiredFlagIsMissed()
    ensures var text := Property(Option.Some(StringType), None, None);
            var was, now := Schema(map["f" := text], {}), Schema(map["f" := text], {"f"});
            IsDiff([], was, now) && CompatibilityOf([]) == Full && !Reads(now, was)
  {
    var text := Property(Option.Some(StringType), None, None);
    var was, now := Schema(map["f" := text], {}), Schema(map["f" := text], {"f"});
    var empty: Document := map[];
    assert ValidFor(empty, was) && "f" in now.required && !ValidFor(empty, now);
  }

  /** A false alarm: widening integer to number is reported as breaking both ways, though all old data can be read. */
  lemma WideningIsReportedAsBreak()
    ensures var was := Schema(map["f" := Property(Option.Some(IntegerType), None, None)], {});
            var now := Schema(map["f" := Property(Option.Some(NumberType), None, None)], {});
            IsDiff([Retyped("f")], was, now) && CompatibilityOf([Retyped("f")]) == Neither && Reads(now, was)
  {
    var was := Schema(map["f" := Property(Option.Some(IntegerType), None, None)], {});
    var now := Schema(map["f" := Property(Option.Some(NumberType), None, None)], {});
    var changes := [Retyped("f")];
    assert changes[0].breaksForward && changes[0].breaksBackward;
    forall c | Reported(c, was, now) ensures c in changes {
      assert c == changes[0];
    }
  }

  // ---- the contract's own versions ----

  const TEXT := Property(Option.Some(StringType), None, None)
  const COUNT := Property(Option.Some(IntegerType), Option.Some(0.0), None)
  const SECONDS := Property(Option.Some(NumberType), None, Option.Some(0.0))
  const MILLIS := Property(Option.Some(IntegerType), None, Option.Some(0.0))

  const V1 := Schema(
    map["work_order" := TEXT, "sku" := TEXT, "unit_seq" := COUNT, "duration_s" := SECONDS, "operator" := TEXT],
    {"work_order", "sku", "unit_seq", "duration_s", "operator"})

  const V2 := Schema(
    map["work_order" := TEXT, "sku" := TEXT, "unit_seq" := COUNT, "duration_s" := SECONDS, "operator_badge" := TEXT, "line_id" := TEXT],
    {"work_order", "sku", "unit_seq", "duration_s", "operator_badge"})

  const V3 := Schema(
    map["work_order" := TEXT, "sku" := TEXT, "unit_seq" := COUNT, "operator_badge" := TEXT, "line_id" := TEXT, "duration_ms" := MILLIS],
    {"work_order", "sku", "unit_seq", "duration_ms", "operator_badge"})

  /** Both cutovers are renames, and a rename breaks both ways, whatever order the diff lists its changes in. */
  lemma BothCutoversBreakBothWays(first: seq<Change>, second: seq<Change>)
    requires IsDiff(first, V1, V2) && IsDiff(second, V2, V3)
    ensures CompatibilityOf(first) == Neither && CompatibilityOf(second) == Neither
  {
    DiffSaysBreaks(first, V1, V2);
    DiffSaysBreaks(second, V2, V3);
    assert RefusedAt(V2, V1, "operator_badge") && RefusedAt(V1, V2, "operator");
    assert RefusedAt(V3, V2, "duration_ms") && RefusedAt(V2, V3, "duration_s");
  }
}
