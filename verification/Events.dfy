/** The event contract, its schema migrations, and the staging view that conforms every version. */
module Events {

  datatype Option<+T> = None | Some(value: T)

  datatype EventType = Cycle | Defect | StateChange | OperatorScan

  datatype MachineState = Idle | Changeover | Execute | Held

  /** Payload keys, one constructor for each JSON name. */
  datatype Field =
    | WorkOrder | Sku | UnitSeq | DurationS | DurationMs | Operator | OperatorBadge | LineId
    | DefectCode | Inspector | FromState | ToState | Reason | Action | BadgeId | Other(name: string)

  /** A JSON value; `Numeral` is text that `float` reads as a finite number, here with that number; `Compound` an array or object. */
  datatype Value =
    | Text(text: string) | Numeral(text: string, parsed: real) | Number(number: real) | Flag(on: bool)
    | Name(state: MachineState) | Null | Compound(json: string)

  type Payload = map<Field, Value>

  /** The content of one event. Times are microseconds since the epoch, UTC. */
  datatype EventValue = EventValue(
    id: string,
    kind: EventType,
    machine: string,
    eventTime: int,
    publishTime: int,
    version: int,
    payload: Payload)

  const SCHEMA_V1 := 1
  const SCHEMA_V2 := 2
  const SCHEMA_V3 := 3

  /** Two records of one event: everything but the publish time agrees. */
  predicate SameButPublish(a: EventValue, b: EventValue)
  {
    a == b.(publishTime := a.publishTime)
  }

  /** Some event of s is, up to publish time, this record. */
  ghost predicate CopyOfSome(s: seq<EventValue>, record: EventValue)
  {
    exists c :: c in s && SameButPublish(record, c)
  }

  /** Python's `round(x)`: nearest integer, ties to the even neighbour. */
  function RoundHalfEven(x: real): (n: int)
    ensures -0.5 <= x - n as real <= 0.5
    ensures (x - n as real == 0.5 || x - n as real == -0.5) ==> n % 2 == 0
  {
    var low := x.Floor;
    var rest := x - low as real;
    if rest < 0.5 || (rest == 0.5 && low % 2 == 0) then low else low + 1
  }

  predicate Whole(x: real)
  {
    x == x.Floor as real
  }

  lemma RoundOfWhole(x: real)
    ensures RoundHalfEven(x) as real == x <==> Whole(x)
  {
  }

  // ---- migrations ----

  function ToV2(p: Payload, kind: EventType): Payload
  {
    var out := if LineId in p then p else p[LineId := Text("")];
    if kind.Cycle? && Operator in out then
      out[OperatorBadge := out[Operator]] - {Operator}
    else
      out
  }

  /** `float(v)`, where it gives a finite number: numbers, booleans, and numbers written as text. */
  function FloatOf(v: Value): Option<real>
  {
    match v
    case Number(r) => Some(r)
    case Numeral(_, r) => Some(r)
    case Flag(on) => Some(if on then 1.0 else 0.0)
    case _ => None
  }

  /** `int(round(float(out.pop("duration_s")) * 1000))` raises on anything else. */
  predicate Convertible(p: Payload, kind: EventType)
  {
    kind.Cycle? && DurationS in p ==> FloatOf(p[DurationS]).Some?
  }

  function Millis(v: Value): int
    requires FloatOf(v).Some?
  {
    RoundHalfEven(FloatOf(v).value * 1000.0)
  }

  function ToV3(p: Payload, kind: EventType): Payload
    requires Convertible(p, kind)
  {
    var out := ToV2(p, kind);
    if kind.Cycle? && DurationS in out then
      out[DurationMs := Number(Millis(out[DurationS]) as real)] - {DurationS}
    else
      out
  }

  lemma MigrationAlgebra(p: Payload, kind: EventType)
    requires Convertible(p, kind)
    ensures ToV2(ToV2(p, kind), kind) == ToV2(p, kind)
    ensures Convertible(ToV2(p, kind), kind) && ToV3(ToV2(p, kind), kind) == ToV3(p, kind)
    ensures Convertible(ToV3(p, kind), kind) && ToV3(ToV3(p, kind), kind) == ToV3(p, kind)
    ensures ToV2(ToV3(p, kind), kind) == ToV3(p, kind)
  {
    var two, three := ToV2(p, kind), ToV3(p, kind);
    assert LineId in two && LineId in three;
    assert kind.Cycle? ==> Operator !in two && Operator !in three && DurationS !in three;
    assert ToV2(two, kind) == two;
  }

  lemma ToV2KeepsConvertible(p: Payload, kind: EventType)
    ensures Convertible(ToV2(p, kind), kind) <==> Convertible(p, kind)
  {
    assert DurationS in ToV2(p, kind) <==> DurationS in p;
  }

  /** `isinstance(v, int | float)`, which a boolean is too: its value. */
  function PlainNumber(v: Value): Option<real>
  {
    if v.Number? || v.Flag? then FloatOf(v) else None
  }

  /** The duration a payload of any version reports, in seconds. */
  function CycleDurationSeconds(p: Payload): Option<real>
  {
    if DurationS in p && PlainNumber(p[DurationS]).Some? then PlainNumber(p[DurationS])
    else if DurationMs in p && PlainNumber(p[DurationMs]).Some? then Some(PlainNumber(p[DurationMs]).value / 1000.0)
    else None
  }

  // ---- staging ----

  /**
   * What differs between the engines that run the warehouse: what `cast(… as double)` makes of a value that is no JSON
   * number, and whether an array or object reads as its text (DuckDB) or as null (Athena).
   */
  datatype Engine = Engine(cast: Value -> real, readsCompounds: bool)

  predicate ReadsNull(v: Value, engine: Engine)
  {
    v.Null? || (v.Compound? && !engine.readsCompounds)
  }

  /** `json_string(payload, f)`: an absent key and a JSON null both read as SQL null. */
  function JsonScalar(p: Payload, f: Field, engine: Engine): Option<Value>
  {
    if f in p && !ReadsNull(p[f], engine) then Some(p[f]) else None
  }

  function Coalesce<T>(a: Option<T>, b: Option<T>): Option<T>
  {
    if a.Some? then a else b
  }

  /** `cast(… as double)`. */
  function CastDouble(v: Option<Value>, engine: Engine): Option<real>
  {
    match v
    case None => None
    case Some(Number(r)) => Some(r)
    case Some(other) => Some(engine.cast(other))
  }

  function StagedDuration(p: Payload, engine: Engine): Option<real>
  {
    var millis := CastDouble(JsonScalar(p, DurationMs, engine), engine);
    Coalesce(
      CastDouble(JsonScalar(p, DurationS, engine), engine),
      if millis.Some? then Some(millis.value / 1000.0) else None)
  }

  /** The columns staging derives from a payload, `line_id` apart: that one is new in v2. */
  datatype Conformed = Conformed(
    operatorBadge: Option<Value>, workOrder: Option<Value>, sku: Option<Value>, unitSeq: Option<Value>,
    duration: Option<real>, defectCode: Option<Value>, fromState: Option<Value>, toState: Option<Value>,
    reason: Option<Value>, scanAction: Option<Value>, badgeId: Option<Value>)

  function Conform(p: Payload, engine: Engine): Conformed
  {
    Conformed(
      Coalesce(JsonScalar(p, Operator, engine), JsonScalar(p, OperatorBadge, engine)),
      JsonScalar(p, WorkOrder, engine), JsonScalar(p, Sku, engine), JsonScalar(p, UnitSeq, engine),
      StagedDuration(p, engine),
      JsonScalar(p, DefectCode, engine), JsonScalar(p, FromState, engine), JsonScalar(p, ToState, engine),
      JsonScalar(p, Reason, engine), JsonScalar(p, Action, engine), JsonScalar(p, BadgeId, engine))
  }

  predicate NumericDuration(p: Payload)
  {
    forall f :: f in p && (f == DurationS || f == DurationMs) ==> p[f].Number? || p[f].Null?
  }

  /** The warehouse and the manifest read one duration off a payload with numbers for durations, whatever its version. */
  lemma StagingAgreesWithManifest(p: Payload, engine: Engine)
    requires NumericDuration(p)
    ensures StagedDuration(p, engine) == CycleDurationSeconds(p)
  {
    if DurationS in p { assert p[DurationS].Number? || p[DurationS].Null?; }
    if DurationMs in p { assert p[DurationMs].Number? || p[DurationMs].Null?; }
  }

  /** The manifest's reading of one field, in the field's own unit. */
  function PlainIn(p: Payload, f: Field): Option<real>
  {
    if f in p then PlainNumber(p[f]) else None
  }

  /** The warehouse's. */
  function CastIn(p: Payload, f: Field, engine: Engine): Option<real>
  {
    CastDouble(JsonScalar(p, f, engine), engine)
  }

  /**
   * And off any payload at all: exactly when both read the seconds alike, or neither reads any seconds and both read the
   * milliseconds alike, or the cast of seconds that are no number happens to be what the milliseconds say.
   */
  lemma StagingAgreesIff(p: Payload, engine: Engine)
    ensures StagedDuration(p, engine) == CycleDurationSeconds(p) <==>
            var seconds, millis := CastIn(p, DurationS, engine), PlainIn(p, DurationMs);
            if seconds.None? && PlainIn(p, DurationS).None? then CastIn(p, DurationMs, engine) == millis
            else if PlainIn(p, DurationS).Some? then seconds == PlainIn(p, DurationS)
            else millis.Some? && seconds.value == millis.value / 1000.0
  {
    var seconds, plain := CastIn(p, DurationS, engine), PlainIn(p, DurationS);
    if plain.Some? { assert seconds.Some?; }
    if seconds.None? && plain.None? {
      SameThousandths(CastIn(p, DurationMs, engine), PlainIn(p, DurationMs));
    }
  }

  function Thousandths(r: Option<real>): Option<real>
  {
    if r.Some? then Some(r.value / 1000.0) else None
  }

  lemma SameThousandths(a: Option<real>, b: Option<real>)
    ensures Thousandths(a) == Thousandths(b) <==> a == b
  {
    if a.Some? && b.Some? && a.value / 1000.0 == b.value / 1000.0 {
      assert a.value == (a.value / 1000.0) * 1000.0;
    }
  }

  lemma MigrationsKeepNumericDuration(p: Payload, kind: EventType)
    requires NumericDuration(p)
    ensures NumericDuration(ToV2(p, kind)) && (Convertible(p, kind) ==> NumericDuration(ToV3(p, kind)))
  {
    var two := ToV2(p, kind);
    assert forall f :: f == DurationS || f == DurationMs ==> (f in two <==> f in p) && (f in p ==> two[f] == p[f]);
  }

  /** An `operator` that reads as null beside an `operator_badge` that does not: the rename overwrites the badge. */
  predicate BadgeShadowed(p: Payload, kind: EventType, engine: Engine)
  {
    kind.Cycle? && Operator in p && ReadsNull(p[Operator], engine) && OperatorBadge in p && !ReadsNull(p[OperatorBadge], engine)
  }

  /** A migration leaves every payload field outside `touched` as it found it. */
  ghost predicate KeepsOutside(p: Payload, q: Payload, touched: set<Field>, engine: Engine)
  {
    forall f :: f !in touched ==> JsonScalar(q, f, engine) == JsonScalar(p, f, engine)
  }

  lemma ToV2Touches(p: Payload, kind: EventType, engine: Engine)
    ensures KeepsOutside(p, ToV2(p, kind), {Operator, OperatorBadge, LineId}, engine)
  {
  }

  lemma ToV3Touches(p: Payload, kind: EventType, engine: Engine)
    requires Convertible(p, kind)
    ensures KeepsOutside(ToV2(p, kind), ToV3(p, kind), {DurationS, DurationMs}, engine)
  {
  }

  /** The conformed row is decided by these columns alone. */
  lemma ConformedColumns(p: Payload, q: Payload, engine: Engine)
    requires KeepsOutside(p, q, {Operator, OperatorBadge, LineId, DurationS, DurationMs}, engine)
    ensures Conform(q, engine) == Conform(p, engine) <==>
            (Coalesce(JsonScalar(q, Operator, engine), JsonScalar(q, OperatorBadge, engine))
             == Coalesce(JsonScalar(p, Operator, engine), JsonScalar(p, OperatorBadge, engine))
             && StagedDuration(q, engine) == StagedDuration(p, engine))
  {
    assert JsonScalar(q, WorkOrder, engine) == JsonScalar(p, WorkOrder, engine);
    assert JsonScalar(q, Sku, engine) == JsonScalar(p, Sku, engine);
    assert JsonScalar(q, UnitSeq, engine) == JsonScalar(p, UnitSeq, engine);
    assert JsonScalar(q, DefectCode, engine) == JsonScalar(p, DefectCode, engine);
    assert JsonScalar(q, FromState, engine) == JsonScalar(p, FromState, engine);
    assert JsonScalar(q, ToState, engine) == JsonScalar(p, ToState, engine);
    assert JsonScalar(q, Reason, engine) == JsonScalar(p, Reason, engine);
    assert JsonScalar(q, Action, engine) == JsonScalar(p, Action, engine);
    assert JsonScalar(q, BadgeId, engine) == JsonScalar(p, BadgeId, engine);
  }

  lemma ToV2Operator(p: Payload, kind: EventType, engine: Engine)
    ensures (Coalesce(JsonScalar(ToV2(p, kind), Operator, engine), JsonScalar(ToV2(p, kind), OperatorBadge, engine))
             == Coalesce(JsonScalar(p, Operator, engine), JsonScalar(p, OperatorBadge, engine))) <==> !BadgeShadowed(p, kind, engine)
  {
  }

  /** The v2 migration is invisible after staging, except exactly when it erases a badge. */
  lemma ToV2KeepsMeaningIff(p: Payload, kind: EventType, engine: Engine)
    ensures Conform(ToV2(p, kind), engine) == Conform(p, engine) <==> !BadgeShadowed(p, kind, engine)
  {
    var two := ToV2(p, kind);
    ToV2Touches(p, kind, engine);
    ToV2Operator(p, kind, engine);
    ConformedColumns(p, two, engine);
    assert JsonScalar(two, DurationS, engine) == JsonScalar(p, DurationS, engine);
    assert JsonScalar(two, DurationMs, engine) == JsonScalar(p, DurationMs, engine);
  }

  /** The engine reads the duration as the number of milliseconds that v3 writes for it. */
  predicate SurvivesRounding(v: Value, engine: Engine)
    requires FloatOf(v).Some?
  {
    (if v.Number? then v.number else engine.cast(v)) == Millis(v) as real / 1000.0
  }

  /** For a JSON number that is to be a whole number of milliseconds. */
  lemma NumberSurvivesIffWhole(x: real, engine: Engine)
    ensures SurvivesRounding(Number(x), engine) <==> Whole(x * 1000.0)
  {
    RoundOfWhole(x * 1000.0);
    assert Millis(Number(x)) == RoundHalfEven(x * 1000.0);
  }

  lemma ToV3Duration(p: Payload, kind: EventType, engine: Engine)
    requires Convertible(p, kind)
    ensures StagedDuration(ToV3(p, kind), engine) == StagedDuration(ToV2(p, kind), engine) <==>
            (kind.Cycle? && DurationS in p ==> SurvivesRounding(p[DurationS], engine))
  {
    var two, three := ToV2(p, kind), ToV3(p, kind);
    assert DurationS in two <==> DurationS in p;
    if kind.Cycle? && DurationS in p {
      var v := p[DurationS];
      assert two[DurationS] == v;
      assert StagedDuration(two, engine) == Some(if v.Number? then v.number else engine.cast(v));
      assert StagedDuration(three, engine) == Some(Millis(v) as real / 1000.0);
    } else {
      assert three == two;
    }
  }

  /** The v3 migration also rounds to milliseconds, so a duration survives it exactly when the engine reads that many. */
  lemma ToV3KeepsMeaningIff(p: Payload, kind: EventType, engine: Engine)
    requires Convertible(p, kind)
    ensures Conform(ToV3(p, kind), engine) == Conform(p, engine) <==>
            !BadgeShadowed(p, kind, engine) && (kind.Cycle? && DurationS in p ==> SurvivesRounding(p[DurationS], engine))
  {
    ToV2Touches(p, kind, engine);
    ToV3Touches(p, kind, engine);
    ToV2Operator(p, kind, engine);
    ToV3Duration(p, kind, engine);
    ConformedThrough(p, ToV2(p, kind), ToV3(p, kind), engine);
  }

  /** Through both migrations: the badge is as the first leaves it, the duration as the second does. */
  lemma ConformedThrough(p: Payload, two: Payload, three: Payload, engine: Engine)
    requires KeepsOutside(p, two, {Operator, OperatorBadge, LineId}, engine)
    requires KeepsOutside(two, three, {DurationS, DurationMs}, engine)
    ensures Conform(three, engine) == Conform(p, engine) <==>
            (Coalesce(JsonScalar(two, Operator, engine), JsonScalar(two, OperatorBadge, engine))
             == Coalesce(JsonScalar(p, Operator, engine), JsonScalar(p, OperatorBadge, engine))
             && StagedDuration(three, engine) == StagedDuration(two, engine))
  {
    assert JsonScalar(three, Operator, engine) == JsonScalar(two, Operator, engine);
    assert JsonScalar(three, OperatorBadge, engine) == JsonScalar(two, OperatorBadge, engine);
    assert JsonScalar(two, DurationS, engine) == JsonScalar(p, DurationS, engine);
    assert JsonScalar(two, DurationMs, engine) == JsonScalar(p, DurationMs, engine);
    ThroughBoth(p, two, three, {Operator, OperatorBadge, LineId}, {DurationS, DurationMs}, engine);
    assert {Operator, OperatorBadge, LineId} + {DurationS, DurationMs} == {Operator, OperatorBadge, LineId, DurationS, DurationMs};
    ConformedColumns(p, three, engine);
  }

  lemma ThroughBoth(p: Payload, q: Payload, r: Payload, first: set<Field>, second: set<Field>, engine: Engine)
    requires KeepsOutside(p, q, first, engine) && KeepsOutside(q, r, second, engine)
    ensures KeepsOutside(p, r, first + second, engine)
  {
    forall f | f !in first + second ensures JsonScalar(r, f, engine) == JsonScalar(p, f, engine) {
      assert JsonScalar(r, f, engine) == JsonScalar(q, f, engine);
    }
  }

  /** Drift is not always invisible. A cycle that carries a null operator beside a badge loses the badge to the rename. */
  lemma RenameErasesBadge(badge: Value, engine: Engine)
    requires !ReadsNull(badge, engine)
    ensures var p := map[Operator := Null, OperatorBadge := badge];
            && BadgeShadowed(p, Cycle, engine)
            && Conform(p, engine).operatorBadge == Some(badge) && Conform(ToV2(p, Cycle), engine).operatorBadge == None
  {
  }

  /** With an array for operator it does on one engine only: Athena loses the badge, DuckDB reads the array before and after. */
  lemma EnginesReadRenamesApart(json: string, cast: Value -> real)
    ensures var p := map[Operator := Compound(json), OperatorBadge := Text("B-7")];
            && Conform(p, Engine(cast, false)).operatorBadge == Some(Text("B-7"))
            && Conform(ToV2(p, Cycle), Engine(cast, false)).operatorBadge == None
            && Conform(p, Engine(cast, true)).operatorBadge == Some(Compound(json))
            && Conform(ToV2(p, Cycle), Engine(cast, true)).operatorBadge == Some(Compound(json))
  {
  }

  /** And a cycle of four tenths of a millisecond loses its duration to the rounding. */
  lemma RoundingErasesDuration(engine: Engine)
    ensures var p := map[DurationS := Number(0.0004)];
            && Convertible(p, Cycle)
            && StagedDuration(p, engine) == Some(0.0004) && StagedDuration(ToV3(p, Cycle), engine) == Some(0.0)
  {
    var p := map[DurationS := Number(0.0004)];
    assert Millis(p[DurationS]) == 0;
    assert DurationS !in ToV3(p, Cycle) && ToV3(p, Cycle)[DurationMs] == Number(0.0);
  }
}
