/**
 One scan, two views of it: the snapshot rows that Core sends, the target map that Core keeps, and the capabilities the
 gateway compiles from the rows.
 */
module Adapter {
  import opened Common
  import opened Parameters
  import Batch
  import Execution

  const MAX_ENTITIES := 2_000

  // ---------------------------------------------------------------------------------------------------------
  // The operation table
  // ---------------------------------------------------------------------------------------------------------

  const EMPTY := Schema(Some([]), map[])
  const BRIGHTNESS := Schema(Some(["brightness"]), map["brightness" := NumberSpec(Some(0.0), Some(100.0))])
  const VOLUME := Schema(Some(["volume"]), map["volume" := NumberSpec(Some(0.0), Some(1.0))])
  const HVAC_MODES := ["off", "heat", "cool", "heat_cool", "auto", "dry", "fan_only"]

  function Temperature(lower: real, upper: real): Schema {
    Schema(Some(["temperature"]), map["temperature" := NumberSpec(Some(lower), Some(upper))])
  }

  function HvacMode(modes: seq<string>): Schema {
    Schema(Some(["hvac_mode"]), map["hvac_mode" := StringSpec(Some(modes))])
  }

  datatype OperationSpec = OperationSpec(serviceDomain: string, service: string, schema: Schema, risk: string)

  function SpecOf(domain: string, operation: string): Option<OperationSpec> {
    if domain in {"light", "switch", "fan"} && operation in {"turn_on", "turn_off", "toggle"} then
      Some(OperationSpec(domain, operation, EMPTY, "routine"))
    else if domain == "light" && operation == "set_brightness" then Some(OperationSpec("light", "turn_on", BRIGHTNESS, "routine"))
    else if domain == "media_player" then
      if operation in {"turn_on", "turn_off"} then Some(OperationSpec("media_player", operation, EMPTY, "routine"))
      else if operation in {"play", "pause", "stop"} then Some(OperationSpec("media_player", "media_" + operation, EMPTY, "routine"))
      else if operation == "set_volume" then Some(OperationSpec("media_player", "volume_set", VOLUME, "routine"))
      else None
    else if domain == "climate" then
      if operation == "set_temperature" then Some(OperationSpec("climate", operation, Temperature(5.0, 35.0), "routine"))
      else if operation == "set_hvac_mode" then Some(OperationSpec("climate", operation, HvacMode(HVAC_MODES), "routine"))
      else None
    else if domain == "lock" && operation in {"lock", "unlock"} then Some(OperationSpec("lock", operation, EMPTY, "confirm"))
    else if domain in {"cover", "garage"} && operation in {"open_cover", "close_cover"} then
      Some(OperationSpec("cover", operation, EMPTY, "confirm"))
    else None
  }

  /** The operations of a domain in table order. */
  function OperationsFor(domain: string): (operations: seq<string>)
    ensures forall o :: o in operations <==> SpecOf(domain, o).Some?
  {
    if domain == "light" then ["turn_on", "turn_off", "toggle", "set_brightness"]
    else if domain in {"switch", "fan"} then ["turn_on", "turn_off", "toggle"]
    else if domain == "media_player" then ["turn_on", "turn_off", "play", "pause", "stop", "set_volume"]
    else if domain == "climate" then ["set_temperature", "set_hvac_mode"]
    else if domain == "lock" then ["lock", "unlock"]
    else if domain in {"cover", "garage"} then ["open_cover", "close_cover"]
    else []
  }

  const SUPPORTED: set<string> :=
    {"light", "switch", "fan", "media_player", "climate", "lock", "cover", "garage", "sensor", "binary_sensor", "script", "scene"}

  function RiskOf(domain: string): string {
    if domain in {"lock", "cover", "garage"} then "confirm" else "routine"
  }

  /** The table and the boundary's own list of executable pairs are the same. */
  lemma TableIsExecutable(domain: string, operation: string)
    ensures SpecOf(domain, operation).Some? <==> (domain, operation) in Execution.EXECUTABLE
    ensures SpecOf(domain, operation).Some? ==> SpecOf(domain, operation).value.risk == RiskOf(domain)
  {
  }

  // ---------------------------------------------------------------------------------------------------------
  // Parameter schemas
  // ---------------------------------------------------------------------------------------------------------

  /** What the attributes of a climate entity say; a bound that does not parse is `None`, one that is absent its default. */
  datatype Attributes = Attributes(minTemp: Option<Value>, maxTemp: Option<Value>, modes: Option<seq<string>>)

  predicate IsFloat(v: Value) {
    v.Number? || v.NaN? || v.Infinite?
  }

  /** `max(5.0, v)`: a comparison with NaN is false, so the bound stays. */
  function AtLeastFive(v: Value): Value {
    match v
    case Number(n) => if n > 5.0 then v else Number(5.0)
    case Infinite(positive) => if positive then v else Number(5.0)
    case _ => Number(5.0)
  }

  function AtMostThirtyFive(v: Value): Value {
    match v
    case Number(n) => if n < 35.0 then v else Number(35.0)
    case Infinite(positive) => if positive then Number(35.0) else v
    case _ => Number(35.0)
  }

  function NonEmpty(modes: seq<string>): seq<string> {
    if modes == [] then [] else (if modes[0] != "" then [modes[0]] else []) + NonEmpty(modes[1..])
  }

  function FirstModes(modes: seq<string>): seq<string> {
    if |modes| <= MAX_ENUM then modes else modes[..MAX_ENUM]
  }

  /** The table's row; a pair that is not in the table has no parameters. */
  function RowFor(domain: string, operation: string): OperationSpec {
    if SpecOf(domain, operation).Some? then SpecOf(domain, operation).value else OperationSpec(domain, operation, EMPTY, "routine")
  }

  function SchemaFor(domain: string, operation: string, attributes: Attributes): Schema {
    var schema := RowFor(domain, operation).schema;
    if operation == "set_temperature" then
      if attributes.minTemp.None? || attributes.maxTemp.None? || !IsFloat(attributes.minTemp.value) || !IsFloat(attributes.maxTemp.value)
      then schema
      else
        var lower, upper := AtLeastFive(attributes.minTemp.value), AtMostThirtyFive(attributes.maxTemp.value);
        if lower.Number? && upper.Number? && lower.n <= upper.n then Temperature(lower.n, upper.n) else schema
    else if operation == "set_hvac_mode" && attributes.modes.Some? then
      var modes := FirstModes(NonEmpty(attributes.modes.value));
      if modes != [] then HvacMode(modes) else schema
    else schema
  }

  /** Whatever the attributes say, the temperature a schema admits lies between 5 and 35, and there is one. */
  lemma TemperaturesAreBounded(attributes: Attributes, parameters: Values)
    ensures var spec := SchemaFor("climate", "set_temperature", attributes).properties["temperature"];
      spec.NumberSpec? && spec.minimum.Some? && spec.maximum.Some? && 5.0 <= spec.minimum.value <= spec.maximum.value <= 35.0
    ensures Accepts(Core, SchemaFor("climate", "set_temperature", attributes), parameters) ==>
      "temperature" in parameters && parameters["temperature"].Number? && 5.0 <= parameters["temperature"].n <= 35.0
  {
    var schema := SchemaFor("climate", "set_temperature", attributes);
    if Accepts(Core, schema, parameters) {
      assert "temperature" in schema.required.value;
      CoreValuesAreInSchema(schema, parameters, "temperature");
    }
  }

  /** The range of a thermostat: its own bounds cut to 5 and 35 when both parse and something is left, else all of 5 to 35. */
  lemma TemperatureRangeIs(attributes: Attributes)
    ensures SchemaFor("climate", "set_temperature", attributes) ==
      match (attributes.minTemp, attributes.maxTemp)
      case (Some(Number(a)), Some(Number(b))) =>
        if a <= 35.0 && 5.0 <= b && a <= b then Temperature(if a < 5.0 then 5.0 else a, if b > 35.0 then 35.0 else b) else Temperature(5.0, 35.0)
      case (Some(Number(a)), Some(NaN)) => Temperature(if a > 35.0 || a < 5.0 then 5.0 else a, 35.0)
      case (Some(Number(a)), Some(Infinite(true))) => Temperature(if a > 35.0 || a < 5.0 then 5.0 else a, 35.0)
      case (Some(NaN), Some(Number(b))) => Temperature(5.0, if b < 5.0 || b > 35.0 then 35.0 else b)
      case (Some(Infinite(false)), Some(Number(b))) => Temperature(5.0, if b < 5.0 || b > 35.0 then 35.0 else b)
      case _ => Temperature(5.0, 35.0)
  {
    assert "set_temperature" != "set_hvac_mode" by {
      assert |"set_temperature"| != |"set_hvac_mode"|;
    }
    ThermostatRow();
  }

  lemma ThermostatRow()
    ensures RowFor("climate", "set_temperature").schema == Temperature(5.0, 35.0)
    ensures RowFor("climate", "set_hvac_mode").schema == HvacMode(["off", "heat", "cool", "heat_cool", "auto", "dry", "fan_only"])
  {
    assert "climate"[0] == 'c' && "climate"[1] == 'l' && "cover"[1] == 'o' && "light"[0] == 'l' && "switch"[0] == 's' && "fan"[0] == 'f' && "media_player"[0] == 'm';
    assert |"set_temperature"| != |"set_hvac_mode"|;
  }

  lemma {:induction false} NonEmptyAre(modes: seq<string>, mode: string)
    ensures mode in NonEmpty(modes) <==> mode in modes && mode != ""
  {
    if modes == [] {
    } else {
      NonEmptyAre(modes[1..], mode);
      assert mode in modes <==> mode == modes[0] || mode in modes[1..];
    }
  }

  /** One required parameter, a text of these. */
  function Modes(modes: seq<string>): Schema {
    Schema(Some(["hvac_mode"]), map["hvac_mode" := StringSpec(Some(modes))])
  }

  /** The modes of a thermostat: the first thirty-two that are not empty, or the usual ones if it has none. */
  lemma ModesAre(attributes: Attributes)
    ensures var schema := SchemaFor("climate", "set_hvac_mode", attributes);
      if attributes.modes.Some? && exists mode :: mode in attributes.modes.value && mode != ""
      then schema == Modes(if |NonEmpty(attributes.modes.value)| <= 32 then NonEmpty(attributes.modes.value) else NonEmpty(attributes.modes.value)[..32])
      else schema == Modes(["off", "heat", "cool", "heat_cool", "auto", "dry", "fan_only"])
  {
    ThermostatRow();
    assert |"set_temperature"| != |"set_hvac_mode"|;
    if attributes.modes.Some? {
      forall mode ensures mode in NonEmpty(attributes.modes.value) <==> mode in attributes.modes.value && mode != "" {
        NonEmptyAre(attributes.modes.value, mode);
      }
      assert NonEmpty(attributes.modes.value) != [] ==> NonEmpty(attributes.modes.value)[0] in NonEmpty(attributes.modes.value);
    }
  }

  // ---------------------------------------------------------------------------------------------------------
  // Core's side
  // ---------------------------------------------------------------------------------------------------------

  /** `exposed` is what the exposure settings say; a disabled entity is not exposed whatever they say. */
  datatype State = State(entityId: string, disabled: bool, exposed: bool, available: bool, area: string, floor: string,
                         labels: seq<string>, attributes: Attributes)

  datatype Row = Row(adapterRef: string, domain: string, area: string, floor: string, labels: seq<string>, exposed: bool,
                     available: bool, operations: seq<string>, schemas: map<string, Schema>, risk: string)

  datatype Routine = Routine(adapterRef: string, kind: string)

  /** The digest behind all opaque ids: hexadecimal text, different for different values. */
  ghost predicate Opaque(hex: string -> string) {
    && (forall a: string, b: string :: hex(a) == hex(b) ==> a == b)
    && forall a: string :: ':' !in hex(a)
  }

  function OpaqueId(hex: string -> string, namespace: string, value: string): string {
    namespace + "-" + hex(namespace + "\0" + value)
  }

  function AdapterRef(hex: string -> string, entityId: string): string {
    OpaqueId(hex, "adapter", entityId)
  }

  function CapabilityId(hex: string -> string, ref: string, operation: string): string {
    OpaqueId(hex, "capability", ref + ":" + operation)
  }

  function DomainOf(entityId: string): string {
    if entityId == "" || entityId[0] == '.' then "" else [entityId[0]] + DomainOf(entityId[1..])
  }

  /** A state that becomes a row: scripts, scenes and groups go other ways. */
  predicate HasRow(s: State) {
    '.' in s.entityId && DomainOf(s.entityId) in SUPPORTED && DomainOf(s.entityId) !in {"script", "scene", "group"}
  }

  predicate IsRoutine(s: State) {
    '.' in s.entityId && DomainOf(s.entityId) in {"script", "scene"}
  }

  predicate Exposed(s: State) {
    !s.disabled && s.exposed
  }

  /** The service registry; without one every service is taken to be there. */
  type Services = (string, string) -> bool

  predicate Offers(s: State, services: Services, operation: string) {
    var spec := SpecOf(DomainOf(s.entityId), operation);
    spec.Some? && !s.disabled && services(spec.value.serviceDomain, spec.value.service)
  }

  function Offered(s: State, services: Services, operations: seq<string>): seq<string> {
    if operations == [] then []
    else
      var before, last := Offered(s, services, operations[..|operations| - 1]), operations[|operations| - 1];
      if Offers(s, services, last) then before + [last] else before
  }

  function SchemasOf(s: State, operations: seq<string>): map<string, Schema> {
    map o | o in operations :: SchemaFor(DomainOf(s.entityId), o, s.attributes)
  }

  function OperationsOf(s: State, services: Services): seq<string> {
    Offered(s, services, OperationsFor(DomainOf(s.entityId)))
  }

  lemma {:induction false} OfferedAre(s: State, services: Services, operations: seq<string>, o: string)
    ensures o in Offered(s, services, operations) <==> o in operations && Offers(s, services, o)
  {
    if operations == [] {
    } else {
      var before := operations[..|operations| - 1];
      OfferedAre(s, services, before, o);
      assert operations == before + [operations[|operations| - 1]];
    }
  }

  lemma OperationsAre(s: State, services: Services, o: string)
    ensures o in OperationsOf(s, services) <==> Offers(s, services, o)
  {
    OfferedAre(s, services, OperationsFor(DomainOf(s.entityId)), o);
  }

  function RowOf(s: State, services: Services, hex: string -> string): Row {
    var domain, operations := DomainOf(s.entityId), OperationsOf(s, services);
    Row(AdapterRef(hex, s.entityId), domain, s.area, s.floor, s.labels, Exposed(s), s.available, operations, SchemasOf(s, operations), RiskOf(domain))
  }

  function TargetOf(s: State, hex: string -> string, operation: string): Execution.Target {
    var domain, ref := DomainOf(s.entityId), AdapterRef(hex, s.entityId);
    var spec := RowFor(domain, operation);
    Execution.Target(CapabilityId(hex, ref, operation), ref, s.entityId, domain, operation, spec.serviceDomain, spec.service,
               SchemaFor(domain, operation, s.attributes), spec.risk)
  }

  type Targets = map<string, Execution.Target>

  function WithTargets(targets: Targets, s: State, hex: string -> string, operations: seq<string>): Targets {
    if operations == [] then targets
    else
      var before, last := WithTargets(targets, s, hex, operations[..|operations| - 1]), operations[|operations| - 1];
      before[CapabilityId(hex, AdapterRef(hex, s.entityId), last) := TargetOf(s, hex, last)]
  }

  datatype Build = Build(rows: seq<Row>, routines: seq<Routine>, targets: Targets)

  /** What the scan has built after its first `n` states. */
  function BuildTo(states: seq<State>, services: Services, hex: string -> string, n: nat): Build
    requires n <= |states|
  {
    if n == 0 then Build([], [], map[])
    else
      var before, s := BuildTo(states, services, hex, n - 1), states[n - 1];
      if IsRoutine(s) then
        if Exposed(s) then before.(routines := before.routines + [Routine(AdapterRef(hex, s.entityId), DomainOf(s.entityId))]) else before
      else if HasRow(s) then
        Build(before.rows + [RowOf(s, services, hex)], before.routines,
              if Exposed(s) then WithTargets(before.targets, s, hex, OperationsOf(s, services)) else before.targets)
      else before
  }

  function BuildOf(states: seq<State>, services: Services, hex: string -> string): Build {
    BuildTo(states, services, hex, |states|)
  }

  /** The scan's loop over the states; `None` is the error raised for too many of them. */
  method Scan(states: seq<State>, services: Services, hex: string -> string) returns (build: Option<Build>)
    ensures build == if |states| > 2_000 then None else Some(BuildOf(states, services, hex))
  {
    if |states| > MAX_ENTITIES {
      return None;
    }
    var rows: seq<Row> := [];
    var routines: seq<Routine> := [];
    var targets: Targets := map[];
    for i := 0 to |states|
      invariant BuildTo(states, services, hex, i) == Build(rows, routines, targets)
    {
      var s := states[i];
      if '.' in s.entityId {
        var domain, ref := DomainOf(s.entityId), AdapterRef(hex, s.entityId);
        if domain in {"script", "scene"} {
          if Exposed(s) {
            routines := routines + [Routine(ref, domain)];
          }
        } else if domain != "group" && domain in SUPPORTED {
          var operations, schemas, found := ScanOperations(s, services, hex, targets);
          rows := rows + [Row(ref, domain, s.area, s.floor, s.labels, Exposed(s), s.available, operations, schemas, RiskOf(domain))];
          targets := found;
        }
      }
    }
    return Some(Build(rows, routines, targets));
  }

  lemma OneMoreOperation(s: State, hex: string -> string, before: Targets, operations: seq<string>, o: string)
    ensures SchemasOf(s, operations + [o]) == SchemasOf(s, operations)[o := SchemaFor(DomainOf(s.entityId), o, s.attributes)]
    ensures WithTargets(before, s, hex, operations + [o]) ==
      WithTargets(before, s, hex, operations)[CapabilityId(hex, AdapterRef(hex, s.entityId), o) := TargetOf(s, hex, o)]
  {
    assert (operations + [o])[..|operations|] == operations;
    assert forall x :: x in operations + [o] <==> x in operations || x == o;
  }

  lemma OfferedNext(s: State, services: Services, all: seq<string>, i: nat)
    requires i < |all|
    ensures Offered(s, services, all[..i + 1]) == Offered(s, services, all[..i]) + if Offers(s, services, all[i]) then [all[i]] else []
  {
    assert all[..i + 1][..i] == all[..i];
  }

  /** What the inner loop has after these operations. */
  predicate ScannedSo(s: State, services: Services, hex: string -> string, before: Targets, offered: seq<string>,
                      operations: seq<string>, schemas: map<string, Schema>, targets: Targets)
  {
    && operations == offered && schemas == SchemasOf(s, operations)
    && targets == if Exposed(s) then WithTargets(before, s, hex, operations) else before
  }

  lemma ScansOn(s: State, services: Services, hex: string -> string, before: Targets, offered: seq<string>, o: string,
                operations: seq<string>, schemas: map<string, Schema>, targets: Targets)
    requires ScannedSo(s, services, hex, before, offered, operations, schemas, targets)
    ensures ScannedSo(s, services, hex, before, offered + [o], operations + [o], schemas[o := SchemaFor(DomainOf(s.entityId), o, s.attributes)],
                      if Exposed(s) then targets[CapabilityId(hex, AdapterRef(hex, s.entityId), o) := TargetOf(s, hex, o)] else targets)
  {
    OneMoreOperation(s, hex, before, operations, o);
  }

  /** The inner loop over the operations of one entity. */
  method ScanOperations(s: State, services: Services, hex: string -> string, before: Targets)
    returns (operations: seq<string>, schemas: map<string, Schema>, targets: Targets)
    ensures operations == OperationsOf(s, services) && schemas == SchemasOf(s, operations)
    ensures targets == if Exposed(s) then WithTargets(before, s, hex, operations) else before
  {
    var domain := DomainOf(s.entityId);
    var all := OperationsFor(domain);
    operations, schemas, targets := [], map[], before;
    for i := 0 to |all|
      invariant ScannedSo(s, services, hex, before, Offered(s, services, all[..i]), operations, schemas, targets)
    {
      var operation := all[i];
      OfferedNext(s, services, all, i);
      if Offers(s, services, operation) {
        ScansOn(s, services, hex, before, Offered(s, services, all[..i]), operation, operations, schemas, targets);
        operations := operations + [operation];
        schemas := schemas[operation := SchemaFor(domain, operation, s.attributes)];
        if Exposed(s) {
          targets := targets[CapabilityId(hex, AdapterRef(hex, s.entityId), operation) := TargetOf(s, hex, operation)];
        }
      }
    }
    assert all[..|all|] == all;
  }

  // ---------------------------------------------------------------------------------------------------------
  // The gateway's side
  // ---------------------------------------------------------------------------------------------------------

  function RiskClass(risk: string): string {
    if risk in {"routine", "confirm", "blocked"} then risk else "routine"
  }

  function ActionOf(row: Row, hex: string -> string, operation: string): Batch.Capability {
    Batch.Capability(CapabilityId(hex, row.adapterRef, operation), row.adapterRef, row.domain, operation, row.area, row.floor, row.labels,
                     true, row.available, RiskClass(row.risk), if operation in row.schemas then row.schemas[operation] else EMPTY)
  }

  function Actions(row: Row, hex: string -> string, operations: seq<string>): seq<Batch.Capability> {
    if operations == [] then []
    else Actions(row, hex, operations[..|operations| - 1]) + [ActionOf(row, hex, operations[|operations| - 1])]
  }

  function AllActions(rows: seq<Row>, hex: string -> string): seq<Batch.Capability> {
    if rows == [] then []
    else
      var before, row := AllActions(rows[..|rows| - 1], hex), rows[|rows| - 1];
      if row.exposed then before + Actions(row, hex, row.operations) else before
  }

  /** The compile's loop over the rows. */
  method CompileActions(rows: seq<Row>, hex: string -> string) returns (capabilities: seq<Batch.Capability>)
    ensures capabilities == AllActions(rows, hex)
  {
    capabilities := [];
    for i := 0 to |rows|
      invariant capabilities == AllActions(rows[..i], hex)
    {
      var row := rows[i];
      assert rows[..i + 1][..i] == rows[..i];
      if row.exposed {
        var before := capabilities;
        for j := 0 to |row.operations|
          invariant capabilities == before + Actions(row, hex, row.operations[..j])
        {
          assert row.operations[..j + 1][..j] == row.operations[..j];
          capabilities := capabilities + [ActionOf(row, hex, row.operations[j])];
        }
        assert row.operations[..|row.operations|] == row.operations;
      }
    }
    assert rows[..|rows|] == rows;
  }

  function RoutineId(hex: string -> string, ref: string): string {
    OpaqueId(hex, "capability", "routine:" + ref)
  }

  // ---------------------------------------------------------------------------------------------------------
  // The two sides agree
  // ---------------------------------------------------------------------------------------------------------

  lemma CancelLeft(x: string, y: string, z: string)
    requires x + y == x + z
    ensures y == z
  {
    assert y == (x + y)[|x|..] && z == (x + z)[|x|..];
  }

  function Colon(s: string): nat {
    if s == "" || s[0] == ':' then 0 else 1 + Colon(s[1..])
  }

  lemma {:induction false} ColonAfter(x: string, y: string)
    requires ':' !in x
    ensures Colon(x + ":" + y) == |x|
  {
    if x == "" {
      assert "" + ":" + y == ":" + y;
    } else {
      ColonAfter(x[1..], y);
      assert (x + ":" + y)[1..] == x[1..] + ":" + y;
    }
  }

  /** The text before the first colon and the text after it can be told apart. */
  lemma SplitAtColon(x: string, y: string, a: string, b: string)
    requires x + ":" + y == a + ":" + b && ':' !in x && ':' !in a
    ensures x == a && y == b
  {
    ColonAfter(x, y);
    ColonAfter(a, b);
    var whole := x + ":" + y;
    assert x == whole[..|x|] && a == whole[..|a|];
    assert y == whole[|x| + 1..] && b == whole[|a| + 1..];
  }

  lemma OpaqueIdsDiffer(hex: string -> string, namespace: string, a: string, b: string)
    requires Opaque(hex) && OpaqueId(hex, namespace, a) == OpaqueId(hex, namespace, b)
    ensures a == b
  {
    CancelLeft(namespace + "-", hex(namespace + "\0" + a), hex(namespace + "\0" + b));
    CancelLeft(namespace + "\0", a, b);
  }

  lemma RefHasNoColon(hex: string -> string, entityId: string)
    requires Opaque(hex)
    ensures ':' !in AdapterRef(hex, entityId)
  {
    var digits := hex("adapter" + "\0" + entityId);
    assert AdapterRef(hex, entityId) == "adapter-" + digits;
    assert ':' !in "adapter-";
  }

  function IdOf(s: State, hex: string -> string, operation: string): string {
    CapabilityId(hex, AdapterRef(hex, s.entityId), operation)
  }

  /** Different entities and operations have different capability ids. */
  lemma CapabilityIdsDiffer(hex: string -> string, s: State, o: string, t: State, p: string)
    requires Opaque(hex) && IdOf(s, hex, o) == IdOf(t, hex, p)
    ensures s.entityId == t.entityId && o == p
  {
    var x, y := AdapterRef(hex, s.entityId), AdapterRef(hex, t.entityId);
    OpaqueIdsDiffer(hex, "capability", x + ":" + o, y + ":" + p);
    RefHasNoColon(hex, s.entityId);
    RefHasNoColon(hex, t.entityId);
    SplitAtColon(x, o, y, p);
    OpaqueIdsDiffer(hex, "adapter", s.entityId, t.entityId);
  }

  predicate DistinctEntities(states: seq<State>) {
    forall i, j :: 0 <= i < j < |states| ==> states[i].entityId != states[j].entityId
  }

  /** Entity `k` of the scan may be acted on in this way, and Assist may see it. */
  predicate Actionable(states: seq<State>, services: Services, k: nat, operation: string) {
    k < |states| && HasRow(states[k]) && Exposed(states[k]) && Offers(states[k], services, operation)
  }

  lemma {:induction false} OtherIdsStay(targets: Targets, s: State, hex: string -> string, operations: seq<string>, id: string)
    requires forall o :: o in operations ==> id != IdOf(s, hex, o)
    ensures var after := WithTargets(targets, s, hex, operations);
      (id in after <==> id in targets) && (id in targets ==> after[id] == targets[id])
  {
    if |operations| == 0 {
    } else {
      var n := |operations| - 1;
      assert forall o :: o in operations[..n] ==> o in operations;
      OtherIdsStay(targets, s, hex, operations[..n], id);
      assert id != IdOf(s, hex, operations[n]);
    }
  }

  lemma SameIdSameTarget(s: State, hex: string -> string, o: string, p: string)
    requires Opaque(hex)
    ensures IdOf(s, hex, o) == IdOf(s, hex, p) ==> TargetOf(s, hex, o) == TargetOf(s, hex, p)
  {
    if IdOf(s, hex, o) == IdOf(s, hex, p) {
      CapabilityIdsDiffer(hex, s, o, s, p);
    }
  }

  lemma {:induction false} OwnIdsAreThere(targets: Targets, s: State, hex: string -> string, operations: seq<string>, k: nat)
    requires Opaque(hex) && k < |operations|
    ensures var after, id := WithTargets(targets, s, hex, operations), IdOf(s, hex, operations[k]);
      id in after && after[id] == TargetOf(s, hex, operations[k])
  {
    var n := |operations| - 1;
    if k < n {
      assert operations[..n][k] == operations[k];
      OwnIdsAreThere(targets, s, hex, operations[..n], k);
      SameIdSameTarget(s, hex, operations[k], operations[n]);
    }
  }

  /** Every target of the scan comes from an entity and an operation of it. */
  lemma {:induction false} TargetsComeFrom(states: seq<State>, services: Services, hex: string -> string, n: nat, id: string)
    returns (k: nat, operation: string)
    requires Opaque(hex) && n <= |states| && id in BuildTo(states, services, hex, n).targets
    ensures k < n && Actionable(states, services, k, operation) && id == IdOf(states[k], hex, operation)
    decreases n
  {
    var before, s := BuildTo(states, services, hex, n - 1), states[n - 1];
    if id in before.targets {
      k, operation := TargetsComeFrom(states, services, hex, n - 1, id);
    } else {
      var operations := OperationsOf(s, services);
      LastTargets(states, services, hex, n - 1);
      if forall o :: o in operations ==> id != IdOf(s, hex, o) {
        OtherIdsStay(before.targets, s, hex, operations, id);
      }
      var o :| o in operations && id == IdOf(s, hex, o);
      OperationsAre(s, services, o);
      k, operation := n - 1, o;
    }
  }

  lemma OthersKeepTargets(before: Targets, s: State, services: Services, hex: string -> string, t: State, operation: string)
    requires Opaque(hex) && s.entityId != t.entityId && IdOf(t, hex, operation) in before
    ensures var after, id := WithTargets(before, s, hex, OperationsOf(s, services)), IdOf(t, hex, operation);
      id in after && after[id] == before[id]
  {
    var id := IdOf(t, hex, operation);
    forall o ensures id != IdOf(s, hex, o) {
      if id == IdOf(s, hex, o) {
        CapabilityIdsDiffer(hex, t, operation, s, o);
      }
    }
    OtherIdsStay(before, s, hex, OperationsOf(s, services), id);
  }

  /** What one entity of a scan adds to the targets. */
  lemma LastTargets(states: seq<State>, services: Services, hex: string -> string, n: nat)
    requires n < |states|
    ensures var before := BuildTo(states, services, hex, n).targets;
      BuildTo(states, services, hex, n + 1).targets ==
        if HasRow(states[n]) && Exposed(states[n]) then WithTargets(before, states[n], hex, OperationsOf(states[n], services)) else before
  {
  }

  lemma OwnTargets(before: Targets, s: State, services: Services, hex: string -> string, operation: string)
    requires Opaque(hex) && Offers(s, services, operation)
    ensures var after, id := WithTargets(before, s, hex, OperationsOf(s, services)), IdOf(s, hex, operation);
      id in after && after[id] == TargetOf(s, hex, operation)
  {
    var operations := OperationsOf(s, services);
    OperationsAre(s, services, operation);
    var k :| 0 <= k < |operations| && operations[k] == operation;
    OwnIdsAreThere(before, s, hex, operations, k);
  }

  lemma TargetKept(states: seq<State>, services: Services, hex: string -> string, n: nat, k: nat, operation: string)
    requires Opaque(hex) && DistinctEntities(states) && k < n < |states|
    requires IdOf(states[k], hex, operation) in BuildTo(states, services, hex, n).targets
    ensures var id, before, after := IdOf(states[k], hex, operation), BuildTo(states, services, hex, n).targets, BuildTo(states, services, hex, n + 1).targets;
      id in after && after[id] == before[id]
  {
    LastTargets(states, services, hex, n);
    OthersKeepTargets(BuildTo(states, services, hex, n).targets, states[n], services, hex, states[k], operation);
  }

  /** A target that one entity put there is not replaced by the entities after it. */
  lemma {:induction false} TargetsStay(states: seq<State>, services: Services, hex: string -> string, n: nat, k: nat, operation: string)
    requires Opaque(hex) && DistinctEntities(states) && k < n <= |states|
    requires IdOf(states[k], hex, operation) in BuildTo(states, services, hex, k + 1).targets
    ensures var id, targets := IdOf(states[k], hex, operation), BuildTo(states, services, hex, n).targets;
      id in targets && targets[id] == BuildTo(states, services, hex, k + 1).targets[id]
    decreases n
  {
    if k < n - 1 {
      TargetsStay(states, services, hex, n - 1, k, operation);
      TargetKept(states, services, hex, n - 1, k, operation);
    }
  }

  /** And every such pair has its target. */
  lemma TargetsAreThere(states: seq<State>, services: Services, hex: string -> string, n: nat, k: nat, operation: string)
    requires Opaque(hex) && DistinctEntities(states) && k < n <= |states| && Actionable(states, services, k, operation)
    ensures var id, targets := IdOf(states[k], hex, operation), BuildTo(states, services, hex, n).targets;
      id in targets && targets[id] == TargetOf(states[k], hex, operation)
  {
    LastTargets(states, services, hex, k);
    OwnTargets(BuildTo(states, services, hex, k).targets, states[k], services, hex, operation);
    TargetsStay(states, services, hex, n, k, operation);
  }

  lemma {:induction false} ActionsAre(row: Row, hex: string -> string, operations: seq<string>)
    ensures |Actions(row, hex, operations)| == |operations|
    ensures forall i :: 0 <= i < |operations| ==> Actions(row, hex, operations)[i] == ActionOf(row, hex, operations[i])
  {
    if |operations| == 0 {
    } else {
      ActionsAre(row, hex, operations[..|operations| - 1]);
    }
  }

  lemma LastRows(states: seq<State>, services: Services, hex: string -> string, n: nat)
    requires n < |states|
    ensures BuildTo(states, services, hex, n + 1).rows ==
      BuildTo(states, services, hex, n).rows + (if HasRow(states[n]) then [RowOf(states[n], services, hex)] else [])
  {
  }

  lemma MoreActions(rows: seq<Row>, row: Row, hex: string -> string)
    ensures AllActions(rows + [row], hex) == AllActions(rows, hex) + if row.exposed then Actions(row, hex, row.operations) else []
  {
    assert (rows + [row])[..|rows|] == rows;
  }

  function ActionsTo(states: seq<State>, services: Services, hex: string -> string, n: nat): seq<Batch.Capability>
    requires n <= |states|
  {
    AllActions(BuildTo(states, services, hex, n).rows, hex)
  }

  /** What one entity of a scan adds to the compiled actions. */
  lemma LastActions(states: seq<State>, services: Services, hex: string -> string, n: nat)
    requires n < |states|
    ensures ActionsTo(states, services, hex, n + 1) == ActionsTo(states, services, hex, n) +
      (if HasRow(states[n]) && Exposed(states[n]) then Actions(RowOf(states[n], services, hex), hex, OperationsOf(states[n], services)) else [])
  {
    var rows := BuildTo(states, services, hex, n).rows;
    LastRows(states, services, hex, n);
    MoreActions(rows, RowOf(states[n], services, hex), hex);
    assert rows + [] == rows;
  }

  /** Every compiled action comes from an entity of the scan and an operation of it. */
  lemma {:induction false} ActionsComeFrom(states: seq<State>, services: Services, hex: string -> string, n: nat, c: Batch.Capability)
    returns (k: nat, operation: string)
    requires n <= |states| && c in ActionsTo(states, services, hex, n)
    ensures k < n && Actionable(states, services, k, operation) && c == ActionOf(RowOf(states[k], services, hex), hex, operation)
    decreases n
  {
    if n == 0 {
    } else {
      LastActions(states, services, hex, n - 1);
      if c in ActionsTo(states, services, hex, n - 1) {
        k, operation := ActionsComeFrom(states, services, hex, n - 1, c);
      } else {
        k := n - 1;
        operation := ListedFrom(states[n - 1], services, hex, c);
      }
    }
  }

  lemma ListedFrom(s: State, services: Services, hex: string -> string, c: Batch.Capability) returns (operation: string)
    requires c in Actions(RowOf(s, services, hex), hex, OperationsOf(s, services))
    ensures Offers(s, services, operation) && c == ActionOf(RowOf(s, services, hex), hex, operation)
  {
    var row, operations := RowOf(s, services, hex), OperationsOf(s, services);
    ActionsAre(row, hex, operations);
    var i :| 0 <= i < |operations| && Actions(row, hex, operations)[i] == c;
    operation := operations[i];
    OperationsAre(s, services, operation);
  }

  lemma ActionListed(row: Row, hex: string -> string, operations: seq<string>, operation: string)
    requires operation in operations
    ensures ActionOf(row, hex, operation) in Actions(row, hex, operations)
  {
    ActionsAre(row, hex, operations);
    var i :| 0 <= i < |operations| && operations[i] == operation;
    assert Actions(row, hex, operations)[i] == ActionOf(row, hex, operation);
  }

  lemma ActionKept(states: seq<State>, services: Services, hex: string -> string, n: nat, c: Batch.Capability)
    requires n < |states| && c in ActionsTo(states, services, hex, n)
    ensures c in ActionsTo(states, services, hex, n + 1)
  {
    LastActions(states, services, hex, n);
  }

  lemma {:induction false} ActionsStay(states: seq<State>, services: Services, hex: string -> string, n: nat, k: nat, c: Batch.Capability)
    requires k <= n <= |states| && c in ActionsTo(states, services, hex, k)
    ensures c in ActionsTo(states, services, hex, n)
    decreases n
  {
    if k < n {
      ActionsStay(states, services, hex, n - 1, k, c);
      ActionKept(states, services, hex, n - 1, c);
    }
  }

  lemma ActionsAreThere(states: seq<State>, services: Services, hex: string -> string, n: nat, k: nat, operation: string)
    requires k < n <= |states| && Actionable(states, services, k, operation)
    ensures ActionOf(RowOf(states[k], services, hex), hex, operation) in ActionsTo(states, services, hex, n)
  {
    LastActions(states, services, hex, k);
    OperationsAre(states[k], services, operation);
    ActionListed(RowOf(states[k], services, hex), hex, OperationsOf(states[k], services), operation);
    ActionsStay(states, services, hex, n, k + 1, ActionOf(RowOf(states[k], services, hex), hex, operation));
  }

  /** The gateway's view of an action and Core's target for it. */
  predicate Agree(c: Batch.Capability, t: Execution.Target) {
    && c.id == t.capabilityId && c.adapterRef == t.adapterRef && c.domain == t.domain && c.operation == t.operation
    && c.schema == t.schema && c.risk == t.risk
  }

  lemma PairAgrees(s: State, services: Services, hex: string -> string, operation: string)
    requires Offers(s, services, operation)
    ensures Agree(ActionOf(RowOf(s, services, hex), hex, operation), TargetOf(s, hex, operation))
  {
    var operations := OperationsOf(s, services);
    OperationsAre(s, services, operation);
    assert operation in SchemasOf(s, operations);
    TableIsExecutable(DomainOf(s.entityId), operation);
  }

  /** Core has a target for every compiled action, and the two agree. */
  lemma ActionHasTarget(states: seq<State>, services: Services, hex: string -> string, c: Batch.Capability)
    requires Opaque(hex) && DistinctEntities(states) && c in AllActions(BuildOf(states, services, hex).rows, hex)
    ensures c.id in BuildOf(states, services, hex).targets && Agree(c, BuildOf(states, services, hex).targets[c.id])
  {
    var k, o := ActionsComeFrom(states, services, hex, |states|, c);
    TargetsAreThere(states, services, hex, |states|, k, o);
    PairAgrees(states[k], services, hex, o);
  }

  /** And there is a compiled action for every target. */
  lemma TargetHasAction(states: seq<State>, services: Services, hex: string -> string, id: string) returns (c: Batch.Capability)
    requires Opaque(hex) && id in BuildOf(states, services, hex).targets
    ensures c in AllActions(BuildOf(states, services, hex).rows, hex) && c.id == id
  {
    var k, o := TargetsComeFrom(states, services, hex, |states|, id);
    ActionsAreThere(states, services, hex, |states|, k, o);
    c := ActionOf(RowOf(states[k], services, hex), hex, o);
  }

  lemma ActionsHaveOwnIds(states: seq<State>, services: Services, hex: string -> string, c: Batch.Capability, d: Batch.Capability)
    requires Opaque(hex) && DistinctEntities(states) && c.id == d.id
    requires c in AllActions(BuildOf(states, services, hex).rows, hex) && d in AllActions(BuildOf(states, services, hex).rows, hex)
    ensures c == d
  {
    var k, o := ActionsComeFrom(states, services, hex, |states|, c);
    var j, p := ActionsComeFrom(states, services, hex, |states|, d);
    ActionId(states[k], services, hex, o);
    ActionId(states[j], services, hex, p);
    CapabilityIdsDiffer(hex, states[k], o, states[j], p);
    SamePlace(states, k, j);
  }

  lemma ActionId(s: State, services: Services, hex: string -> string, operation: string)
    ensures ActionOf(RowOf(s, services, hex), hex, operation).id == IdOf(s, hex, operation)
  {
  }

  lemma SamePlace(states: seq<State>, i: nat, j: nat)
    requires DistinctEntities(states) && i < |states| && j < |states| && states[i].entityId == states[j].entityId
    ensures i == j
  {
  }

  function IdSet(s: seq<Batch.Capability>): set<string> {
    set c | c in s :: c.id
  }

  /**
   For any states with distinct ids the gateway's entity actions and Core's targets have the same ids, and for each id the
   two sides agree on what it refers to, its domain and operation, its parameter schema and its risk.
   */
  lemma BothSidesAgree(states: seq<State>, services: Services, hex: string -> string)
    requires Opaque(hex) && DistinctEntities(states)
    ensures var actions, targets := AllActions(BuildOf(states, services, hex).rows, hex), BuildOf(states, services, hex).targets;
      && targets.Keys == IdSet(actions)
      && (forall c :: c in actions ==> c.id in targets && Agree(c, targets[c.id]))
      && forall c, d :: c in actions && d in actions && c.id == d.id ==> c == d
  {
    var actions, targets := AllActions(BuildOf(states, services, hex).rows, hex), BuildOf(states, services, hex).targets;
    forall c | c in actions ensures c.id in targets && Agree(c, targets[c.id]) {
      ActionHasTarget(states, services, hex, c);
    }
    forall id | id in targets ensures id in IdSet(actions) {
      var c := TargetHasAction(states, services, hex, id);
    }
    forall c, d | c in actions && d in actions && c.id == d.id ensures c == d {
      ActionsHaveOwnIds(states, services, hex, c, d);
    }
  }

  lemma RoutineTextsDiffer(hex: string -> string, ref: string, entityId: string, operation: string)
    ensures "routine:" + ref != AdapterRef(hex, entityId) + ":" + operation
  {
    assert ("routine:" + ref)[0] == 'r';
    assert (AdapterRef(hex, entityId) + ":" + operation)[0] == 'a';
  }

  /** The gateway's profile lists scripts and scenes, but Core has no target for them. */
  lemma RoutinesHaveNoTarget(states: seq<State>, services: Services, hex: string -> string, ref: string)
    requires Opaque(hex)
    ensures RoutineId(hex, ref) !in BuildOf(states, services, hex).targets
  {
    var id := RoutineId(hex, ref);
    if id in BuildOf(states, services, hex).targets {
      var k, o := TargetsComeFrom(states, services, hex, |states|, id);
      var x := AdapterRef(hex, states[k].entityId);
      RoutineTextsDiffer(hex, ref, states[k].entityId, o);
      OpaqueIdsDiffer(hex, "capability", "routine:" + ref, x + ":" + o);
    }
  }

  // ---------------------------------------------------------------------------------------------------------
  // What a scan contains
  // ---------------------------------------------------------------------------------------------------------

  /** The service behind each executable operation. */
  function ServiceOf(domain: string, operation: string): (string, string) {
    if operation == "set_brightness" then ("light", "turn_on")
    else if operation in {"play", "pause", "stop"} then ("media_player", "media_" + operation)
    else if operation == "set_volume" then ("media_player", "volume_set")
    else if operation in {"open_cover", "close_cover"} then ("cover", operation)
    else (domain, operation)
  }

  lemma ServicesAre(domain: string, operation: string)
    requires (domain, operation) in Execution.EXECUTABLE
    ensures var spec := SpecOf(domain, operation);
      && spec.Some? && (spec.value.serviceDomain, spec.value.service) == ServiceOf(domain, operation)
      && spec.value.risk == if domain in {"lock", "cover", "garage"} then "confirm" else "routine"
  {
    TableIsExecutable(domain, operation);
  }

  /** An exposed, enabled entity, and an operation of its domain whose service there is. */
  predicate Operates(states: seq<State>, services: Services, k: nat, operation: string) {
    && k < |states| && '.' in states[k].entityId && !states[k].disabled && states[k].exposed
    && var domain := DomainOf(states[k].entityId);
       && (domain, operation) in Execution.EXECUTABLE
       && services(ServiceOf(domain, operation).0, ServiceOf(domain, operation).1)
  }

  lemma ExecutableDomains(domain: string, operation: string)
    requires (domain, operation) in Execution.EXECUTABLE
    ensures domain in {"light", "switch", "fan", "media_player", "climate", "lock", "cover", "garage"}
  {
  }

  lemma ActionableMeans(states: seq<State>, services: Services, k: nat, operation: string)
    ensures Actionable(states, services, k, operation) <==> Operates(states, services, k, operation)
  {
    if k < |states| {
      var domain := DomainOf(states[k].entityId);
      TableIsExecutable(domain, operation);
      if (domain, operation) in Execution.EXECUTABLE {
        ServicesAre(domain, operation);
        ExecutableDomains(domain, operation);
      }
    }
  }

  /** Core's targets are exactly the operations of exposed, enabled entities; each writes to that entity's own service. */
  lemma TargetsExactly(states: seq<State>, services: Services, hex: string -> string, id: string)
    requires Opaque(hex) && DistinctEntities(states)
    ensures id in BuildOf(states, services, hex).targets <==>
      exists k: nat, operation :: Operates(states, services, k, operation) && id == IdOf(states[k], hex, operation)
    ensures forall k: nat, operation :: Operates(states, services, k, operation) && id == IdOf(states[k], hex, operation) ==>
      && id in BuildOf(states, services, hex).targets
      && TargetsEntity(BuildOf(states, services, hex).targets[id], states[k], operation)
  {
    if id in BuildOf(states, services, hex).targets {
      var k, operation := TargetsComeFrom(states, services, hex, |states|, id);
      ActionableMeans(states, services, k, operation);
    }
    forall k: nat, operation | Operates(states, services, k, operation) && id == IdOf(states[k], hex, operation)
      ensures id in BuildOf(states, services, hex).targets && TargetsEntity(BuildOf(states, services, hex).targets[id], states[k], operation)
    {
      ActionableMeans(states, services, k, operation);
      TargetsAreThere(states, services, hex, |states|, k, operation);
      ServicesAre(DomainOf(states[k].entityId), operation);
    }
  }

  predicate TargetsEntity(t: Execution.Target, s: State, operation: string) {
    && t.entityId == s.entityId && t.operation == operation && t.domain == DomainOf(s.entityId)
    && (t.serviceDomain, t.service) == ServiceOf(t.domain, operation)
    && t.risk == (if t.domain in {"lock", "cover", "garage"} then "confirm" else "routine")
  }

  /** A row for every entity of a supported domain but scripts, scenes and groups, whether exposed or not. */
  predicate Listed(s: State) {
    && '.' in s.entityId
    && DomainOf(s.entityId) in
         {"light", "switch", "fan", "media_player", "climate", "lock", "cover", "garage", "sensor", "binary_sensor"}
  }

  lemma ListedMeans(s: State)
    ensures HasRow(s) <==> Listed(s)
    ensures IsRoutine(s) <==> '.' in s.entityId && DomainOf(s.entityId) in {"script", "scene"}
  {
  }

  lemma {:induction false} RowComesFrom(states: seq<State>, services: Services, hex: string -> string, n: nat, row: Row) returns (k: nat)
    requires n <= |states| && row in BuildTo(states, services, hex, n).rows
    ensures k < n && Listed(states[k]) && row == RowOf(states[k], services, hex)
  {
    LastRows(states, services, hex, n - 1);
    if row in BuildTo(states, services, hex, n - 1).rows {
      k := RowComesFrom(states, services, hex, n - 1, row);
    } else {
      k := n - 1;
      ListedMeans(states[k]);
    }
  }

  lemma {:induction false} RowIsThere(states: seq<State>, services: Services, hex: string -> string, n: nat, k: nat)
    requires k < n <= |states| && Listed(states[k])
    ensures RowOf(states[k], services, hex) in BuildTo(states, services, hex, n).rows
    decreases n
  {
    LastRows(states, services, hex, n - 1);
    if k == n - 1 {
      ListedMeans(states[k]);
    } else {
      RowIsThere(states, services, hex, n - 1, k);
    }
  }

  lemma RowsExactly(states: seq<State>, services: Services, hex: string -> string, row: Row)
    ensures row in BuildOf(states, services, hex).rows <==> exists k :: 0 <= k < |states| && Listed(states[k]) && row == RowOf(states[k], services, hex)
  {
    if row in BuildOf(states, services, hex).rows {
      var k := RowComesFrom(states, services, hex, |states|, row);
    }
    forall k: nat | k < |states| && Listed(states[k]) ensures RowOf(states[k], services, hex) in BuildOf(states, services, hex).rows {
      RowIsThere(states, services, hex, |states|, k);
    }
  }

  /** A routine for every exposed, enabled script and scene. */
  lemma {:induction false} RoutinesExactly(states: seq<State>, services: Services, hex: string -> string, n: nat, routine: Routine)
    requires n <= |states|
    ensures routine in BuildTo(states, services, hex, n).routines <==>
      exists k :: 0 <= k < n && '.' in states[k].entityId && DomainOf(states[k].entityId) in {"script", "scene"}
        && !states[k].disabled && states[k].exposed
        && routine == Routine(AdapterRef(hex, states[k].entityId), DomainOf(states[k].entityId))
  {
    if n == 0 {
    } else {
      RoutinesExactly(states, services, hex, n - 1, routine);
      LastRoutines(states, services, hex, n - 1);
      ListedMeans(states[n - 1]);
    }
  }

  lemma LastRoutines(states: seq<State>, services: Services, hex: string -> string, n: nat)
    requires n < |states|
    ensures BuildTo(states, services, hex, n + 1).routines ==
      BuildTo(states, services, hex, n).routines
      + (if IsRoutine(states[n]) && Exposed(states[n]) then [Routine(AdapterRef(hex, states[n].entityId), DomainOf(states[n].entityId))] else [])
  {
  }

  /** What an action says of its row: the gateway offers exactly its operations, with their schemas and its risk. */
  lemma ActionSays(row: Row, hex: string -> string, operation: string)
    requires operation in row.schemas
    ensures var c := ActionOf(row, hex, operation);
      && c.id == CapabilityId(hex, row.adapterRef, operation) && c.adapterRef == row.adapterRef && c.domain == row.domain && c.operation == operation
      && c.area == row.area && c.floor == row.floor && c.labels == row.labels && c.exposed && c.available == row.available
      && c.schema == row.schemas[operation]
      && (row.risk in {"routine", "confirm", "blocked"} ==> c.risk == row.risk) && (row.risk !in {"routine", "confirm", "blocked"} ==> c.risk == "routine")
  {
  }

  /** What a row says of its entity. */
  lemma RowSays(s: State, services: Services, hex: string -> string, operation: string)
    ensures var row, domain := RowOf(s, services, hex), DomainOf(s.entityId);
      && row.adapterRef == AdapterRef(hex, s.entityId) && row.domain == domain
      && row.area == s.area && row.floor == s.floor && row.labels == s.labels && row.available == s.available
      && (row.exposed <==> !s.disabled && s.exposed)
      && row.risk == (if domain in {"lock", "cover", "garage"} then "confirm" else "routine")
      && (operation in row.operations <==>
            && (domain, operation) in Execution.EXECUTABLE && !s.disabled
            && services(ServiceOf(domain, operation).0, ServiceOf(domain, operation).1))
  {
    var domain := DomainOf(s.entityId);
    OperationsAre(s, services, operation);
    TableIsExecutable(domain, operation);
    if (domain, operation) in Execution.EXECUTABLE {
      ServicesAre(domain, operation);
    }
  }
}
