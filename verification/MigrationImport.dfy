/**
  The insert-only configuration import: a planning pass over a JSON document, then a commit pass that
  inserts asset types and pool instances in one transaction.
 */
module MigrationImport {
  import opened Wrappers

  // ----- JSON values, as Python sees them -----

  datatype Json = Null | Bool(b: bool) | Int(i: int) | Num(x: real) | Str(s: string)
                | List(items: seq<Json>) | Obj(members: map<string, Json>)

  predicate Truthy(j: Json) {
    match j
    case Null => false
    case Bool(b) => b
    case Int(i) => i != 0
    case Num(x) => x != 0.0
    case Str(s) => s != ""
    case List(items) => items != []
    case Obj(members) => members != map[]
  }

  predicate Hashable(j: Json) {
    !j.List? && !j.Obj?
  }

  // ----- the columns of an asset type and how they travel -----

  datatype Field =
    | Name | Description | HelpText | IsActive | ShowOnDashboard | Category | Config | AssignmentModel
    | PoolCapacity | AutomationMode | Targets | AutomationStrategy | CompositeSteps | DeprovisionPolicy
    | PersonalProvisioningStrategy | NamingPattern | MaxPerUser | MonthlyCost | Currency | CostCenter
    | LifecycleTtlDays | LifecycleRenewable | LifecycleReminderDays | AllowRdpUsers | AllowAdminUsers
    | RdsGatewayUrl | RequiresManagerApproval | RequiresOwnerApproval | ApprovalOwners | ApprovalRules
    | MinApprovalsRequired | RequiresApprovalOnModify | EligibleRequestorsDn | Logo | DriftMonitor
      // columns the document does not carry
    | PortalStepVisibility | ContractId | CollectJustification | JustificationRequired
    | RequiresHandoverAck | EmitRevocationCertificate

  /** What the import does with a column: take it as it is, coerce it, or leave it to the column's default. */
  datatype Rule = Verbatim | Flag(default: bool) | OrDefault(text: string) | OrNull | Quota | Cost
                | Dropped(value: Json)

  function RuleOf(f: Field): Rule {
    match f
    case IsActive => Flag(true)
    case LifecycleRenewable => Flag(true)
    case ShowOnDashboard | AllowRdpUsers | AllowAdminUsers => Flag(false)
    case RequiresManagerApproval | RequiresOwnerApproval | RequiresApprovalOnModify | DriftMonitor => Flag(false)
    case AssignmentModel => OrDefault("assigned_personal")
    case AutomationMode => OrDefault("runbook")
    case AutomationStrategy => OrDefault("runbook_only")
    case DeprovisionPolicy => OrDefault("access_only")
    case Currency | CostCenter | ApprovalRules | EligibleRequestorsDn | Logo => OrNull
    case MaxPerUser => Quota
    case MonthlyCost => Cost
    case PortalStepVisibility => Dropped(Str("off"))
    case ContractId => Dropped(Null)
    case CollectJustification | JustificationRequired => Dropped(Bool(false))
    case RequiresHandoverAck | EmitRevocationCertificate => Dropped(Bool(false))
    case _ => Verbatim
  }

  type Row = map<Field, Json>

  function Get(row: Row, f: Field): Json {
    if f in row then row[f] else Null
  }

  const CATEGORIES := {Str("application_access"), Str("platform_access"), Str("data_access"),
                       Str("device_access"), Str("infrastructure_access")}

  /** The decisions of code outside this module. */
  datatype Env = Env(violates: (Json, Json, Json, Json, Json) -> bool, parseInt: string -> Option<int>,
                     parseDecimal: string -> Option<real>, storable: Row -> bool, poolStorable: (string, Json) -> bool)

  function Truncate(x: real): int {
    if x >= 0.0 then x.Floor else -((-x).Floor)
  }

  /** `int(...)`; None is an exception. */
  function ToInt(j: Json, env: Env): Option<int> {
    match j
    case Bool(b) => Some(if b then 1 else 0)
    case Int(i) => Some(i)
    case Num(x) => Some(Truncate(x))
    case Str(s) => env.parseInt(s)
    case _ => None
  }

  function ToDecimal(j: Json, env: Env): Json {
    match j
    case Int(i) => Num(i as real)
    case Num(x) => Num(x)
    case Str(s) => (match env.parseDecimal(s) case Some(x) => Num(x) case None => Null)
    case _ => Null
  }

  function BuildField(f: Field, row: Row, env: Env): Option<Json> {
    var v := Get(row, f);
    match RuleOf(f)
    case Verbatim => Some(v)
    case Flag(default) => Some(Bool(if f in row then Truthy(v) else default))
    case OrDefault(text) => Some(if Truthy(v) then v else Str(text))
    case OrNull => Some(if Truthy(v) then v else Null)
    case Quota => (match ToInt(if Truthy(v) then v else Int(1), env) case Some(n) => Some(Int(n)) case None => None)
    case Cost => Some(ToDecimal(v, env))
    case Dropped(value) => Some(value)
  }

  function Build(row: Row, env: Env): Option<Row> {
    if forall f: Field :: BuildField(f, row, env).Some?
    then Some(map f: Field | true :: BuildField(f, row, env).value)
    else None
  }

  function Serialise(at: Row): Row {
    map f: Field | f in at && !RuleOf(f).Dropped? :: at[f]
  }

  /** The column types. */
  predicate WellTyped(f: Field, v: Json) {
    match RuleOf(f)
    case Flag(_) => v.Bool?
    case OrDefault(_) => v.Str?
    case Quota => v.Int?
    case Cost => v.Null? || v.Num?
    case _ => true
  }

  /** The column values that come back from an export and import. */
  predicate Travels(f: Field, v: Json) {
    match RuleOf(f)
    case OrDefault(_) => v != Str("")
    case OrNull => Truthy(v) || v.Null?
    case Quota => v != Int(0)
    case Dropped(value) => v == value
    case _ => true
  }

  predicate IsAssetType(at: Row) {
    forall f: Field :: f in at && WellTyped(f, at[f])
  }

  lemma FieldTravels(f: Field, at: Row, env: Env)
    requires IsAssetType(at)
    ensures BuildField(f, Serialise(at), env).Some?
    ensures BuildField(f, Serialise(at), env) == Some(at[f]) <==> Travels(f, at[f])
  {
    assert RuleOf(f).OrDefault? ==> RuleOf(f).text != "";
    hide RuleOf;
    assert f in at && WellTyped(f, at[f]);
    assert Get(Serialise(at), f) == if RuleOf(f).Dropped? then Null else at[f];
  }

  /** An asset type comes back unchanged exactly when no column holds a value the import coerces or drops. */
  lemma TypeTravelsIff(at: Row, env: Env)
    requires IsAssetType(at)
    ensures Build(Serialise(at), env) == Some(at) <==> forall f: Field :: Travels(f, at[f])
  {
    hide BuildField, Travels, WellTyped, Serialise;
    forall f: Field
      ensures BuildField(f, Serialise(at), env).Some?
      ensures BuildField(f, Serialise(at), env) == Some(at[f]) <==> Travels(f, at[f])
    {
      FieldTravels(f, at, env);
    }
    var built := map f: Field | true :: BuildField(f, Serialise(at), env).value;
    assert Build(Serialise(at), env) == Some(built);
    if forall f: Field :: Travels(f, at[f]) {
      assert built == at;
    }
  }

  /** What a column holds when the document leaves it out. */
  ghost function LeftOut(f: Field): Json {
    match f
    case IsActive | LifecycleRenewable => Bool(true)
    case ShowOnDashboard | AllowRdpUsers | AllowAdminUsers | DriftMonitor => Bool(false)
    case RequiresManagerApproval | RequiresOwnerApproval | RequiresApprovalOnModify => Bool(false)
    case CollectJustification | JustificationRequired | RequiresHandoverAck | EmitRevocationCertificate => Bool(false)
    case AssignmentModel => Str("assigned_personal")
    case AutomationMode => Str("runbook")
    case AutomationStrategy => Str("runbook_only")
    case DeprovisionPolicy => Str("access_only")
    case PortalStepVisibility => Str("off")
    case MaxPerUser => Int(1)
    case _ => Null
  }

  /** The values Python takes for false. */
  ghost predicate Falsy(v: Json) {
    v == Null || v == Bool(false) || v == Int(0) || v == Num(0.0) || v == Str("") || v == List([]) || v == Obj(map[])
  }

  /** What a column holds once the row is rebuilt. */
  ghost predicate BuiltAs(f: Field, row: Row, v: Json) {
    if f !in row then v == LeftOut(f)
    else
      match f
      case IsActive | LifecycleRenewable | ShowOnDashboard | AllowRdpUsers | AllowAdminUsers | DriftMonitor
         | RequiresManagerApproval | RequiresOwnerApproval | RequiresApprovalOnModify => v == Bool(!Falsy(row[f]))
      case AssignmentModel | AutomationMode | AutomationStrategy | DeprovisionPolicy | Currency | CostCenter
         | ApprovalRules | EligibleRequestorsDn | Logo => v == if Falsy(row[f]) then LeftOut(f) else row[f]
      case PortalStepVisibility | ContractId | CollectJustification | JustificationRequired | RequiresHandoverAck
         | EmitRevocationCertificate => v == LeftOut(f)
      case MaxPerUser => v.Int? && (Falsy(row[f]) ==> v == Int(1)) && (row[f].Int? && !Falsy(row[f]) ==> v == row[f])
      case MonthlyCost => (v.Null? || v.Num?) && (row[f].Num? || row[f].Null? ==> v == row[f])
      case _ => v == row[f]
  }

  /**
    How a row is rebuilt: a column left out gets its default, and so do the mode columns, the quota and the
    optional texts when their value is falsy; switches become booleans; columns no document carries keep
    their default; every other value arrives as it is.
   */
  lemma BuiltColumns(row: Row, env: Env)
    requires Build(row, env).Some?
    ensures forall f: Field :: f in Build(row, env).value && BuiltAs(f, row, Build(row, env).value[f])
  {
    hide BuildField, BuiltAs;
    var at := Build(row, env).value;
    forall f: Field ensures f in at && BuiltAs(f, row, at[f]) {
      BuiltColumn(f, row, env);
    }
  }

  lemma BuiltColumn(f: Field, row: Row, env: Env)
    ensures BuildField(f, row, env).Some? ==> BuiltAs(f, row, BuildField(f, row, env).value)
  {
    hide BuildField, LeftOut, Falsy;
    if f in row {
      GivenColumn(f, row, env);
    } else {
      MissingColumn(f, row, env);
    }
  }

  lemma MissingColumn(f: Field, row: Row, env: Env)
    requires f !in row
    ensures BuildField(f, row, env).Some? ==> BuildField(f, row, env).value == LeftOut(f)
  {
    TruthyNull();
    hide Truthy;
  }

  lemma GivenColumn(f: Field, row: Row, env: Env)
    requires f in row
    ensures BuildField(f, row, env).Some? ==> BuiltAs(f, row, BuildField(f, row, env).value)
  {
    FalsyIff(row[f]);
    hide Truthy, Falsy;
  }

  lemma FalsyIff(v: Json)
    ensures Falsy(v) <==> !Truthy(v)
  {
  }

  // ----- the document -----

  /** An entry of `asset_types`: an object, a falsy value, or something without a `get`. */
  datatype TypeEntry = TypeEntry(row: Row) | TypeBlank | TypeAlien

  datatype PoolRow = PoolRow(name: Json, assetType: Json, metadata: Json)

  datatype PoolEntry = PoolEntry(row: PoolRow) | PoolBlank | PoolAlien

  // ----- planning -----

  datatype TypePlan = TypePlan(create: seq<Row>, skipped: seq<Json>, invalid: seq<Json>)

  predicate Violates(row: Row, env: Env) {
    env.violates(Get(row, Category),
                 OrText(Get(row, AssignmentModel), "assigned_personal"),
                 OrText(Get(row, AutomationStrategy), "runbook_only"),
                 OrText(Get(row, DeprovisionPolicy), "access_only"),
                 Get(row, PersonalProvisioningStrategy))
  }

  function OrText(j: Json, text: string): Json {
    if Truthy(j) then j else Str(text)
  }

  /** None is an exception: the entry has no `get`, or an unhashable value meets a set. */
  function PlanType(plan: TypePlan, existing: set<Json>, entry: TypeEntry, env: Env): Option<TypePlan> {
    if entry.TypeAlien? then None else
    var row := if entry.TypeEntry? then entry.row else map[];
    var name := Get(row, Name);
    if !Truthy(name) then Some(plan.(invalid := plan.invalid + [Str("")]))
    else if !Hashable(name) then None
    else if name in existing then Some(plan.(skipped := plan.skipped + [name]))
    else if !Hashable(Get(row, Category)) then None
    else if Get(row, Category) !in CATEGORIES || Violates(row, env) then Some(plan.(invalid := plan.invalid + [name]))
    else Some(plan.(create := plan.create + [row]))
  }

  function PlanTypes(existing: set<Json>, entries: seq<TypeEntry>, env: Env): Option<TypePlan> {
    if entries == [] then Some(TypePlan([], [], [])) else
    match PlanTypes(existing, entries[..|entries| - 1], env)
    case None => None
    case Some(plan) => PlanType(plan, existing, entries[|entries| - 1], env)
  }

  function NamesOf(rows: seq<Row>): set<Json> {
    set i | 0 <= i < |rows| :: Get(rows[i], Name)
  }

  datatype PoolPlan = PoolPlan(create: seq<PoolRow>, skipped: seq<Json>, noType: seq<Json>, seen: set<Json>)

  function PlanInstance(plan: PoolPlan, known: set<Json>, existing: set<Json>, entry: PoolEntry): Option<PoolPlan> {
    if entry.PoolAlien? then None else
    if entry.PoolBlank? || !Truthy(entry.row.name) then Some(plan)
    else if !Hashable(entry.row.name) then None
    else if entry.row.name in existing || entry.row.name in plan.seen then
      Some(plan.(skipped := plan.skipped + [entry.row.name]))
    else if !Hashable(entry.row.assetType) then None
    else if entry.row.assetType !in known then Some(plan.(noType := plan.noType + [entry.row.name]))
    else Some(plan.(seen := plan.seen + {entry.row.name}, create := plan.create + [entry.row]))
  }

  function PlanPool(known: set<Json>, existing: set<Json>, entries: seq<PoolEntry>): Option<PoolPlan> {
    if entries == [] then Some(PoolPlan([], [], [], {})) else
    match PlanPool(known, existing, entries[..|entries| - 1])
    case None => None
    case Some(plan) => PlanInstance(plan, known, existing, entries[|entries| - 1])
  }

  // ----- the tables -----

  datatype Instance = Instance(name: string, typeId: int, status: string, metadata: Json)

  datatype Tables = Tables(types: map<int, Row>, pool: map<int, Instance>, nextType: int, nextPool: int)

  predicate Valid(db: Tables) {
    && (forall id :: id in db.types ==> id < db.nextType && Get(db.types[id], Name).Str?)
    && (forall a, b :: a in db.types && b in db.types && Get(db.types[a], Name) == Get(db.types[b], Name) ==> a == b)
    && (forall id :: id in db.pool ==> id < db.nextPool && db.pool[id].typeId in db.types)
    && (forall a, b :: a in db.pool && b in db.pool && db.pool[a].name == db.pool[b].name ==> a == b)
  }

  function TypeNames(db: Tables): set<Json> {
    set id | id in db.types :: Get(db.types[id], Name)
  }

  function PoolNames(db: Tables): set<Json> {
    set id | id in db.pool :: Str(db.pool[id].name)
  }

  /** A flush that the database refuses (types, lengths, the unique name) is None. */
  function InsertType(db: Tables, row: Row, env: Env): Option<Tables> {
    match Build(row, env)
    case None => None
    case Some(at) =>
      if Get(at, Name).Str? && env.storable(at) && Get(at, Name) !in TypeNames(db)
      then Some(db.(types := db.types[db.nextType := at], nextType := db.nextType + 1))
      else None
  }

  function InsertTypes(db: Tables, rows: seq<Row>, env: Env): Option<Tables> {
    if rows == [] then Some(db) else
    match InsertTypes(db, rows[..|rows| - 1], env)
    case None => None
    case Some(after) => InsertType(after, rows[|rows| - 1], env)
  }

  predicate PoolRowStorable(row: PoolRow, env: Env) {
    row.name.Str? && env.poolStorable(row.name.s, row.metadata)
  }

  /** `SELECT name, id FROM asset_types`. */
  function IdByName(db: Tables): map<Json, int>
    requires Valid(db)
  {
    map id | id in db.types :: Get(db.types[id], Name) := id
  }

  function InsertInstance(db: Tables, ids: map<Json, int>, row: PoolRow, env: Env): Option<Tables> {
    if row.assetType !in ids then Some(db)
    else if PoolRowStorable(row, env) && row.name !in PoolNames(db) then
      Some(db.(pool := db.pool[db.nextPool := Instance(row.name.s, ids[row.assetType], "Free", row.metadata)],
               nextPool := db.nextPool + 1))
    else None
  }

  function InsertPool(db: Tables, ids: map<Json, int>, rows: seq<PoolRow>, env: Env): Option<Tables> {
    if rows == [] then Some(db) else
    match InsertPool(db, ids, rows[..|rows| - 1], env)
    case None => None
    case Some(after) => InsertInstance(after, ids, rows[|rows| - 1], env)
  }

  // ----- the request -----

  datatype Report = Report(typesCreated: int, typesSkipped: int, typesInvalid: seq<Json>,
                           poolCreated: int, poolSkipped: int, poolNoType: seq<Json>)

  datatype Response = ServerError | Done(report: Report)

  function Planned(types: TypePlan, pool: PoolPlan): Report {
    Report(|types.create|, |types.skipped|, types.invalid, |pool.create|, |pool.skipped|, pool.noType)
  }

  datatype Plans = Plans(types: TypePlan, pool: PoolPlan)

  function Plan(db: Tables, env: Env, types: seq<TypeEntry>, pool: seq<PoolEntry>): Option<Plans> {
    match PlanTypes(TypeNames(db), types, env)
    case None => None
    case Some(typePlan) =>
      match PlanPool(TypeNames(db) + NamesOf(typePlan.create), PoolNames(db), pool)
      case None => None
      case Some(poolPlan) => Some(Plans(typePlan, poolPlan))
  }

  /** What a dry run answers. */
  function DryRun(db: Tables, env: Env, types: seq<TypeEntry>, pool: seq<PoolEntry>): Response {
    match Plan(db, env, types, pool)
    case None => ServerError
    case Some(plans) => Done(Planned(plans.types, plans.pool))
  }

  /** The tables a planned import commits; None when it is rolled back. */
  function Committed(db: Tables, env: Env, plans: Plans): Option<Tables>
    requires Valid(db)
  {
    match InsertTypes(db, plans.types.create, env)
    case None => None
    case Some(withTypes) =>
      InsertTypesKeeps(db, plans.types.create, env);
      InsertPool(withTypes, IdByName(withTypes), plans.pool.create, env)
  }

  /** The real import reports the rows it inserted, counted while inserting. */
  function Import(db: Tables, env: Env, types: seq<TypeEntry>, pool: seq<PoolEntry>): (Tables, Response)
    requires Valid(db)
  {
    match Plan(db, env, types, pool)
    case None => (db, ServerError)
    case Some(plans) =>
      match Committed(db, env, plans)
      case None => (db, ServerError)
      case Some(after) =>
        (after, Done(Planned(plans.types, plans.pool).(typesCreated := after.nextType - db.nextType,
                                                       poolCreated := after.nextPool - db.nextPool)))
  }

  // ----- inserting types -----

  /** What inserting one type does. */
  lemma InsertTypeKeeps(db: Tables, row: Row, env: Env)
    requires Valid(db) && InsertType(db, row, env).Some?
    ensures var after := InsertType(db, row, env).value;
            Valid(after) && after.pool == db.pool && after.nextPool == db.nextPool
            && TypeNames(after) == TypeNames(db) + {Get(row, Name)}
            && Get(row, Name) !in TypeNames(db)
  {
    hide Truthy, ToInt, ToDecimal;
    var after := InsertType(db, row, env).value;
    var at := Build(row, env).value;
    assert BuildField(Name, row, env) == Some(Get(row, Name));
    assert Get(at, Name) == Get(row, Name);
    assert after.types == db.types[db.nextType := at];
    assert db.nextType !in db.types;
    assert forall id :: id in db.types ==> after.types[id] == db.types[id];
    assert after.types[db.nextType] == at;
    forall name | name in TypeNames(db) + {Get(row, Name)} ensures name in TypeNames(after) {
      if name != Get(row, Name) {
        var id :| id in db.types && Get(db.types[id], Name) == name;
        assert id in after.types && Get(after.types[id], Name) == name;
      } else {
        assert db.nextType in after.types;
      }
    }
    assert TypeNames(after) <= TypeNames(db) + {Get(row, Name)};
  }

  lemma {:induction false} InsertTypesKeeps(db: Tables, rows: seq<Row>, env: Env)
    requires Valid(db) && InsertTypes(db, rows, env).Some?
    ensures var after := InsertTypes(db, rows, env).value;
            Valid(after) && after.pool == db.pool && after.nextPool == db.nextPool
            && TypeNames(after) == TypeNames(db) + NamesOf(rows)
    decreases |rows|
  {
    hide Valid, InsertType, TypeNames, Get;
    if rows == [] {
      assert NamesOf(rows) == {};
    } else {
      var most, last := rows[..|rows| - 1], rows[|rows| - 1];
      InsertTypesKeeps(db, most, env);
      InsertTypeKeeps(InsertTypes(db, most, env).value, last, env);
      NamesOfSnoc(most, last);
      assert rows == most + [last];
    }
  }

  lemma NamesOfSnoc(rows: seq<Row>, last: Row)
    ensures NamesOf(rows + [last]) == NamesOf(rows) + {Get(last, Name)}
  {
    hide Get;
    assert (rows + [last])[|rows|] == last;
    forall i | 0 <= i < |rows| ensures Get(rows[i], Name) in NamesOf(rows + [last]) {
      assert (rows + [last])[i] == rows[i];
    }
  }

  /** The row would be accepted on its own. */
  predicate Insertable(row: Row, env: Env) {
    match Build(row, env)
    case None => false
    case Some(at) => Get(row, Name).Str? && env.storable(at)
  }

  predicate DistinctNames(rows: seq<Row>) {
    forall i, j :: 0 <= i < j < |rows| ==> Get(rows[i], Name) != Get(rows[j], Name)
  }

  predicate NewNames(rows: seq<Row>, names: set<Json>) {
    forall i :: 0 <= i < |rows| ==> Get(rows[i], Name) !in names
  }

  lemma InsertTypeIff(db: Tables, row: Row, env: Env)
    ensures InsertType(db, row, env).Some? <==> Insertable(row, env) && Get(row, Name) !in TypeNames(db)
    ensures InsertType(db, row, env).Some? ==> InsertType(db, row, env).value.nextType == db.nextType + 1
  {
    hide Truthy, ToInt, ToDecimal, TypeNames;
    if Build(row, env).Some? {
      assert BuildField(Name, row, env) == Some(Get(row, Name));
      assert Get(Build(row, env).value, Name) == Get(row, Name);
    }
  }

  lemma {:induction false} InsertTypesIff(db: Tables, rows: seq<Row>, env: Env)
    requires Valid(db)
    ensures InsertTypes(db, rows, env).Some? <==>
            && (forall i :: 0 <= i < |rows| ==> Insertable(rows[i], env))
            && NewNames(rows, TypeNames(db)) && DistinctNames(rows)
    ensures InsertTypes(db, rows, env).Some? ==> InsertTypes(db, rows, env).value.nextType == db.nextType + |rows|
    decreases |rows|
  {
    hide Valid, InsertType, TypeNames, Get, Insertable;
    if rows != [] {
      var n := |rows| - 1;
      InsertTypesIff(db, rows[..n], env);
      if InsertTypes(db, rows[..n], env).Some? {
        var most := InsertTypes(db, rows[..n], env).value;
        InsertTypesKeeps(db, rows[..n], env);
        InsertTypeIff(most, rows[n], env);
        assert Get(rows[n], Name) in NamesOf(rows[..n]) <==>
            exists i :: 0 <= i < n && Get(rows[..n][i], Name) == Get(rows[n], Name);
      }
    }
  }

  // ----- what planning promises -----

  /** Planned types carry a truthy name no existing type has, and a known category that passed validation. */
  predicate Plannable(row: Row, existing: set<Json>, env: Env) {
    && Truthy(Get(row, Name)) && Hashable(Get(row, Name)) && Get(row, Name) !in existing
    && Get(row, Category) in CATEGORIES && !Violates(row, env)
  }

  /** A planned row, spelled out: one of five categories, and no constraint violated, falsy modes by default. */
  lemma PlannableIff(row: Row, existing: set<Json>, env: Env)
    ensures Plannable(row, existing, env)
       <==> && Name in row && !Falsy(row[Name]) && !row[Name].List? && !row[Name].Obj? && row[Name] !in existing
            && Category in row
            && row[Category] in {Str("application_access"), Str("platform_access"), Str("data_access"),
                                 Str("device_access"), Str("infrastructure_access")}
            && !env.violates(row[Category], OrElse(row, AssignmentModel, "assigned_personal"),
                             OrElse(row, AutomationStrategy, "runbook_only"),
                             OrElse(row, DeprovisionPolicy, "access_only"),
                             if PersonalProvisioningStrategy in row then row[PersonalProvisioningStrategy] else Null)
  {
    FalsyIff(Get(row, Name));
    FalsyIff(Get(row, AssignmentModel));
    FalsyIff(Get(row, AutomationStrategy));
    FalsyIff(Get(row, DeprovisionPolicy));
    FalsyIff(Null);
    TruthyNull();
    hide Truthy, Falsy;
  }

  ghost function OrElse(row: Row, f: Field, text: string): Json {
    if f !in row || Falsy(row[f]) then Str(text) else row[f]
  }

  /**
    Every entry is planned, skipped or reported invalid, in one of the three lists: planned exactly when its
    row is plannable, skipped exactly when a type has its name already.
   */
  lemma {:induction false} PlannedTypes(existing: set<Json>, entries: seq<TypeEntry>, env: Env)
    requires PlanTypes(existing, entries, env).Some?
    ensures var plan := PlanTypes(existing, entries, env).value;
            && (forall row :: row in plan.create <==> TypeEntry(row) in entries && Plannable(row, existing, env))
            && (forall row :: TypeEntry(row) in entries && Truthy(Get(row, Name)) && Get(row, Name) in existing ==>
                  Get(row, Name) in plan.skipped)
            && (forall name :: name in plan.skipped ==> name in existing)
            && |plan.create| + |plan.skipped| + |plan.invalid| == |entries|
    decreases |entries|
  {
    hide Violates, Truthy, Hashable;
    if entries != [] {
      var n := |entries| - 1;
      PlannedTypes(existing, entries[..n], env);
      TruthyNull();
      assert entries == entries[..n] + [entries[n]];
    }
  }

  lemma TruthyNull()
    ensures !Truthy(Null)
  {
  }

  predicate GoodPoolPlan(plan: PoolPlan, known: set<Json>, existing: set<Json>) {
    && (forall i :: 0 <= i < |plan.create| ==>
          Truthy(plan.create[i].name) && plan.create[i].name !in existing && plan.create[i].assetType in known
          && plan.create[i].name in plan.seen)
    && (forall i, j :: 0 <= i < j < |plan.create| ==> plan.create[i].name != plan.create[j].name)
    && (forall name :: name in plan.seen ==> exists i :: 0 <= i < |plan.create| && plan.create[i].name == name)
  }

  lemma {:induction false} PlannedPool(known: set<Json>, existing: set<Json>, entries: seq<PoolEntry>)
    requires PlanPool(known, existing, entries).Some?
    ensures GoodPoolPlan(PlanPool(known, existing, entries).value, known, existing)
    decreases |entries|
  {
    hide Truthy, Hashable;
    if entries != [] {
      var before := PlanPool(known, existing, entries[..|entries| - 1]).value;
      PlannedPool(known, existing, entries[..|entries| - 1]);
      var after := PlanPool(known, existing, entries).value;
      if after.create != before.create {
        var row := after.create[|before.create|];
        assert after.create == before.create + [row];
        forall name | name in after.seen ensures exists i :: 0 <= i < |after.create| && after.create[i].name == name {
          if name in before.seen {
            var i :| 0 <= i < |before.create| && before.create[i].name == name;
            assert after.create[i].name == name;
          } else {
            assert after.create[|before.create|].name == name;
          }
        }
      }
    }
  }

  // ----- inserting instances -----

  lemma InsertInstanceKeeps(db: Tables, ids: map<Json, int>, row: PoolRow, env: Env)
    requires Valid(db) && (forall name :: name in ids ==> ids[name] in db.types)
    requires InsertInstance(db, ids, row, env).Some?
    ensures var after := InsertInstance(db, ids, row, env).value;
            Valid(after) && after.types == db.types && after.nextType == db.nextType
            && (row.assetType in ids ==>
                  after.nextPool == db.nextPool + 1 && PoolNames(after) == PoolNames(db) + {row.name}
                  && after.pool
                     == db.pool[db.nextPool := Instance(row.name.s, ids[row.assetType], "Free", row.metadata)])
  {
    hide Get, PoolRowStorable;
    var after := InsertInstance(db, ids, row, env).value;
    if row.assetType in ids {
      assert PoolRowStorable(row, env) ==> row.name.Str? by { StorableNamed(row, env); }
      assert after.pool[db.nextPool].name == row.name.s;
      forall name | name in PoolNames(db) + {row.name} ensures name in PoolNames(after) {
        if name != row.name {
          var id :| id in db.pool && Str(db.pool[id].name) == name;
          assert id in after.pool && Str(after.pool[id].name) == name;
        } else {
          assert db.nextPool in after.pool;
        }
      }
      assert PoolNames(after) <= PoolNames(db) + {row.name};
      assert forall id :: id in db.pool ==> Str(db.pool[id].name) in PoolNames(db);
    }
  }

  lemma StorableNamed(row: PoolRow, env: Env)
    requires PoolRowStorable(row, env)
    ensures row.name.Str?
  {
  }

  function PoolNamesOf(rows: seq<PoolRow>): set<Json> {
    set i | 0 <= i < |rows| :: rows[i].name
  }

  /** `after` is `db` with one free instance per row, in order, and nothing else. */
  ghost predicate Added(db: Tables, ids: map<Json, int>, rows: seq<PoolRow>, after: Tables) {
    && after.types == db.types && after.nextType == db.nextType && after.nextPool == db.nextPool + |rows|
    && (forall id :: id in after.pool <==> id in db.pool || db.nextPool <= id < after.nextPool)
    && (forall id :: id in db.pool ==> after.pool[id] == db.pool[id])
    && (forall i :: 0 <= i < |rows| ==>
          rows[i].name.Str? && rows[i].assetType in ids
          && after.pool[db.nextPool + i] == Instance(rows[i].name.s, ids[rows[i].assetType], "Free", rows[i].metadata))
  }

  lemma AddedOne(db: Tables, ids: map<Json, int>, rows: seq<PoolRow>, most: Tables, row: PoolRow, env: Env)
    requires Valid(db) && Added(db, ids, rows, most) && Valid(most)
    requires row.assetType in ids && ids[row.assetType] in db.types
            && (forall name :: name in ids ==> ids[name] in db.types)
    requires InsertInstance(most, ids, row, env).Some?
    ensures Added(db, ids, rows + [row], InsertInstance(most, ids, row, env).value)
  {
    hide PoolRowStorable, PoolNames, Get;
    InsertInstanceKeeps(most, ids, row, env);
    assert PoolRowStorable(row, env);
    StorableNamed(row, env);
  }

  /** Inserting instances whose types are all known skips none of them. */
  lemma {:induction false} InsertPoolIff(db: Tables, ids: map<Json, int>, rows: seq<PoolRow>, env: Env)
    requires Valid(db) && (forall name :: name in ids ==> ids[name] in db.types)
    requires forall i :: 0 <= i < |rows| ==> rows[i].assetType in ids && rows[i].name !in PoolNames(db)
    requires forall i, j :: 0 <= i < j < |rows| ==> rows[i].name != rows[j].name
    ensures InsertPool(db, ids, rows, env).Some? <==> forall i :: 0 <= i < |rows| ==> PoolRowStorable(rows[i], env)
    ensures InsertPool(db, ids, rows, env).Some? ==>
              var after := InsertPool(db, ids, rows, env).value;
              Valid(after) && Added(db, ids, rows, after) && PoolNames(after) == PoolNames(db) + PoolNamesOf(rows)
    decreases |rows|
  {
    hide PoolRowStorable, PoolNames, Get, Valid, PoolNamesOf, Added;
    if rows == [] {
      AddedNone(db, ids);
    } else {
      var n := |rows| - 1;
      InsertPoolIff(db, ids, rows[..n], env);
      if InsertPool(db, ids, rows[..n], env).Some? {
        var most := InsertPool(db, ids, rows[..n], env).value;
        NotAmong(rows[..n], rows[n].name);
        AddingKeepsTypes(db, ids, rows[..n], most);
        if PoolRowStorable(rows[n], env) {
          InsertInstanceKeeps(most, ids, rows[n], env);
          AddedOne(db, ids, rows[..n], most, rows[n], env);
          PoolNamesOfSnoc(rows[..n], rows[n]);
          assert rows == rows[..n] + [rows[n]];
        }
      }
    }
  }

  lemma AddedNone(db: Tables, ids: map<Json, int>)
    ensures Added(db, ids, [], db) && PoolNamesOf([]) == {}
  {
  }

  lemma NotAmong(rows: seq<PoolRow>, name: Json)
    requires forall i :: 0 <= i < |rows| ==> rows[i].name != name
    ensures name !in PoolNamesOf(rows)
  {
  }

  lemma AddingKeepsTypes(db: Tables, ids: map<Json, int>, rows: seq<PoolRow>, after: Tables)
    requires Added(db, ids, rows, after)
    ensures after.types == db.types
  {
  }

  lemma PoolNamesOfSnoc(rows: seq<PoolRow>, last: PoolRow)
    ensures PoolNamesOf(rows + [last]) == PoolNamesOf(rows) + {last.name}
  {
    assert (rows + [last])[|rows|] == last;
    forall i | 0 <= i < |rows| ensures rows[i].name in PoolNamesOf(rows + [last]) {
      assert (rows + [last])[i] == rows[i];
    }
  }

  /** `after` is `db` with the built types appended in order, and nothing else. */
  ghost predicate TypesAdded(db: Tables, rows: seq<Row>, env: Env, after: Tables) {
    && after.pool == db.pool && after.nextPool == db.nextPool && after.nextType == db.nextType + |rows|
    && (forall id :: id in after.types <==> id in db.types || db.nextType <= id < after.nextType)
    && (forall id :: id in db.types ==> after.types[id] == db.types[id])
    && (forall i :: 0 <= i < |rows| ==> Some(after.types[db.nextType + i]) == Build(rows[i], env))
  }

  lemma {:induction false} InsertTypesAdds(db: Tables, rows: seq<Row>, env: Env)
    requires Valid(db) && InsertTypes(db, rows, env).Some?
    ensures TypesAdded(db, rows, env, InsertTypes(db, rows, env).value)
    decreases |rows|
  {
    hide Build, TypeNames, Get;
    if rows != [] {
      InsertTypesAdds(db, rows[..|rows| - 1], env);
    }
  }

  // ----- the import as a whole -----

  predicate Acceptable(plans: Plans, env: Env) {
    && (forall i :: 0 <= i < |plans.types.create| ==> Insertable(plans.types.create[i], env))
    && DistinctNames(plans.types.create)
    && (forall i :: 0 <= i < |plans.pool.create| ==> PoolRowStorable(plans.pool.create[i], env))
  }

  predicate KeepsRows(before: Tables, after: Tables) {
    && (forall id :: id in before.types ==> id in after.types && after.types[id] == before.types[id])
    && (forall id :: id in before.pool ==> id in after.pool && after.pool[id] == before.pool[id])
  }

  lemma IdsAreNames(db: Tables)
    requires Valid(db)
    ensures IdByName(db).Keys == TypeNames(db)
    ensures forall name :: name in IdByName(db) ==>
              IdByName(db)[name] in db.types && Get(db.types[IdByName(db)[name]], Name) == name
  {
    hide Get;
  }

  /** Everything the commit phase does, from what the planning phase found. */
  lemma CommitPhase(db: Tables, env: Env, types: seq<TypeEntry>, pool: seq<PoolEntry>, plans: Plans)
    requires Valid(db) && Plan(db, env, types, pool) == Some(plans)
    ensures Committed(db, env, plans).Some? <==> Acceptable(plans, env)
    ensures Committed(db, env, plans).Some? ==>
              var withTypes := InsertTypes(db, plans.types.create, env);
              var after := Committed(db, env, plans).value;
              withTypes.Some? && Valid(withTypes.value) && TypesAdded(db, plans.types.create, env, withTypes.value)
              && Valid(after) && Added(withTypes.value, IdByName(withTypes.value), plans.pool.create, after)
              && TypeNames(withTypes.value) == TypeNames(db) + NamesOf(plans.types.create)
              && PoolNames(after) == PoolNames(db) + PoolNamesOf(plans.pool.create)
  {
    hide Valid, Insertable, Violates, Truthy, Hashable, Get, TypeNames, PoolNames, PoolRowStorable, IdByName;
    hide Added, TypesAdded;
    var rows := plans.types.create;
    PlannedTypes(TypeNames(db), types, env);
    forall i | 0 <= i < |rows| ensures Get(rows[i], Name) !in TypeNames(db) {
      assert rows[i] in rows;
      assert Plannable(rows[i], TypeNames(db), env);
    }
    InsertTypesIff(db, rows, env);
    if InsertTypes(db, rows, env).Some? {
      InsertTypesKeeps(db, rows, env);
      InsertTypesAdds(db, rows, env);
      var withTypes := InsertTypes(db, rows, env).value;
      PlannedPool(TypeNames(db) + NamesOf(rows), PoolNames(db), pool);
      IdsAreNames(withTypes);
      SamePool(db, rows, env, withTypes);
      InsertPoolIff(withTypes, IdByName(withTypes), plans.pool.create, env);
    }
  }

  lemma SamePool(db: Tables, rows: seq<Row>, env: Env, after: Tables)
    requires TypesAdded(db, rows, env, after)
    ensures PoolNames(after) == PoolNames(db)
  {
  }

  /**
    A dry run foretells the import: an import that goes through reports what the dry run reported, so it
    skipped no instance for want of a type; it goes through exactly when the dry run does and every planned
    row is one the database takes, no two of them types of the same name; otherwise nothing changes.
    Either way no existing row is touched.
   */
  lemma DryRunForetells(db: Tables, env: Env, types: seq<TypeEntry>, pool: seq<PoolEntry>)
    requires Valid(db)
    ensures var (after, response) := Import(db, env, types, pool);
            && (response.Done? ==> response == DryRun(db, env, types, pool))
            && (response.Done? <==>
                  DryRun(db, env, types, pool).Done? && Acceptable(Plan(db, env, types, pool).value, env))
            && (response.ServerError? ==> after == db)
            && Valid(after) && KeepsRows(db, after)
  {
    hide Valid, Plan, Committed, Acceptable, TypeNames, PoolNames, IdByName, Build, Get;
    if Plan(db, env, types, pool).Some? {
      CommitPhase(db, env, types, pool, Plan(db, env, types, pool).value);
    }
  }

  /** The report accounts for every type entry, and counts the rows the import really added. */
  lemma ReportAccounts(db: Tables, env: Env, types: seq<TypeEntry>, pool: seq<PoolEntry>)
    requires Valid(db)
    ensures var (after, response) := Import(db, env, types, pool);
            response.Done? ==>
              var r := response.report;
              && r.typesCreated + r.typesSkipped + |r.typesInvalid| == |types|
              && after.nextType == db.nextType + r.typesCreated && after.nextPool == db.nextPool + r.poolCreated
  {
    hide Valid, Committed, Acceptable, TypeNames, PoolNames, Build, Get, PlanTypes, PlanPool, KeepsRows, Plannable;
    DryRunForetells(db, env, types, pool);
    if PlanTypes(TypeNames(db), types, env).Some? {
      PlannedTypes(TypeNames(db), types, env);
    }
  }

  // ----- importing twice -----

  lemma {:induction false} PlanTypesAgain(existing: set<Json>, grown: set<Json>, entries: seq<TypeEntry>, env: Env)
    requires existing <= grown && PlanTypes(existing, entries, env).Some?
    requires NamesOf(PlanTypes(existing, entries, env).value.create) <= grown
    ensures PlanTypes(grown, entries, env).Some? && PlanTypes(grown, entries, env).value.create == []
    decreases |entries|
  {
    hide Violates, Truthy, Hashable, Get;
    if entries != [] {
      var before := PlanTypes(existing, entries[..|entries| - 1], env).value;
      var after := PlanTypes(existing, entries, env).value;
      if after.create != before.create {
        var row := after.create[|before.create|];
        assert after.create == before.create + [row];
        NamesOfSnoc(before.create, row);
      }
      PlanTypesAgain(existing, grown, entries[..|entries| - 1], env);
    }
  }

  lemma {:induction false} PlanPoolAgain(known: set<Json>, existing: set<Json>, grown: set<Json>,
                                         entries: seq<PoolEntry>)
    requires existing <= grown && PlanPool(known, existing, entries).Some?
    requires PlanPool(known, existing, entries).value.seen <= grown
    ensures PlanPool(known, grown, entries).Some?
    ensures PlanPool(known, grown, entries).value.create == [] && PlanPool(known, grown, entries).value.seen == {}
    decreases |entries|
  {
    hide Truthy, Hashable;
    if entries != [] {
      PlanPoolAgain(known, existing, grown, entries[..|entries| - 1]);
    }
  }

  /** Importing the same document again succeeds and creates nothing. */
  lemma ReimportCreatesNothing(db: Tables, env: Env, types: seq<TypeEntry>, pool: seq<PoolEntry>)
    requires Valid(db)
    ensures Valid(Import(db, env, types, pool).0)
    ensures var (after, first) := Import(db, env, types, pool);
            var (again, second) := Import(after, env, types, pool);
            first.Done? ==>
              again == after && second.Done? && second.report.typesCreated == 0 && second.report.poolCreated == 0
  {
    hide Import;
    DryRunForetells(db, env, types, pool);
    if Import(db, env, types, pool).1.Done? {
      ImportedAgain(db, env, types, pool);
    }
  }

  lemma ImportedAgain(db: Tables, env: Env, types: seq<TypeEntry>, pool: seq<PoolEntry>)
    requires Valid(db) && Import(db, env, types, pool).1.Done?
    ensures Valid(Import(db, env, types, pool).0)
    ensures var (after, _) := Import(db, env, types, pool);
            var (again, second) := Import(after, env, types, pool);
            again == after && second.Done? && second.report.typesCreated == 0 && second.report.poolCreated == 0
  {
    hide Valid, TypeNames, PoolNames, IdByName, Build, Get, PlanTypes, PlanPool, Added, TypesAdded, Insertable;
    hide PoolRowStorable;
    var plans := Plan(db, env, types, pool).value;
    CommitPhase(db, env, types, pool, plans);
    var withTypes := InsertTypes(db, plans.types.create, env).value;
    var after := Committed(db, env, plans).value;
    SameTypes(withTypes, plans.pool.create, after);
    PlanTypesAgain(TypeNames(db), TypeNames(after), types, env);
    var known := TypeNames(db) + NamesOf(plans.types.create);
    PlannedPool(known, PoolNames(db), pool);
    SeenNames(plans.pool, known, PoolNames(db));
    PlanPoolAgain(known, PoolNames(db), PoolNames(after), pool);
    assert TypeNames(after) + NamesOf([]) == known;
  }

  lemma SameTypes(withTypes: Tables, rows: seq<PoolRow>, after: Tables)
    requires Valid(withTypes) && Added(withTypes, IdByName(withTypes), rows, after)
    ensures TypeNames(after) == TypeNames(withTypes)
  {
  }

  lemma SeenNames(plan: PoolPlan, known: set<Json>, existing: set<Json>)
    requires GoodPoolPlan(plan, known, existing)
    ensures plan.seen == PoolNamesOf(plan.create)
  {
    hide Truthy;
  }

  // ----- moving an instance: export, then import into empty tables -----

  const EMPTY := Tables(map[], map[], 1, 1)

  /** Every asset type once, in some order. */
  predicate TypeOrder(db: Tables, order: seq<int>) {
    && (forall i :: 0 <= i < |order| ==> order[i] in db.types)
    && (forall id :: id in db.types ==> id in order)
    && (forall i, j :: 0 <= i < j < |order| ==> order[i] != order[j])
  }

  /** Every pool instance once, in some order. */
  predicate PoolOrder(db: Tables, order: seq<int>) {
    && (forall i :: 0 <= i < |order| ==> order[i] in db.pool && db.pool[order[i]].typeId in db.types)
    && (forall id :: id in db.pool ==> id in order)
    && (forall i, j :: 0 <= i < j < |order| ==> order[i] != order[j])
  }

  predicate AllPortable(db: Tables, env: Env) {
    && (forall id :: id in db.types ==> Portable(db.types[id], env))
    && (forall id :: id in db.pool ==> PortableInstance(db.pool[id], env))
  }

  function ExportTypes(db: Tables, order: seq<int>): seq<TypeEntry>
    requires TypeOrder(db, order)
  {
    seq(|order|, i requires 0 <= i < |order| => TypeEntry(Serialise(db.types[order[i]])))
  }

  function ExportInstance(db: Tables, id: int): PoolEntry
    requires id in db.pool && db.pool[id].typeId in db.types
  {
    PoolEntry(PoolRow(Str(db.pool[id].name), Get(db.types[db.pool[id].typeId], Name), db.pool[id].metadata))
  }

  function ExportPool(db: Tables, order: seq<int>): seq<PoolEntry>
    requires PoolOrder(db, order)
  {
    seq(|order|, i requires 0 <= i < |order| => ExportInstance(db, order[i]))
  }

  /** An asset type the receiving instance takes back unchanged. */
  predicate Portable(at: Row, env: Env) {
    && IsAssetType(at) && (forall f: Field :: Travels(f, at[f]))
    && Truthy(at[Name]) && at[Name].Str? && at[Category] in CATEGORIES
    && !Violates(Serialise(at), env) && env.storable(at)
  }

  predicate PortableInstance(a: Instance, env: Env) {
    a.name != "" && env.poolStorable(a.name, a.metadata)
  }

  lemma PortableRow(at: Row, env: Env)
    requires Portable(at, env)
    ensures Plannable(Serialise(at), {}, env) && Insertable(Serialise(at), env)
    ensures Get(Serialise(at), Name) == Get(at, Name) && Build(Serialise(at), env) == Some(at)
  {
    hide Travels, WellTyped, Build, Violates;
    assert Name in at && Category in at;
    TypeTravelsIff(at, env);
  }

  lemma {:induction false} PlanFreshTypes(entries: seq<TypeEntry>, rows: seq<Row>, env: Env)
    requires |entries| == |rows| && forall i :: 0 <= i < |rows| ==>
              entries[i] == TypeEntry(rows[i]) && Plannable(rows[i], {}, env)
    ensures PlanTypes({}, entries, env) == Some(TypePlan(rows, [], []))
    decreases |rows|
  {
    hide Violates, Truthy, Get;
    if rows != [] {
      var n := |rows| - 1;
      PlanFreshTypes(entries[..n], rows[..n], env);
      assert rows == rows[..n] + [rows[n]];
      assert entries[n] == TypeEntry(rows[n]);
      CategoriesAreText(Get(rows[n], Category));
    }
  }

  lemma CategoriesAreText(category: Json)
    requires category in CATEGORIES
    ensures Hashable(category)
  {
  }

  lemma PlanFreshInstance(rows: seq<PoolRow>, row: PoolRow, known: set<Json>)
    requires row.name.Str? && Truthy(row.name) && row.assetType.Str? && row.assetType in known
    requires forall i :: 0 <= i < |rows| ==> rows[i].name != row.name
    ensures PlanInstance(PoolPlan(rows, [], [], PoolNamesOf(rows)), known, {}, PoolEntry(row))
         == Some(PoolPlan(rows + [row], [], [], PoolNamesOf(rows + [row])))
  {
    hide Truthy;
    PoolNamesOfSnoc(rows, row);
  }

  lemma {:induction false} PlanFreshPool(entries: seq<PoolEntry>, rows: seq<PoolRow>, known: set<Json>)
    requires |entries| == |rows|
    requires forall i :: 0 <= i < |rows| ==>
               && entries[i] == PoolEntry(rows[i]) && rows[i].name.Str? && Truthy(rows[i].name)
               && rows[i].assetType.Str? && rows[i].assetType in known
    requires forall i, j :: 0 <= i < j < |rows| ==> rows[i].name != rows[j].name
    ensures PlanPool(known, {}, entries) == Some(PoolPlan(rows, [], [], PoolNamesOf(rows)))
    decreases |rows|
  {
    hide Truthy, PlanInstance;
    if rows != [] {
      var n := |rows| - 1;
      PlanFreshPool(entries[..n], rows[..n], known);
      PlanFreshInstance(rows[..n], rows[n], known);
      assert rows == rows[..n] + [rows[n]];
      assert entries[n] == PoolEntry(rows[n]);
    } else {
      assert PoolNamesOf(rows) == {};
    }
  }

  /** `moved` holds exactly the listed types and instances, each instance free and bound to the same type. */
  ghost predicate Rebuilt(db: Tables, typeOrder: seq<int>, poolOrder: seq<int>, moved: Tables)
    requires TypeOrder(db, typeOrder) && PoolOrder(db, poolOrder)
  {
    && (forall id :: id in moved.types <==> 1 <= id <= |typeOrder|)
    && (forall i :: 0 <= i < |typeOrder| ==> moved.types[1 + i] == db.types[typeOrder[i]])
    && (forall id :: id in moved.pool <==> 1 <= id <= |poolOrder|)
    && (forall i :: 0 <= i < |poolOrder| ==> SameInstance(db, db.pool[poolOrder[i]], moved, moved.pool[1 + i]))
  }

  predicate SameInstance(db: Tables, a: Instance, moved: Tables, b: Instance) {
    && b.name == a.name && b.metadata == a.metadata && b.status == "Free"
    && a.typeId in db.types && b.typeId in moved.types && moved.types[b.typeId] == db.types[a.typeId]
  }

  function SerialisedTypes(db: Tables, order: seq<int>): (rows: seq<Row>)
    requires TypeOrder(db, order)
    ensures |rows| == |order| && forall i :: 0 <= i < |order| ==> rows[i] == Serialise(db.types[order[i]])
  {
    seq(|order|, i requires 0 <= i < |order| => Serialise(db.types[order[i]]))
  }

  function ExportedPool(db: Tables, order: seq<int>): (rows: seq<PoolRow>)
    requires PoolOrder(db, order)
    ensures |rows| == |order| && forall i :: 0 <= i < |order| ==> rows[i] == ExportInstance(db, order[i]).row
  {
    seq(|order|, i requires 0 <= i < |order| => ExportInstance(db, order[i]).row)
  }

  lemma ExportedType(db: Tables, order: seq<int>, env: Env, i: nat)
    requires TypeOrder(db, order) && AllPortable(db, env) && i < |order|
    ensures var row := SerialisedTypes(db, order)[i];
            Plannable(row, {}, env) && Insertable(row, env) && Build(row, env) == Some(db.types[order[i]])
            && Get(row, Name) == Get(db.types[order[i]], Name)
  {
    hide Portable, Serialise, Get, Plannable, Insertable, Build;
    var id := order[i];
    assert id in db.types && Portable(db.types[id], env);
    PortableRow(db.types[id], env);
  }

  /** The names of the serialised types are the names of the types. */
  lemma ExportedNames(db: Tables, order: seq<int>, env: Env)
    requires Valid(db) && TypeOrder(db, order) && AllPortable(db, env)
    ensures NamesOf(SerialisedTypes(db, order)) == TypeNames(db)
    ensures DistinctNames(SerialisedTypes(db, order))
  {
    hide AllPortable, Serialise, Get, Plannable, Insertable, Build;
    var rows := SerialisedTypes(db, order);
    forall i | 0 <= i < |rows| ensures Get(rows[i], Name) == Get(db.types[order[i]], Name) {
      ExportedType(db, order, env, i);
    }
    forall id | id in db.types ensures Get(db.types[id], Name) in NamesOf(rows) {
      var i :| 0 <= i < |order| && order[i] == id;
      assert Get(rows[i], Name) in NamesOf(rows);
    }
  }

  /** Planning an export against empty tables creates everything. */
  lemma PlanOfExport(db: Tables, env: Env, typeOrder: seq<int>, poolOrder: seq<int>)
    requires Valid(db) && TypeOrder(db, typeOrder) && PoolOrder(db, poolOrder) && AllPortable(db, env)
    ensures var types, pool := SerialisedTypes(db, typeOrder), ExportedPool(db, poolOrder);
            Plan(EMPTY, env, ExportTypes(db, typeOrder), ExportPool(db, poolOrder))
              == Some(Plans(TypePlan(types, [], []), PoolPlan(pool, [], [], PoolNamesOf(pool))))
            && Acceptable(Plans(TypePlan(types, [], []), PoolPlan(pool, [], [], PoolNamesOf(pool))), env)
  {
    hide Portable, Serialise, Get, Plannable, Insertable, Build, Violates, Hashable, PlanTypes, PlanPool;
    var types, pool := SerialisedTypes(db, typeOrder), ExportedPool(db, poolOrder);
    forall i | 0 <= i < |types| ensures Plannable(types[i], {}, env) && Insertable(types[i], env) {
      ExportedType(db, typeOrder, env, i);
    }
    assert TypeNames(EMPTY) == {} && PoolNames(EMPTY) == {};
    PlanFreshTypes(ExportTypes(db, typeOrder), types, env);
    ExportedNames(db, typeOrder, env);
    assert {} + NamesOf(types) == TypeNames(db);
    PlanFreshPool(ExportPool(db, poolOrder), pool, TypeNames(db));
  }

  /** What the commit phase leaves behind is the exported database again. */
  lemma RebuiltFromRows(db: Tables, env: Env, typeOrder: seq<int>, poolOrder: seq<int>, withTypes: Tables,
                        moved: Tables)
    requires Valid(db) && TypeOrder(db, typeOrder) && PoolOrder(db, poolOrder) && AllPortable(db, env)
            && Valid(withTypes)
    requires TypesAdded(EMPTY, SerialisedTypes(db, typeOrder), env, withTypes)
    requires Added(withTypes, IdByName(withTypes), ExportedPool(db, poolOrder), moved)
    ensures Rebuilt(db, typeOrder, poolOrder, moved)
  {
    hide Valid, AllPortable, Serialise, Get, Build, Plannable, Insertable, IdByName;
    var types, pool := SerialisedTypes(db, typeOrder), ExportedPool(db, poolOrder);
    forall i | 0 <= i < |typeOrder| ensures moved.types[1 + i] == db.types[typeOrder[i]] {
      ExportedType(db, typeOrder, env, i);
      assert Some(withTypes.types[EMPTY.nextType + i]) == Build(types[i], env);
    }
    forall i | 0 <= i < |poolOrder| ensures SameInstance(db, db.pool[poolOrder[i]], moved, moved.pool[1 + i]) {
      var a := db.pool[poolOrder[i]];
      var k :| 0 <= k < |typeOrder| && typeOrder[k] == a.typeId;
      assert moved.pool[withTypes.nextPool + i]
          == Instance(a.name, IdByName(withTypes)[pool[i].assetType], "Free", a.metadata);
      IdOfName(withTypes, 1 + k);
    }
  }

  lemma IdOfName(db: Tables, id: int)
    requires Valid(db) && id in db.types
    ensures var name := Get(db.types[id], Name); name in IdByName(db) && IdByName(db)[name] == id
  {
    hide Get;
    IdsAreNames(db);
  }

  /**
    Moving an instance: exporting it, in whatever order, and importing the document into empty tables
    rebuilds every portable asset type and pool instance, each instance bound to the type of the same name.
   */
  lemma FreshImportRebuilds(db: Tables, env: Env, typeOrder: seq<int>, poolOrder: seq<int>)
    requires Valid(db) && TypeOrder(db, typeOrder) && PoolOrder(db, poolOrder) && AllPortable(db, env)
    ensures var (moved, response) := Import(EMPTY, env, ExportTypes(db, typeOrder), ExportPool(db, poolOrder));
            response == Done(Report(|typeOrder|, 0, [], |poolOrder|, 0, [])) && Rebuilt(db, typeOrder, poolOrder, moved)
  {
    hide AllPortable, Serialise, Get, Plan, Acceptable, NamesOf, PoolNamesOf, Rebuilt;
    hide ExportTypes, ExportPool, TypeNames, PoolNames, Build, TypeOrder, PoolOrder, IdByName;
    PlanOfExport(db, env, typeOrder, poolOrder);
    var types, pool := SerialisedTypes(db, typeOrder), ExportedPool(db, poolOrder);
    var entries, poolEntries := ExportTypes(db, typeOrder), ExportPool(db, poolOrder);
    var plans := Plan(EMPTY, env, entries, poolEntries).value;
    CommitPhase(EMPTY, env, entries, poolEntries, plans);
    var withTypes := InsertTypes(EMPTY, types, env).value;
    RebuiltFromRows(db, env, typeOrder, poolOrder, withTypes, Committed(EMPTY, env, plans).value);
  }

  // ----- the route -----

  lemma {:induction false} TypePrefix(existing: set<Json>, entries: seq<TypeEntry>, env: Env, n: nat)
    requires n <= |entries| && PlanTypes(existing, entries[..n], env).None?
    ensures PlanTypes(existing, entries, env).None?
    decreases |entries| - n
  {
    hide PlanType;
    if n < |entries| {
      assert entries[..n + 1][..n] == entries[..n];
      TypePrefix(existing, entries, env, n + 1);
    } else {
      assert entries[..n] == entries;
    }
  }

  lemma {:induction false} PoolPrefix(known: set<Json>, existing: set<Json>, entries: seq<PoolEntry>, n: nat)
    requires n <= |entries| && PlanPool(known, existing, entries[..n]).None?
    ensures PlanPool(known, existing, entries).None?
    decreases |entries| - n
  {
    hide PlanInstance;
    if n < |entries| {
      assert entries[..n + 1][..n] == entries[..n];
      PoolPrefix(known, existing, entries, n + 1);
    } else {
      assert entries[..n] == entries;
    }
  }

  lemma {:induction false} InsertTypesPrefix(db: Tables, rows: seq<Row>, env: Env, n: nat)
    requires n <= |rows| && InsertTypes(db, rows[..n], env).None?
    ensures InsertTypes(db, rows, env).None?
    decreases |rows| - n
  {
    hide InsertType;
    if n < |rows| {
      assert rows[..n + 1][..n] == rows[..n];
      InsertTypesPrefix(db, rows, env, n + 1);
    } else {
      assert rows[..n] == rows;
    }
  }

  lemma {:induction false} InsertPoolPrefix(db: Tables, ids: map<Json, int>, rows: seq<PoolRow>, env: Env, n: nat)
    requires n <= |rows| && InsertPool(db, ids, rows[..n], env).None?
    ensures InsertPool(db, ids, rows, env).None?
    decreases |rows| - n
  {
    hide InsertInstance;
    if n < |rows| {
      assert rows[..n + 1][..n] == rows[..n];
      InsertPoolPrefix(db, ids, rows, env, n + 1);
    } else {
      assert rows[..n] == rows;
    }
  }

  method PlanTypesLoop(existing: set<Json>, entries: seq<TypeEntry>, env: Env) returns (plan: Option<TypePlan>)
    ensures plan == PlanTypes(existing, entries, env)
  {
    hide Violates, Truthy, Hashable, Get;
    var create, skipped, invalid := [], [], [];
    for i := 0 to |entries|
      invariant PlanTypes(existing, entries[..i], env) == Some(TypePlan(create, skipped, invalid))
    {
      assert entries[..i + 1][..i] == entries[..i];
      var entry := entries[i];
      if entry.TypeAlien? {
        TypePrefix(existing, entries, env, i + 1);
        return None;
      }
      var row := if entry.TypeEntry? then entry.row else map[];
      var name := Get(row, Name);
      if !Truthy(name) {
        invalid := invalid + [Str("")];
        continue;
      }
      if !Hashable(name) {
        TypePrefix(existing, entries, env, i + 1);
        return None;
      }
      if name in existing {
        skipped := skipped + [name];
        continue;
      }
      var category := Get(row, Category);
      if !Hashable(category) {
        TypePrefix(existing, entries, env, i + 1);
        return None;
      }
      if category !in CATEGORIES || Violates(row, env) {
        invalid := invalid + [name];
        continue;
      }
      create := create + [row];
    }
    assert entries[..|entries|] == entries;
    plan := Some(TypePlan(create, skipped, invalid));
  }

  method PlanPoolLoop(known: set<Json>, existing: set<Json>, entries: seq<PoolEntry>) returns (plan: Option<PoolPlan>)
    ensures plan == PlanPool(known, existing, entries)
  {
    hide Truthy, Hashable;
    var create, skipped, noType, seen := [], [], [], {};
    for i := 0 to |entries|
      invariant PlanPool(known, existing, entries[..i]) == Some(PoolPlan(create, skipped, noType, seen))
    {
      assert entries[..i + 1][..i] == entries[..i];
      var entry := entries[i];
      if entry.PoolAlien? {
        PoolPrefix(known, existing, entries, i + 1);
        return None;
      }
      if entry.PoolBlank? || !Truthy(entry.row.name) {
        continue;
      }
      var name := entry.row.name;
      if !Hashable(name) {
        PoolPrefix(known, existing, entries, i + 1);
        return None;
      }
      if name in existing || name in seen {
        skipped := skipped + [name];
        continue;
      }
      if !Hashable(entry.row.assetType) {
        PoolPrefix(known, existing, entries, i + 1);
        return None;
      }
      if entry.row.assetType !in known {
        noType := noType + [name];
        continue;
      }
      seen := seen + {name};
      create := create + [entry.row];
    }
    assert entries[..|entries|] == entries;
    plan := Some(PoolPlan(create, skipped, noType, seen));
  }

  class ConfigStore {
    var db: Tables

    constructor (tables: Tables)
      requires Valid(tables)
      ensures db == tables
    {
      db := tables;
    }

    /** A failure anywhere leaves through the session's rollback: `db` is only assigned by the final commit. */
    method ImportConfig(env: Env, types: seq<TypeEntry>, pool: seq<PoolEntry>, dryRun: bool)
      returns (response: Response)
      requires Valid(db)
      modifies this
      ensures dryRun ==> db == old(db) && response == DryRun(old(db), env, types, pool)
      ensures !dryRun ==> (db, response) == Import(old(db), env, types, pool)
      ensures Valid(db)
    {
      hide Valid, TypeNames, PoolNames, InsertType, InsertInstance, Build, IdByName, PlanTypes, PlanPool, KeepsRows;
      DryRunForetells(db, env, types, pool);
      var existing := TypeNames(db);
      var typePlan := PlanTypesLoop(existing, types, env);
      if typePlan.None? {
        return ServerError;
      }
      var known := existing + NamesOf(typePlan.value.create);
      var poolPlan := PlanPoolLoop(known, PoolNames(db), pool);
      if poolPlan.None? {
        return ServerError;
      }
      var summary := Planned(typePlan.value, poolPlan.value);
      if dryRun {
        return Done(summary);
      }
      var session := InsertTypesLoop(db, typePlan.value.create, env);
      if session.None? {
        return ServerError;
      }
      InsertTypesKeeps(db, typePlan.value.create, env);
      InsertTypesIff(db, typePlan.value.create, env);
      var ids := IdByName(session.value);
      var flushed, poolCreated := InsertPoolLoop(session.value, ids, poolPlan.value.create, env);
      if flushed.None? {
        return ServerError;
      }
      CommitPhase(db, env, types, pool, Plans(typePlan.value, poolPlan.value));
      db := flushed.value;
      response := Done(summary.(typesCreated := |typePlan.value.create|, poolCreated := poolCreated));
    }
  }

  /** One `add` and `flush` per planned type. */
  method InsertTypesLoop(db: Tables, rows: seq<Row>, env: Env) returns (session: Option<Tables>)
    ensures session == InsertTypes(db, rows, env)
  {
    hide InsertType;
    session := Some(db);
    for i := 0 to |rows|
      invariant session.Some? && session == InsertTypes(db, rows[..i], env)
    {
      assert rows[..i + 1][..i] == rows[..i];
      session := InsertType(session.value, rows[i], env);
      if session.None? {
        InsertTypesPrefix(db, rows, env, i + 1);
        return;
      }
    }
    assert rows[..|rows|] == rows;
  }

  /** The instances are added one by one and flushed by the commit; a row without a type id is passed over. */
  method InsertPoolLoop(db: Tables, ids: map<Json, int>, rows: seq<PoolRow>, env: Env)
    returns (flushed: Option<Tables>, created: int)
    ensures flushed == InsertPool(db, ids, rows, env)
    ensures flushed.Some? ==> created == flushed.value.nextPool - db.nextPool
  {
    hide PoolRowStorable, PoolNames;
    flushed, created := Some(db), 0;
    for i := 0 to |rows|
      invariant flushed.Some? && flushed == InsertPool(db, ids, rows[..i], env)
      invariant created == flushed.value.nextPool - db.nextPool
    {
      assert rows[..i + 1][..i] == rows[..i];
      if rows[i].assetType !in ids {
        continue;
      }
      flushed := InsertInstance(flushed.value, ids, rows[i], env);
      if flushed.None? {
        InsertPoolPrefix(db, ids, rows, env, i + 1);
        return;
      }
      created := created + 1;
    }
    assert rows[..|rows|] == rows;
  }
}
