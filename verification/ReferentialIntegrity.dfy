/**
  Deletions under the declared foreign keys.  The database is a map from row references to rows; a
  DELETE cascades, nulls or fails as each foreign key says, checked at the end of the statement.
 */
module ReferentialIntegrity {
  import opened Wrappers

  datatype Table =
    | AssetTypes | AssetPool | Orders | OrderSteps | OrderApprovals | ChangeLog | Reviews | Campaigns
    | AdminUsers | Grants | RunbookDefs | RunbookSteps | ScriptModules | Bundles | BundleItems | OrderGroups
    | DriftFindings | Attestations | Contracts | AuditLog | StandaloneRuns | StandaloneRunSteps

  /** The foreign-key columns. */
  datatype Column =
    | PoolType | PoolCurrentOrder | OrderAsset | OrderType | OrderGroup
    | StepOrder | ApprovalOrder | LogOrder | ReviewOrder | ReviewCampaign
    | GrantUser | GrantType | DefType | RunbookStepDef | RunbookStepScript
    | ItemBundle | ItemType | DriftType | DriftOrder | AttestationOrder | AttestationType
    | TypeContract | RunStepRun | GroupBundle

  datatype OnDelete = NoAction | Cascade | SetNull

  function Child(c: Column): Table {
    match c
    case PoolType => AssetPool
    case PoolCurrentOrder => AssetPool
    case OrderAsset => Orders
    case OrderType => Orders
    case OrderGroup => Orders
    case StepOrder => OrderSteps
    case ApprovalOrder => OrderApprovals
    case LogOrder => ChangeLog
    case ReviewOrder => Reviews
    case ReviewCampaign => Reviews
    case GrantUser => Grants
    case GrantType => Grants
    case DefType => RunbookDefs
    case RunbookStepDef => RunbookSteps
    case RunbookStepScript => RunbookSteps
    case ItemBundle => BundleItems
    case ItemType => BundleItems
    case DriftType => DriftFindings
    case DriftOrder => DriftFindings
    case AttestationOrder => Attestations
    case AttestationType => Attestations
    case TypeContract => AssetTypes
    case RunStepRun => StandaloneRunSteps
    case GroupBundle => OrderGroups
  }

  function Parent(c: Column): Table {
    match c
    case PoolType => AssetTypes
    case PoolCurrentOrder => Orders
    case OrderAsset => AssetPool
    case OrderType => AssetTypes
    case OrderGroup => OrderGroups
    case StepOrder => Orders
    case ApprovalOrder => Orders
    case LogOrder => Orders
    case ReviewOrder => Orders
    case ReviewCampaign => Campaigns
    case GrantUser => AdminUsers
    case GrantType => AssetTypes
    case DefType => AssetTypes
    case RunbookStepDef => RunbookDefs
    case RunbookStepScript => ScriptModules
    case ItemBundle => Bundles
    case ItemType => AssetTypes
    case DriftType => AssetTypes
    case DriftOrder => Orders
    case AttestationOrder => Orders
    case AttestationType => AssetTypes
    case TypeContract => Contracts
    case RunStepRun => StandaloneRuns
    case GroupBundle => Bundles
  }

  function Rule(c: Column): OnDelete {
    match c
    case PoolType => NoAction
    case PoolCurrentOrder => NoAction
    case OrderAsset => NoAction
    case OrderType => NoAction
    case OrderGroup => SetNull
    case RunbookStepScript => SetNull
    case DriftType => SetNull
    case DriftOrder => SetNull
    case AttestationOrder => SetNull
    case AttestationType => SetNull
    case TypeContract => SetNull
    case GroupBundle => SetNull
    case _ => Cascade
  }

  datatype Ref = Ref(table: Table, id: int)
  /** `refs` holds the non-null foreign keys; `createdAt` is the retention timestamp. */
  datatype Row = Row(refs: map<Column, int>, status: string, createdAt: int)
  type Db = map<Ref, Row>

  function Target(row: Row, c: Column): Ref
    requires c in row.refs
  {
    Ref(Parent(c), row.refs[c])
  }

  predicate WellTyped(db: Db) {
    forall r :: r in db ==> forall c :: c in db[r].refs ==> Child(c) == r.table
  }

  /** No reference dangles. */
  predicate Integrity(db: Db) {
    WellTyped(db) && forall r :: r in db ==> forall c :: c in db[r].refs ==> Target(db[r], c) in db
  }

  // ----- statements -----

  predicate CascadesInto(db: Db, r: Ref, s: set<Ref>)
    requires r in db
  {
    exists c :: c in db[r].refs && Rule(c) == Cascade && Target(db[r], c) in s
  }

  /** The rows a delete of `s` takes along. */
  function Closure(db: Db, s: set<Ref>): set<Ref>
    requires s <= db.Keys
    decreases |db.Keys - s|
  {
    var more := set r | r in db && r !in s && CascadesInto(db, r, s);
    if more == {} then s
    else
      Shrinks(db.Keys, s, more);
      Closure(db, s + more)
  }

  lemma Shrinks(all: set<Ref>, s: set<Ref>, more: set<Ref>)
    requires more <= all && more !! s && more != {}
    ensures |all - (s + more)| < |all - s|
  {
    assert all - s == (all - (s + more)) + more;
  }

  predicate Blocks(db: Db, r: Ref, gone: set<Ref>)
    requires r in db
  {
    exists c :: c in db[r].refs && Rule(c) == NoAction && Target(db[r], c) in gone
  }

  function WithoutRefs(row: Row, gone: set<Ref>): Row {
    row.(refs := map c | c in row.refs && !(Rule(c) == SetNull && Target(row, c) in gone) :: row.refs[c])
  }

  /** DELETE of the rows `s`: nothing when a NO ACTION key still points at a deleted row. */
  function Delete(db: Db, s: set<Ref>): Option<Db>
    requires s <= db.Keys
  {
    var gone := Closure(db, s);
    if exists r :: r in db && r !in gone && Blocks(db, r, gone) then None
    else Some(map r | r in db && r !in gone :: WithoutRefs(db[r], gone))
  }

  /** UPDATE ... SET c = NULL WHERE c IN (s). */
  function ClearColumn(db: Db, c: Column, s: set<Ref>): Db {
    map r | r in db :: if c in db[r].refs && Target(db[r], c) in s then db[r].(refs := db[r].refs - {c}) else db[r]
  }

  /** SELECT of the rows of a table whose column points at one of `s`. */
  function Pointing(db: Db, c: Column, s: set<Ref>): set<Ref> {
    set r | r in db && r.table == Child(c) && c in db[r].refs && Target(db[r], c) in s
  }

  // ----- what statements keep -----

  predicate CascadeChild(t: Table) {
    || t == OrderSteps || t == OrderApprovals || t == ChangeLog || t == Reviews || t == Grants
    || t == RunbookDefs || t == RunbookSteps || t == BundleItems || t == StandaloneRunSteps
  }

  lemma RulesOfTables(c: Column)
    ensures Rule(c) == Cascade ==> CascadeChild(Child(c))
    ensures Rule(c) == NoAction ==> !CascadeChild(Parent(c)) && !CascadeChild(Child(c))
  {
  }

  lemma {:induction false} ClosureFacts(db: Db, s: set<Ref>)
    requires s <= db.Keys && WellTyped(db)
    ensures var gone := Closure(db, s);
            && s <= gone <= db.Keys
            && (forall r :: r in gone ==> r in s || CascadeChild(r.table))
            && (forall r :: r in db && CascadesInto(db, r, gone) ==> r in gone)
    decreases |db.Keys - s|
  {
    var more := set r | r in db && r !in s && CascadesInto(db, r, s);
    forall r | r in more ensures CascadeChild(r.table) {
      var c :| c in db[r].refs && Rule(c) == Cascade && Target(db[r], c) in s;
      RulesOfTables(c);
    }
    if more != {} {
      Shrinks(db.Keys, s, more);
      ClosureFacts(db, s + more);
    } else {
      forall r | r in db && CascadesInto(db, r, s) ensures r in s {
        assert r !in more;
      }
    }
  }

  lemma PointsIntoGone(db: Db, r: Ref, c: Column, gone: set<Ref>)
    requires r in db && c in db[r].refs && Target(db[r], c) in gone
    ensures Rule(c) == NoAction ==> Blocks(db, r, gone)
    ensures Rule(c) == Cascade ==> CascadesInto(db, r, gone)
  {
  }

  /** A statement that goes through leaves no dangling reference. */
  lemma DeleteKeepsIntegrity(db: Db, s: set<Ref>)
    requires s <= db.Keys && Integrity(db)
    ensures Delete(db, s).Some? ==> Integrity(Delete(db, s).value)
  {
    ClosureFacts(db, s);
    var gone := Closure(db, s);
    if Delete(db, s).Some? {
      var after := Delete(db, s).value;
      forall r, c | r in after && c in after[r].refs ensures Target(after[r], c) in after {
        assert c in db[r].refs && Target(db[r], c) == Target(after[r], c) && Target(db[r], c) in db;
        if Target(db[r], c) in gone {
          PointsIntoGone(db, r, c, gone);
        }
      }
    }
  }

  /** Whether a delete goes through depends only on NO ACTION references to the rows named. */
  lemma DeleteSucceeds(db: Db, s: set<Ref>)
    requires s <= db.Keys && WellTyped(db)
    ensures Delete(db, s).None? <==> exists r :: r in db && r !in s && Blocks(db, r, s)
  {
    ClosureFacts(db, s);
    var gone := Closure(db, s);
    forall r | r in db ensures Blocks(db, r, gone) <==> Blocks(db, r, s) {
      if Blocks(db, r, gone) {
        var c :| c in db[r].refs && Rule(c) == NoAction && Target(db[r], c) in gone;
        RulesOfTables(c);
        assert Target(db[r], c) in s;
      }
      if Blocks(db, r, s) {
        var c :| c in db[r].refs && Rule(c) == NoAction && Target(db[r], c) in s;
        assert Target(db[r], c) in gone;
      }
    }
    forall r | r in db && Blocks(db, r, s) ensures r in gone <==> r in s {
      var c :| c in db[r].refs && Rule(c) == NoAction && Target(db[r], c) in s;
      RulesOfTables(c);
    }
    if exists r :: r in db && r !in gone && Blocks(db, r, gone) {
      var r :| r in db && r !in gone && Blocks(db, r, gone);
      assert r !in s && Blocks(db, r, s);
    }
    if exists r :: r in db && r !in s && Blocks(db, r, s) {
      var r :| r in db && r !in s && Blocks(db, r, s);
      assert r !in gone && Blocks(db, r, gone);
    }
  }

  /**
    `after` is `db` with rows taken away: of the tables that never cascade, at most `s`; and of the
    NO ACTION columns of the rows that stay, at most `cleared`.
   */
  ghost predicate Reduced(db: Db, after: Db, s: set<Ref>, cleared: set<Column>) {
    && (forall r :: r in after ==> r in db && after[r].createdAt == db[r].createdAt && after[r].status == db[r].status)
    && (forall r :: r in db && r !in s && !CascadeChild(r.table) ==> r in after)
    && (forall r, c :: r in after && c in after[r].refs ==> c in db[r].refs && after[r].refs[c] == db[r].refs[c])
    && (forall r, c :: r in after && c in db[r].refs && Rule(c) == NoAction && c !in cleared ==> c in after[r].refs)
  }

  lemma ReducedTwice(a: Db, b: Db, c: Db, s: set<Ref>, t: set<Ref>, x: set<Column>, y: set<Column>)
    requires Reduced(a, b, s, x) && Reduced(b, c, t, y)
    ensures Reduced(a, c, s + t, x + y)
  {
  }

  lemma DeleteReduces(db: Db, s: set<Ref>)
    requires s <= db.Keys && WellTyped(db) && Delete(db, s).Some?
    ensures Reduced(db, Delete(db, s).value, s, {})
    ensures forall r :: r in s ==> r !in Delete(db, s).value
  {
    ClosureFacts(db, s);
  }

  lemma ClearReduces(db: Db, c: Column, s: set<Ref>)
    ensures Reduced(db, ClearColumn(db, c, s), {}, {c})
    ensures ClearColumn(db, c, s).Keys == db.Keys
    ensures Integrity(db) ==> Integrity(ClearColumn(db, c, s))
    ensures forall r :: r in db && c in ClearColumn(db, c, s)[r].refs ==> Target(db[r], c) !in s
  {
  }

  /** A delete of rows no NO ACTION key of a surviving row points at: it goes through and keeps integrity. */
  lemma DeleteUnblocked(db: Db, s: set<Ref>)
    requires s <= db.Keys && Integrity(db)
    requires forall r :: r in db && r !in s ==> !Blocks(db, r, s)
    ensures Delete(db, s).Some? && Integrity(Delete(db, s).value)
    ensures Reduced(db, Delete(db, s).value, s, {})
    ensures forall r :: r in s ==> r !in Delete(db, s).value
  {
    DeleteSucceeds(db, s);
    DeleteKeepsIntegrity(db, s);
    DeleteReduces(db, s);
  }

  // ----- exactly what goes -----

  /**
    `after` is `db` without the rows `s` and whatever they drag along: a row is gone if and only if it is
    one of them or a CASCADE key of it points at a row that is gone.  The rows that stay keep those keys.
   */
  ghost predicate Removes(db: Db, after: Db, s: set<Ref>) {
    && after.Keys <= db.Keys
    && (forall r :: r in db ==> (r !in after <==> r in s || CascadesInto(db, r, db.Keys - after.Keys)))
    && (forall r :: r in after ==> SameCascades(db[r], after[r]))
  }

  predicate SameCascades(a: Row, b: Row) {
    && (forall c :: c in a.refs && Rule(c) == Cascade ==> c in b.refs && b.refs[c] == a.refs[c])
    && (forall c :: c in b.refs && Rule(c) == Cascade ==> c in a.refs)
  }

  /** Nothing is in the closure without a reason. */
  lemma {:induction false} ClosureHasReasons(db: Db, s: set<Ref>)
    requires s <= db.Keys
    ensures var gone := Closure(db, s);
            s <= gone <= db.Keys && forall r :: r in gone ==> r in s || CascadesInto(db, r, gone)
    decreases |db.Keys - s|
  {
    var more := set r | r in db && r !in s && CascadesInto(db, r, s);
    if more != {} {
      Shrinks(db.Keys, s, more);
      ClosureHasReasons(db, s + more);
      forall r | r in more ensures CascadesInto(db, r, Closure(db, s)) {
        WiderTarget(db, r, s, Closure(db, s));
      }
    }
  }

  lemma WiderTarget(db: Db, r: Ref, s: set<Ref>, t: set<Ref>)
    requires r in db && CascadesInto(db, r, s) && s <= t
    ensures CascadesInto(db, r, t)
  {
    var c :| c in db[r].refs && Rule(c) == Cascade && Target(db[r], c) in s;
    assert Target(db[r], c) in t;
  }

  lemma DeleteRemoves(db: Db, s: set<Ref>)
    requires s <= db.Keys && WellTyped(db) && Delete(db, s).Some?
    ensures Removes(db, Delete(db, s).value, s)
  {
    ClosureFacts(db, s);
    ClosureHasReasons(db, s);
    var after := Delete(db, s).value;
    hide Closure, CascadesInto;
    assert after.Keys == db.Keys - Closure(db, s);
    assert db.Keys - after.Keys == Closure(db, s);
  }

  lemma ClearRemoves(db: Db, c: Column, s: set<Ref>)
    requires Rule(c) != Cascade
    ensures Removes(db, ClearColumn(db, c, s), {})
  {
    assert db.Keys - ClearColumn(db, c, s).Keys == {};
  }

  lemma SameCascadesInto(a: Db, b: Db, r: Ref, s: set<Ref>)
    requires r in a && r in b && SameCascades(a[r], b[r])
    ensures CascadesInto(a, r, s) <==> CascadesInto(b, r, s)
  {
    if CascadesInto(a, r, s) {
      var c :| c in a[r].refs && Rule(c) == Cascade && Target(a[r], c) in s;
      assert c in b[r].refs && Target(b[r], c) in s;
    }
    if CascadesInto(b, r, s) {
      var c :| c in b[r].refs && Rule(c) == Cascade && Target(b[r], c) in s;
      assert c in a[r].refs && Target(a[r], c) in s;
    }
  }

  lemma SplitTarget(db: Db, r: Ref, s: set<Ref>, t: set<Ref>)
    requires r in db && CascadesInto(db, r, s + t)
    ensures CascadesInto(db, r, s) || CascadesInto(db, r, t)
  {
    var c :| c in db[r].refs && Rule(c) == Cascade && Target(db[r], c) in s + t;
    assert Target(db[r], c) in s || Target(db[r], c) in t;
  }

  lemma SameCascadesTwice(a: Row, b: Row, c: Row)
    requires SameCascades(a, b) && SameCascades(b, c)
    ensures SameCascades(a, c)
  {
  }

  lemma RemovesTwice(a: Db, b: Db, c: Db, s: set<Ref>, t: set<Ref>)
    requires Removes(a, b, s) && Removes(b, c, t) && t <= b.Keys
    ensures Removes(a, c, s + t)
  {
    var first, second, both := a.Keys - b.Keys, b.Keys - c.Keys, a.Keys - c.Keys;
    assert both == first + second;
    hide CascadesInto, SameCascades;
    forall r | r in a ensures r !in c <==> r in s + t || CascadesInto(a, r, both) {
      if CascadesInto(a, r, both) {
        SplitTarget(a, r, first, second);
      }
      if CascadesInto(a, r, first) {
        WiderTarget(a, r, first, both);
      }
      if r in b {
        SameCascadesInto(a, b, r, second);
        if CascadesInto(a, r, second) {
          WiderTarget(a, r, second, both);
        }
      }
    }
    forall r | r in c ensures SameCascades(a[r], c[r]) {
      SameCascadesTwice(a[r], b[r], c[r]);
    }
  }

  /** Rows that go anyway may be named or not. */
  lemma RenameRemoved(a: Db, b: Db, s: set<Ref>, t: set<Ref>)
    requires Removes(a, b, s) && (forall r :: r in t && r in a ==> r !in b)
    requires forall r :: r in s && r in a && r !in t ==> CascadesInto(a, r, a.Keys - b.Keys)
    ensures Removes(a, b, t)
  {
    hide CascadesInto, SameCascades;
  }

  // ----- deleting orders -----

  /** Unlink the pool, delete the steps, delete the orders. */
  function DeleteOrders(db: Db, orders: set<Ref>): Option<Db>
    requires orders <= db.Keys
  {
    var cleared := ClearColumn(db, PoolCurrentOrder, orders);
    var stepless := Delete(cleared, Pointing(cleared, StepOrder, orders));
    if stepless.None? || !(orders <= stepless.value.Keys) then None else Delete(stepless.value, orders)
  }

  lemma StepsAreDeletable(db: Db, steps: set<Ref>)
    requires Integrity(db) && steps <= db.Keys && forall r :: r in steps ==> r.table == OrderSteps
    ensures Delete(db, steps).Some? && Integrity(Delete(db, steps).value)
            && Reduced(db, Delete(db, steps).value, {}, {})
  {
    forall r | r in db ensures !Blocks(db, r, steps) {
      if Blocks(db, r, steps) {
        var c :| c in db[r].refs && Rule(c) == NoAction && Target(db[r], c) in steps;
        RulesOfTables(c);
      }
    }
    DeleteUnblocked(db, steps);
  }

  lemma UnlinkedOrdersUnblocked(db: Db, cleared: Db, after: Db, orders: set<Ref>)
    requires forall o :: o in orders ==> o.table == Orders
    requires Reduced(cleared, after, {}, {}) && cleared == ClearColumn(db, PoolCurrentOrder, orders)
    ensures forall r :: r in after ==> !Blocks(after, r, orders)
  {
    ClearReduces(db, PoolCurrentOrder, orders);
    hide ClearColumn, Integrity;
    forall r | r in after ensures !Blocks(after, r, orders) {
      assert r in cleared && r in db;
      forall c | c in after[r].refs && Rule(c) == NoAction ensures Target(after[r], c) !in orders {
        assert c in cleared[r].refs && cleared[r].refs[c] == after[r].refs[c];
        assert Parent(c) == Orders ==> c == PoolCurrentOrder;
      }
    }
  }

  lemma OrdersStay(db: Db, after: Db, orders: set<Ref>)
    requires Reduced(db, after, {}, {}) && orders <= db.Keys && forall o :: o in orders ==> o.table == Orders
    ensures orders <= after.Keys
  {
  }

  /** Deleting orders this way always goes through, keeps integrity, and takes no other order, asset or type. */
  lemma OrdersAreDeletable(db: Db, orders: set<Ref>)
    requires Integrity(db) && orders <= db.Keys && forall o :: o in orders ==> o.table == Orders
    ensures DeleteOrders(db, orders).Some? && Integrity(DeleteOrders(db, orders).value)
    ensures Reduced(db, DeleteOrders(db, orders).value, orders, {PoolCurrentOrder})
    ensures forall o :: o in orders ==> o !in DeleteOrders(db, orders).value
  {
    hide Delete, ClearColumn, Integrity, Closure, Reduced, Blocks;
    ClearReduces(db, PoolCurrentOrder, orders);
    var cleared := ClearColumn(db, PoolCurrentOrder, orders);
    var steps := Pointing(cleared, StepOrder, orders);
    PointingTable(cleared, StepOrder, orders);
    assert steps <= cleared.Keys;
    hide Pointing;
    StepsAreDeletable(cleared, steps);
    var stepless := Delete(cleared, steps).value;
    OrdersStay(cleared, stepless, orders);
    UnlinkedOrdersUnblocked(db, cleared, stepless, orders);
    DeleteUnblocked(stepless, orders);
    ReducedTwice(db, cleared, stepless, {}, {}, {PoolCurrentOrder}, {});
    ReducedTwice(db, stepless, DeleteOrders(db, orders).value, {} + {}, orders, {PoolCurrentOrder} + {}, {});
    assert {} + {} + orders == orders && {PoolCurrentOrder} + {} + {} == {PoolCurrentOrder};
  }

  /** The steps go with their orders, deleted on their own before or not. */
  lemma StepsGoAnyway(db: Db, after: Db, orders: set<Ref>, steps: set<Ref>)
    requires Removes(db, after, steps + orders) && orders <= db.Keys
    requires forall r :: r in steps && r in db ==> StepOrder in db[r].refs && Target(db[r], StepOrder) in orders
    ensures Removes(db, after, orders)
  {
    forall r | r in steps && r in db ensures CascadesInto(db, r, db.Keys - after.Keys) {
      assert Target(db[r], StepOrder) !in after;
      assert Rule(StepOrder) == Cascade;
    }
    hide CascadesInto, SameCascades;
    RenameRemoved(db, after, steps + orders, orders);
  }

  lemma OrdersRemoved(db: Db, orders: set<Ref>)
    requires Integrity(db) && orders <= db.Keys && forall o :: o in orders ==> o.table == Orders
    ensures DeleteOrders(db, orders).Some? && Removes(db, DeleteOrders(db, orders).value, orders)
  {
    var cleared := ClearColumn(db, PoolCurrentOrder, orders);
    var steps := Pointing(cleared, StepOrder, orders);
    assert forall r :: r in steps && r in db ==> StepOrder in db[r].refs && Target(db[r], StepOrder) in orders;
    OrdersAreDeletable(db, orders);
    ClearReduces(db, PoolCurrentOrder, orders);
    ClearRemoves(db, PoolCurrentOrder, orders);
    assert WellTyped(cleared);
    hide ClearColumn, Delete, Integrity, WellTyped, Removes, Reduced, CascadesInto, Pointing;
    DeleteRemoves(cleared, steps);
    var stepless := Delete(cleared, steps).value;
    StillWellTyped(cleared, steps);
    DeleteRemoves(stepless, orders);
    RemovesTwice(db, cleared, stepless, {}, steps);
    RemovesTwice(db, stepless, DeleteOrders(db, orders).value, {} + steps, orders);
    assert {} + steps + orders == steps + orders;
    StepsGoAnyway(db, DeleteOrders(db, orders).value, orders, steps);
  }

  lemma StillWellTyped(db: Db, s: set<Ref>)
    requires s <= db.Keys && WellTyped(db) && Delete(db, s).Some?
    ensures WellTyped(Delete(db, s).value)
  {
    hide Closure;
  }

  // ----- deleting an asset type -----

  /** The pool of the type, then the type. */
  function DeletePoolAndType(db: Db, t: Ref): Option<Db> {
    var emptied := Delete(db, Pointing(db, PoolType, {t}));
    if emptied.None? || t !in emptied.value then None else Delete(emptied.value, {t})
  }

  /** The statements of `delete_asset_type`, in order; None when one of them fails and all roll back. */
  function DeleteAssetType(db: Db, t: Ref): Option<Db>
    requires t in db
  {
    var orders := Pointing(db, OrderType, {t});
    var unlinked := if orders == {} then Some(db) else DeleteOrders(db, orders);
    if unlinked.None? then None else DeletePoolAndType(unlinked.value, t)
  }

  /** An order of another type holds an asset of this type. */
  predicate HeldByOtherType(db: Db, t: Ref) {
    exists o :: o in db && o !in Pointing(db, OrderType, {t}) && Blocks(db, o, Pointing(db, PoolType, {t}))
  }

  lemma SamePool(db: Db, unlinked: Db, t: Ref)
    requires WellTyped(db)
    requires Reduced(db, unlinked, Pointing(db, OrderType, {t}), {PoolCurrentOrder})
    ensures Pointing(unlinked, PoolType, {t}) == Pointing(db, PoolType, {t})
  {
    var orders := Pointing(db, OrderType, {t});
    PointingTable(db, OrderType, {t});
    hide WellTyped;
    forall r ensures r in Pointing(unlinked, PoolType, {t}) <==> r in Pointing(db, PoolType, {t}) {
      if r in db && r.table == AssetPool {
        assert r !in orders && r in unlinked;
        assert Rule(PoolType) == NoAction && PoolType !in {PoolCurrentOrder};
        assert PoolType in db[r].refs ==> PoolType in unlinked[r].refs;
      }
    }
  }

  /** Once the orders of a type are gone, its pool can go unless an order of another type holds some of it. */
  lemma PoolOfTypeBlocked(db: Db, unlinked: Db, t: Ref)
    requires WellTyped(db)
    requires Reduced(db, unlinked, Pointing(db, OrderType, {t}), {PoolCurrentOrder})
    requires forall o :: o in Pointing(db, OrderType, {t}) ==> o !in unlinked
    ensures var pool := Pointing(unlinked, PoolType, {t});
            (exists r :: r in unlinked && r !in pool && Blocks(unlinked, r, pool)) <==> HeldByOtherType(db, t)
  {
    var orders, pool := Pointing(db, OrderType, {t}), Pointing(unlinked, PoolType, {t});
    SamePool(db, unlinked, t);
    PointingTable(unlinked, PoolType, {t});
    assert forall r :: r in unlinked ==> r in db && r !in orders;
    assert forall r :: r in db && r !in orders && r.table == Orders ==> r in unlinked;
    hide Pointing, Blocks, WellTyped, Reduced;
    forall r | r in unlinked ensures Blocks(unlinked, r, pool) <==> Blocks(db, r, pool) {
      SameBlocks(db, unlinked, r, pool, orders);
    }
    if HeldByOtherType(db, t) {
      var o :| o in db && o !in orders && Blocks(db, o, pool);
      BlockerIsOrder(db, o, pool);
      assert o in unlinked && o !in pool;
    }
  }

  lemma PointingTable(db: Db, c: Column, s: set<Ref>)
    ensures forall r :: r in Pointing(db, c, s) ==> r.table == Child(c)
  {
  }

  lemma BlockerIsOrder(db: Db, o: Ref, pool: set<Ref>)
    requires WellTyped(db) && o in db && Blocks(db, o, pool) && forall p :: p in pool ==> p.table == AssetPool
    ensures o.table == Orders
  {
    var c :| c in db[o].refs && Rule(c) == NoAction && Target(db[o], c) in pool;
    assert c == OrderAsset;
  }

  lemma SameBlocks(db: Db, after: Db, r: Ref, pool: set<Ref>, gone: set<Ref>)
    requires Reduced(db, after, gone, {PoolCurrentOrder}) && r in after
    requires forall p :: p in pool ==> p.table == AssetPool
    ensures Blocks(after, r, pool) <==> Blocks(db, r, pool)
  {
    if Blocks(db, r, pool) {
      var c :| c in db[r].refs && Rule(c) == NoAction && Target(db[r], c) in pool;
      assert Parent(c) == AssetPool && c != PoolCurrentOrder;
      assert c in after[r].refs && Target(after[r], c) in pool;
    }
    if Blocks(after, r, pool) {
      var c :| c in after[r].refs && Rule(c) == NoAction && Target(after[r], c) in pool;
      assert c in db[r].refs && Target(db[r], c) in pool;
    }
  }

  lemma TypeUnblocked(db: Db, emptied: Db, t: Ref, removed: set<Ref>)
    requires t.table == AssetTypes
    requires Reduced(db, emptied, removed, {PoolCurrentOrder})
    requires forall r :: r in Pointing(db, OrderType, {t}) || r in Pointing(db, PoolType, {t}) ==> r !in emptied
    requires WellTyped(db)
    ensures forall r :: r in emptied ==> !Blocks(emptied, r, {t})
  {
    forall r, c | r in emptied && c in emptied[r].refs && Rule(c) == NoAction ensures Target(emptied[r], c) != t {
      assert c in db[r].refs && Child(c) == r.table;
      assert Parent(c) == AssetTypes ==> c == PoolType || c == OrderType;
    }
  }

  /** What is left once a type is deleted: nothing of it, everything else outside the cascading tables. */
  ghost predicate TypeGone(db: Db, after: Db, t: Ref) {
    && Integrity(after) && t !in after
    && (forall r :: r in Pointing(db, OrderType, {t}) || r in Pointing(db, PoolType, {t}) ==> r !in after)
    && (forall r ::
          && r in db && !CascadeChild(r.table)
          && r != t && r !in Pointing(db, OrderType, {t}) && r !in Pointing(db, PoolType, {t})
          ==> r in after)
  }

  /** The type, its orders and its assets. */
  function RowsOfType(db: Db, t: Ref): set<Ref> {
    Pointing(db, OrderType, {t}) + Pointing(db, PoolType, {t}) + {t}
  }

  /** Once the orders are gone, the pool and the type follow, and what they drag along. */
  lemma TypeRemoved(db: Db, unlinked: Db, t: Ref)
    requires Integrity(unlinked) && t in db
    requires Removes(db, unlinked, Pointing(db, OrderType, {t}))
    requires Pointing(unlinked, PoolType, {t}) == Pointing(db, PoolType, {t})
    requires Delete(unlinked, Pointing(unlinked, PoolType, {t})).Some?
    requires var emptied := Delete(unlinked, Pointing(unlinked, PoolType, {t})).value;
             t in emptied && Delete(emptied, {t}).Some?
    ensures var emptied := Delete(unlinked, Pointing(unlinked, PoolType, {t})).value;
            Removes(db, Delete(emptied, {t}).value, RowsOfType(db, t))
  {
    var orders, pool := Pointing(db, OrderType, {t}), Pointing(unlinked, PoolType, {t});
    assert WellTyped(unlinked) && pool <= unlinked.Keys;
    var emptied := Delete(unlinked, pool).value;
    hide Delete, Removes, Pointing, Integrity, WellTyped;
    DeleteRemoves(unlinked, pool);
    StillWellTyped(unlinked, pool);
    DeleteRemoves(emptied, {t});
    RemovesTwice(db, unlinked, emptied, orders, pool);
    RemovesTwice(db, emptied, Delete(emptied, {t}).value, orders + pool, {t});
  }

  lemma TypeRemovedAfter(db: Db, unlinked: Db, t: Ref)
    requires Integrity(db) && Integrity(unlinked) && t in db && t.table == AssetTypes
    requires Reduced(db, unlinked, Pointing(db, OrderType, {t}), {PoolCurrentOrder})
    requires Removes(db, unlinked, Pointing(db, OrderType, {t}))
    requires forall o :: o in Pointing(db, OrderType, {t}) ==> o !in unlinked
    ensures var after := DeletePoolAndType(unlinked, t);
            after.Some? ==> Removes(db, after.value, RowsOfType(db, t))
  {
    hide Delete, Removes, Reduced, TypeGone, HeldByOtherType, RowsOfType, Blocks;
    hide Target, Child, Parent, Rule;
    assert Pointing(unlinked, PoolType, {t}) <= unlinked.Keys;
    hide Pointing;
    assert WellTyped(db);
    hide Integrity, WellTyped;
    TypeDeletionTail(db, unlinked, t);
    SamePool(db, unlinked, t);
    if Delete(unlinked, Pointing(unlinked, PoolType, {t})).Some? {
      TypeRemoved(db, unlinked, t);
    }
  }

  lemma NothingRemoved(db: Db)
    ensures Removes(db, db, {})
  {
    assert db.Keys - db.Keys == {};
  }

  /** A deletion that goes through takes the type, its orders and assets, what they drag along, and no other row. */
  lemma TypeTakesExactly(db: Db, t: Ref)
    requires Integrity(db) && t in db && t.table == AssetTypes
    ensures DeleteAssetType(db, t).Some? ==> Removes(db, DeleteAssetType(db, t).value, RowsOfType(db, t))
  {
    var orders := Pointing(db, OrderType, {t});
    if orders == {} {
      NothingRemoved(db);
      SelfReduced(db);
      assert Reduced(db, db, orders, {PoolCurrentOrder});
    } else {
      OrdersAreDeletable(db, orders);
      OrdersRemoved(db, orders);
    }
    hide Delete, Integrity, DeleteOrders, Pointing, Reduced, Removes, RowsOfType;
    TypeRemovedAfter(db, if orders == {} then db else DeleteOrders(db, orders).value, t);
  }

  /**
    Deleting an asset type goes through exactly when no order of another type still holds one of its
    assets; it then leaves no dangling reference and neither the type nor any of its orders or assets, and
    takes no further row but those that cascade from them.
   */
  lemma AssetTypeDeletion(db: Db, t: Ref)
    requires Integrity(db) && t in db && t.table == AssetTypes
    ensures DeleteAssetType(db, t).Some? <==> !HeldByOtherType(db, t)
    ensures DeleteAssetType(db, t).Some? ==> TypeGone(db, DeleteAssetType(db, t).value, t)
    ensures DeleteAssetType(db, t).Some? ==> Removes(db, DeleteAssetType(db, t).value, RowsOfType(db, t))
  {
    hide Removes, RowsOfType;
    TypeTakesExactly(db, t);
    var orders := Pointing(db, OrderType, {t});
    hide Delete, Closure, Integrity, DeleteOrders, TypeGone, HeldByOtherType;
    if orders == {} {
      TypeDeletionTail(db, db, t);
    } else {
      OrdersAreDeletable(db, orders);
      TypeDeletionTail(db, DeleteOrders(db, orders).value, t);
    }
  }

  /** The statements that follow the deletion of the orders. */
  lemma TypeDeletionTail(db: Db, unlinked: Db, t: Ref)
    requires Integrity(db) && Integrity(unlinked) && t in db && t.table == AssetTypes
    requires Reduced(db, unlinked, Pointing(db, OrderType, {t}), {PoolCurrentOrder}) || unlinked == db
    requires forall o :: o in Pointing(db, OrderType, {t}) ==> o !in unlinked
    ensures var emptied := Delete(unlinked, Pointing(unlinked, PoolType, {t}));
            && (emptied.Some? <==> !HeldByOtherType(db, t))
            && (emptied.Some? ==>
                  && t in emptied.value && Delete(emptied.value, {t}).Some?
                  && TypeGone(db, Delete(emptied.value, {t}).value, t))
  {
    var orders, pool := Pointing(db, OrderType, {t}), Pointing(unlinked, PoolType, {t});
    assert Reduced(db, unlinked, orders, {PoolCurrentOrder});
    assert WellTyped(db) && WellTyped(unlinked);
    hide Delete, Closure, HeldByOtherType, Integrity, WellTyped, Reduced;
    PoolOfTypeBlocked(db, unlinked, t);
    SamePool(db, unlinked, t);
    DeleteSucceeds(unlinked, pool);
    if Delete(unlinked, pool).Some? {
      PoolThenType(db, unlinked, t);
    }
  }

  /**
    After the pool is emptied the type is still there, and outside the cascading tables nothing is gone but
    its orders and its pool.
   */
  lemma PoolEmptied(db: Db, unlinked: Db, t: Ref)
    requires WellTyped(db) && Integrity(unlinked) && t in db && t.table == AssetTypes
    requires Reduced(db, unlinked, Pointing(db, OrderType, {t}), {PoolCurrentOrder})
    requires Delete(unlinked, Pointing(unlinked, PoolType, {t})).Some?
    ensures var pool := Pointing(unlinked, PoolType, {t});
            var emptied := Delete(unlinked, pool).value;
            && Integrity(emptied) && t in emptied && (forall r :: r in emptied ==> r in unlinked)
            && (forall r :: r in pool ==> r !in emptied)
            && Reduced(db, emptied, Pointing(db, OrderType, {t}) + pool, {PoolCurrentOrder})
  {
    var orders, pool := Pointing(db, OrderType, {t}), Pointing(unlinked, PoolType, {t});
    var emptied := Delete(unlinked, pool).value;
    assert WellTyped(unlinked);
    PointingTable(db, OrderType, {t});
    PointingTable(unlinked, PoolType, {t});
    hide Delete, Closure, Pointing, Integrity, WellTyped, Blocks, Child, Parent, Rule;
    DeleteKeepsIntegrity(unlinked, pool);
    DeleteReduces(unlinked, pool);
    ReducedTwice(db, unlinked, emptied, orders, pool, {PoolCurrentOrder}, {});
    assert {PoolCurrentOrder} + {} == {PoolCurrentOrder};
    assert t !in orders && t !in pool && !CascadeChild(t.table);
  }

  lemma PoolThenType(db: Db, unlinked: Db, t: Ref)
    requires WellTyped(db) && Integrity(unlinked) && t in db && t.table == AssetTypes
    requires Reduced(db, unlinked, Pointing(db, OrderType, {t}), {PoolCurrentOrder})
    requires forall o :: o in Pointing(db, OrderType, {t}) ==> o !in unlinked
    requires Pointing(unlinked, PoolType, {t}) == Pointing(db, PoolType, {t})
    requires Delete(unlinked, Pointing(unlinked, PoolType, {t})).Some?
    ensures var emptied := Delete(unlinked, Pointing(unlinked, PoolType, {t})).value;
            t in emptied && Delete(emptied, {t}).Some? && TypeGone(db, Delete(emptied, {t}).value, t)
  {
    var orders, pool := Pointing(db, OrderType, {t}), Pointing(unlinked, PoolType, {t});
    assert pool <= unlinked.Keys;
    hide Delete, Closure, Pointing, Integrity, WellTyped, TypeGone, Blocks, Reduced;
    PoolEmptied(db, unlinked, t);
    var emptied := Delete(unlinked, pool).value;
    TypeUnblocked(db, emptied, t, orders + pool);
    DeleteUnblocked(emptied, {t});
    ReducedTwice(db, emptied, Delete(emptied, {t}).value, orders + pool, {t}, {PoolCurrentOrder}, {});
    TypeGoneFacts(db, Delete(emptied, {t}).value, t, orders + pool + {t}, {PoolCurrentOrder} + {}, emptied);
  }

  lemma TypeGoneFacts(db: Db, after: Db, t: Ref, removed: set<Ref>, cleared: set<Column>, emptied: Db)
    requires Integrity(after) && t !in after
    requires Reduced(db, after, removed, cleared) && Reduced(emptied, after, {t}, {})
    requires removed == Pointing(db, OrderType, {t}) + Pointing(db, PoolType, {t}) + {t}
    requires forall r :: r in Pointing(db, OrderType, {t}) || r in Pointing(db, PoolType, {t}) ==> r !in emptied
    ensures TypeGone(db, after, t)
  {
    hide Integrity, Pointing;
  }

  /** The foreign key of a row, in the identifiers of the tables. */
  predicate PointsTo(db: Db, r: Ref, c: Column, id: int) {
    r in db && c in db[r].refs && db[r].refs[c] == id
  }

  /** The row belongs to the order: a step, an approval, a change-log entry or a review of it. */
  predicate OfOrder(db: Db, r: Ref, order: int) {
    || PointsTo(db, r, StepOrder, order) || PointsTo(db, r, ApprovalOrder, order)
    || PointsTo(db, r, LogOrder, order) || PointsTo(db, r, ReviewOrder, order)
  }

  /** The row belongs to the type: an order, an asset, a grant, a runbook or a bundle item of it. */
  predicate OfType(db: Db, r: Ref, t: int) {
    || PointsTo(db, r, OrderType, t) || PointsTo(db, r, PoolType, t) || PointsTo(db, r, GrantType, t)
    || PointsTo(db, r, DefType, t) || PointsTo(db, r, ItemType, t)
  }

  /** A row with a cascading key into what is gone is gone. */
  lemma GoesAlong(db: Db, after: Db, s: set<Ref>, r: Ref, c: Column)
    requires Removes(db, after, s) && r in db && c in db[r].refs && Rule(c) == Cascade
    requires Target(db[r], c) in db && Target(db[r], c) !in after
    ensures r !in after
  {
    assert CascadesInto(db, r, db.Keys - after.Keys);
  }

  lemma OfOrderGoesAlong(db: Db, after: Db, s: set<Ref>, r: Ref, order: int)
    requires Removes(db, after, s) && OfOrder(db, r, order) && Ref(Orders, order) in db && Ref(Orders, order) !in after
    ensures r !in after
  {
    hide Removes, CascadesInto;
    var c := if PointsTo(db, r, StepOrder, order) then StepOrder
             else if PointsTo(db, r, ApprovalOrder, order) then ApprovalOrder
             else if PointsTo(db, r, LogOrder, order) then LogOrder
             else ReviewOrder;
    assert PointsTo(db, r, c, order) && Parent(c) == Orders;
    GoesAlong(db, after, s, r, c);
  }

  lemma KeyIsTyped(db: Db, r: Ref, c: Column)
    requires Integrity(db) && r in db && c in db[r].refs
    ensures r.table == Child(c) && Target(db[r], c) in db
  {
    assert WellTyped(db);
  }

  lemma SelectedGoes(db: Db, after: Db, t: Ref, r: Ref)
    requires TypeGone(db, after, t) && (r in Pointing(db, OrderType, {t}) || r in Pointing(db, PoolType, {t}))
    ensures r !in after
  {
  }

  lemma KeyOfTypeGoes(db: Db, t: int, r: Ref, c: Column)
    requires Integrity(db) && Ref(AssetTypes, t) in db && PointsTo(db, r, c, t)
    requires c == OrderType || c == PoolType || (Parent(c) == AssetTypes && Rule(c) == Cascade)
    requires DeleteAssetType(db, Ref(AssetTypes, t)).Some?
    ensures r !in DeleteAssetType(db, Ref(AssetTypes, t)).value
  {
    var key := Ref(AssetTypes, t);
    KeyIsTyped(db, r, c);
    assert Target(db[r], c) == key;
    assert c == OrderType || c == PoolType ==> r in Pointing(db, c, {key});
    hide DeleteAssetType, HeldByOtherType, Removes, Integrity, CascadesInto, RowsOfType, TypeGone, Pointing;
    AssetTypeDeletion(db, key);
    var after := DeleteAssetType(db, key).value;
    TypeGoneKeeps(db, after, key);
    if c == OrderType || c == PoolType {
      SelectedGoes(db, after, key, r);
    } else {
      GoesAlong(db, after, RowsOfType(db, key), r, c);
    }
  }

  lemma OfTypeGoes(db: Db, t: int, r: Ref)
    requires Integrity(db) && Ref(AssetTypes, t) in db && OfType(db, r, t)
    requires DeleteAssetType(db, Ref(AssetTypes, t)).Some?
    ensures r !in DeleteAssetType(db, Ref(AssetTypes, t)).value
  {
    hide DeleteAssetType, Integrity, PointsTo;
    if PointsTo(db, r, OrderType, t) {
      KeyOfTypeGoes(db, t, r, OrderType);
    } else if PointsTo(db, r, PoolType, t) {
      KeyOfTypeGoes(db, t, r, PoolType);
    } else if PointsTo(db, r, GrantType, t) {
      KeyOfTypeGoes(db, t, r, GrantType);
    } else if PointsTo(db, r, DefType, t) {
      KeyOfTypeGoes(db, t, r, DefType);
    } else {
      KeyOfTypeGoes(db, t, r, ItemType);
    }
  }

  lemma TypeIsGone(db: Db, t: Ref)
    requires Integrity(db) && t in db && t.table == AssetTypes && DeleteAssetType(db, t).Some?
    ensures var after := DeleteAssetType(db, t).value;
            && Integrity(after) && t !in after
            && (forall r :: r in db && r.table in {DriftFindings, Attestations} ==> r in after)
  {
    hide *;
    AssetTypeDeletion(db, t);
    TypeGoneKeeps(db, DeleteAssetType(db, t).value, t);
  }

  lemma TypeGoneKeeps(db: Db, after: Db, t: Ref)
    requires TypeGone(db, after, t) && t.table == AssetTypes
    ensures Integrity(after) && t !in after
    ensures forall r :: r in db && r.table in {DriftFindings, Attestations} ==> r in after
  {
    PointingTable(db, OrderType, {t});
    PointingTable(db, PoolType, {t});
    hide Integrity, Pointing;
  }

  /**
    What a type's deletion sweeps away: its orders, assets, grants, runbooks and bundle items, and with an
    order its steps, approvals, change log and reviews, with a runbook its steps.
   */
  lemma TypeDeletionSweeps(db: Db, t: int, r: Ref, via: int)
    requires Integrity(db) && Ref(AssetTypes, t) in db && DeleteAssetType(db, Ref(AssetTypes, t)).Some?
    requires || OfType(db, r, t)
             || (PointsTo(db, Ref(Orders, via), OrderType, t) && OfOrder(db, r, via))
             || (PointsTo(db, Ref(RunbookDefs, via), DefType, t) && PointsTo(db, r, RunbookStepDef, via))
    ensures r in db && r !in DeleteAssetType(db, Ref(AssetTypes, t)).value
  {
    var key := Ref(AssetTypes, t);
    hide DeleteAssetType, HeldByOtherType, Removes, Integrity, RowsOfType, TypeGone;
    AssetTypeDeletion(db, key);
    var after := DeleteAssetType(db, key).value;
    if OfType(db, r, t) {
      OfTypeGoes(db, t, r);
    } else if OfOrder(db, r, via) && PointsTo(db, Ref(Orders, via), OrderType, t) {
      OfTypeGoes(db, t, Ref(Orders, via));
      OfOrderGoesAlong(db, after, RowsOfType(db, key), r, via);
    } else {
      OfTypeGoes(db, t, Ref(RunbookDefs, via));
      GoesAlong(db, after, RowsOfType(db, key), r, RunbookStepDef);
    }
  }

  /** Drift findings and attestations outlive the type and its orders; only the link is lost. */
  lemma TypeDeletionUnlinks(db: Db, t: int, r: Ref, via: int)
    requires Integrity(db) && Ref(AssetTypes, t) in db && DeleteAssetType(db, Ref(AssetTypes, t)).Some?
    requires r in db && r.table in {DriftFindings, Attestations}
    ensures var after := DeleteAssetType(db, Ref(AssetTypes, t)).value;
            && r in after && !PointsTo(after, r, DriftType, t) && !PointsTo(after, r, AttestationType, t)
            && (PointsTo(db, Ref(Orders, via), OrderType, t) ==>
                  !PointsTo(after, r, DriftOrder, via) && !PointsTo(after, r, AttestationOrder, via))
  {
    var key := Ref(AssetTypes, t);
    hide DeleteAssetType, HeldByOtherType, Integrity;
    TypeIsGone(db, key);
    var after := DeleteAssetType(db, key).value;
    if PointsTo(db, Ref(Orders, via), OrderType, t) {
      OfTypeGoes(db, t, Ref(Orders, via));
    }
    LinksAreThere(after, r);
  }

  lemma LinksAreThere(db: Db, r: Ref)
    requires Integrity(db) && r in db
    ensures forall c :: c in db[r].refs ==> Ref(Parent(c), db[r].refs[c]) in db
  {
    forall c | c in db[r].refs ensures Ref(Parent(c), db[r].refs[c]) in db {
      assert Target(db[r], c) in db;
    }
  }

  /** A row of these tables can always be deleted: nothing but cascading and clearing keys points at it. */
  lemma FreeToDelete(db: Db, p: Ref)
    requires Integrity(db) && p in db
    requires p.table in {AdminUsers, Campaigns, Bundles, OrderGroups, ScriptModules, Contracts}
    ensures Delete(db, {p}).Some? && p !in Delete(db, {p}).value && Integrity(Delete(db, {p}).value)
    ensures Removes(db, Delete(db, {p}).value, {p}) && Reduced(db, Delete(db, {p}).value, {p}, {})
  {
    assert WellTyped(db);
    forall q, c | q in db && c in db[q].refs && Rule(c) == NoAction ensures Target(db[q], c) !in {p} {
    }
    hide Delete, Integrity, Removes, WellTyped, Reduced;
    DeleteUnblocked(db, {p});
    DeleteRemoves(db, {p});
  }

  /** Grants go with their user, reviews with their campaign, items with their bundle. */
  lemma ParentTakesAlong(db: Db, p: int, r: Ref, c: Column)
    requires Integrity(db) && PointsTo(db, r, c, p) && c in {GrantUser, ReviewCampaign, ItemBundle}
    ensures var table := if c == GrantUser then AdminUsers else if c == ReviewCampaign then Campaigns else Bundles;
            var parent := Ref(table, p);
            parent in db && Delete(db, {parent}).Some? && r !in Delete(db, {parent}).value
  {
    KeyIsTyped(db, r, c);
    FreeToDelete(db, Target(db[r], c));
    hide Delete, Removes, Integrity, Reduced;
    GoesAlong(db, Delete(db, {Target(db[r], c)}).value, {Target(db[r], c)}, r, c);
  }

  /** Orders outlive their group, groups their bundle and types their contract; only the link is lost. */
  lemma ParentUnlinks(db: Db, p: int, r: Ref, c: Column)
    requires Integrity(db) && PointsTo(db, r, c, p) && c in {OrderGroup, GroupBundle, TypeContract}
    ensures var table := if c == OrderGroup then OrderGroups else if c == GroupBundle then Bundles else Contracts;
            var parent := Ref(table, p);
            && parent in db && Delete(db, {parent}).Some?
            && r in Delete(db, {parent}).value && !PointsTo(Delete(db, {parent}).value, r, c, p)
  {
    KeyIsTyped(db, r, c);
    FreeToDelete(db, Target(db[r], c));
    hide Delete, Removes, Integrity, Reduced;
    StaysUnlinked(db, Delete(db, {Target(db[r], c)}).value, Target(db[r], c), r);
  }

  /** Deleting a script module leaves the runbook steps that ran it, without the link. */
  lemma ScriptUnlinks(db: Db, script: int, r: Ref)
    requires Integrity(db) && PointsTo(db, r, RunbookStepScript, script)
    ensures var row := Ref(ScriptModules, script);
            && row in db && Delete(db, {row}).Some?
            && r in Delete(db, {row}).value && !PointsTo(Delete(db, {row}).value, r, RunbookStepScript, script)
  {
    var p := Ref(ScriptModules, script);
    KeyIsTyped(db, r, RunbookStepScript);
    FreeToDelete(db, p);
    var after := Delete(db, {p}).value;
    hide Delete, Removes, Reduced, Integrity, Rule, Child;
    StepStays(db, after, p, r);
    LinksAreThere(after, r);
  }

  lemma StepStays(db: Db, after: Db, p: Ref, r: Ref)
    requires Integrity(db) && Removes(db, after, {p}) && Reduced(db, after, {p}, {})
    requires p.table == ScriptModules && r in db && r.table == RunbookSteps
    ensures r in after
  {
    hide Integrity, Removes, Reduced;
    OnlyCascade(db, after, p, r, RunbookStepDef);
    if RunbookStepDef in db[r].refs {
      KeyIsTyped(db, r, RunbookStepDef);
      DefStays(db, after, p, Target(db[r], RunbookStepDef));
    }
  }

  lemma DefStays(db: Db, after: Db, p: Ref, r: Ref)
    requires Integrity(db) && Removes(db, after, {p}) && Reduced(db, after, {p}, {})
    requires p.table == ScriptModules && r in db && r.table == RunbookDefs
    ensures r in after
  {
    hide Integrity, Removes, Reduced;
    OnlyCascade(db, after, p, r, DefType);
    if DefType in db[r].refs {
      KeyIsTyped(db, r, DefType);
      StillThereAfter(db, after, p, Target(db[r], DefType));
    }
  }

  /** A row whose table has one cascading key goes only with the row that key names. */
  lemma OnlyCascade(db: Db, after: Db, p: Ref, r: Ref, c: Column)
    requires Integrity(db) && Removes(db, after, {p}) && r in db && r != p
    requires forall k :: Rule(k) == Cascade && Child(k) == r.table ==> k == c
    ensures r !in after ==> c in db[r].refs && Target(db[r], c) !in after
  {
    if r !in after {
      var k :| k in db[r].refs && Rule(k) == Cascade && Target(db[r], k) in db.Keys - after.Keys;
      KeyIsTyped(db, r, k);
    }
  }

  lemma StillThereAfter(db: Db, after: Db, p: Ref, r: Ref)
    requires Reduced(db, after, {p}, {}) && r in db && r != p && !CascadeChild(r.table)
    ensures r in after
  {
  }

  lemma StaysUnlinked(db: Db, after: Db, p: Ref, r: Ref)
    requires Integrity(after) && Reduced(db, after, {p}, {}) && p !in after && r in db && r != p
    requires !CascadeChild(r.table)
    ensures r in after && forall c :: c in after[r].refs && Parent(c) == p.table ==> after[r].refs[c] != p.id
  {
    LinksAreThere(after, r);
    hide Integrity;
  }

  // ----- the other routes -----

  /** `delete_asset` and the end of `force_delete_asset`: unlink the orders, delete the asset. */
  function DeleteAsset(db: Db, asset: Ref): Option<Db>
    requires asset in db
  {
    Delete(ClearColumn(db, OrderAsset, {asset}), {asset})
  }

  /** Deleting an asset never fails and never leaves a dangling reference, whoever holds it. */
  lemma AssetDeletion(db: Db, asset: Ref)
    requires Integrity(db) && asset in db && asset.table == AssetPool
    ensures DeleteAsset(db, asset).Some? && Integrity(DeleteAsset(db, asset).value)
    ensures Reduced(db, DeleteAsset(db, asset).value, {asset}, {OrderAsset}) && asset !in DeleteAsset(db, asset).value
    ensures Removes(db, DeleteAsset(db, asset).value, {asset})
  {
    hide Integrity, Closure, Delete, Removes;
    var cleared := ClearColumn(db, OrderAsset, {asset});
    UnlinkedAssetUnblocked(db, asset);
    hide ClearColumn, Blocks;
    ClearReduces(db, OrderAsset, {asset});
    hide Reduced;
    DeleteUnblocked(cleared, {asset});
    ReducedTwice(db, cleared, DeleteAsset(db, asset).value, {}, {asset}, {OrderAsset}, {});
    assert {} + {asset} == {asset} && {OrderAsset} + {} == {OrderAsset};
    AssetRemoved(db, asset);
  }

  lemma AssetRemoved(db: Db, asset: Ref)
    requires Integrity(db) && asset in db && DeleteAsset(db, asset).Some?
    ensures Removes(db, DeleteAsset(db, asset).value, {asset})
  {
    hide Delete, Removes, Reduced, ClearColumn, WellTyped;
    var cleared := ClearColumn(db, OrderAsset, {asset});
    ClearReduces(db, OrderAsset, {asset});
    assert Integrity(cleared);
    assert WellTyped(cleared);
    hide Integrity;
    ClearRemoves(db, OrderAsset, {asset});
    DeleteRemoves(cleared, {asset});
    RemovesTwice(db, cleared, DeleteAsset(db, asset).value, {}, {asset});
    assert {} + {asset} == {asset};
  }

  lemma UnlinkedAssetUnblocked(db: Db, asset: Ref)
    requires asset.table == AssetPool
    ensures forall r :: r in ClearColumn(db, OrderAsset, {asset}) ==>
              !Blocks(ClearColumn(db, OrderAsset, {asset}), r, {asset})
  {
    var cleared := ClearColumn(db, OrderAsset, {asset});
    ClearReduces(db, OrderAsset, {asset});
    forall r, c | r in cleared && c in cleared[r].refs && Rule(c) == NoAction ensures Target(cleared[r], c) != asset {
      assert c in db[r].refs;
      assert Parent(c) == AssetPool ==> c == OrderAsset;
    }
  }

  /** `revoke_asset`: unlink the orders, free the asset. */
  function ReleaseAsset(db: Db, asset: Ref): Db
    requires asset in db
  {
    var cleared := ClearColumn(db, OrderAsset, {asset});
    cleared[asset := cleared[asset].(refs := cleared[asset].refs - {PoolCurrentOrder}, status := "Free")]
  }

  lemma AssetRelease(db: Db, asset: Ref)
    requires Integrity(db) && asset in db && asset.table == AssetPool
    ensures Integrity(ReleaseAsset(db, asset))
    ensures ReleaseAsset(db, asset).Keys == db.Keys
    ensures forall o :: o in db && OrderAsset in ReleaseAsset(db, asset)[o].refs ==>
              Target(ReleaseAsset(db, asset)[o], OrderAsset) != asset
  {
    ClearReduces(db, OrderAsset, {asset});
  }

  /** The orders that hold an asset are cancelled, unless they are already over. */
  function CancelHolders(db: Db, asset: Ref): Db {
    map r | r in db ::
      if r.table == Orders && OrderAsset in db[r].refs && Target(db[r], OrderAsset) == asset
         && db[r].status !in {"revoked", "failed", "expired", "cancelled"}
      then db[r].(status := "cancelled") else db[r]
  }

  lemma CancelKeepsRows(db: Db, asset: Ref)
    ensures CancelHolders(db, asset).Keys == db.Keys
  {
  }

  lemma CancellingKeepsIntegrity(db: Db, asset: Ref)
    requires Integrity(db)
    ensures Integrity(CancelHolders(db, asset))
  {
    var after := CancelHolders(db, asset);
    forall r | r in after
      ensures forall c :: c in after[r].refs ==> Child(c) == r.table && Target(after[r], c) in after
    {
      assert after[r].refs == db[r].refs;
    }
  }

  predicate Holds(row: Row, r: Ref, asset: int) {
    r.table == Orders && OrderAsset in row.refs && row.refs[OrderAsset] == asset
  }

  /** What a row is after its order held the asset that is revoked, or after it is that asset. */
  ghost function RowAfterRevocation(row: Row, r: Ref, asset: Ref): Row {
    if r == asset then Row(row.refs - {PoolCurrentOrder}, "Free", row.createdAt)
    else if Holds(row, r, asset.id) then
      Row(row.refs - {OrderAsset},
          if row.status in {"revoked", "failed", "expired", "cancelled"} then row.status else "cancelled",
          row.createdAt)
    else row
  }

  /**
    What revoking an asset leaves: an order that held it keeps everything but that link, and is cancelled
    unless it was over before; the asset is free and names no order; every other row is as it was.
   */
  lemma AssetRevocation(db: Db, asset: Ref)
    requires Integrity(db) && asset in db && asset.table == AssetPool
    ensures CancelHolders(db, asset).Keys == db.Keys
    ensures var after := ReleaseAsset(CancelHolders(db, asset), asset);
            && Integrity(after) && after.Keys == db.Keys
            && forall r :: r in db ==> after[r] == RowAfterRevocation(db[r], r, asset)
  {
    CancelKeepsRows(db, asset);
    CancellingKeepsIntegrity(db, asset);
    hide Integrity, RowAfterRevocation, ReleaseAsset, CancelHolders;
    AssetRelease(CancelHolders(db, asset), asset);
    var after := ReleaseAsset(CancelHolders(db, asset), asset);
    forall r | r in db ensures after[r] == RowAfterRevocation(db[r], r, asset) {
      RevokedRow(db, asset, r);
    }
  }

  lemma RevokedRow(db: Db, asset: Ref, r: Ref)
    requires Integrity(db) && asset in db && asset.table == AssetPool && r in db
    requires asset in CancelHolders(db, asset) && r in ReleaseAsset(CancelHolders(db, asset), asset)
    ensures ReleaseAsset(CancelHolders(db, asset), asset)[r] == RowAfterRevocation(db[r], r, asset)
  {
    if OrderAsset in db[r].refs {
      KeyIsTyped(db, r, OrderAsset);
    }
    hide Integrity;
  }

  /** `update_asset` may give a free asset another type. */
  function RetypeAsset(db: Db, asset: Ref, t: int): Db
    requires asset in db
  {
    if db[asset].status == "Free" && Ref(AssetTypes, t) in db
    then db[asset := db[asset].(refs := db[asset].refs[PoolType := t])] else db
  }

  /**
    That edit is how the condition of `AssetTypeDeletion` gets broken: a free asset that a past order still
    names is given a new type, and from then on the new type cannot be deleted.
   */
  lemma RetypingBlocksDeletion(db: Db, asset: Ref, order: Ref, t: int)
    requires Integrity(db) && asset in db && asset.table == AssetPool && db[asset].status == "Free"
    requires order in db && order.table == Orders && OrderAsset in db[order].refs
            && Target(db[order], OrderAsset) == asset
    requires Ref(AssetTypes, t) in db && OrderType in db[order].refs && db[order].refs[OrderType] != t
    ensures var after := RetypeAsset(db, asset, t);
            Integrity(after) && Ref(AssetTypes, t) in after && DeleteAssetType(after, Ref(AssetTypes, t)).None?
  {
    var after := RetypeAsset(db, asset, t);
    var tt := Ref(AssetTypes, t);
    assert after[order] == db[order];
    assert asset in Pointing(after, PoolType, {tt});
    assert order !in Pointing(after, OrderType, {tt});
    assert Blocks(after, order, Pointing(after, PoolType, {tt}));
    assert HeldByOtherType(after, tt);
    hide Delete, DeleteAssetType;
    AssetTypeDeletion(after, tt);
  }

  // ----- retention cleanup -----

  /** The managed tables, in the order `run_cleanup` visits them. */
  const RETENTION := [Orders, AuditLog, StandaloneRuns]

  /** Timestamps are in microseconds. */
  function CutoffFor(now: int, days: int): int {
    now - days * 86_400_000_000
  }

  function Expired(db: Db, table: Table, cutoff: int): set<Ref> {
    set r | r in db && r.table == table && db[r].createdAt < cutoff
  }

  /** One table's statements. */
  function CleanTable(db: Db, table: Table, cutoff: int): Option<Db> {
    var expired := Expired(db, table, cutoff);
    if table == Orders then PurgeOrders(db, expired) else Delete(db, expired)
  }

  /** The cleanup deletes the steps before it unlinks the pool. */
  function PurgeOrders(db: Db, orders: set<Ref>): Option<Db>
    requires orders <= db.Keys
  {
    var stepless := Delete(db, Pointing(db, StepOrder, orders));
    if stepless.None? || !(orders <= stepless.value.Keys) then None
    else Delete(ClearColumn(stepless.value, PoolCurrentOrder, orders), orders)
  }

  lemma CleanOrders(db: Db, orders: set<Ref>)
    requires Integrity(db) && orders <= db.Keys && forall o :: o in orders ==> o.table == Orders
    ensures PurgeOrders(db, orders).Some? && Integrity(PurgeOrders(db, orders).value)
    ensures Reduced(db, PurgeOrders(db, orders).value, orders, {PoolCurrentOrder})
    ensures forall o :: o in orders ==> o !in PurgeOrders(db, orders).value
  {
    var steps := Pointing(db, StepOrder, orders);
    PointingTable(db, StepOrder, orders);
    hide Delete, ClearColumn, Integrity, Closure;
    StepsAreDeletable(db, steps);
    var stepless := Delete(db, steps).value;
    assert orders <= stepless.Keys;
    var cleared := ClearColumn(stepless, PoolCurrentOrder, orders);
    ClearReduces(stepless, PoolCurrentOrder, orders);
    SelfReduced(cleared);
    UnlinkedOrdersUnblocked(stepless, cleared, cleared, orders);
    DeleteUnblocked(cleared, orders);
    hide Reduced;
    ReducedTwice(db, stepless, cleared, {}, {}, {}, {PoolCurrentOrder});
    ReducedTwice(db, cleared, PurgeOrders(db, orders).value, {} + {}, orders, {} + {PoolCurrentOrder}, {});
    assert {} + {} + orders == orders && {} + {PoolCurrentOrder} + {} == {PoolCurrentOrder};
  }

  lemma PurgedRemoved(db: Db, orders: set<Ref>)
    requires Integrity(db) && orders <= db.Keys && forall o :: o in orders ==> o.table == Orders
    ensures PurgeOrders(db, orders).Some? && Removes(db, PurgeOrders(db, orders).value, orders)
  {
    var steps := Pointing(db, StepOrder, orders);
    assert forall r :: r in steps ==> StepOrder in db[r].refs && Target(db[r], StepOrder) in orders;
    CleanOrders(db, orders);
    assert WellTyped(db);
    hide Delete, Integrity, Removes, Reduced, CascadesInto, Pointing;
    DeleteRemoves(db, steps);
    StillWellTyped(db, steps);
    var stepless := Delete(db, steps).value;
    var cleared := ClearColumn(stepless, PoolCurrentOrder, orders);
    ClearRemoves(stepless, PoolCurrentOrder, orders);
    assert WellTyped(cleared);
    hide ClearColumn, WellTyped;
    DeleteRemoves(cleared, orders);
    RemovesTwice(db, stepless, cleared, steps, {});
    RemovesTwice(db, cleared, PurgeOrders(db, orders).value, steps + {}, orders);
    assert steps + {} + orders == steps + orders;
    StepsGoAnyway(db, PurgeOrders(db, orders).value, orders, steps);
  }

  lemma SelfReduced(db: Db)
    ensures Reduced(db, db, {}, {})
  {
  }

  /** Each table's cleanup goes through, keeps integrity, and removes exactly its expired rows of that table. */
  lemma CleanTableFacts(db: Db, table: Table, cutoff: int)
    requires Integrity(db) && table in RETENTION
    ensures CleanTable(db, table, cutoff).Some?
    ensures var after := CleanTable(db, table, cutoff).value;
            && Integrity(after)
            && Reduced(db, after, Expired(db, table, cutoff), {PoolCurrentOrder})
            && (forall r :: r in Expired(db, table, cutoff) ==> r !in after)
            && Removes(db, after, Expired(db, table, cutoff))
  {
    var expired := Expired(db, table, cutoff);
    hide Removes;
    if table == Orders {
      CleanOrders(db, expired);
      PurgedRemoved(db, expired);
    } else {
      forall r, c | r in db && c in db[r].refs && Rule(c) == NoAction ensures Target(db[r], c) !in expired {
      }
      assert WellTyped(db);
      hide Delete, Closure, Integrity;
      DeleteUnblocked(db, expired);
      DeleteRemoves(db, expired);
    }
  }

  /** The whole cleanup: `days[k]` is the retention of the k-th table, non-positive meaning keep. */
  function Cleaned(db: Db, days: seq<int>, now: int, k: nat): Option<Db>
    requires |days| == |RETENTION|
    decreases |RETENTION| - k
  {
    if k >= |RETENTION| then Some(db)
    else if days[k] <= 0 then Cleaned(db, days, now, k + 1)
    else
      match CleanTable(db, RETENTION[k], CutoffFor(now, days[k]))
      case None => None
      case Some(next) => Cleaned(next, days, now, k + 1)
  }

  /** A row that the tables from the k-th on do not let go. */
  predicate KeptFrom(db: Db, days: seq<int>, now: int, k: nat, r: Ref)
    requires |days| == |RETENTION| && r in db
  {
    forall j :: k <= j < |RETENTION| && RETENTION[j] == r.table && days[j] > 0 ==>
          db[r].createdAt >= CutoffFor(now, days[j])
  }

  /** `after` is `db` without the rows the tables from the k-th on let go. */
  ghost predicate CleanedRows(db: Db, after: Db, days: seq<int>, now: int, k: nat)
    requires |days| == |RETENTION|
  {
    && (forall r :: r in after ==> r in db && after[r].createdAt == db[r].createdAt && KeptFrom(db, days, now, k, r))
    && (forall r :: r in db && !CascadeChild(r.table) && KeptFrom(db, days, now, k, r) ==> r in after)
  }

  lemma CleanedStep(db: Db, next: Db, after: Db, days: seq<int>, now: int, k: nat)
    requires |days| == |RETENTION| && k < |RETENTION|
    requires CleanedRows(next, after, days, now, k + 1)
    requires if days[k] <= 0 then next == db
             else Reduced(db, next, Expired(db, RETENTION[k], CutoffFor(now, days[k])), {PoolCurrentOrder})
                  && forall r :: r in Expired(db, RETENTION[k], CutoffFor(now, days[k])) ==> r !in next
    ensures CleanedRows(db, after, days, now, k)
  {
    forall r | r in after ensures r in db && after[r].createdAt == db[r].createdAt && KeptFrom(db, days, now, k, r) {
      assert r in next && KeptFrom(next, days, now, k + 1, r);
    }
    forall r | r in db && !CascadeChild(r.table) && KeptFrom(db, days, now, k, r) ensures r in after {
      assert r in next;
      assert KeptFrom(next, days, now, k + 1, r);
    }
  }

  lemma {:induction false} CleanupFrom(db: Db, days: seq<int>, now: int, k: nat)
    requires Integrity(db) && |days| == |RETENTION| && k <= |RETENTION|
    ensures Cleaned(db, days, now, k).Some?
    ensures Integrity(Cleaned(db, days, now, k).value)
    ensures CleanedRows(db, Cleaned(db, days, now, k).value, days, now, k)
    decreases |RETENTION| - k
  {
    if k < |RETENTION| {
      hide CleanTable, Integrity, CleanedRows, Expired, Reduced, CutoffFor, KeptFrom, WellTyped, CascadeChild, Removes;
      if days[k] <= 0 {
        CleanupFrom(db, days, now, k + 1);
        CleanedStep(db, db, Cleaned(db, days, now, k + 1).value, days, now, k);
      } else {
        var cutoff := CutoffFor(now, days[k]);
        CleanTableFacts(db, RETENTION[k], cutoff);
        var next := CleanTable(db, RETENTION[k], cutoff).value;
        assert Cleaned(db, days, now, k) == Cleaned(next, days, now, k + 1);
        hide Cleaned;
        CleanupFrom(next, days, now, k + 1);
        CleanedStep(db, next, Cleaned(next, days, now, k + 1).value, days, now, k);
      }
    }
  }

  /** The rows that the tables from the k-th on let go. */
  function LetGo(db: Db, days: seq<int>, now: int, k: nat): set<Ref>
    requires |days| == |RETENTION|
  {
    set r | r in db && !KeptFrom(db, days, now, k, r)
  }

  lemma {:induction false} CleanupRemoves(db: Db, days: seq<int>, now: int, k: nat)
    requires Integrity(db) && |days| == |RETENTION| && k <= |RETENTION|
    ensures Cleaned(db, days, now, k).Some? && Removes(db, Cleaned(db, days, now, k).value, LetGo(db, days, now, k))
    decreases |RETENTION| - k
  {
    hide CleanTable, Integrity, CleanedRows, Reduced, CutoffFor, WellTyped, CascadeChild, Removes, Expired, KeptFrom;
    hide LetGo;
    CleanupFrom(db, days, now, k);
    var after := Cleaned(db, days, now, k).value;
    if k == |RETENTION| {
      NothingRemoved(db);
      RemovedSoFar(db, after, {}, days, now, k);
    } else if days[k] <= 0 {
      CleanupRemoves(db, days, now, k + 1);
      LaterLetGo(db, db, days, now, k);
      RemovedSoFar(db, after, LetGo(db, days, now, k + 1), days, now, k);
    } else {
      var cutoff := CutoffFor(now, days[k]);
      CleanTableFacts(db, RETENTION[k], cutoff);
      var next := CleanTable(db, RETENTION[k], cutoff).value;
      assert Cleaned(db, days, now, k) == Cleaned(next, days, now, k + 1);
      hide Cleaned;
      CleanupRemoves(next, days, now, k + 1);
      LetGoIsThere(next, days, now, k + 1);
      RemovesTwice(db, next, after, Expired(db, RETENTION[k], cutoff), LetGo(next, days, now, k + 1));
      ReducedKeeps(db, next, Expired(db, RETENTION[k], cutoff), {PoolCurrentOrder});
      LaterLetGo(db, next, days, now, k);
      ExpiredLetGo(db, days, now, k);
      RemovedSoFar(db, after, Expired(db, RETENTION[k], cutoff) + LetGo(next, days, now, k + 1), days, now, k);
    }
  }

  lemma ReducedKeeps(db: Db, after: Db, s: set<Ref>, cleared: set<Column>)
    requires Reduced(db, after, s, cleared)
    ensures after.Keys <= db.Keys && forall r :: r in after ==> after[r].createdAt == db[r].createdAt
  {
  }

  lemma LetGoIsThere(db: Db, days: seq<int>, now: int, k: nat)
    requires |days| == |RETENTION|
    ensures LetGo(db, days, now, k) <= db.Keys
  {
  }

  lemma ExpiredLetGo(db: Db, days: seq<int>, now: int, k: nat)
    requires |days| == |RETENTION| && k < |RETENTION| && days[k] > 0
    ensures Expired(db, RETENTION[k], CutoffFor(now, days[k])) <= LetGo(db, days, now, k)
  {
  }

  lemma LaterLetGo(db: Db, next: Db, days: seq<int>, now: int, k: nat)
    requires |days| == |RETENTION| && next.Keys <= db.Keys
    requires forall r :: r in next ==> next[r].createdAt == db[r].createdAt
    ensures LetGo(next, days, now, k + 1) <= LetGo(db, days, now, k)
  {
  }

  /** What has been removed, named as the rows that the tables let go. */
  lemma RemovedSoFar(db: Db, after: Db, s: set<Ref>, days: seq<int>, now: int, k: nat)
    requires |days| == |RETENTION| && Removes(db, after, s) && s <= LetGo(db, days, now, k)
    requires CleanedRows(db, after, days, now, k)
    ensures Removes(db, after, LetGo(db, days, now, k))
  {
    hide CascadesInto, SameCascades;
    RenameRemoved(db, after, s, LetGo(db, days, now, k));
  }

  /** Older than the given number of days, each of 24 * 60 * 60 seconds; no limit when it is not positive. */
  predicate Overdue(createdAt: int, now: int, days: int) {
    days > 0 && createdAt + days * (24 * 60 * 60 * 1_000_000) < now
  }

  /** The rows past the retention of their table. */
  ghost function OverdueRows(db: Db, days: seq<int>, now: int): set<Ref>
    requires |days| == 3
  {
    OverdueIn(db, Orders, now, days[0]) + OverdueIn(db, AuditLog, now, days[1])
    + OverdueIn(db, StandaloneRuns, now, days[2])
  }

  ghost function OverdueIn(db: Db, table: Table, now: int, days: int): set<Ref> {
    set r | r in db && r.table == table && Overdue(db[r].createdAt, now, days)
  }

  lemma ExpiredIsOverdue(db: Db, table: Table, now: int, days: int)
    requires days > 0
    ensures Expired(db, table, CutoffFor(now, days)) == OverdueIn(db, table, now, days)
  {
  }

  lemma LetGoIsOverdue(db: Db, days: seq<int>, now: int)
    requires |days| == |RETENTION|
    ensures LetGo(db, days, now, 0) == OverdueRows(db, days, now)
    ensures forall r :: r in db ==> (KeptFrom(db, days, now, 0, r) <==> r !in OverdueRows(db, days, now))
  {
    assert RETENTION[0] == Orders && RETENTION[1] == AuditLog && RETENTION[2] == StandaloneRuns;
    forall r | r in db ensures KeptFrom(db, days, now, 0, r) <==> r !in OverdueRows(db, days, now) {
    }
  }

  /**
    A full run of the retention cleanup succeeds, keeps integrity, and removes exactly the overdue rows of
    its tables and the rows that cascade from them; outside the cascading tables, exactly the overdue rows.
   */
  lemma RetentionCleanup(db: Db, days: seq<int>, now: int)
    requires Integrity(db) && |days| == |RETENTION|
    ensures Cleaned(db, days, now, 0).Some? && Integrity(Cleaned(db, days, now, 0).value)
    ensures forall r :: r in db && !CascadeChild(r.table) ==>
              (r in Cleaned(db, days, now, 0).value <==> r !in OverdueRows(db, days, now))
    ensures Removes(db, Cleaned(db, days, now, 0).value, OverdueRows(db, days, now))
  {
    hide Integrity, Cleaned, Removes;
    CleanupFrom(db, days, now, 0);
    CleanupRemoves(db, days, now, 0);
    LetGoIsOverdue(db, days, now);
    hide KeptFrom, LetGo, OverdueRows;
  }

  /** With an overdue order go its steps, approvals, change log and reviews, with an overdue run its steps. */
  lemma CleanupSweeps(db: Db, days: seq<int>, now: int, r: Ref, via: int)
    requires Integrity(db) && |days| == |RETENTION|
    requires || (OfOrder(db, r, via) && Ref(Orders, via) in OverdueRows(db, days, now))
             || (PointsTo(db, r, RunStepRun, via) && Ref(StandaloneRuns, via) in OverdueRows(db, days, now))
    ensures Cleaned(db, days, now, 0).Some? && r in db && r !in Cleaned(db, days, now, 0).value
  {
    hide Integrity, Cleaned, Removes, KeptFrom;
    RetentionCleanup(db, days, now);
    var after := Cleaned(db, days, now, 0).value;
    if Ref(Orders, via) in OverdueRows(db, days, now) && OfOrder(db, r, via) {
      OfOrderGoesAlong(db, after, OverdueRows(db, days, now), r, via);
    } else {
      GoesAlong(db, after, OverdueRows(db, days, now), r, RunStepRun);
    }
  }

  /** The rows of the tables from the k-th on are the same in both. */
  ghost predicate SameTables(a: Db, b: Db, k: nat) {
    forall r: Ref, j :: k <= j < |RETENTION| && r.table == RETENTION[j] ==> (r in a <==> r in b) && (r in a ==>
          a[r].createdAt == b[r].createdAt)
  }

  lemma SameExpired(a: Db, b: Db, k: nat, cutoff: int)
    requires SameTables(a, b, k) && k < |RETENTION|
    ensures Expired(a, RETENTION[k], cutoff) == Expired(b, RETENTION[k], cutoff)
  {
    assert forall r: Ref :: r.table == RETENTION[k] ==> (r in a <==> r in b);
  }

  lemma CleaningLeavesLaterTables(a: Db, b: Db, next: Db, k: nat, cutoff: int)
    requires SameTables(a, b, k) && k < |RETENTION|
    requires Reduced(a, next, Expired(a, RETENTION[k], cutoff), {PoolCurrentOrder})
    ensures SameTables(next, b, k + 1)
  {
    forall r: Ref, j | k + 1 <= j < |RETENTION| && r.table == RETENTION[j]
      ensures (r in next <==> r in b) && (r in next ==> next[r].createdAt == b[r].createdAt)
    {
      assert r in a <==> r in b;
      assert !CascadeChild(r.table) && r !in Expired(a, RETENTION[k], cutoff);
    }
  }

  // ----- the routes as they run -----

  class Database {
    var rows: Db

    constructor (db: Db)
      ensures rows == db
    {
      rows := db;
    }

    /** The bulk statements of `delete_asset_type`, rolled back together when one fails. */
    method DeleteType(t: Ref) returns (ok: bool)
      requires t in rows && t.table == AssetTypes && Integrity(rows)
      modifies this
      ensures ok <==> DeleteAssetType(old(rows), t).Some?
      ensures rows == if ok then DeleteAssetType(old(rows), t).value else old(rows)
      ensures Integrity(rows)
    {
      hide Delete, ClearColumn, Integrity, Closure;
      AssetTypeDeletion(rows, t);
      var committed := rows;
      var orders := Pointing(rows, OrderType, {t});
      if orders != {} {
        rows := ClearColumn(rows, PoolCurrentOrder, orders);
        var stepless := Delete(rows, Pointing(rows, StepOrder, orders));
        if stepless.None? || !(orders <= stepless.value.Keys) {
          rows := committed;
          return false;
        }
        rows := stepless.value;
        var orderless := Delete(rows, orders);
        if orderless.None? {
          rows := committed;
          return false;
        }
        rows := orderless.value;
      }
      var emptied := Delete(rows, Pointing(rows, PoolType, {t}));
      if emptied.None? || t !in emptied.value {
        rows := committed;
        return false;
      }
      var after := Delete(emptied.value, {t});
      if after.None? {
        rows := committed;
        return false;
      }
      rows := after.value;
      ok := true;
    }

    /** `delete_asset`: only a free asset or one under maintenance may go. */
    method RemoveAsset(asset: Ref) returns (ok: bool)
      requires asset in rows && asset.table == AssetPool && Integrity(rows)
      modifies this
      ensures ok <==> old(rows)[asset].status == "Free" || old(rows)[asset].status == "maintenance"
      ensures ok ==> DeleteAsset(old(rows), asset) == Some(rows)
      ensures !ok ==> rows == old(rows)
      ensures Integrity(rows)
    {
      if rows[asset].status != "Free" && rows[asset].status != "maintenance" {
        return false;
      }
      hide Delete, ClearColumn, Integrity, Closure;
      AssetDeletion(rows, asset);
      ClearReduces(rows, OrderAsset, {asset});
      rows := ClearColumn(rows, OrderAsset, {asset});
      rows := Delete(rows, {asset}).value;
      ok := true;
    }

    /** `force_delete_asset`: whatever its status, after cancelling and unlinking the orders that hold it. */
    method ForceDeleteAsset(asset: Ref)
      requires asset in rows && asset.table == AssetPool && Integrity(rows)
      modifies this
      ensures DeleteAsset(CancelHolders(old(rows), asset), asset) == Some(rows)
      ensures Integrity(rows) && asset !in rows
    {
      hide Delete, ClearColumn, Integrity, Closure;
      CancellingKeepsIntegrity(rows, asset);
      rows := CancelHolders(rows, asset);
      AssetDeletion(rows, asset);
      ClearReduces(rows, OrderAsset, {asset});
      rows := ClearColumn(rows, OrderAsset, {asset});
      rows := Delete(rows, {asset}).value;
    }

    /** `revoke_asset`: the orders are cancelled and unlinked, the asset returns to the free pool. */
    method RevokeAsset(asset: Ref)
      requires asset in rows && asset.table == AssetPool && Integrity(rows)
      modifies this
      ensures asset in CancelHolders(old(rows), asset) && rows == ReleaseAsset(CancelHolders(old(rows), asset), asset)
      ensures Integrity(rows)
    {
      hide Integrity, ClearColumn, CancelHolders, Target;
      CancellingKeepsIntegrity(rows, asset);
      CancelKeepsRows(rows, asset);
      AssetRelease(CancelHolders(rows, asset), asset);
      rows := CancelHolders(rows, asset);
      ClearReduces(rows, OrderAsset, {asset});
      rows := ClearColumn(rows, OrderAsset, {asset});
      rows := rows[asset := rows[asset].(refs := rows[asset].refs - {PoolCurrentOrder}, status := "Free")];
    }

    /**
      `run_cleanup`.  The summary holds the row count of each table, or nothing when it is skipped; a dry
      run counts exactly what the real run deletes.
     */
    method RunCleanup(days: seq<int>, now: int, dryRun: bool) returns (summary: seq<Option<nat>>)
      requires Integrity(rows) && |days| == |RETENTION|
      modifies this
      ensures Integrity(rows) && |summary| == |RETENTION|
      ensures dryRun ==> rows == old(rows)
      ensures !dryRun ==> Cleaned(old(rows), days, now, 0) == Some(rows)
      ensures forall k :: 0 <= k < |RETENTION| ==>
                summary[k] == if days[k] <= 0 then None else
                  Some(|OverdueIn(old(rows), RETENTION[k], now, days[k])|)
    {
      summary := [];
      ghost var before := rows;
      CleanupFrom(rows, days, now, 0);
      hide Integrity, CleanTable, Expired, SameTables, Reduced, CleanedRows, CutoffFor, OverdueIn;
      SameAsSelf(rows);
      for k := 0 to |RETENTION|
        invariant |summary| == k
        invariant Integrity(rows) && SameTables(rows, before, k)
        invariant dryRun ==> rows == before
        invariant !dryRun ==> Cleaned(rows, days, now, k) == Cleaned(before, days, now, 0)
        invariant forall j :: 0 <= j < k ==>
                    summary[j] == if days[j] <= 0 then None else
                      Some(|OverdueIn(before, RETENTION[j], now, days[j])|)
      {
        FewerTables(rows, before, k);
        if days[k] <= 0 {
          summary := summary + [None];
          continue;
        }
        var cutoff := CutoffFor(now, days[k]);
        SameExpired(rows, before, k, cutoff);
        ExpiredIsOverdue(before, RETENTION[k], now, days[k]);
        summary := summary + [Some(|Expired(rows, RETENTION[k], cutoff)|)];
        if !dryRun {
          CleanTableFacts(rows, RETENTION[k], cutoff);
          CleaningLeavesLaterTables(rows, before, CleanTable(rows, RETENTION[k], cutoff).value, k, cutoff);
          rows := CleanTable(rows, RETENTION[k], cutoff).value;
        }
      }
    }
  }

  lemma SameAsSelf(db: Db)
    ensures SameTables(db, db, 0)
  {
  }

  lemma FewerTables(a: Db, b: Db, k: nat)
    requires SameTables(a, b, k)
    ensures SameTables(a, b, k + 1)
  {
  }
}
