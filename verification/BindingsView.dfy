/**
 The access view of a table: its bindings joined with the permissions of their roles. It ties the
 query rewrite, which asks for a row of the view, to the BIND that granted it.
 */
module BindingsView {
  import opened Results
  import Sql
  import SqlAcl
  import opened RoleBindings
  import opened BindingRuns

  datatype Permission = Permission(name: string, relation: Table, operation: string)

  /** The permissions, and which role has which. */
  datatype Catalog = Catalog(permissions: set<Permission>, rolePermissions: set<(string, string)>)

  /** One row of the join behind the view. */
  datatype ViewRow = ViewRow(id: Id, role: string, principal: string, operation: string)

  ghost predicate InView(v: ViewRow, db: Db, cat: Catalog, table: Table) {
    exists k, p :: Joined(v, k, p, db, cat, table)
  }

  ghost predicate Joined(v: ViewRow, k: Key, p: Permission, db: Db, cat: Catalog, table: Table) {
    && k in db.bindings && k.table == table && p in cat.permissions && p.relation == table
    && (db.bindings[k].role, p.name) in cat.rolePermissions
    && v == ViewRow(k.id, db.bindings[k].role, db.bindings[k].principal, p.operation)
  }

  function Stored(v: ViewRow): Sql.Row {
    map["_id" := Sql.Int(v.id), "_role" := Sql.Text(v.role), "_principal" := Sql.Text(v.principal),
        "_operation" := Sql.Text(v.operation), "_columns" := Sql.Null]
  }

  /** The rows of a table's access view, in any order and number. */
  ghost predicate IsView(acls: seq<Sql.Row>, db: Db, cat: Catalog, table: Table) {
    && (forall a | a in acls :: exists v :: InView(v, db, cat, table) && a == Stored(v))
    && (forall v | InView(v, db, cat, table) :: Stored(v) in acls)
  }

  predicate SelectsBy(cat: Catalog, role: string, table: Table, p: Permission) {
    && p in cat.permissions && p.relation == table && p.operation == "SELECT"
    && (role, p.name) in cat.rolePermissions
  }

  /** The role has a permission for SELECT on the table. */
  ghost predicate Selects(cat: Catalog, role: string, table: Table) {
    exists p :: SelectsBy(cat, role, table, p)
  }

  ghost predicate BoundFor(k: Key, db: Db, cat: Catalog, row: RowId, user: string) {
    && k in db.bindings && k.table == row.table && k.id == row.id
    && db.bindings[k].principal == user && Selects(cat, db.bindings[k].role, row.table)
  }

  /** A row is permitted exactly when it has a binding, its own or inherited, of the current user to
      a role with a permission for SELECT on the table. */
  lemma PermittedIffBound(row: Sql.Row, acls: seq<Sql.Row>, ctx: Sql.Context, db: Db, cat: Catalog, id: RowId)
    requires IsView(acls, db, cat, id.table) && Sql.Field(row, "id") == Sql.Int(id.id)
    ensures SqlAcl.Permitted(row, acls, ctx) <==> exists k :: BoundFor(k, db, cat, id, ctx.user)
  {
    if SqlAcl.Permitted(row, acls, ctx) {
      var a :| a in acls && SqlAcl.Grants(row, a, ctx);
      var v :| InView(v, db, cat, id.table) && a == Stored(v);
      StoredFields(v);
      var k, p :| Joined(v, k, p, db, cat, id.table);
      assert SelectsBy(cat, db.bindings[k].role, id.table, p);
      assert BoundFor(k, db, cat, id, ctx.user);
    }
    if k :| BoundFor(k, db, cat, id, ctx.user) {
      var p :| SelectsBy(cat, db.bindings[k].role, id.table, p);
      var v := ViewRow(k.id, db.bindings[k].role, db.bindings[k].principal, p.operation);
      assert Joined(v, k, p, db, cat, id.table);
      StoredFields(v);
      assert SqlAcl.Grants(row, Stored(v), ctx);
    }
  }

  lemma StoredFields(v: ViewRow)
    ensures Sql.Field(Stored(v), "_id") == Sql.Int(v.id)
    ensures Sql.Field(Stored(v), "_principal") == Sql.Text(v.principal)
    ensures Sql.Field(Stored(v), "_operation") == Sql.Text(v.operation)
  {
  }

  /** Step i of the run is a successful BIND of a role with SELECT on the table to the user. */
  ghost predicate GrantedBy(steps: seq<Step>, i: nat, r: Ref, cat: Catalog, table: Table, user: string)
    requires Run(steps)
  {
    Draws(steps, i, r) && steps[i].principal == user && Selects(cat, steps[i].role, table)
  }

  /** The row has a binding, and the path leads to it from a BIND that granted this. */
  ghost predicate ShownBy(steps: seq<Step>, k: Key, p: Path, cat: Catalog, id: RowId, user: string)
    requires Run(steps)
  {
    && k in Final(steps).bindings && k.table == id.table && k.id == id.id
    && Leads(steps, p, k, |steps|) && GrantedBy(steps, BindStep(p), k.ref, cat, id.table, user)
  }

  /** On every run, a row that the rewritten query shows to a user is there by one successful BIND,
      to that user and of a role with SELECT on the table: it was made on that row, or upserts of
      the run, each with the previous row as its parent, lead from the bound row to the shown one. */
  lemma ShownWasBound(steps: seq<Step>, row: Sql.Row, acls: seq<Sql.Row>, ctx: Sql.Context, cat: Catalog, id: RowId)
    returns (k: Key, p: Path)
    requires Run(steps) && IsView(acls, Final(steps), cat, id.table)
    requires Sql.Field(row, "id") == Sql.Int(id.id) && SqlAcl.Permitted(row, acls, ctx)
    ensures ShownBy(steps, k, p, cat, id, ctx.user)
  {
    var db := Final(steps);
    PermittedIffBound(row, acls, ctx, db, cat, id);
    k :| BoundFor(k, db, cat, id, ctx.user);
    var bound;
    p, bound := EveryBindingWasBound(steps, k);
    assert db.bindings[k].role == bound.role;
  }

  lemma PermittedHasId(row: Sql.Row, acls: seq<Sql.Row>, ctx: Sql.Context, db: Db, cat: Catalog, table: Table)
    requires IsView(acls, db, cat, table) && SqlAcl.Permitted(row, acls, ctx)
    ensures Sql.Field(row, "id").Int?
  {
    var a :| a in acls && SqlAcl.Grants(row, a, ctx);
    var v :| InView(v, db, cat, table) && a == Stored(v);
    StoredFields(v);
  }

  /** End to end for one table: whatever row the rewritten FROM item shows is a row of the table
      that some BIND of the run granted to the current user, there or along upserts. */
  lemma RewrittenShowsBound(steps: seq<Step>, name: string, alias: Option<string>, tracked: set<string>,
                            db: Sql.Database, ctx: Sql.Context, cat: Catalog, e: Sql.Env) returns (k: Key, p: Path)
    requires Run(steps) && name in tracked && name in db
    requires IsView(SqlAcl.Rows(db, SqlAcl.AclName(name)), Final(steps), cat, name)
    requires e in Sql.EvalFrom(SqlAcl.AclFrom(Sql.Table(name, alias), tracked), db, ctx)
    ensures var ref := Sql.RefName(name, alias);
            ref in e && e[ref] in db[name] && Sql.Field(e[ref], "id").Int?
    ensures ShownBy(steps, k, p, cat, RowId(name, Sql.Field(e[Sql.RefName(name, alias)], "id").i), ctx.user)
  {
    var ref, acls := Sql.RefName(name, alias), SqlAcl.Rows(db, SqlAcl.AclName(name));
    var kept := SqlAcl.PermittedRows(db[name], acls, ctx);
    SqlAcl.TableSame(name, alias, tracked, db, ctx);
    assert SqlAcl.Only(e, [ref]) in Sql.Bind(ref, kept);
    var i :| 0 <= i < |kept| && SqlAcl.Only(e, [ref]) == map[ref := kept[i]];
    assert ref in SqlAcl.Only(e, [ref]);
    var row := e[ref];
    assert row == kept[i];
    SqlAcl.InPermitted(row, db[name], acls, ctx);
    PermittedHasId(row, acls, ctx, Final(steps), cat, name);
    k, p := ShownWasBound(steps, row, acls, ctx, cat, RowId(name, Sql.Field(row, "id").i));
  }

  /** After UNBIND the row is hidden from the principal, unless another role bound to the principal
      shows it, or an inherited binding whose ref the row's own bindings for that role do not have. */
  lemma UnbindHides(db: Db, log: Log, step: Step, row: Sql.Row, acls: seq<Sql.Row>, ctx: Sql.Context, cat: Catalog)
    requires Good(db, log) && step.UnbindRole? && step.table in db.enabled && step.target.One?
    requires IsView(acls, Do(db, step).db, cat, step.table) && Sql.Field(row, "id") == Sql.Int(step.target.id)
    requires ctx.user == step.principal
    ensures SqlAcl.Permitted(row, acls, ctx) <==>
            exists k :: BoundFor(k, db, cat, RowId(step.table, step.target.id), step.principal)
                        && !Chosen(db.bindings, RowId(step.table, step.target.id), step.role, step.principal, k.ref)
  {
    var id, db' := RowId(step.table, step.target.id), Do(db, step).db;
    PermittedIffBound(row, acls, ctx, db', cat, id);
    forall k
      ensures BoundFor(k, db', cat, id, step.principal) <==>
              BoundFor(k, db, cat, id, step.principal) && !Chosen(db.bindings, id, step.role, step.principal, k.ref)
    {
      UnbindExact(db, log, step, k);
    }
    if k :| BoundFor(k, db', cat, id, step.principal) {
      assert BoundFor(k, db, cat, id, step.principal) && !Chosen(db.bindings, id, step.role, step.principal, k.ref);
    }
    if k :| BoundFor(k, db, cat, id, step.principal) && !Chosen(db.bindings, id, step.role, step.principal, k.ref) {
      assert BoundFor(k, db', cat, id, step.principal);
    }
  }
}
