/** `SQLiteTable`: how one composite description becomes a base table plus one
    join table per multi-value field, and the insert statement each table keeps.
    The SQLiteSyntax records are plain datatypes; `sqliteTypeName`, `idField`,
    `addColumn` and `addForeignKey` are modelled as the simplest functions that
    fit their uses (a name determined by the primitive type, the first field
    named `id`, and record appends). */
module SQLiteTables {
  import opened Wrappers
  import opened TypeTerms
  import opened TypeDescriptions
  import opened Validation

  /** A column type: `.integer`, or the `sqliteTypeName` of a primitive, which
      depends on the primitive's type alone. */
  datatype TypeName = Integer | TypeNameOf(primitive: TypeTerm)

  datatype ColumnConstraint = NotNull | PrimaryKey

  datatype ColumnDefinition = ColumnDefinition(name: string, typeName: TypeName, constraints: seq<ColumnConstraint>)

  datatype DeleteAction = Cascade

  /** One `addForeignKey` call: the referencing column, the referenced table and
      column, the column's type, its nullability and its delete action. */
  datatype ForeignKey = ForeignKey(column: string, references: string, refColumn: string,
                                   typeName: Option<TypeName>, canBeNull: bool,
                                   onDelete: Option<DeleteAction>)

  /** `UNIQUE (columns…) ON CONFLICT ABORT` */
  datatype TableConstraint = Unique(columns: seq<string>)

  /** `Table.Create` */
  datatype TableCreate = TableCreate(name: string, columns: seq<ColumnDefinition>,
                                     foreignKeys: seq<ForeignKey>, constraints: seq<TableConstraint>)

  /** The only expression the insert template uses: `.bindParameter(.next)`. */
  datatype Expression = BindNext

  datatype InsertAction = InsertOrReplace

  /** `RETURNING <column> AS <alias>` */
  datatype Returning = Returning(column: string, alias: string)

  datatype InsertStatement = InsertStatement(action: InsertAction, tableName: string, columns: seq<string>,
                                             values: seq<seq<Expression>>, returning: Option<Returning>)

  datatype SQLiteColumn = SQLiteColumn(name: string, keyPath: KeyPath, sqliteName: string)

  datatype SQLiteTable = SQLiteTable(name: string, create: TableCreate, columns: seq<SQLiteColumn>,
                                     insertValuesKeyPaths: seq<KeyPath>, insertStatement: InsertStatement,
                                     insertValuesTemplate: seq<Expression>)

  /** `p.sqliteTypeName` */
  function SqliteTypeName(p: TypeDescription): TypeName {
    TypeNameOf(p.baseType)
  }

  /** `idField`: the first field named `id`. */
  function IdField(c: TypeDescription): (r: Option<StoredField>)
    requires c.Composite?
    ensures r.Some? <==> exists j :: 0 <= j < |c.fields| && c.fields[j].name == "id"
    ensures r.Some? ==> r.value.name == "id" && r.value in c.fields
  {
    match FirstFieldNamed(c.fields, "id")
    case Some(i) => Some(c.fields[i])
    case None => None
  }

  /** `c.idField?.sqliteTypeName` */
  function IdTypeName(c: TypeDescription): Option<TypeName>
    requires c.Composite?
  {
    match IdField(c)
    case Some(f) => Some(SqliteTypeName(f.description))
    case None => None
  }

  /** The column a reference to `c` points at: `id`, or SQLite's `ROWID` for a
      type that is not identifiable. */
  function RowKey(c: TypeDescription): string {
    if IsIdentifiable(c) then "id" else "ROWID"
  }

  /** `SQLiteTable(name:)` */
  function NewTable(name: string): SQLiteTable {
    SQLiteTable(name, TableCreate(name, [], [], []), [], [],
                InsertStatement(InsertOrReplace, name, [], [], None), [])
  }

  /** `create.addColumn(name, type:, canBeNull:)`, absent `canBeNull` meaning nullable. */
  function AddColumn(create: TableCreate, name: string, typeName: TypeName, canBeNull: bool): TableCreate {
    create.(columns := create.columns + [ColumnDefinition(name, typeName, if canBeNull then [] else [NotNull])])
  }

  /** `create.addForeignKey(…)` */
  function AddForeignKey(create: TableCreate, key: ForeignKey): TableCreate {
    create.(foreignKeys := create.foreignKeys + [key])
  }

  function KeyPathsOf(columns: seq<SQLiteColumn>): (r: seq<KeyPath>)
    ensures |r| == |columns|
    ensures forall i :: 0 <= i < |columns| ==> r[i] == columns[i].keyPath
  {
    seq(|columns|, i requires 0 <= i < |columns| => columns[i].keyPath)
  }

  function SqliteNamesOf(columns: seq<SQLiteColumn>): (r: seq<string>)
    ensures |r| == |columns|
    ensures forall i :: 0 <= i < |columns| ==> r[i] == columns[i].sqliteName
  {
    seq(|columns|, i requires 0 <= i < |columns| => columns[i].sqliteName)
  }

  /** The table `finalizeInitialization(forIdentifiableType:)` leaves behind. */
  function Finalized(t: SQLiteTable, isIdentifiable: bool): SQLiteTable {
    t.(insertValuesKeyPaths := KeyPathsOf(t.columns),
       insertStatement := t.insertStatement.(columns := SqliteNamesOf(t.columns),
                                             returning := Some(Returning(if isIdentifiable then "id" else "ROWID", "id"))),
       insertValuesTemplate := seq(|t.columns|, _ => BindNext))
  }

  /** What a finalized table promises its inserts: one key path, one statement
      column and one bind parameter per column, in column order, and the row's
      key returned as `id`. */
  ghost predicate InsertMatchesColumns(t: SQLiteTable, isIdentifiable: bool) {
    && |t.insertValuesKeyPaths| == |t.columns|
    && |t.insertStatement.columns| == |t.columns|
    && |t.insertValuesTemplate| == |t.columns|
    && (forall i :: 0 <= i < |t.columns| ==>
          && t.insertValuesKeyPaths[i] == t.columns[i].keyPath
          && t.insertStatement.columns[i] == t.columns[i].sqliteName
          && t.insertValuesTemplate[i] == BindNext)
    && t.insertStatement.returning == Some(Returning(if isIdentifiable then "id" else "ROWID", "id"))
  }

  /** `finalizeInitialization(forIdentifiableType:)`: derives the insert key
      paths, columns, template and RETURNING clause from `columns`, and changes
      nothing else. */
  method FinalizeInitialization(t: SQLiteTable, isIdentifiable: bool) returns (r: SQLiteTable)
    ensures InsertMatchesColumns(r, isIdentifiable)
    ensures r.name == t.name && r.create == t.create && r.columns == t.columns
    ensures r.insertStatement.(columns := [], returning := None) ==
            t.insertStatement.(columns := [], returning := None)
    ensures r == Finalized(t, isIdentifiable)
  {
    r := t;
    r := r.(insertValuesKeyPaths := KeyPathsOf(r.columns));
    r := r.(insertStatement := r.insertStatement.(columns := SqliteNamesOf(r.columns)));
    r := r.(insertValuesTemplate := seq(|r.columns|, _ => BindNext));
    var idColumn := if isIdentifiable then "id" else "ROWID";
    r := r.(insertStatement := r.insertStatement.(returning := Some(Returning(idColumn, "id"))));
  }

  lemma FinalizedMatchesColumns(t: SQLiteTable, isIdentifiable: bool)
    ensures InsertMatchesColumns(Finalized(t, isIdentifiable), isIdentifiable)
  {
  }

  /** `insertStatement(valueCount:)`: the stored statement with `valueCount`
      copies of the template as its rows, and the insert key paths unchanged.
      (`Array(repeating:count:)` traps on a negative count.) */
  method InsertStatementFor(t: SQLiteTable, valueCount: nat) returns (stmt: InsertStatement, keyPaths: seq<KeyPath>)
    ensures |stmt.values| == valueCount
    ensures forall i :: 0 <= i < valueCount ==> stmt.values[i] == t.insertValuesTemplate
    ensures stmt.(values := []) == t.insertStatement.(values := [])
    ensures keyPaths == t.insertValuesKeyPaths
  {
    stmt := t.insertStatement;
    var values := seq(valueCount, _ => t.insertValuesTemplate);
    stmt := stmt.(values := values);
    keyPaths := t.insertValuesKeyPaths;
  }

  /** A finalized table's rows each bind exactly one parameter per column. */
  method RowsBindEveryColumn(t: SQLiteTable, isIdentifiable: bool, valueCount: nat) returns (stmt: InsertStatement)
    requires InsertMatchesColumns(t, isIdentifiable)
    ensures |stmt.values| == valueCount
    ensures forall i :: 0 <= i < valueCount ==> |stmt.values[i]| == |stmt.columns| == |t.columns|
  {
    var keyPaths;
    stmt, keyPaths := InsertStatementFor(t, valueCount);
    assert stmt.columns == t.insertStatement.columns by {
      assert stmt.(values := []).columns == t.insertStatement.(values := []).columns;
    }
  }

  // ---------------------------------------------------------------------------
  // The per-field rules of `buildTables`

  /** The descriptions the base table gives a column to: primitives,
      composites, and optionals of either. */
  predicate GetsColumn(d: TypeDescription) {
    || d.Primitive? || d.Composite?
    || (d.OptionalDescription? && (d.wrappedType.Primitive? || d.wrappedType.Composite?))
  }

  /** The foreign key a required (`canBeNull == false`) or optional field of
      composite type `c` gets. */
  function ReferenceTo(column: string, c: TypeDescription, isOptionalField: bool): ForeignKey
    requires c.Composite?
  {
    if isOptionalField then
      ForeignKey(column, c.name, RowKey(c), Some(IdTypeName(c).GetOr(Integer)), true, None)
    else if IsIdentifiable(c) then
      ForeignKey(column, c.name, "id", IdTypeName(c), false, Some(Cascade))
    else
      ForeignKey(column, c.name, "ROWID", Some(Integer), false, None)
  }

  /** The base table after one more field of `owner` has been looked at. */
  function WithBaseField(base: SQLiteTable, owner: TypeDescription, f: StoredField): SQLiteTable
    requires owner.Composite?
  {
    var d := f.description;
    var column := SQLiteColumn(f.name, f.keyPath, f.name);
    if d.Primitive? then
      var constraints := if f.name == "id" && IsIdentifiable(owner) then [NotNull, PrimaryKey] else [NotNull];
      base.(create := base.create.(columns := base.create.columns + [ColumnDefinition(f.name, SqliteTypeName(d), constraints)]),
            columns := base.columns + [column])
    else if d.OptionalDescription? && d.wrappedType.Primitive? then
      base.(create := base.create.(columns := base.create.columns + [ColumnDefinition(f.name, SqliteTypeName(d.wrappedType), [])]),
            columns := base.columns + [column])
    else if d.Composite? then
      base.(create := AddForeignKey(base.create, ReferenceTo(f.name, d, false)),
            columns := base.columns + [column])
    else if d.OptionalDescription? && d.wrappedType.Composite? then
      base.(create := AddForeignKey(base.create, ReferenceTo(f.name, d.wrappedType, true)),
            columns := base.columns + [column])
    else
      base
  }

  /** The base table once the first `i` fields of `owner` have been looked at. */
  function BaseTable(owner: TypeDescription, i: nat): SQLiteTable
    requires owner.Composite? && i <= |owner.fields|
  {
    if i == 0 then NewTable(owner.name)
    else WithBaseField(BaseTable(owner, i - 1), owner, owner.fields[i - 1])
  }

  /** The columns of the join table's uniqueness constraint. */
  function UniqueTuple(m: TypeDescription): seq<string>
    requires m.MultiValue?
  {
    ["parent"]
    + (if m.keyType.Some? && m.keyType.value.Primitive? then ["key"] else if m.isOrdered then ["order"] else [])
    + (if !m.isOrdered && m.keyType.None? then ["value"] else [])
  }

  /** The join table a multi-value field `f` of `owner` gets. */
  function JoinTable(owner: TypeDescription, f: StoredField): SQLiteTable
    requires owner.Composite? && f.description.MultiValue?
  {
    var m := f.description;
    var join := NewTable(owner.name + "_" + f.name);
    var c0 := AddForeignKey(join.create, ForeignKey("parent", owner.name, RowKey(owner),
                                                    Some(IdTypeName(owner).GetOr(Integer)), false, Some(Cascade)));
    var c1 := if m.keyType.Some? && m.keyType.value.Primitive? then AddColumn(c0, "key", SqliteTypeName(m.keyType.value), false)
              else if m.isOrdered then AddColumn(c0, "order", Integer, false)
              else c0;
    var c2 := if m.valueType.Primitive? then AddColumn(c1, "value", SqliteTypeName(m.valueType), false)
              else if m.valueType.Composite? then
                AddForeignKey(c1, ForeignKey("value", m.valueType.name, RowKey(m.valueType),
                                             Some(IdTypeName(m.valueType).GetOr(Integer)), false, Some(Cascade)))
              else c1;
    var c3 := AddColumn(c2, "processed", Integer, true);
    var c4 := c3.(constraints := c3.constraints + [Unique(UniqueTuple(m))]);
    Finalized(join.(create := c4), false)
  }

  /** The join tables for the multi-value fields among the first `i` fields. */
  function JoinTables(owner: TypeDescription, i: nat): seq<SQLiteTable>
    requires owner.Composite? && i <= |owner.fields|
  {
    if i == 0 then []
    else JoinTables(owner, i - 1)
         + (if owner.fields[i - 1].description.MultiValue? then [JoinTable(owner, owner.fields[i - 1])] else [])
  }

  /** Everything `buildTables(from: owner, …)` appends: the join tables in field
      order, then the finalized base table. */
  function TablesFor(owner: TypeDescription): seq<SQLiteTable>
    requires owner.Composite?
  {
    JoinTables(owner, |owner.fields|) + [Finalized(BaseTable(owner, |owner.fields|), IsIdentifiable(owner))]
  }

  // ---------------------------------------------------------------------------
  // The imperative builders

  /** The multi-value branch of `buildTables`. */
  method BuildJoinTable(owner: TypeDescription, field: StoredField) returns (join: SQLiteTable)
    requires owner.Composite? && field.description.MultiValue?
    ensures join == JoinTable(owner, field)
  {
    var m := field.description;
    join := NewTable(owner.name + "_" + field.name);
    var uniqueTuple: seq<string> := [];
    var parentIDType := IdTypeName(owner).GetOr(Integer);
    join := join.(create := AddForeignKey(join.create, ForeignKey("parent", owner.name, RowKey(owner),
                                                                  Some(parentIDType), false, Some(Cascade))));
    uniqueTuple := uniqueTuple + ["parent"];
    if m.keyType.Some? && m.keyType.value.Primitive? {
      join := join.(create := AddColumn(join.create, "key", SqliteTypeName(m.keyType.value), false));
      uniqueTuple := uniqueTuple + ["key"];
    } else if m.isOrdered {
      join := join.(create := AddColumn(join.create, "order", Integer, false));
      uniqueTuple := uniqueTuple + ["order"];
    }
    if m.valueType.Primitive? {
      join := join.(create := AddColumn(join.create, "value", SqliteTypeName(m.valueType), false));
    } else if m.valueType.Composite? {
      var valueIDType := IdTypeName(m.valueType).GetOr(Integer);
      join := join.(create := AddForeignKey(join.create, ForeignKey("value", m.valueType.name, RowKey(m.valueType),
                                                                    Some(valueIDType), false, Some(Cascade))));
    }
    if !m.isOrdered && m.keyType.None? {
      uniqueTuple := uniqueTuple + ["value"];
    }
    assert uniqueTuple == UniqueTuple(m);
    join := join.(create := AddColumn(join.create, "processed", Integer, true));
    join := join.(create := join.create.(constraints := join.create.constraints + [Unique(uniqueTuple)]));
    join := FinalizeInitialization(join, false);
  }

  /** `buildTables(from:into:)`: appends to `tables` the join tables of
      `owner`'s multi-value fields, in field order, and then its base table. */
  method BuildTables(owner: TypeDescription, tables: seq<SQLiteTable>) returns (out: seq<SQLiteTable>)
    requires owner.Composite?
    ensures out == tables + TablesFor(owner)
  {
    var base := NewTable(owner.name);
    out := tables;
    for i := 0 to |owner.fields|
      invariant base == BaseTable(owner, i)
      invariant out == tables + JoinTables(owner, i)
    {
      var field := owner.fields[i];
      var d := field.description;
      var column := SQLiteColumn(field.name, field.keyPath, field.name);
      if d.Primitive? {
        var definition := ColumnDefinition(field.name, SqliteTypeName(d), [NotNull]);
        if field.name == "id" && IsIdentifiable(owner) {
          definition := definition.(constraints := definition.constraints + [PrimaryKey]);
          assert definition.constraints == [NotNull, PrimaryKey];
        }
        base := base.(create := base.create.(columns := base.create.columns + [definition]));
        base := base.(columns := base.columns + [column]);
      } else if d.OptionalDescription? && d.wrappedType.Primitive? {
        var definition := ColumnDefinition(field.name, SqliteTypeName(d.wrappedType), []);
        base := base.(create := base.create.(columns := base.create.columns + [definition]));
        base := base.(columns := base.columns + [column]);
      } else if d.Composite? {
        if IsIdentifiable(d) {
          base := base.(create := AddForeignKey(base.create, ForeignKey(field.name, d.name, "id", IdTypeName(d), false, Some(Cascade))));
        } else {
          base := base.(create := AddForeignKey(base.create, ForeignKey(field.name, d.name, "ROWID", Some(Integer), false, None)));
        }
        base := base.(columns := base.columns + [column]);
      } else if d.OptionalDescription? && d.wrappedType.Composite? {
        var c := d.wrappedType;
        var key := ForeignKey(field.name, c.name, RowKey(c), Some(IdTypeName(c).GetOr(Integer)), true, None);
        base := base.(create := AddForeignKey(base.create, key));
        base := base.(columns := base.columns + [column]);
      } else if d.MultiValue? {
        var join := BuildJoinTable(owner, field);
        out := out + [join];
      }
    }
    base := FinalizeInitialization(base, IsIdentifiable(owner));
    out := out + [base];
  }

  // ---------------------------------------------------------------------------
  // What the tables promise

  /** The fields that get a base-table column, in order. */
  function ColumnFields(fields: seq<StoredField>): (r: seq<StoredField>)
    ensures forall f :: f in r ==> f in fields && GetsColumn(f.description)
  {
    if fields == [] then []
    else ColumnFields(fields[..|fields| - 1])
         + (if GetsColumn(fields[|fields| - 1].description) then [fields[|fields| - 1]] else [])
  }

  /** The multi-value fields, in order. */
  function MultiValueFields(fields: seq<StoredField>): (r: seq<StoredField>)
    ensures forall f :: f in r ==> f in fields && f.description.MultiValue?
  {
    if fields == [] then []
    else MultiValueFields(fields[..|fields| - 1])
         + (if fields[|fields| - 1].description.MultiValue? then [fields[|fields| - 1]] else [])
  }

  /** The fields that are not multi-value, in order. */
  function SingleValueFields(fields: seq<StoredField>): (r: seq<StoredField>)
    ensures forall f :: f in r ==> f in fields && !f.description.MultiValue?
  {
    if fields == [] then []
    else SingleValueFields(fields[..|fields| - 1])
         + (if !fields[|fields| - 1].description.MultiValue? then [fields[|fields| - 1]] else [])
  }

  /** The `SQLiteColumn` each field is recorded as: its name, key path, and a
      column of the same name. */
  function ColumnsOf(fields: seq<StoredField>): (r: seq<SQLiteColumn>)
    ensures |r| == |fields|
    ensures forall i :: 0 <= i < |fields| ==> r[i] == SQLiteColumn(fields[i].name, fields[i].keyPath, fields[i].name)
  {
    seq(|fields|, i requires 0 <= i < |fields| => SQLiteColumn(fields[i].name, fields[i].keyPath, fields[i].name))
  }

  lemma ColumnsOfAppend(a: seq<StoredField>, b: seq<StoredField>)
    ensures ColumnsOf(a + b) == ColumnsOf(a) + ColumnsOf(b)
  {
  }

  /** A primitive field becomes a NOT NULL column of its type, which is the
      primary key exactly when the field is `id` on an identifiable type. */
  lemma PrimitiveFieldsAreRequiredColumns(base: SQLiteTable, owner: TypeDescription, f: StoredField)
    requires owner.Composite? && f.description.Primitive?
    ensures var r := WithBaseField(base, owner, f);
      && |r.create.columns| == |base.create.columns| + 1
      && r.create.columns[..|base.create.columns|] == base.create.columns
      && r.create.foreignKeys == base.create.foreignKeys
      && var c := r.create.columns[|base.create.columns|];
         && c.name == f.name && c.typeName == SqliteTypeName(f.description)
         && NotNull in c.constraints
         && (PrimaryKey in c.constraints <==> f.name == "id" && IsIdentifiable(owner))
  {
  }

  /** An optional primitive field becomes a column of the wrapped type with no
      constraint at all. */
  lemma OptionalPrimitivesAreNullableColumns(base: SQLiteTable, owner: TypeDescription, f: StoredField)
    requires owner.Composite? && f.description.OptionalDescription? && f.description.wrappedType.Primitive?
    ensures var r := WithBaseField(base, owner, f);
      && r.create.columns == base.create.columns
                             + [ColumnDefinition(f.name, SqliteTypeName(f.description.wrappedType), [])]
      && r.create.foreignKeys == base.create.foreignKeys
  {
  }

  /** A composite field becomes a non-null foreign key to the target's table:
      to `id` with ON DELETE CASCADE when the target is identifiable, and to the
      integer `ROWID` with no delete action otherwise. */
  lemma RequiredReferences(base: SQLiteTable, owner: TypeDescription, f: StoredField)
    requires owner.Composite? && f.description.Composite?
    ensures var r := WithBaseField(base, owner, f);
      && r.create.columns == base.create.columns
      && |r.create.foreignKeys| == |base.create.foreignKeys| + 1
      && r.create.foreignKeys[..|base.create.foreignKeys|] == base.create.foreignKeys
      && var k := r.create.foreignKeys[|base.create.foreignKeys|];
         && k.column == f.name && k.references == f.description.name && !k.canBeNull
         && (IsIdentifiable(f.description) ==>
               k.refColumn == "id" && k.onDelete == Some(Cascade) && k.typeName == IdTypeName(f.description))
         && (!IsIdentifiable(f.description) ==>
               k.refColumn == "ROWID" && k.onDelete == None && k.typeName == Some(Integer))
  {
  }

  /** An optional composite field becomes a nullable foreign key to the
      target's `id` or `ROWID`, typed by the target's `id` field or as integer,
      with no delete action. */
  lemma OptionalReferences(base: SQLiteTable, owner: TypeDescription, f: StoredField)
    requires owner.Composite? && f.description.OptionalDescription? && f.description.wrappedType.Composite?
    ensures var c := f.description.wrappedType;
      WithBaseField(base, owner, f).create ==
      base.create.(foreignKeys := base.create.foreignKeys
                                  + [ForeignKey(f.name, c.name, RowKey(c), Some(IdTypeName(c).GetOr(Integer)), true, None)])
  {
  }

  /** Every field kind the base table does not give a column to (multi-value
      fields among them) leaves the base table as it was. */
  lemma OtherFieldsLeaveBaseAlone(base: SQLiteTable, owner: TypeDescription, f: StoredField)
    requires owner.Composite? && !GetsColumn(f.description)
    ensures WithBaseField(base, owner, f) == base
  {
  }

  /** On fields that pass validation, the base table gives a column to exactly
      the fields that are not multi-value. */
  lemma LegalFieldsGetColumnsUnlessMultiValue(d: TypeDescription)
    requires FieldShapeIsLegal(d)
    ensures GetsColumn(d) <==> !d.MultiValue?
  {
  }

  /** The base table keeps the composite's name, gets no table constraint, and
      records one `SQLiteColumn` per field that gets a column, in field order. */
  lemma {:induction false} BaseColumnsFollowFields(owner: TypeDescription, i: nat)
    requires owner.Composite? && i <= |owner.fields|
    ensures BaseTable(owner, i).name == owner.name
    ensures BaseTable(owner, i).create.name == owner.name
    ensures BaseTable(owner, i).create.constraints == []
    ensures BaseTable(owner, i).columns == ColumnsOf(ColumnFields(owner.fields[..i]))
  {
    if i > 0 {
      BaseColumnsFollowFields(owner, i - 1);
      var f := owner.fields[i - 1];
      assert owner.fields[..i][..i - 1] == owner.fields[..i - 1];
      assert owner.fields[..i][i - 1] == f;
      ColumnsOfAppend(ColumnFields(owner.fields[..i - 1]), if GetsColumn(f.description) then [f] else []);
    }
  }

  /** When every field passes validation, the fields with columns are exactly
      the single-value fields. */
  lemma {:induction false} LegalColumnFields(fields: seq<StoredField>)
    requires forall j :: 0 <= j < |fields| ==> FieldShapeIsLegal(fields[j].description)
    ensures ColumnFields(fields) == SingleValueFields(fields)
  {
    if fields != [] {
      LegalColumnFields(fields[..|fields| - 1]);
      LegalFieldsGetColumnsUnlessMultiValue(fields[|fields| - 1].description);
    }
  }

  /** The join tables of the first `i` fields are those of its multi-value
      fields, in field order. */
  lemma {:induction false} JoinTablesFollowFields(owner: TypeDescription, i: nat)
    requires owner.Composite? && i <= |owner.fields|
    ensures |JoinTables(owner, i)| == |MultiValueFields(owner.fields[..i])|
    ensures forall k :: 0 <= k < |JoinTables(owner, i)| ==>
              MultiValueFields(owner.fields[..i])[k].description.MultiValue? &&
              JoinTables(owner, i)[k] == JoinTable(owner, MultiValueFields(owner.fields[..i])[k])
  {
    if i > 0 {
      JoinTablesFollowFields(owner, i - 1);
      var f := owner.fields[i - 1];
      assert owner.fields[..i][..i - 1] == owner.fields[..i - 1];
      assert owner.fields[..i][i - 1] == f;
      assert MultiValueFields(owner.fields[..i]) ==
             MultiValueFields(owner.fields[..i - 1]) + (if f.description.MultiValue? then [f] else []);
    }
  }

  /** Join tables are named `"<Owner>_<field>"`, reference their owner's row
      through a non-null, cascading `parent` key, have a nullable `processed`
      column last, one uniqueness constraint, and a RETURNING `ROWID` insert. */
  lemma JoinTableShape(owner: TypeDescription, f: StoredField)
    requires owner.Composite? && f.description.MultiValue?
    ensures var join := JoinTable(owner, f);
      && join.name == owner.name + "_" + f.name
      && join.create.name == join.name
      && |join.create.foreignKeys| >= 1
      && join.create.foreignKeys[0] ==
           ForeignKey("parent", owner.name, RowKey(owner), Some(IdTypeName(owner).GetOr(Integer)), false, Some(Cascade))
      && |join.create.columns| >= 1
      && join.create.columns[|join.create.columns| - 1] == ColumnDefinition("processed", Integer, [])
      && join.create.constraints == [Unique(UniqueTuple(f.description))]
      && join.columns == []
      && InsertMatchesColumns(join, false)
  {
  }

  /** The stored values: a primitive element becomes a non-null `value`
      column, a composite element a non-null cascading `value` foreign key to
      the element's table, and any other element kind neither. */
  lemma JoinTableValues(owner: TypeDescription, f: StoredField)
    requires owner.Composite? && f.description.MultiValue?
    ensures var join := JoinTable(owner, f); var v := f.description.valueType;
      && (v.Primitive? ==> ColumnDefinition("value", SqliteTypeName(v), [NotNull]) in join.create.columns)
      && (v.Composite? ==>
            ForeignKey("value", v.name, RowKey(v), Some(IdTypeName(v).GetOr(Integer)), false, Some(Cascade))
            in join.create.foreignKeys)
      && |join.create.foreignKeys| == (if v.Composite? then 2 else 1)
  {
  }

  /** The uniqueness tuple by collection kind: `[parent, key]` for maps with a
      primitive key, `[parent, order]` for arrays and `[parent, value]` for sets. */
  lemma UniqueTupleByKind(m: TypeDescription)
    requires m.MultiValue? && WellFormed(m)
    ensures m.keyType.Some? && m.keyType.value.Primitive? ==> UniqueTuple(m) == ["parent", "key"]
    ensures m.baseType.ArrayOf? ==> UniqueTuple(m) == ["parent", "order"]
    ensures m.baseType.SetOf? ==> UniqueTuple(m) == ["parent", "value"]
  {
  }

  /** `buildTables` appends one table per multi-value field and then the base
      table, which is named after the composite, lists its columns in field
      order and returns `id` on inserts exactly when the type is identifiable. */
  lemma TablesForShape(owner: TypeDescription)
    requires owner.Composite?
    ensures var ts := TablesFor(owner); var base := ts[|ts| - 1];
      && |ts| == |MultiValueFields(owner.fields)| + 1
      && ts[..|ts| - 1] == JoinTables(owner, |owner.fields|)
      && (forall k :: 0 <= k < |ts| - 1 ==>
            MultiValueFields(owner.fields)[k].description.MultiValue? &&
            ts[k] == JoinTable(owner, MultiValueFields(owner.fields)[k]))
      && base.name == owner.name
      && base.columns == ColumnsOf(ColumnFields(owner.fields))
      && InsertMatchesColumns(base, IsIdentifiable(owner))
  {
    assert owner.fields[..|owner.fields|] == owner.fields;
    JoinTablesFollowFields(owner, |owner.fields|);
    BaseColumnsFollowFields(owner, |owner.fields|);
    var ts := TablesFor(owner);
    assert ts[..|ts| - 1] == JoinTables(owner, |owner.fields|);
  }
}
