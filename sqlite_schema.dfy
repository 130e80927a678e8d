/** `SQLiteSchema`: the tables of every composite of a schema, built composite
    by composite in `compositeTypes` order, next to the schema they came from. */
module SQLiteSchemas {
  import opened Wrappers
  import opened TypeTerms
  import opened TypeDescriptions
  import opened SchemaBuilder
  import opened SQLiteTables

  datatype SQLiteSchema = SQLiteSchema(base: Schema, tables: seq<SQLiteTable>)

  ghost predicate AllComposite(cs: seq<TypeDescription>) {
    forall i :: 0 <= i < |cs| ==> cs[i].Composite?
  }

  /** The tables of `cs`, composite by composite. */
  function AllTables(cs: seq<TypeDescription>): seq<SQLiteTable>
    requires AllComposite(cs)
  {
    if cs == [] then [] else AllTables(cs[..|cs| - 1]) + TablesFor(cs[|cs| - 1])
  }

  /** `init(schema:)`: keeps the schema as `base` and runs `buildTables` for
      each composite in turn. */
  method Init(schema: Schema) returns (s: SQLiteSchema)
    requires AllComposite(schema.compositeTypes)
    ensures s.base == schema
    ensures s.tables == AllTables(schema.compositeTypes)
  {
    s := SQLiteSchema(schema, []);
    var cs := schema.compositeTypes;
    for i := 0 to |cs|
      invariant s.base == schema
      invariant s.tables == AllTables(cs[..i])
    {
      assert cs[..i + 1][..i] == cs[..i];
      var tables := BuildTables(cs[i], s.tables);
      s := s.(tables := tables);
    }
    assert cs[..|cs|] == cs;
  }

  /** The total number of multi-value fields over `cs`. */
  function MultiValueFieldCount(cs: seq<TypeDescription>): nat
    requires AllComposite(cs)
  {
    if cs == [] then 0 else MultiValueFieldCount(cs[..|cs| - 1]) + |MultiValueFields(cs[|cs| - 1].fields)|
  }

  /** One table per composite plus one per multi-value field. */
  lemma {:induction false} TableCount(cs: seq<TypeDescription>)
    requires AllComposite(cs)
    ensures |AllTables(cs)| == |cs| + MultiValueFieldCount(cs)
  {
    if cs != [] {
      TableCount(cs[..|cs| - 1]);
      TablesForShape(cs[|cs| - 1]);
    }
  }

  /** The tables of a prefix of the composites are a prefix of the tables. */
  lemma {:induction false} PrefixTables(cs: seq<TypeDescription>, k: nat)
    requires AllComposite(cs) && k <= |cs|
    ensures AllComposite(cs[..k])
    ensures |AllTables(cs[..k])| <= |AllTables(cs)|
    ensures AllTables(cs)[..|AllTables(cs[..k])|] == AllTables(cs[..k])
  {
    if k < |cs| {
      var front := cs[..|cs| - 1];
      assert front[..k] == cs[..k];
      PrefixTables(front, k);
    } else {
      assert cs[..k] == cs;
    }
  }

  lemma TablesOfOneMore(cs: seq<TypeDescription>, k: nat)
    requires AllComposite(cs) && k < |cs|
    ensures AllComposite(cs[..k]) && AllComposite(cs[..k + 1])
    ensures AllTables(cs[..k + 1]) == AllTables(cs[..k]) + TablesFor(cs[k])
  {
    assert cs[..k + 1][..k] == cs[..k];
  }

  /** Every composite has a table named after it: its base table. */
  lemma {:induction false} EveryCompositeHasATable(cs: seq<TypeDescription>)
    requires AllComposite(cs)
    ensures forall c :: c in cs ==> exists t :: t in AllTables(cs) && t.name == c.name
  {
    if cs != [] {
      var front := cs[..|cs| - 1];
      var last := cs[|cs| - 1];
      assert AllComposite(front);
      EveryCompositeHasATable(front);
      LastTableIsNamed(last);
      var ts := TablesFor(last);
      assert AllTables(cs) == AllTables(front) + ts;
      forall c | c in cs
        ensures exists t :: t in AllTables(cs) && t.name == c.name
      {
        if c in front {
          var t :| t in AllTables(front) && t.name == c.name;
          assert t in AllTables(cs);
        } else {
          assert ts[|ts| - 1] in AllTables(cs);
        }
      }
    }
  }

  /** The last table `buildTables` appends is named after the composite. */
  lemma LastTableIsNamed(owner: TypeDescription)
    requires owner.Composite?
    ensures |TablesFor(owner)| >= 1 && TablesFor(owner)[|TablesFor(owner)| - 1].name == owner.name
  {
    BaseColumnsFollowFields(owner, |owner.fields|);
  }

  // ---------------------------------------------------------------------------
  // Foreign keys point at tables that exist

  /** The composite a field of this description refers to by name, if any: a
      composite field, an optional composite, or a collection of composites. */
  ghost predicate RefersTo(d: TypeDescription, name: string) {
    || (d.Composite? && d.name == name)
    || (d.OptionalDescription? && d.wrappedType.Composite? && d.wrappedType.name == name)
    || (d.MultiValue? && d.valueType.Composite? && d.valueType.name == name)
  }

  /** A name `owner`'s tables may reference: its own, or a target of one of
      its first `i` fields. */
  ghost predicate ReferenceableFrom(owner: TypeDescription, i: nat, name: string)
    requires owner.Composite? && i <= |owner.fields|
  {
    name == owner.name || exists j :: 0 <= j < i && RefersTo(owner.fields[j].description, name)
  }

  lemma {:induction false} BaseKeysReferToFields(owner: TypeDescription, i: nat)
    requires owner.Composite? && i <= |owner.fields|
    ensures forall k :: k in BaseTable(owner, i).create.foreignKeys ==> ReferenceableFrom(owner, i, k.references)
  {
    if i > 0 {
      BaseKeysReferToFields(owner, i - 1);
      forall k | k in BaseTable(owner, i).create.foreignKeys
        ensures ReferenceableFrom(owner, i, k.references)
      {
        if k !in BaseTable(owner, i - 1).create.foreignKeys {
          assert RefersTo(owner.fields[i - 1].description, k.references);
        }
      }
    }
  }

  lemma JoinKeysReferToField(owner: TypeDescription, f: StoredField)
    requires owner.Composite? && f.description.MultiValue?
    ensures forall k :: k in JoinTable(owner, f).create.foreignKeys ==>
              k.references == owner.name || RefersTo(f.description, k.references)
  {
    JoinTableValues(owner, f);
    JoinTableShape(owner, f);
    var keys := JoinTable(owner, f).create.foreignKeys;
    forall k | k in keys
      ensures k.references == owner.name || RefersTo(f.description, k.references)
    {
      var n :| 0 <= n < |keys| && keys[n] == k;
      if n != 0 {
        var v := f.description.valueType;
        assert ForeignKey("value", v.name, RowKey(v), Some(IdTypeName(v).GetOr(Integer)), false, Some(Cascade)) in keys;
      }
    }
  }

  lemma {:induction false} JoinKeysReferToFields(owner: TypeDescription, i: nat)
    requires owner.Composite? && i <= |owner.fields|
    ensures forall t, k :: t in JoinTables(owner, i) && k in t.create.foreignKeys ==>
              ReferenceableFrom(owner, i, k.references)
  {
    if i > 0 {
      JoinKeysReferToFields(owner, i - 1);
      var f := owner.fields[i - 1];
      if f.description.MultiValue? {
        JoinKeysReferToField(owner, f);
      }
    }
  }

  /** Every foreign key a composite's tables declare names the composite
      itself or a composite one of its fields refers to. */
  lemma TableKeysReferToFields(owner: TypeDescription)
    requires owner.Composite?
    ensures forall t, k :: t in TablesFor(owner) && k in t.create.foreignKeys ==>
              ReferenceableFrom(owner, |owner.fields|, k.references)
  {
    BaseKeysReferToFields(owner, |owner.fields|);
    JoinKeysReferToFields(owner, |owner.fields|);
  }

  /** Every composite a field of a composite in `cs` refers to is in `cs`. */
  ghost predicate ReferencesClosed(cs: seq<TypeDescription>) {
    forall c, j, name: string :: c in cs && c.Composite? && 0 <= j < |c.fields|
                                 && RefersTo(c.fields[j].description, name) ==>
      exists e :: e in cs && e.Composite? && e.name == name
  }

  lemma {:induction false} AllKeysReferWithin(cs: seq<TypeDescription>)
    requires AllComposite(cs)
    ensures forall t, k :: t in AllTables(cs) && k in t.create.foreignKeys ==>
              exists c :: c in cs && c.Composite? && ReferenceableFrom(c, |c.fields|, k.references)
  {
    if cs != [] {
      var front := cs[..|cs| - 1];
      AllKeysReferWithin(front);
      TableKeysReferToFields(cs[|cs| - 1]);
      assert AllTables(cs) == AllTables(front) + TablesFor(cs[|cs| - 1]);
      forall t, k | t in AllTables(cs) && k in t.create.foreignKeys
        ensures exists c :: c in cs && c.Composite? && ReferenceableFrom(c, |c.fields|, k.references)
      {
        if t in AllTables(front) {
          var c :| c in front && c.Composite? && ReferenceableFrom(c, |c.fields|, k.references);
          var n :| 0 <= n < |front| && front[n] == c;
          assert cs[n] == c;
        } else {
          assert cs[|cs| - 1] in cs;
        }
      }
    } else {
      assert AllTables(cs) == [];
    }
  }

  /** Referential integrity of the generated DDL: when the composites refer
      only to composites of the same list, every foreign key of every table
      references a table that is generated as well. */
  lemma ForeignKeysResolve(cs: seq<TypeDescription>)
    requires AllComposite(cs) && ReferencesClosed(cs)
    ensures forall t, k :: t in AllTables(cs) && k in t.create.foreignKeys ==>
              exists u :: u in AllTables(cs) && u.name == k.references
  {
    AllKeysReferWithin(cs);
    EveryCompositeHasATable(cs);
    forall t, k | t in AllTables(cs) && k in t.create.foreignKeys
      ensures exists u :: u in AllTables(cs) && u.name == k.references
    {
      var c :| c in cs && c.Composite? && ReferenceableFrom(c, |c.fields|, k.references);
      if k.references != c.name {
        var j :| 0 <= j < |c.fields| && RefersTo(c.fields[j].description, k.references);
        var d := c.fields[j].description;
        var e :| e in cs && e.Composite? && e.name == k.references;
      }
    }
  }

  /** A schema's composites satisfy that closure: the schema keeps every child
      of every stored description. */
  lemma SchemaReferencesAreClosed(types: seq<TypeTerm>)
    requires |types| > 0 && forall k :: 0 <= k < |types| ==> IsStoredType(types[k])
    requires SchemaOf(types).Success?
    ensures AllComposite(SchemaOf(types).value.compositeTypes)
    ensures ReferencesClosed(SchemaOf(types).value.compositeTypes)
  {
    var s := SchemaOf(types).value;
    SchemaIsClosed(types);
    assert s.compositeTypes == Composites(s.storedTypes);
    forall c, j, name: string | c in s.compositeTypes && c.Composite? && 0 <= j < |c.fields|
                                && RefersTo(c.fields[j].description, name)
      ensures exists e :: e in s.compositeTypes && e.Composite? && e.name == name
    {
      var d := c.fields[j].description;
      assert d in TransitiveTypeDescriptions(c);
      assert d in s.storedTypes;
      if d.Composite? {
        assert d in s.compositeTypes;
      } else if d.OptionalDescription? {
        assert d.wrappedType in TransitiveTypeDescriptions(d);
        assert d.wrappedType in s.compositeTypes;
      } else {
        assert d.valueType in TransitiveTypeDescriptions(d);
        assert d.valueType in s.compositeTypes;
      }
    }
  }

  /** The SQLite schema of a schema built from root types has no dangling
      foreign key. */
  lemma SchemaTablesResolve(types: seq<TypeTerm>, s: SQLiteSchema)
    requires |types| > 0 && forall k :: 0 <= k < |types| ==> IsStoredType(types[k])
    requires SchemaOf(types).Success?
    requires AllComposite(SchemaOf(types).value.compositeTypes)
    requires s == SQLiteSchema(SchemaOf(types).value, AllTables(SchemaOf(types).value.compositeTypes))
    ensures forall t, k :: t in s.tables && k in t.create.foreignKeys ==>
              exists u :: u in s.tables && u.name == k.references
  {
    SchemaReferencesAreClosed(types);
    ForeignKeysResolve(s.base.compositeTypes);
  }
}
