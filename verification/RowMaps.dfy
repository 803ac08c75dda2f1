// The struct and the ToRowMap method that cmd/modelgen renders for a table,
// and db.FilterUnset, which the latter calls.
module RowMaps {
  import opened Text
  import opened ModelGen
  import opened Wrappers

  datatype Column = Column(name: string, udt: string, nullable: bool, hasDefault: bool, isPK: bool)

  datatype GoType = Int | Int64 | Float64 | String | Bool | Time | Bytes | Strings | Ints | Int64s | StringMap
                  | Pointer(base: GoType)

  function BaseType(udt: string): Option<GoType> {
    if udt == "int2" || udt == "int4" then Some(Int)
    else if udt == "int8" then Some(Int64)
    else if udt == "varchar" || udt == "text" || udt == "uuid" || udt == "citext" || udt == "numeric" then Some(String)
    else if udt == "bool" then Some(Bool)
    else if udt == "float4" || udt == "float8" then Some(Float64)
    else if udt == "timestamp" || udt == "timestamptz" || udt == "date" then Some(Time)
    else if udt == "jsonb" || udt == "bytea" then Some(Bytes)
    else if udt == "_varchar" || udt == "_text" then Some(Strings)
    else if udt == "_int4" then Some(Ints)
    else if udt == "_int8" then Some(Int64s)
    else if udt == "hstore" then Some(StringMap)
    else None
  }

  // Types whose zero value is nil, so that a null has a place to go.
  predicate HoldsNull(t: GoType) {
    t.Bytes? || t.Strings? || t.Ints? || t.Int64s? || t.StringMap? || t.Pointer?
  }

  // goType
  function TypeOf(c: Column): (t: Option<GoType>)
    ensures t.Some? && c.nullable && !c.isPK ==> HoldsNull(t.value)
  {
    if c.isPK && (c.udt == "int4" || c.udt == "int8") then Some(Int64) else
      var base := BaseType(c.udt);
      if base.Some? && c.nullable && !HoldsNull(base.value) then Some(Pointer(base.value)) else base
  }

  // ---- What a column's type has room for ------------------------------------------

  // The values of a PostgreSQL type (chapter 8 of its documentation).
  datatype Kind = Whole(bits: nat) | Fraction(bits: nat) | Decimal | Characters | Truth | Moment | Octets
                | Many(of: Kind) | Dictionary

  function KindOf(udt: string): Option<Kind> {
    if udt == "int2" then Some(Whole(16))
    else if udt == "int4" then Some(Whole(32))
    else if udt == "int8" then Some(Whole(64))
    else if udt == "varchar" || udt == "text" || udt == "uuid" || udt == "citext" then Some(Characters)
    else if udt == "numeric" then Some(Decimal)
    else if udt == "bool" then Some(Truth)
    else if udt == "float4" then Some(Fraction(32))
    else if udt == "float8" then Some(Fraction(64))
    else if udt == "timestamp" || udt == "timestamptz" || udt == "date" then Some(Moment)
    else if udt == "jsonb" || udt == "bytea" then Some(Octets)
    else if udt == "_varchar" || udt == "_text" then Some(Many(Characters))
    else if udt == "_int4" then Some(Many(Whole(32)))
    else if udt == "_int8" then Some(Many(Whole(64)))
    else if udt == "hstore" then Some(Dictionary)
    else None
  }

  // Go's int has at least 32 bits; no type but string takes a decimal unchanged.
  predicate Fits(k: Kind, t: GoType) {
    match t
    case Int => k.Whole? && k.bits <= 32
    case Int64 => k.Whole? && k.bits <= 64
    case Float64 => k.Fraction? && k.bits <= 64
    case String => k.Characters? || k.Decimal?
    case Bool => k.Truth?
    case Time => k.Moment?
    case Bytes => k.Octets?
    case Strings => k == Many(Characters)
    case Ints => k.Many? && k.of.Whole? && k.of.bits <= 32
    case Int64s => k.Many? && k.of.Whole? && k.of.bits <= 64
    case StringMap => k.Dictionary?
    case Pointer(base) => Fits(k, base)
  }

  // Values with a nil of their own.
  predicate HasNil(k: Kind) {
    k.Octets? || k.Many? || k.Dictionary?
  }

  lemma BaseHasRoom(udt: string)
    ensures BaseType(udt).Some? <==> KindOf(udt).Some?
    ensures BaseType(udt).Some? ==> Fits(KindOf(udt).value, BaseType(udt).value) && !BaseType(udt).value.Pointer?
    ensures BaseType(udt).Some? ==> (HoldsNull(BaseType(udt).value) <==> HasNil(KindOf(udt).value))
  {
  }

  predicate WideKey(c: Column) {
    c.isPK && (c.udt == "int4" || c.udt == "int8")
  }

  // A column has a type exactly when its values are known, and then one with room
  // for all of them. Null needs a pointer exactly where the column admits it and
  // its values have no nil of their own; keys of 32 bits and more have 64.
  lemma TypeHasRoom(c: Column)
    ensures TypeOf(c).Some? <==> KindOf(c.udt).Some?
    ensures TypeOf(c).Some? ==> Fits(KindOf(c.udt).value, TypeOf(c).value)
    ensures TypeOf(c).Some? ==>
              (TypeOf(c).value.Pointer? <==> c.nullable && !WideKey(c) && !HasNil(KindOf(c.udt).value))
    ensures WideKey(c) ==> TypeOf(c) == Some(Int64)
  {
    BaseHasRoom(c.udt);
    if WideKey(c) {
      assert KindOf(c.udt).value.Whole?;
    }
  }

  // ---- render ----------------------------------------------------------------

  datatype Field = Field(name: string, goType: GoType, column: string)

  datatype Entry = Entry(column: string, field: string)

  datatype Rendered =
    | Source(fields: seq<Field>, entries: seq<Entry>, defaulted: seq<string>)
    | NoMapping(column: string)
    | Panics(column: string)

  datatype Outcome = Fine(field: Field) | NoType | NoName

  // One turn of the struct loop: the type is looked up before the name.
  function FieldOf(c: Column): Outcome {
    if TypeOf(c).None? then NoType
    else if FieldName(c.name).None? then NoName
    else Fine(Field(FieldName(c.name).value, TypeOf(c).value, c.name))
  }

  predicate AllFine(columns: seq<Column>) {
    forall c :: c in columns ==> FieldOf(c).Fine?
  }

  // A field under the column's name in Go, of the column's type, tagged with it.
  predicate Declares(f: Field, c: Column) {
    FieldName(c.name) == Some(f.name) && TypeOf(c) == Some(f.goType) && f.column == c.name
  }

  // The first column that stops the rendering.
  ghost predicate StopsAt(columns: seq<Column>, i: nat) {
    i < |columns| && AllFine(columns[..i]) && !FieldOf(columns[i]).Fine?
  }

  // It stopped there: with an error if the type is unknown, else in a panic over the name.
  ghost predicate Stopped(columns: seq<Column>, r: Rendered) {
    exists i: nat :: StopsAt(columns, i) &&
      r == if TypeOf(columns[i]).None? then NoMapping(columns[i].name) else Panics(columns[i].name)
  }

  function Failure(c: Column): Rendered {
    if FieldOf(c) == NoType then NoMapping(c.name) else Panics(c.name)
  }

  function FieldsOf(columns: seq<Column>): seq<Field>
    requires AllFine(columns)
  {
    seq(|columns|, i requires 0 <= i < |columns| => FieldOf(columns[i]).field)
  }

  function EntriesOf(columns: seq<Column>, fields: seq<Field>): seq<Entry>
    requires |columns| == |fields|
  {
    if columns == [] then [] else
      var n := |columns| - 1;
      EntriesOf(columns[..n], fields[..n]) + if columns[n].isPK then [] else [Entry(columns[n].name, fields[n].name)]
  }

  function DefaultedOf(columns: seq<Column>): seq<string> {
    if columns == [] then [] else
      var c := columns[|columns| - 1];
      DefaultedOf(columns[..|columns| - 1]) + if !c.isPK && c.hasDefault then [c.name] else []
  }

  // The entries of the row map's literal, and the columns to filter.
  datatype Listing = Listing(entries: seq<Entry>, defaulted: seq<string>)

  // The row map's loop, which grows both.
  method RenderRowMap(columns: seq<Column>, fields: seq<Field>) returns (listing: Listing)
    requires |columns| == |fields|
    ensures listing == Listing(EntriesOf(columns, fields), DefaultedOf(columns))
  {
    var entries, defaulted := [], [];
    var i := 0;
    while i < |columns|
      invariant 0 <= i <= |columns|
      invariant entries == EntriesOf(columns[..i], fields[..i])
      invariant defaulted == DefaultedOf(columns[..i])
    {
      assert columns[..i + 1][..i] == columns[..i] && fields[..i + 1][..i] == fields[..i];
      if !columns[i].isPK {
        if columns[i].hasDefault {
          defaulted := defaulted + [columns[i].name];
        }
        entries := entries + [Entry(columns[i].name, fields[i].name)];
      }
      i := i + 1;
    }
    assert columns[..i] == columns && fields[..i] == fields;
    return Listing(entries, defaulted);
  }

  method Render(columns: seq<Column>) returns (r: Rendered)
    ensures r.Source? <==> AllFine(columns)
    ensures r.Source? ==> r == Source(FieldsOf(columns), EntriesOf(columns, FieldsOf(columns)), DefaultedOf(columns))
    ensures r.Source? ==> |r.fields| == |columns|
    ensures r.Source? ==> forall i :: 0 <= i < |columns| ==> Declares(r.fields[i], columns[i])
    ensures !r.Source? ==> Stopped(columns, r)
  {
    var fields := [];
    var i := 0;
    while i < |columns|
      invariant 0 <= i <= |columns| && AllFine(columns[..i])
      invariant fields == FieldsOf(columns[..i])
    {
      var outcome := FieldOf(columns[i]);
      if !outcome.Fine? {
        assert StopsAt(columns, i);
        return Failure(columns[i]);
      }
      assert columns[..i + 1] == columns[..i] + [columns[i]];
      fields := fields + [outcome.field];
      i := i + 1;
    }
    assert columns[..i] == columns;
    var listing := RenderRowMap(columns, fields);
    return Source(fields, listing.entries, listing.defaulted);
  }

  // ---- Fields of the struct never collide --------------------------------------

  predicate DistinctFields(columns: seq<Column>) {
    forall i, j :: 0 <= i < j < |columns| ==> FieldName(columns[i].name) != FieldName(columns[j].name)
  }

  predicate DistinctCanon(columns: seq<Column>) {
    forall i, j :: 0 <= i < j < |columns| ==> Canon(Split(columns[i].name, '_')) != Canon(Split(columns[j].name, '_'))
  }

  lemma StructFieldsAreDistinctExactly(columns: seq<Column>)
    requires forall c :: c in columns ==> Plain(c.name)
    ensures DistinctFields(columns) <==> DistinctCanon(columns)
  {
    forall i, j | 0 <= i < j < |columns|
      ensures FieldName(columns[i].name) == FieldName(columns[j].name) <==>
              Canon(Split(columns[i].name, '_')) == Canon(Split(columns[j].name, '_'))
    {
      FieldNamesCollideExactly(columns[i].name, columns[j].name);
    }
  }

  // ---- Values ------------------------------------------------------------------

  datatype Value = Nil | Number(n: int) | Text(s: string) | Flag(b: bool) | Instant(t: int)
                 | Slice(items: Option<seq<Value>>) | PointerTo(target: Option<Value>)

  // v == nil || reflect.ValueOf(v).IsZero(): a pointer to a zero is set, and so is an empty slice.
  predicate Unset(v: Value) {
    match v
    case Nil => true
    case Number(n) => n == 0
    case Text(s) => s == ""
    case Flag(b) => !b
    case Instant(t) => t == 0
    case Slice(items) => items.None?
    case PointerTo(target) => target.None?
  }

  // A value as a field of that type holds it, and the type's zero value.
  predicate Typed(v: Value, t: GoType) {
    match t
    case Int => v.Number?
    case Int64 => v.Number?
    case Float64 => v.Number?
    case String => v.Text?
    case Bool => v.Flag?
    case Time => v.Instant?
    case Pointer(base) => v.PointerTo? && (v.target.Some? ==> Typed(v.target.value, base))
    case _ => v.Slice?
  }

  function Zero(t: GoType): (v: Value)
    ensures Typed(v, t)
  {
    match t
    case String => Text("")
    case Bool => Flag(false)
    case Time => Instant(0)
    case Pointer(_) => PointerTo(None)
    case Bytes => Slice(None)
    case Strings => Slice(None)
    case Ints => Slice(None)
    case Int64s => Slice(None)
    case StringMap => Slice(None)
    case _ => Number(0)
  }

  // Unset is nil or the zero value of the field's type, and nothing more: a
  // pointer to a zero, or an empty slice, is set.
  lemma UnsetIsZero(v: Value, t: GoType)
    requires Typed(v, t)
    ensures Unset(v) <==> v == Zero(t)
    ensures Unset(Nil) && !Unset(PointerTo(Some(v))) && !Unset(Slice(Some([])))
  {
  }

  type Values = map<string, Value>

  function Filtered(m: Values, columns: seq<string>): Values {
    map k | k in m && !(k in columns && Unset(m[k])) :: m[k]
  }

  class RowMap {
    var entries: Values

    // FilterUnset
    method FilterUnset(columns: seq<string>)
      modifies this
      ensures entries == Filtered(old(entries), columns)
    {
      var i := 0;
      while i < |columns|
        invariant 0 <= i <= |columns|
        invariant entries == Filtered(old(entries), columns[..i])
      {
        var col := columns[i];
        assert columns[..i + 1] == columns[..i] + [col];
        if col in entries && Unset(entries[col]) {
          entries := entries - {col};
        }
        i := i + 1;
      }
      assert columns[..i] == columns;
    }
  }

  // ---- Scanning a row and writing it back --------------------------------------

  predicate Scannable(fields: seq<Field>, row: Values) {
    forall f :: f in fields ==> f.column in row
  }

  // pgx's scan by name: each field takes its column's value.
  function Scan(fields: seq<Field>, row: Values): Values
    requires Scannable(fields, row)
  {
    if fields == [] then map[] else
      var f := fields[|fields| - 1];
      Scan(fields[..|fields| - 1], row)[f.name := row[f.column]]
  }

  // The map literal of ToRowMap.
  function Literal(entries: seq<Entry>, struct: Values): Values
    requires forall e :: e in entries ==> e.field in struct
  {
    if entries == [] then map[] else
      var e := entries[|entries| - 1];
      Literal(entries[..|entries| - 1], struct)[e.column := struct[e.field]]
  }

  predicate HasColumns(columns: seq<Column>, row: Values) {
    forall c :: c in columns ==> c.name in row
  }

  lemma FieldsOfColumns(columns: seq<Column>)
    requires AllFine(columns) && DistinctFields(columns)
    ensures DistinctNames(FieldsOf(columns))
    ensures forall i :: 0 <= i < |columns| ==> FieldsOf(columns)[i].column == columns[i].name
  {
    forall i, j | 0 <= i < j < |columns| ensures FieldsOf(columns)[i].name != FieldsOf(columns)[j].name {
      assert columns[i] in columns && columns[j] in columns;
      assert FieldName(columns[i].name) != FieldName(columns[j].name);
    }
  }

  lemma ScanGrows(init: seq<Field>, last: Field, row: Values)
    requires Scannable(init + [last], row)
    ensures Scannable(init, row)
    ensures last.column in row
    ensures Scan(init + [last], row) == Scan(init, row)[last.name := row[last.column]]
  {
    assert (init + [last])[..|init|] == init;
    assert forall f :: f in init ==> f in init + [last];
    assert last in init + [last];
  }

  predicate DistinctNames(fields: seq<Field>) {
    forall i, j :: 0 <= i < j < |fields| ==> fields[i].name != fields[j].name
  }

  // Scanning into distinct fields, each keeps the value of its own column.
  lemma {:induction false} ScanFills(fields: seq<Field>, row: Values, i: nat)
    requires DistinctNames(fields) && i < |fields|
    requires Scannable(fields, row)
    ensures fields[i].name in Scan(fields, row) && Scan(fields, row)[fields[i].name] == row[fields[i].column]
  {
    var n := |fields| - 1;
    assert fields == fields[..n] + [fields[n]];
    ScanGrows(fields[..n], fields[n], row);
    if i < n {
      ScanFills(fields[..n], row, i);
    }
  }

  // What an insert or update should carry for a row.
  function Carried(columns: seq<Column>, row: Values): Values
    requires HasColumns(columns, row)
  {
    map c | c in columns && !c.isPK && !(c.hasDefault && Unset(row[c.name])) :: c.name := row[c.name]
  }

  predicate DistinctColumns(columns: seq<Column>) {
    forall i, j :: 0 <= i < j < |columns| ==> columns[i].name != columns[j].name
  }

  // The literal before defaulted columns are filtered.
  function Written(columns: seq<Column>, row: Values): Values
    requires HasColumns(columns, row)
  {
    map c | c in columns && !c.isPK :: c.name := row[c.name]
  }

  predicate Filled(columns: seq<Column>, fields: seq<Field>, row: Values, struct: Values)
    requires |columns| == |fields| && HasColumns(columns, row)
  {
    forall i :: 0 <= i < |columns| ==> fields[i].name in struct && struct[fields[i].name] == row[columns[i].name]
  }

  predicate FieldsIn(entries: seq<Entry>, struct: Values) {
    forall e :: e in entries ==> e.field in struct
  }

  lemma WrittenGrows(init: seq<Column>, last: Column, row: Values)
    requires HasColumns(init + [last], row)
    ensures HasColumns(init, row) && last.name in row
    ensures Written(init + [last], row) ==
            if last.isPK then Written(init, row) else Written(init, row)[last.name := row[last.name]]
  {
    assert forall c :: c in init ==> c in init + [last];
    assert last in init + [last];
  }

  lemma LiteralGrows(init: seq<Entry>, last: Entry, struct: Values)
    requires FieldsIn(init, struct) && last.field in struct
    ensures FieldsIn(init + [last], struct)
    ensures Literal(init + [last], struct) == Literal(init, struct)[last.column := struct[last.field]]
  {
    assert (init + [last])[..|init|] == init;
  }

  lemma {:induction false} LiteralHolds(columns: seq<Column>, fields: seq<Field>, row: Values, struct: Values)
    requires |columns| == |fields| && HasColumns(columns, row) && Filled(columns, fields, row, struct)
    ensures FieldsIn(EntriesOf(columns, fields), struct)
    ensures Literal(EntriesOf(columns, fields), struct) == Written(columns, row)
  {
    if columns != [] {
      var n := |columns| - 1;
      assert columns == columns[..n] + [columns[n]];
      WrittenGrows(columns[..n], columns[n], row);
      LiteralHolds(columns[..n], fields[..n], row, struct);
      var entries := EntriesOf(columns[..n], fields[..n]);
      if columns[n].isPK {
        assert EntriesOf(columns, fields) == entries;
      } else {
        LiteralGrows(entries, Entry(columns[n].name, fields[n].name), struct);
      }
    }
  }

  lemma {:induction false} DefaultedExactly(columns: seq<Column>, name: string)
    ensures name in DefaultedOf(columns) <==> exists c :: c in columns && !c.isPK && c.hasDefault && c.name == name
  {
    if columns != [] {
      var n := |columns| - 1;
      DefaultedExactly(columns[..n], name);
      assert columns == columns[..n] + [columns[n]];
    }
  }

  // A row scanned into the struct and mapped back carries exactly the columns
  // an insert should: no primary key, no unset column that has a default.
  lemma RowMapRoundTrip(columns: seq<Column>, row: Values)
    requires AllFine(columns) && HasColumns(columns, row) && DistinctColumns(columns) && DistinctFields(columns)
    ensures Scannable(FieldsOf(columns), row)
    ensures FieldsIn(EntriesOf(columns, FieldsOf(columns)), Scan(FieldsOf(columns), row))
    ensures var fields := FieldsOf(columns);
            var struct := Scan(fields, row);
            Filtered(Literal(EntriesOf(columns, fields), struct), DefaultedOf(columns)) == Carried(columns, row)
  {
    var fields := FieldsOf(columns);
    FieldsOfColumns(columns);
    assert Scannable(fields, row);
    forall i | 0 <= i < |columns|
      ensures fields[i].name in Scan(fields, row) && Scan(fields, row)[fields[i].name] == row[columns[i].name]
    {
      ScanFills(fields, row, i);
    }
    LiteralHolds(columns, fields, row, Scan(fields, row));
    FilteredIsCarried(columns, row);
  }

  lemma FilteredIsCarried(columns: seq<Column>, row: Values)
    requires HasColumns(columns, row) && DistinctColumns(columns)
    ensures Filtered(Written(columns, row), DefaultedOf(columns)) == Carried(columns, row)
  {
    forall c | c in columns && !c.isPK
      ensures c.name in DefaultedOf(columns) <==> c.hasDefault
    {
      DefaultedExactly(columns, c.name);
      forall d | d in columns && d.name == c.name ensures d == c {
        var i :| 0 <= i < |columns| && columns[i] == c;
        var j :| 0 <= j < |columns| && columns[j] == d;
      }
    }
  }
}
