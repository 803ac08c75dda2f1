// One variant of cmd/conngen: the bare function that calls a *Tx function with
// the pool at its Queryable parameter. The emitted text is modelled as the
// syntax it parses to, and given Go's meaning of binding and calling.
module ConnVariant {
  import opened Text
  import opened Wrappers

  datatype TypeExpr =
    | Ident(name: string)
    | Selector(pkg: string, sel: string)
    | Ellipsis(elem: string)
    | Other(text: string)

  // An ast.Field: one type, any number of names.
  datatype Field = Field(names: seq<string>, typ: TypeExpr)

  datatype Func = Func(name: string, isMethod: bool, typeParams: seq<Field>, params: seq<Field>, results: seq<Field>)

  // ---- Recognising the Queryable parameter -------------------------------------

  datatype Import = Import(path: string, alias: Option<string>)

  function AfterSlash(path: string): string {
    var parts := Split(path, '/');
    parts[|parts| - 1]
  }

  function LocalName(i: Import): string {
    if i.alias.Some? then i.alias.value else AfterSlash(i.path)
  }

  // importPath: the first import so named, "" when there is none.
  method ImportPath(imports: seq<Import>, local: string) returns (path: string)
    ensures path == PathOf(imports, local)
  {
    for i := 0 to |imports|
      invariant PathOf(imports, local) == PathOf(imports[i..], local)
    {
      assert imports[i..][1..] == imports[i + 1..];
      if LocalName(imports[i]) == local {
        return imports[i].path;
      }
    }
    return "";
  }

  function PathOf(imports: seq<Import>, local: string): string {
    if imports == [] then ""
    else if LocalName(imports[0]) == local then imports[0].path
    else PathOf(imports[1..], local)
  }

  predicate IsQueryable(imports: seq<Import>, pkgName: string, t: TypeExpr) {
    match t
    case Ident(name) => pkgName == "db" && name == "Queryable"
    case Selector(pkg, sel) => sel == "Queryable" && EndsWith(PathOf(imports, pkg), "/db")
    case _ => false
  }

  // The first Queryable field decides; it must hold exactly one name.
  ghost predicate IsTxField(imports: seq<Import>, pkgName: string, params: seq<Field>, i: nat) {
    && i < |params| && IsQueryable(imports, pkgName, params[i].typ) && |params[i].names| == 1
    && forall j :: 0 <= j < i ==> !IsQueryable(imports, pkgName, params[j].typ)
  }

  method QueryableField(imports: seq<Import>, pkgName: string, fn: Func) returns (field: Option<nat>)
    ensures field.Some? ==> IsTxField(imports, pkgName, fn.params, field.value)
    ensures field.None? ==> forall i: nat :: !IsTxField(imports, pkgName, fn.params, i)
    ensures field == TxField(imports, pkgName, fn.params, 0)
  {
    for i := 0 to |fn.params|
      invariant forall j :: 0 <= j < i ==> !IsQueryable(imports, pkgName, fn.params[j].typ)
      invariant TxField(imports, pkgName, fn.params, 0) == TxField(imports, pkgName, fn.params, i)
    {
      if IsQueryable(imports, pkgName, fn.params[i].typ) {
        return if |fn.params[i].names| != 1 then None else Some(i);
      }
    }
    return None;
  }

  function TxField(imports: seq<Import>, pkgName: string, params: seq<Field>, from: nat): (r: Option<nat>)
    ensures r.Some? ==> from <= r.value < |params| && |params[r.value].names| == 1
    ensures r.Some? ==> IsQueryable(imports, pkgName, params[r.value].typ)
    decreases |params| - from
  {
    if from >= |params| then None
    else if IsQueryable(imports, pkgName, params[from].typ) then if |params[from].names| != 1 then None else Some(from)
    else TxField(imports, pkgName, params, from + 1)
  }

  // ---- The emitted variant -------------------------------------------------------

  datatype ConnExpr = Bare | Qualified

  // The identifier that Conn or db.Conn starts with.
  function Root(e: ConnExpr): string {
    if e.Bare? then "Conn" else "db"
  }

  datatype Arg = Pass(name: string, spread: bool) | Conn(expr: ConnExpr)

  datatype Variant = Variant(name: string, target: string, typeParams: seq<Field>, params: seq<Field>,
                             results: seq<TypeExpr>, typeArgs: seq<string>, args: seq<Arg>)

  // strings.TrimSuffix(name, "Tx")
  function BareName(name: string): string {
    if EndsWith(name, "Tx") then name[..|name| - 2] else name
  }

  function Names(fields: seq<Field>): seq<string> {
    if fields == [] then [] else Names(fields[..|fields| - 1]) + fields[|fields| - 1].names
  }

  function ArgsOf(field: Field): seq<Arg> {
    seq(|field.names|, i requires 0 <= i < |field.names| => Pass(field.names[i], field.typ.Ellipsis?))
  }

  function AllArgs(fields: seq<Field>): seq<Arg> {
    if fields == [] then [] else AllArgs(fields[..|fields| - 1]) + ArgsOf(fields[|fields| - 1])
  }

  function Repeat<T>(t: T, n: nat): seq<T> {
    seq(n, _ => t)
  }

  // max(len(field.Names), 1) results of the field's type.
  function FlatTypes(fields: seq<Field>): seq<TypeExpr> {
    if fields == [] then [] else
      var f := fields[|fields| - 1];
      FlatTypes(fields[..|fields| - 1]) + Repeat(f.typ, if f.names == [] then 1 else |f.names|)
  }

  method PrintFields(fields: seq<Field>, skip: nat) returns (parts: seq<Field>)
    requires skip < |fields|
    ensures parts == fields[..skip] + fields[skip + 1..]
  {
    parts := [];
    for i := 0 to |fields|
      invariant parts == if i <= skip then fields[..i] else fields[..skip] + fields[skip + 1..i]
    {
      if i != skip {
        parts := parts + [fields[i]];
      }
    }
  }

  method PrintResults(results: seq<Field>) returns (parts: seq<TypeExpr>)
    ensures parts == FlatTypes(results)
  {
    parts := [];
    for i := 0 to |results|
      invariant parts == FlatTypes(results[..i])
    {
      var n := if results[i].names == [] then 1 else |results[i].names|;
      for k := 0 to n
        invariant parts == FlatTypes(results[..i]) + Repeat(results[i].typ, k)
      {
        parts := parts + [results[i].typ];
      }
      assert results[..i + 1][..i] == results[..i];
    }
    assert results[..|results|] == results;
  }

  method PrintTypeParams(tparams: seq<Field>) returns (decls: seq<Field>, args: seq<string>)
    ensures decls == tparams && args == Names(tparams)
  {
    decls, args := [], [];
    for i := 0 to |tparams|
      invariant decls == tparams[..i] && args == Names(tparams[..i])
    {
      assert tparams[..i + 1][..i] == tparams[..i];
      decls := decls + [tparams[i]];
      args := args + tparams[i].names;
    }
    assert tparams[..|tparams|] == tparams;
  }

  method FieldArgs(field: Field) returns (args: seq<Arg>)
    ensures args == ArgsOf(field)
  {
    args := [];
    for k := 0 to |field.names|
      invariant args == ArgsOf(field)[..k]
    {
      args := args + [Pass(field.names[k], field.typ.Ellipsis?)];
    }
  }

  lemma AllArgsGrows(before: seq<Field>, f: Field)
    ensures AllArgs(before + [f]) == AllArgs(before) + ArgsOf(f)
  {
    assert (before + [f])[..|before|] == before;
  }

  lemma SliceGrows<T>(s: seq<T>, lo: nat, i: nat)
    requires lo <= i < |s|
    ensures s[lo..i + 1] == s[lo..i] + [s[i]]
  {
  }

  // The arguments up to the i-th field.
  function ArgsUpTo(fields: seq<Field>, i: nat, txField: nat, conn: ConnExpr): seq<Arg>
    requires i <= |fields|
  {
    if i <= txField then AllArgs(fields[0..i])
    else AllArgs(fields[0..txField]) + [Conn(conn)] + AllArgs(fields[txField + 1..i])
  }

  lemma ArgsBeforeGrow(fields: seq<Field>, i: nat, txField: nat, conn: ConnExpr)
    requires i < |fields| && i < txField
    ensures ArgsUpTo(fields, i + 1, txField, conn) == ArgsUpTo(fields, i, txField, conn) + ArgsOf(fields[i])
  {
    SliceGrows(fields, 0, i);
    AllArgsGrows(fields[0..i], fields[i]);
  }

  lemma ArgsGainConn(fields: seq<Field>, i: nat, conn: ConnExpr)
    requires i < |fields|
    ensures ArgsUpTo(fields, i + 1, i, conn) == ArgsUpTo(fields, i, i, conn) + [Conn(conn)]
  {
    assert fields[i + 1..i + 1] == [];
  }

  lemma ArgsAfterGrow(fields: seq<Field>, i: nat, txField: nat, conn: ConnExpr)
    requires i < |fields| && i > txField
    ensures ArgsUpTo(fields, i + 1, txField, conn) == ArgsUpTo(fields, i, txField, conn) + ArgsOf(fields[i])
  {
    SliceGrows(fields, txField + 1, i);
    AllArgsGrows(fields[txField + 1..i], fields[i]);
    Regroup(AllArgs(fields[0..txField]) + [Conn(conn)], AllArgs(fields[txField + 1..i]), ArgsOf(fields[i]));
  }

  lemma ArgsUpToGrows(fields: seq<Field>, i: nat, txField: nat, conn: ConnExpr)
    requires i < |fields|
    ensures ArgsUpTo(fields, i + 1, txField, conn) ==
            ArgsUpTo(fields, i, txField, conn) + if i == txField then [Conn(conn)] else ArgsOf(fields[i])
  {
    if i < txField {
      ArgsBeforeGrow(fields, i, txField, conn);
    } else if i == txField {
      ArgsGainConn(fields, i, conn);
    } else {
      ArgsAfterGrow(fields, i, txField, conn);
    }
  }

  lemma ArgsUpToAll(fields: seq<Field>, txField: nat, conn: ConnExpr)
    requires txField < |fields|
    ensures ArgsUpTo(fields, |fields|, txField, conn) ==
            AllArgs(fields[..txField]) + [Conn(conn)] + AllArgs(fields[txField + 1..])
  {
    assert fields[txField + 1..|fields|] == fields[txField + 1..];
    assert fields[0..txField] == fields[..txField];
  }

  method CallArgs(fn: Func, txField: nat, conn: ConnExpr) returns (args: seq<Arg>)
    requires txField < |fn.params|
    ensures args == AllArgs(fn.params[..txField]) + [Conn(conn)] + AllArgs(fn.params[txField + 1..])
  {
    args := [];
    for i := 0 to |fn.params|
      invariant args == ArgsUpTo(fn.params, i, txField, conn)
    {
      ArgsUpToGrows(fn.params, i, txField, conn);
      if i == txField {
        args := args + [Conn(conn)];
      } else {
        var more := FieldArgs(fn.params[i]);
        args := args + more;
      }
    }
    ArgsUpToAll(fn.params, txField, conn);
  }

  function VariantOf(fn: Func, txField: nat, conn: ConnExpr): Variant
    requires txField < |fn.params|
  {
    var before, after := fn.params[..txField], fn.params[txField + 1..];
    Variant(BareName(fn.name), fn.name, fn.typeParams, before + after, FlatTypes(fn.results), Names(fn.typeParams),
            AllArgs(before) + [Conn(conn)] + AllArgs(after))
  }

  method Render(fn: Func, txField: nat, conn: ConnExpr) returns (v: Variant)
    requires txField < |fn.params|
    ensures v == VariantOf(fn, txField, conn)
  {
    var params := PrintFields(fn.params, txField);
    var results := PrintResults(fn.results);
    var typeParams, typeArgs := PrintTypeParams(fn.typeParams);
    var args := CallArgs(fn, txField, conn);
    return Variant(BareName(fn.name), fn.name, typeParams, params, results, typeArgs, args);
  }

  // ---- What a call means ---------------------------------------------------------

  datatype Value = Pool | Opaque(id: int) | Slice(items: seq<Value>) | Member(of: Value, name: string)

  datatype Actual = One(value: Value) | Spread(value: Value)

  // A call as the *Tx function receives it.
  datatype Call = Call(types: seq<string>, values: seq<Value>)

  predicate Variadic(fields: seq<Field>) {
    fields != [] && fields[|fields| - 1].typ.Ellipsis?
  }

  predicate Ones(actuals: seq<Actual>) {
    forall a :: a in actuals ==> a.One?
  }

  function ValuesOf(actuals: seq<Actual>): (vs: seq<Value>)
    ensures |vs| == |actuals|
  {
    seq(|actuals|, i requires 0 <= i < |actuals| => actuals[i].value)
  }

  // The values n parameters take from a call: a variadic last parameter holds
  // the slice that is spread, or a slice of the arguments that are left.
  function Bind(n: nat, variadic: bool, actuals: seq<Actual>): (r: Option<seq<Value>>)
    requires variadic ==> n > 0
    ensures r.Some? ==> |r.value| == n
  {
    if !variadic then
      if |actuals| == n && Ones(actuals) then Some(ValuesOf(actuals)) else None
    else if |actuals| == n && actuals[n - 1].Spread? && Ones(actuals[..n - 1]) then Some(ValuesOf(actuals))
    else if |actuals| >= n - 1 && Ones(actuals) then
      Some(ValuesOf(actuals[..n - 1]) + [Slice(ValuesOf(actuals[n - 1..]))])
    else None
  }

  function Position(names: seq<string>, x: string): nat
    requires x in names
    ensures Position(names, x) < |names| && names[Position(names, x)] == x
  {
    if names[0] == x then 0 else 1 + Position(names[1..], x)
  }

  // An argument in the variant's body. A parameter hides a package-level name;
  // the blank identifier and a type parameter are no values.
  function Evaluate(arg: Arg, names: seq<string>, typeNames: seq<string>, values: seq<Value>): Option<Actual>
    requires |names| == |values|
  {
    match arg
    case Pass(name, spread) =>
      if name == "_" || name !in names then None
      else Some(if spread then Spread(values[Position(names, name)]) else One(values[Position(names, name)]))
    case Conn(e) =>
      if Root(e) in names then
        var held := values[Position(names, Root(e))];
        Some(One(if e.Bare? then held else Member(held, "Conn")))
      else if Root(e) in typeNames then None
      else Some(One(Pool))
  }

  function EvaluateAll(args: seq<Arg>, names: seq<string>, typeNames: seq<string>, values: seq<Value>)
    : Option<seq<Actual>>
    requires |names| == |values|
  {
    if forall a :: a in args ==> Evaluate(a, names, typeNames, values).Some? then
      Some(seq(|args|, i requires 0 <= i < |args| => Evaluate(args[i], names, typeNames, values).value))
    else None
  }

  function TypesPassed(typeArgs: seq<string>, typeNames: seq<string>, types: seq<string>): Option<seq<string>> {
    if |types| == |typeNames| && (forall t :: t in typeArgs ==> t != "_" && t in typeNames) then
      Some(seq(|typeArgs|, i requires 0 <= i < |typeArgs| => types[Position(typeNames, typeArgs[i])]))
    else None
  }

  // The variant's body: return target[typeArgs](args...). None where that is no
  // valid Go: a hidden target, an argument without a value, nothing to return.
  function Body(v: Variant, fn: Func, types: seq<string>, values: seq<Value>): Option<Call>
    requires |values| == |Names(v.params)|
    requires Variadic(fn.params) ==> Names(fn.params) != []
  {
    var names, typeNames := Names(v.params), Names(v.typeParams);
    var passed := EvaluateAll(v.args, names, typeNames, values);
    var given := TypesPassed(v.typeArgs, typeNames, types);
    if v.results == [] || v.target in names || v.target in typeNames || passed.None? || given.None? then None else
      var received := Bind(|Names(fn.params)|, Variadic(fn.params), passed.value);
      if received.None? then None else Some(Call(given.value, received.value))
  }

  function Run(v: Variant, fn: Func, types: seq<string>, actuals: seq<Actual>): Option<Call>
    requires Variadic(v.params) ==> Names(v.params) != []
    requires Variadic(fn.params) ==> Names(fn.params) != []
  {
    var bound := Bind(|Names(v.params)|, Variadic(v.params), actuals);
    if bound.None? then None else Body(v, fn, types, bound.value)
  }

  // ---- The variant and the *Tx function agree --------------------------------------

  // What Go asks of the signature: distinct names but for blanks, an ellipsis
  // only on the last parameter, which then has one name.
  predicate GoSignature(fn: Func) {
    && DistinctButBlank(Names(fn.typeParams) + Names(fn.params))
    && (forall i :: 0 <= i < |fn.params| && fn.params[i].typ.Ellipsis? ==>
          i == |fn.params| - 1 && |fn.params[i].names| == 1)
  }

  predicate DistinctButBlank(names: seq<string>) {
    forall i, j :: 0 <= i < j < |names| && names[i] == names[j] ==> names[i] == "_"
  }

  function OtherNames(fn: Func, txField: nat): seq<string>
    requires txField < |fn.params|
  {
    Names(fn.typeParams) + Names(fn.params[..txField] + fn.params[txField + 1..])
  }

  // Some result to return, no blank to pass on, and neither the pool nor the
  // *Tx function hidden by a name that the variant declares.
  predicate Faithful(fn: Func, txField: nat, conn: ConnExpr)
    requires txField < |fn.params|
  {
    fn.results != [] && "_" !in OtherNames(fn, txField) && Root(conn) !in OtherNames(fn, txField)
    && fn.name !in OtherNames(fn, txField)
  }

  predicate TxSignature(fn: Func, txField: nat) {
    GoSignature(fn) && txField < |fn.params| && |fn.params[txField].names| == 1 && !fn.params[txField].typ.Ellipsis?
  }

  lemma {:induction false} NamesAppend(a: seq<Field>, b: seq<Field>)
    ensures Names(a + b) == Names(a) + Names(b)
  {
    if b == [] {
      assert a + b == a;
    } else {
      var init, last := b[..|b| - 1], b[|b| - 1];
      NamesAppend(a, init);
      assert (a + b)[..|a + b| - 1] == a + init && (a + b)[|a + b| - 1] == last;
      assert Names(a + b) == Names(a + init) + last.names;
      assert Names(b) == Names(init) + last.names;
    }
  }

  lemma NamesGrow(before: seq<Field>, f: Field)
    ensures Names(before + [f]) == Names(before) + f.names
  {
    assert (before + [f])[..|before|] == before;
  }

  lemma NamesAround(fields: seq<Field>, before: seq<Field>, f: Field, after: seq<Field>)
    requires fields == before + [f] + after
    ensures Names(fields) == Names(before) + f.names + Names(after)
  {
    NamesGrow(before, f);
    NamesAppend(before + [f], after);
  }

  lemma {:induction false} ArgsNameTheParameters(fields: seq<Field>)
    ensures |AllArgs(fields)| == |Names(fields)|
    ensures forall k :: 0 <= k < |Names(fields)| ==>
              AllArgs(fields)[k].Pass? && AllArgs(fields)[k].name == Names(fields)[k]
  {
    if fields != [] {
      ArgsNameTheParameters(fields[..|fields| - 1]);
    }
  }

  // Only the one name of a variadic last parameter is spread.
  lemma {:induction false} OnlyTheLastSpreads(fields: seq<Field>)
    requires forall i :: 0 <= i < |fields| && fields[i].typ.Ellipsis? ==> i == |fields| - 1 && |fields[i].names| == 1
    ensures |AllArgs(fields)| == |Names(fields)|
    ensures Variadic(fields) ==> Names(fields) != []
    ensures forall k :: 0 <= k < |Names(fields)| ==>
      (AllArgs(fields)[k].Pass? && (AllArgs(fields)[k].spread <==> Variadic(fields) && k == |Names(fields)| - 1))
  {
    if fields != [] {
      var init := fields[..|fields| - 1];
      OnlyTheLastSpreads(init);
      ArgsNameTheParameters(fields);
    }
  }

  function Before(fn: Func, txField: nat): seq<string>
    requires txField < |fn.params|
  {
    Names(fn.params[..txField])
  }

  // The parameters of the variant, by name.
  function Kept(fn: Func, txField: nat): (names: seq<string>)
    requires txField < |fn.params|
  {
    Names(fn.params[..txField] + fn.params[txField + 1..])
  }

  lemma SplitAt<T>(s: seq<T>, i: nat)
    requires i < |s|
    ensures s == s[..i] + [s[i]] + s[i + 1..]
  {
  }

  lemma ParameterShape(fn: Func, txField: nat)
    requires TxSignature(fn, txField)
    ensures Kept(fn, txField) == Before(fn, txField) + Names(fn.params[txField + 1..])
    ensures Names(fn.params) == Before(fn, txField) + fn.params[txField].names + Names(fn.params[txField + 1..])
    ensures |Names(fn.params)| == |Kept(fn, txField)| + 1
  {
    var before, f, after := fn.params[..txField], fn.params[txField], fn.params[txField + 1..];
    SplitAt(fn.params, txField);
    NamesAround(fn.params, before, f, after);
    NamesAppend(before, after);
  }

  lemma VariadicShape(fn: Func, txField: nat)
    requires TxSignature(fn, txField)
    ensures Variadic(fn.params) <==> Variadic(fn.params[..txField] + fn.params[txField + 1..])
    ensures Variadic(fn.params) <==> Variadic(fn.params[txField + 1..])
    ensures !Variadic(fn.params[..txField])
    ensures Variadic(fn.params) ==> |Before(fn, txField)| < |Kept(fn, txField)|
  {
    var before, after := fn.params[..txField], fn.params[txField + 1..];
    OnlyTheLastSpreads(after);
    ParameterShape(fn, txField);
    if after != [] {
      assert (before + after)[|before + after| - 1] == after[|after| - 1] == fn.params[|fn.params| - 1];
    } else {
      assert before + after == before;
    }
  }

  predicate Accepts(fn: Func, txField: nat, types: seq<string>, actuals: seq<Actual>)
    requires TxSignature(fn, txField)
  {
    VariadicShape(fn, txField);
    |types| == |Names(fn.typeParams)| && Bind(|Kept(fn, txField)|, Variadic(fn.params), actuals).Some?
  }

  function Inserted(actuals: seq<Actual>, p: nat): seq<Actual>
    requires p <= |actuals|
  {
    actuals[..p] + [One(Pool)] + actuals[p..]
  }

  function WithPool(values: seq<Value>, p: nat): seq<Value>
    requires p <= |values|
  {
    values[..p] + [Pool] + values[p..]
  }

  lemma ValuesInserted(actuals: seq<Actual>, p: nat)
    requires p <= |actuals|
    ensures ValuesOf(Inserted(actuals, p)) == WithPool(ValuesOf(actuals), p)
    ensures Ones(Inserted(actuals, p)) <==> Ones(actuals)
  {
    assert actuals == actuals[..p] + actuals[p..];
  }

  lemma BindInserted(n: nat, variadic: bool, actuals: seq<Actual>, p: nat)
    requires variadic ==> p < n
    requires p <= n
    requires Bind(n, variadic, actuals).Some?
    ensures p <= |actuals|
    ensures Bind(n + 1, variadic, Inserted(actuals, p)) == Some(WithPool(Bind(n, variadic, actuals).value, p))
  {
    var more := Inserted(actuals, p);
    ValuesInserted(actuals, p);
    if variadic {
      ValuesInserted(actuals[..n - 1], p);
      assert more[..n] == Inserted(actuals[..n - 1], p) && more[n..] == actuals[n - 1..];
      if |actuals| == n && actuals[n - 1].Spread? && Ones(actuals[..n - 1]) {
        assert more[n] == actuals[n - 1];
      } else {
        var init, slice := ValuesOf(actuals[..n - 1]), [Slice(ValuesOf(actuals[n - 1..]))];
        assert more[p].One? && Ones(more);
        assert !(|more| == n + 1 && more[n].Spread?);
        assert WithPool(init, p) + slice == WithPool(init + slice, p);
      }
    }
  }

  // A direct call of the *Tx function with the pool put in its place.
  function Direct(fn: Func, txField: nat, types: seq<string>, actuals: seq<Actual>): Option<Call>
    requires TxSignature(fn, txField) && Accepts(fn, txField, types, actuals)
  {
    ParameterShape(fn, txField);
    VariadicShape(fn, txField);
    var p := |Before(fn, txField)|;
    BindInserted(|Kept(fn, txField)|, Variadic(fn.params), actuals, p);
    var received := Bind(|Names(fn.params)|, Variadic(fn.params), Inserted(actuals, p));
    Some(Call(types, received.value))
  }

  lemma {:induction false} PositionOf(names: seq<string>, k: nat)
    requires k < |names| && forall i, j :: 0 <= i < j < |names| ==> names[i] != names[j]
    ensures Position(names, names[k]) == k
  {
    if k > 0 {
      assert names[0] != names[k] && names[1..][k - 1] == names[k];
      PositionOf(names[1..], k - 1);
    }
  }

  lemma OthersAreDistinct(fn: Func, txField: nat)
    requires TxSignature(fn, txField) && "_" !in OtherNames(fn, txField)
    ensures forall i, j :: 0 <= i < j < |Kept(fn, txField)| ==> Kept(fn, txField)[i] != Kept(fn, txField)[j]
    ensures forall i, j :: 0 <= i < j < |Names(fn.typeParams)| ==> Names(fn.typeParams)[i] != Names(fn.typeParams)[j]
  {
    var all, t := Names(fn.typeParams) + Names(fn.params), |Names(fn.typeParams)|;
    var kept, p := Kept(fn, txField), |Before(fn, txField)|;
    ParameterShape(fn, txField);
    forall i, j | 0 <= i < j < |kept| ensures kept[i] != kept[j] {
      var x, y := t + (if i < p then i else i + 1), t + (if j < p then j else j + 1);
      assert all[x] == kept[i] && all[y] == kept[j];
      assert kept[i] in OtherNames(fn, txField);
    }
    forall i, j | 0 <= i < j < t ensures Names(fn.typeParams)[i] != Names(fn.typeParams)[j] {
      assert all[i] == Names(fn.typeParams)[i] && all[j] == Names(fn.typeParams)[j];
      assert all[i] in OtherNames(fn, txField);
    }
  }

  // The actuals that forward these values, the last one spread if variadic.
  function Forwarded(values: seq<Value>, variadic: bool): seq<Actual> {
    seq(|values|, i requires 0 <= i < |values| =>
      if variadic && i == |values| - 1 then Spread(values[i]) else One(values[i]))
  }

  lemma BindForwarded(values: seq<Value>, variadic: bool)
    requires variadic ==> values != []
    ensures Bind(|values|, variadic, Forwarded(values, variadic)) == Some(values)
  {
    assert ValuesOf(Forwarded(values, variadic)) == values;
  }

  // The k-th argument of the variant's call.
  lemma ArgAt(fn: Func, txField: nat, conn: ConnExpr, k: nat)
    requires TxSignature(fn, txField) && k <= |Kept(fn, txField)|
    ensures |VariantOf(fn, txField, conn).args| == |Kept(fn, txField)| + 1
    ensures |Before(fn, txField)| <= |Kept(fn, txField)|
    ensures VariantOf(fn, txField, conn).args[k] ==
            if k == |Before(fn, txField)| then Conn(conn)
            else if k < |Before(fn, txField)| then Pass(Kept(fn, txField)[k], false)
            else Pass(Kept(fn, txField)[k - 1], Variadic(fn.params) && k == |Kept(fn, txField)|)
  {
    var before, after := fn.params[..txField], fn.params[txField + 1..];
    ParameterShape(fn, txField);
    VariadicShape(fn, txField);
    ArgsNameTheParameters(before);
    ArgsNameTheParameters(after);
    OnlyTheLastSpreads(before);
    OnlyTheLastSpreads(after);
    PutBetween(AllArgs(before), Conn(conn), AllArgs(after), k);
    PutBetween(Names(before), "", Names(after), k);
  }

  lemma PutBetween<T>(a: seq<T>, x: T, b: seq<T>, k: nat)
    requires k <= |a| + |b|
    ensures (a + [x] + b)[k] == if k < |a| then a[k] else if k == |a| then x else b[k - |a| - 1]
    ensures k != |a| ==> (a + b)[if k < |a| then k else k - 1] == (a + [x] + b)[k]
  {
  }

  // What a faithful variant passes at the k-th place.
  lemma ArgForwards(fn: Func, txField: nat, conn: ConnExpr, values: seq<Value>, k: nat)
    requires TxSignature(fn, txField) && Faithful(fn, txField, conn) && |values| == |Kept(fn, txField)|
    requires k <= |values| && |Before(fn, txField)| <= |values|
    requires |VariantOf(fn, txField, conn).args| == |values| + 1
    ensures Evaluate(VariantOf(fn, txField, conn).args[k], Kept(fn, txField), Names(fn.typeParams), values) ==
            Some(Forwarded(WithPool(values, |Before(fn, txField)|), Variadic(fn.params))[k])
  {
    var kept, p := Kept(fn, txField), |Before(fn, txField)|;
    ArgAt(fn, txField, conn, k);
    VariadicShape(fn, txField);
    if k != p {
      var i := if k < p then k else k - 1;
      OthersAreDistinct(fn, txField);
      PositionOf(kept, i);
      assert kept[i] in OtherNames(fn, txField);
      assert WithPool(values, p)[k] == values[i];
    }
  }

  lemma ArgsForward(fn: Func, txField: nat, conn: ConnExpr, values: seq<Value>)
    requires TxSignature(fn, txField) && Faithful(fn, txField, conn) && |values| == |Kept(fn, txField)|
    ensures |Before(fn, txField)| <= |values|
    ensures EvaluateAll(VariantOf(fn, txField, conn).args, Kept(fn, txField), Names(fn.typeParams), values) ==
            Some(Forwarded(WithPool(values, |Before(fn, txField)|), Variadic(fn.params)))
  {
    ArgAt(fn, txField, conn, 0);
    EvaluateEach(VariantOf(fn, txField, conn).args, Kept(fn, txField), Names(fn.typeParams), values,
                 Forwarded(WithPool(values, |Before(fn, txField)|), Variadic(fn.params))) by {
      forall k | 0 <= k <= |values|
        ensures Evaluate(VariantOf(fn, txField, conn).args[k], Kept(fn, txField), Names(fn.typeParams), values) ==
                Some(Forwarded(WithPool(values, |Before(fn, txField)|), Variadic(fn.params))[k])
      {
        ArgForwards(fn, txField, conn, values, k);
      }
    }
  }

  lemma EvaluateEach(args: seq<Arg>, names: seq<string>, typeNames: seq<string>, values: seq<Value>,
                     passed: seq<Actual>)
    requires |names| == |values| && |args| == |passed|
    requires forall k :: 0 <= k < |args| ==> Evaluate(args[k], names, typeNames, values) == Some(passed[k])
    ensures EvaluateAll(args, names, typeNames, values) == Some(passed)
  {
    assert forall a :: a in args ==> Evaluate(a, names, typeNames, values).Some?;
    assert EvaluateAll(args, names, typeNames, values).value == passed;
  }

  lemma TypesForward(fn: Func, txField: nat, types: seq<string>)
    requires TxSignature(fn, txField) && "_" !in OtherNames(fn, txField) && |types| == |Names(fn.typeParams)|
    ensures TypesPassed(Names(fn.typeParams), Names(fn.typeParams), types) == Some(types)
  {
    OthersAreDistinct(fn, txField);
    var names := Names(fn.typeParams);
    assert forall t :: t in Names(fn.typeParams) ==> t in OtherNames(fn, txField);
    forall k | 0 <= k < |names| ensures Position(names, names[k]) == k {
      PositionOf(names, k);
    }
    assert TypesPassed(names, names, types).value == types;
  }

  lemma {:induction false} NoResultsNoTypes(results: seq<Field>)
    ensures FlatTypes(results) == [] <==> results == []
  {
    if results != [] {
      NoResultsNoTypes(results[..|results| - 1]);
    }
  }

  lemma FaithfulBody(fn: Func, txField: nat, conn: ConnExpr, types: seq<string>, values: seq<Value>)
    requires TxSignature(fn, txField) && Faithful(fn, txField, conn)
    requires |types| == |Names(fn.typeParams)| && |values| == |Kept(fn, txField)|
    ensures |Before(fn, txField)| <= |values|
    ensures Variadic(fn.params) ==> Names(fn.params) != []
    ensures Body(VariantOf(fn, txField, conn), fn, types, values) ==
            Some(Call(types, WithPool(values, |Before(fn, txField)|)))
  {
    ParameterShape(fn, txField);
    ArgsForward(fn, txField, conn, values);
    BindForwarded(WithPool(values, |Before(fn, txField)|), Variadic(fn.params));
    TypesForward(fn, txField, types);
    NoResultsNoTypes(fn.results);
    assert forall n :: n in Names(fn.typeParams) || n in Kept(fn, txField) ==> n in OtherNames(fn, txField);
  }

  lemma FaithfulRuns(fn: Func, txField: nat, conn: ConnExpr, types: seq<string>, actuals: seq<Actual>)
    requires TxSignature(fn, txField) && Faithful(fn, txField, conn) && Accepts(fn, txField, types, actuals)
    ensures Variadic(VariantOf(fn, txField, conn).params) ==> Names(VariantOf(fn, txField, conn).params) != []
    ensures Variadic(fn.params) ==> Names(fn.params) != []
    ensures Run(VariantOf(fn, txField, conn), fn, types, actuals) == Direct(fn, txField, types, actuals)
  {
    ParameterShape(fn, txField);
    VariadicShape(fn, txField);
    var bound := Bind(|Kept(fn, txField)|, Variadic(fn.params), actuals).value;
    FaithfulBody(fn, txField, conn, types, bound);
    BindInserted(|Kept(fn, txField)|, Variadic(fn.params), actuals, |Before(fn, txField)|);
  }

  // ---- An unfaithful variant goes wrong ---------------------------------------------

  // A call every variant accepts: one opaque value for each parameter.
  function Sample(n: nat): seq<Actual> {
    Repeat(One(Opaque(0)), n)
  }

  lemma SampleBinds(n: nat, variadic: bool)
    requires variadic ==> n > 0
    ensures Bind(n, variadic, Sample(n)).Some?
    ensures Pool !in Bind(n, variadic, Sample(n)).value
  {
    assert Ones(Sample(n)) && Ones(Sample(n)[..if variadic then n - 1 else n]);
  }

  lemma BindAt(n: nat, variadic: bool, actuals: seq<Actual>, p: nat)
    requires |actuals| == n && p < n && (variadic ==> p < n - 1) && Bind(n, variadic, actuals).Some?
    ensures Bind(n, variadic, actuals).value[p] == actuals[p].value
  {
  }

  lemma EvaluatedAt(args: seq<Arg>, names: seq<string>, typeNames: seq<string>, values: seq<Value>, k: nat)
    requires |names| == |values| && k < |args| && EvaluateAll(args, names, typeNames, values).Some?
    ensures Evaluate(args[k], names, typeNames, values).Some?
    ensures |EvaluateAll(args, names, typeNames, values).value| == |args|
    ensures EvaluateAll(args, names, typeNames, values).value[k] == Evaluate(args[k], names, typeNames, values).value
  {
    assert args[k] in args;
  }

  lemma NoBlankEvaluates(fn: Func, txField: nat, conn: ConnExpr, values: seq<Value>, i: nat)
    requires TxSignature(fn, txField) && |values| == |Kept(fn, txField)| && i < |values|
    requires EvaluateAll(VariantOf(fn, txField, conn).args, Kept(fn, txField), Names(fn.typeParams), values).Some?
    ensures Kept(fn, txField)[i] != "_"
  {
    var k := if i < |Before(fn, txField)| then i else i + 1;
    ArgAt(fn, txField, conn, k);
    EvaluatedAt(VariantOf(fn, txField, conn).args, Kept(fn, txField), Names(fn.typeParams), values, k);
  }

  // A body that runs has no blank among its arguments, and no hidden target.
  lemma RunningBody(fn: Func, txField: nat, conn: ConnExpr, types: seq<string>, values: seq<Value>)
    requires TxSignature(fn, txField) && |values| == |Kept(fn, txField)|
    requires Variadic(fn.params) ==> Names(fn.params) != []
    requires Body(VariantOf(fn, txField, conn), fn, types, values).Some?
    ensures fn.results != [] && "_" !in OtherNames(fn, txField) && fn.name !in OtherNames(fn, txField)
    ensures EvaluateAll(VariantOf(fn, txField, conn).args, Kept(fn, txField), Names(fn.typeParams), values).Some?
  {
    NoResultsNoTypes(fn.results);
    forall i | 0 <= i < |values| ensures Kept(fn, txField)[i] != "_" {
      NoBlankEvaluates(fn, txField, conn, values, i);
    }
  }

  // Where the pool's name is hidden, the call gets something else, or nothing.
  lemma HiddenPool(fn: Func, txField: nat, conn: ConnExpr, types: seq<string>, values: seq<Value>)
    requires TxSignature(fn, txField) && |values| == |Kept(fn, txField)| && Pool !in values
    requires Variadic(fn.params) ==> Names(fn.params) != []
    requires Root(conn) in OtherNames(fn, txField)
    requires Body(VariantOf(fn, txField, conn), fn, types, values).Some?
    ensures |Before(fn, txField)| < |Names(fn.params)|
    ensures |Body(VariantOf(fn, txField, conn), fn, types, values).value.values| == |Names(fn.params)|
    ensures Body(VariantOf(fn, txField, conn), fn, types, values).value.values[|Before(fn, txField)|] != Pool
  {
    var args, kept, p := VariantOf(fn, txField, conn).args, Kept(fn, txField), |Before(fn, txField)|;
    RunningBody(fn, txField, conn, types, values);
    ParameterShape(fn, txField);
    VariadicShape(fn, txField);
    ArgAt(fn, txField, conn, p);
    EvaluatedAt(args, kept, Names(fn.typeParams), values, p);
    var passed := EvaluateAll(args, kept, Names(fn.typeParams), values).value;
    BindAt(|Names(fn.params)|, Variadic(fn.params), passed, p);
    assert Root(conn) in kept;
    assert values[Position(kept, Root(conn))] in values;
  }

  function Called(fn: Func, txField: nat, conn: ConnExpr, types: seq<string>, actuals: seq<Actual>): Option<Call>
    requires TxSignature(fn, txField)
  {
    ParameterShape(fn, txField);
    VariadicShape(fn, txField);
    Run(VariantOf(fn, txField, conn), fn, types, actuals)
  }

  ghost predicate AlwaysAgrees(fn: Func, txField: nat, conn: ConnExpr)
    requires TxSignature(fn, txField)
  {
    forall types, actuals :: Accepts(fn, txField, types, actuals) ==>
      Called(fn, txField, conn, types, actuals) == Direct(fn, txField, types, actuals)
  }

  // A sampled call that agrees shows the signature faithful.
  lemma SampleShowsFaithful(fn: Func, txField: nat, conn: ConnExpr)
    requires TxSignature(fn, txField)
    ensures Accepts(fn, txField, Names(fn.typeParams), Sample(|Kept(fn, txField)|))
    ensures var types, actuals := Names(fn.typeParams), Sample(|Kept(fn, txField)|);
            (Called(fn, txField, conn, types, actuals) == Direct(fn, txField, types, actuals) ==>
               Faithful(fn, txField, conn))
  {
    var types, n, p := Names(fn.typeParams), |Kept(fn, txField)|, |Before(fn, txField)|;
    ParameterShape(fn, txField);
    VariadicShape(fn, txField);
    SampleBinds(n, Variadic(fn.params));
    var values := Bind(n, Variadic(fn.params), Sample(n)).value;
    BindInserted(n, Variadic(fn.params), Sample(n), p);
    var direct := Direct(fn, txField, types, Sample(n));
    assert direct == Some(Call(types, WithPool(values, p))) && direct.value.values[p] == Pool;
    if Called(fn, txField, conn, types, Sample(n)) == direct {
      RunningBody(fn, txField, conn, types, values);
      if Root(conn) in OtherNames(fn, txField) {
        HiddenPool(fn, txField, conn, types, values);
      }
    }
  }

  // For all type arguments and arguments, the variant's call is the *Tx call
  // with the pool in place, exactly when the signature is faithful.
  lemma VariantCallsTxExactly(fn: Func, txField: nat, conn: ConnExpr)
    requires TxSignature(fn, txField)
    ensures AlwaysAgrees(fn, txField, conn) <==> Faithful(fn, txField, conn)
  {
    SampleShowsFaithful(fn, txField, conn);
    if Faithful(fn, txField, conn) {
      forall types, actuals | Accepts(fn, txField, types, actuals)
        ensures Called(fn, txField, conn, types, actuals) == Direct(fn, txField, types, actuals)
      {
        FaithfulRuns(fn, txField, conn, types, actuals);
      }
    }
  }

  // What the direct call hands over: what the parameters without the pool would
  // hold, in order, and the pool between.
  lemma DirectInsertsThePool(fn: Func, txField: nat, types: seq<string>, actuals: seq<Actual>)
    requires TxSignature(fn, txField) && Accepts(fn, txField, types, actuals)
    ensures Variadic(fn.params) ==> Kept(fn, txField) != []
    ensures var held := Bind(|Kept(fn, txField)|, Variadic(fn.params), actuals);
            && held.Some? && |Before(fn, txField)| <= |held.value|
            && Direct(fn, txField, types, actuals) == Some(Call(types, WithPool(held.value, |Before(fn, txField)|)))
    ensures !Variadic(fn.params) ==>
            Bind(|Kept(fn, txField)|, false, actuals) == Some(ValuesOf(actuals))
  {
    ParameterShape(fn, txField);
    VariadicShape(fn, txField);
    BindInserted(|Kept(fn, txField)|, Variadic(fn.params), actuals, |Before(fn, txField)|);
  }

  lemma NamesOfPair(f: Field, g: Field)
    ensures Names([f, g]) == f.names + g.names && Names([g]) == g.names
  {
    NamesGrow([], f);
    NamesGrow([f], g);
    NamesGrow([], g);
    assert [] + [f] == [f] && [f] + [g] == [f, g] && [] + [g] == [g];
  }

  lemma TwoParameters(fn: Func, tx: Field, other: Field, a: string, b: string)
    requires fn.typeParams == [] && fn.params == [tx, other] && a != b
    requires tx.names == [a] && other.names == [b] && !tx.typ.Ellipsis? && !other.typ.Ellipsis?
    ensures TxSignature(fn, 0) && OtherNames(fn, 0) == [b]
  {
    NamesOfPair(tx, other);
    assert Names(fn.params) == [a, b];
    assert fn.params[..0] + fn.params[1..] == [other];
  }

  // A parameter called db hides the package whose pool should be passed.
  lemma HiddenPoolExample()
    ensures var fn := Func("SaveTx", false, [],
                           [Field(["tx"], Selector("db", "Queryable")), Field(["db"], Ident("string"))],
                           [Field([], Ident("error"))]);
            TxSignature(fn, 0) && !AlwaysAgrees(fn, 0, Qualified)
  {
    var tx, name := Field(["tx"], Selector("db", "Queryable")), Field(["db"], Ident("string"));
    var fn := Func("SaveTx", false, [], [tx, name], [Field([], Ident("error"))]);
    TwoParameters(fn, tx, name, "tx", "db");
    VariantCallsTxExactly(fn, 0, Qualified);
  }
}
