// The FooTx convention in Go's own terms (cmd/conngen/main.go), and that the
// generator selects and refuses exactly by it.
module ConnConvention {
  import opened Text
  import opened ConnVariant
  import opened ConnGen
  import opened Wrappers

  // ---- Local names of imports ---------------------------------------------------------

  // Go's name for an import: its alias, or what follows the last slash of its path.
  ghost predicate LocallyNamed(i: Import, local: string) {
    match i.alias
    case Some(alias) => alias == local
    case None => IsLastPart(i.path, local)
  }

  ghost predicate IsLastPart(path: string, part: string) {
    '/' !in part && (path == part || exists k :: 0 <= k < |path| && path[k] == '/' && path[k + 1..] == part)
  }

  lemma LastPartIsUnique(path: string, a: string, b: string)
    requires IsLastPart(path, a) && IsLastPart(path, b)
    ensures a == b
  {
    if |a| < |b| {
      ShorterHasSlash(path, a, b);
    } else if |b| < |a| {
      ShorterHasSlash(path, b, a);
    } else {
      assert path[|path| - |a|..] == a && path[|path| - |b|..] == b;
    }
  }

  lemma ShorterHasSlash(path: string, a: string, b: string)
    requires IsLastPart(path, a) && IsLastPart(path, b)
    ensures |a| >= |b|
  {
    var from := |path| - |b|;
    assert path[from..] == b;
    assert forall j :: from <= j < |path| ==> path[j] == b[j - from] && path[j] != '/';
    if path != a {
      var k :| 0 <= k < |path| && path[k] == '/' && path[k + 1..] == a;
      assert k < from;
    }
  }

  lemma {:induction false} AfterSlashIsLast(path: string)
    ensures '/' !in AfterSlash(path)
    ensures if '/' in path then exists k :: 0 <= k < |path| && path[k] == '/' && path[k + 1..] == AfterSlash(path)
            else AfterSlash(path) == path
  {
    if path != "" {
      var rest := Split(path[1..], '/');
      AfterSlashIsLast(path[1..]);
      assert path == [path[0]] + path[1..];
      if '/' in path[1..] {
        SlashMeansParts(path[1..]);
        var k :| 0 <= k < |path[1..]| && path[1..][k] == '/' && path[1..][k + 1..] == AfterSlash(path[1..]);
        assert path[k + 1] == '/' && path[k + 2..] == path[1..][k + 1..];
        assert AfterSlash(path) == AfterSlash(path[1..]);
      } else {
        SplitOfWord(path[1..], "", '/');
        if path[0] == '/' {
          assert path[0 + 1..] == AfterSlash(path);
        } else {
          assert AfterSlash(path) == [path[0]] + path[1..];
        }
      }
    }
  }

  lemma {:induction false} SlashMeansParts(path: string)
    requires '/' in path
    ensures |Split(path, '/')| >= 2
  {
    if path[0] != '/' {
      assert path == [path[0]] + path[1..];
      SlashMeansParts(path[1..]);
    }
  }

  // The generator's local name of an import is Go's.
  lemma LocalNameExactly(i: Import, local: string)
    ensures LocalName(i) == local <==> LocallyNamed(i, local)
  {
    if i.alias.None? {
      AfterSlashIsLast(i.path);
      assert IsLastPart(i.path, AfterSlash(i.path));
      if IsLastPart(i.path, local) {
        LastPartIsUnique(i.path, local, AfterSlash(i.path));
      }
    }
  }

  // ---- The Queryable parameter -----------------------------------------------------------

  // The first import of that local name has a path that ends in a part named db
  // after a slash.
  ghost predicate FromDb(imports: seq<Import>, pkg: string) {
    exists i :: 0 <= i < |imports| && LocallyNamed(imports[i], pkg) && EndsInDb(imports[i].path)
                && forall j :: 0 <= j < i ==> !LocallyNamed(imports[j], pkg)
  }

  predicate EndsInDb(path: string) {
    |path| >= 3 && path[|path| - 3] == '/' && path[|path| - 2] == 'd' && path[|path| - 1] == 'b'
  }

  // Queryable by itself in package db, or selected off a package from a db path.
  ghost predicate NamesQueryable(imports: seq<Import>, pkgName: string, t: TypeExpr) {
    || (t.Ident? && pkgName == "db" && t.name == "Queryable")
    || (t.Selector? && t.sel == "Queryable" && FromDb(imports, t.pkg))
  }

  lemma EndsInDbExactly(path: string)
    ensures EndsWith(path, "/db") <==> EndsInDb(path)
  {
    if |path| >= 3 {
      var end := path[|path| - 3..];
      assert end[0] == path[|path| - 3] && end[1] == path[|path| - 2] && end[2] == path[|path| - 1];
      assert "/db"[0] == '/' && "/db"[1] == 'd' && "/db"[2] == 'b';
    }
  }

  lemma {:induction false} PathOfExactly(imports: seq<Import>, local: string)
    ensures EndsInDb(PathOf(imports, local)) <==> FromDb(imports, local)
  {
    if imports != [] {
      var tail := imports[1..];
      LocalNameExactly(imports[0], local);
      PathOfExactly(tail, local);
      assert forall i :: 0 < i < |imports| ==> imports[i] == tail[i - 1];
      if LocallyNamed(imports[0], local) {
        assert imports[0] in imports;
      } else if FromDb(tail, local) {
        var i :| 0 <= i < |tail| && LocallyNamed(tail[i], local) && EndsInDb(tail[i].path)
                 && forall j :: 0 <= j < i ==> !LocallyNamed(tail[j], local);
        assert LocallyNamed(imports[i + 1], local) && EndsInDb(imports[i + 1].path);
      }
      if !LocallyNamed(imports[0], local) && FromDb(imports, local) {
        var i :| 0 <= i < |imports| && LocallyNamed(imports[i], local) && EndsInDb(imports[i].path)
                 && forall j :: 0 <= j < i ==> !LocallyNamed(imports[j], local);
        assert LocallyNamed(tail[i - 1], local);
        assert forall j :: 0 <= j < i - 1 ==> tail[j] == imports[j + 1];
      }
    }
  }

  lemma QueryableExactly(imports: seq<Import>, pkgName: string, t: TypeExpr)
    ensures IsQueryable(imports, pkgName, t) <==> NamesQueryable(imports, pkgName, t)
  {
    if t.Selector? {
      EndsInDbExactly(PathOf(imports, t.pkg));
      PathOfExactly(imports, t.pkg);
    }
  }

  // The i-th field is the first Queryable one and has one name.
  ghost predicate FirstQueryable(imports: seq<Import>, pkgName: string, params: seq<Field>, i: nat) {
    && i < |params| && |params[i].names| == 1 && NamesQueryable(imports, pkgName, params[i].typ)
    && forall j :: 0 <= j < i ==> !NamesQueryable(imports, pkgName, params[j].typ)
  }

  lemma {:induction false} TxFieldExactly(imports: seq<Import>, pkgName: string, params: seq<Field>, from: nat, i: nat)
    requires from <= |params| && forall j :: 0 <= j < from ==> !NamesQueryable(imports, pkgName, params[j].typ)
    ensures TxField(imports, pkgName, params, from) == Some(i) <==> FirstQueryable(imports, pkgName, params, i)
    decreases |params| - from
  {
    if from < |params| {
      QueryableExactly(imports, pkgName, params[from].typ);
      if NamesQueryable(imports, pkgName, params[from].typ) {
        assert FirstQueryable(imports, pkgName, params, i) ==> i == from;
      } else {
        TxFieldExactly(imports, pkgName, params, from + 1, i);
      }
    }
  }

  // ---- The convention --------------------------------------------------------------------

  // An exported top-level function whose name ends in Tx, by the i-th field.
  ghost predicate FollowsBy(imports: seq<Import>, pkgName: string, fn: Func, i: nat) {
    && !fn.isMethod && |fn.name| >= 2 && 'A' <= fn.name[0] <= 'Z'
    && fn.name[|fn.name| - 2] == 'T' && fn.name[|fn.name| - 1] == 'x'
    && FirstQueryable(imports, pkgName, fn.params, i)
  }

  lemma EndsInTx(name: string)
    ensures EndsWith(name, "Tx") <==> |name| >= 2 && name[|name| - 2] == 'T' && name[|name| - 1] == 'x'
  {
    if |name| >= 2 {
      var end := name[|name| - 2..];
      assert end[0] == name[|name| - 2] && end[1] == name[|name| - 1];
      assert "Tx"[0] == 'T' && "Tx"[1] == 'x';
    }
  }

  lemma SelectedExactly(it: Item, pkgName: string, i: nat)
    ensures Selected(it, pkgName) == Some(i) <==>
            it.decl.FuncDecl? && FollowsBy(it.imports, pkgName, it.decl.fn, i)
  {
    if it.decl.FuncDecl? {
      EndsInTx(it.decl.fn.name);
      TxFieldExactly(it.imports, pkgName, it.decl.fn.params, 0, i);
    }
  }

  // ---- A package's declarations, file by file ------------------------------------------

  ghost predicate Holds(files: seq<File>, imports: seq<Import>, d: Decl) {
    exists f :: f in files && f.base != "conn.gen.go" && f.imports == imports && d in f.decls
  }

  // A hand-written top-level name: a function that is no method, or a constant,
  // variable or type.
  ghost predicate HandWritten(files: seq<File>, name: string) {
    exists imports, d :: Holds(files, imports, d)
                         && ((d.FuncDecl? && !d.fn.isMethod && d.fn.name == name) || (d.GenDecl? && name in d.names))
  }

  lemma FileItems(f: File, imports: seq<Import>, d: Decl)
    ensures Item(imports, d) in ItemsOf(f) <==> f.base != "conn.gen.go" && f.imports == imports && d in f.decls
  {
    if f.base != "conn.gen.go" {
      var items := ItemsOf(f);
      if Item(imports, d) in items {
        var i :| 0 <= i < |items| && items[i] == Item(imports, d);
        assert f.decls[i] == d;
      }
      if f.imports == imports && d in f.decls {
        var i :| 0 <= i < |f.decls| && f.decls[i] == d;
        assert items[i] == Item(imports, d);
      }
    }
  }

  lemma {:induction false} ItemsExactly(files: seq<File>, imports: seq<Import>, d: Decl)
    ensures Item(imports, d) in Items(files) <==> Holds(files, imports, d)
  {
    if files != [] {
      var init, last := files[..|files| - 1], files[|files| - 1];
      assert files == init + [last];
      ItemsExactly(init, imports, d);
      FileItems(last, imports, d);
      assert last in files && forall f :: f in init ==> f in files;
    }
  }

  lemma DeclaredExactly(files: seq<File>, name: string)
    ensures Declared(Items(files), name) <==> HandWritten(files, name)
  {
    if Declared(Items(files), name) {
      var it :| it in Items(files) && Declares(it.decl, name);
      ItemsExactly(files, it.imports, it.decl);
    }
    if HandWritten(files, name) {
      var imports, d :| Holds(files, imports, d)
        && ((d.FuncDecl? && !d.fn.isMethod && d.fn.name == name) || (d.GenDecl? && name in d.names));
      ItemsExactly(files, imports, d);
      assert Declares(Item(imports, d).decl, name);
    }
  }

  // A hand-written function that follows the convention.
  ghost predicate Follows(pkg: Package, fn: Func, i: nat) {
    exists imports :: Holds(pkg.files, imports, FuncDecl(fn)) && FollowsBy(imports, pkg.name, fn, i)
  }

  lemma ChosenExactlyFollow(pkg: Package, c: Choice)
    ensures c in Chosen(Items(pkg.files), pkg.name) <==> Follows(pkg, c.fn, c.field)
  {
    var items := Items(pkg.files);
    ChosenExactly(items, pkg.name, c);
    if c in Chosen(items, pkg.name) {
      var it :| it in items && c in ChosenBy(it, pkg.name);
      SelectedExactly(it, pkg.name, c.field);
      ItemsExactly(pkg.files, it.imports, it.decl);
    }
    if Follows(pkg, c.fn, c.field) {
      var imports :| Holds(pkg.files, imports, FuncDecl(c.fn)) && FollowsBy(imports, pkg.name, c.fn, c.field);
      var it := Item(imports, FuncDecl(c.fn));
      ItemsExactly(pkg.files, imports, FuncDecl(c.fn));
      SelectedExactly(it, pkg.name, c.field);
      assert it in items && c in ChosenBy(it, pkg.name);
    }
  }

  // ---- What a run does ----------------------------------------------------------------

  ghost predicate SomeFollow(pkg: Package) {
    exists fn, i :: Follows(pkg, fn, i)
  }

  // A function that follows the convention, whose bare name is hand-written.
  ghost predicate Clash(pkg: Package, fn: Func, i: nat, bare: string) {
    Follows(pkg, fn, i) && fn.name == bare + "Tx" && HandWritten(pkg.files, bare)
  }

  lemma BareNames(name: string, bare: string)
    requires EndsWith(name, "Tx")
    ensures BareName(name) == bare <==> name == bare + "Tx"
  {
    assert name == name[..|name| - 2] + "Tx";
    if name == bare + "Tx" {
      assert (bare + "Tx")[..|bare|] == bare;
    }
  }

  lemma TakenExactly(pkg: Package, c: Choice, bare: string)
    requires c in Chosen(Items(pkg.files), pkg.name)
    ensures Taken(c, Items(pkg.files)) && BareName(c.fn.name) == bare <==> Clash(pkg, c.fn, c.field, bare)
  {
    ChosenExactlyFollow(pkg, c);
    EndsInTx(c.fn.name);
    BareNames(c.fn.name, bare);
    DeclaredExactly(pkg.files, bare);
  }

  // A run refuses exactly when some function that follows the convention has a
  // bare name that is hand-written, and names such a one.
  lemma RefusesExactly(pkg: Package, out: Output)
    requires Produces(pkg, out)
    ensures out.Refused? <==> exists fn, i, bare :: Clash(pkg, fn, i, bare)
    ensures out.Refused? ==> exists fn, i :: Clash(pkg, fn, i, out.bare)
  {
    var items, chosen := Items(pkg.files), Chosen(Items(pkg.files), pkg.name);
    if Clashes(chosen, items) {
      var c :| c in chosen && Taken(c, items) && out.bare == BareName(c.fn.name);
      TakenExactly(pkg, c, out.bare);
    }
    if fn, i, bare :| Clash(pkg, fn, i, bare) {
      ChosenExactlyFollow(pkg, Choice(fn, i));
      TakenExactly(pkg, Choice(fn, i), bare);
    }
  }

  // It removes the generated file exactly when no function follows.
  lemma RemovesExactly(pkg: Package, out: Output)
    requires Produces(pkg, out)
    ensures out == Removed <==> !SomeFollow(pkg)
  {
    var chosen := Chosen(Items(pkg.files), pkg.name);
    if chosen != [] {
      ChosenExactlyFollow(pkg, chosen[0]);
      assert Follows(pkg, chosen[0].fn, chosen[0].field);
    }
    if fn, i :| Follows(pkg, fn, i) {
      ChosenExactlyFollow(pkg, Choice(fn, i));
    }
  }

  // The package's own Conn, or db.Conn.
  ghost function PoolOf(pkg: Package): ConnExpr {
    if HandWritten(pkg.files, "Conn") then Bare else Qualified
  }

  ghost predicate Emits(pkg: Package, fn: Func, i: nat, v: Variant) {
    && Follows(pkg, fn, i) && i < |fn.params|
    && v == VariantOf(fn, i, PoolOf(pkg))
  }

  lemma VariantNames(fn: Func, i: nat, conn: ConnExpr)
    requires i < |fn.params| && EndsWith(fn.name, "Tx")
    ensures VariantOf(fn, i, conn).name + "Tx" == fn.name == VariantOf(fn, i, conn).target
  {
    BareNames(fn.name, BareName(fn.name));
  }

  lemma ConnExactly(pkg: Package)
    ensures ConnOf(Items(pkg.files)) == PoolOf(pkg)
  {
    DeclaredExactly(pkg.files, "Conn");
  }

  // The choices in the order they are rendered.
  lemma RenderedExactly(pkg: Package, variants: seq<Variant>, k: nat)
    requires Produces(pkg, Wrote(variants))
    ensures |variants| == |Ordered(pkg)|
    ensures k < |variants| ==>
              var c := Ordered(pkg)[k];
              && c in Chosen(Items(pkg.files), pkg.name) && c.field < |c.fn.params|
              && variants[k] == VariantOf(c.fn, c.field, PoolOf(pkg))
  {
    SortHolds(Chosen(Items(pkg.files), pkg.name));
    ConnExactly(pkg);
    if k < |variants| {
      assert Ordered(pkg)[k] in Ordered(pkg);
    }
  }

  lemma VariantComesFrom(pkg: Package, variants: seq<Variant>, k: nat)
    requires Produces(pkg, Wrote(variants)) && k < |variants|
    ensures exists fn, i :: Emits(pkg, fn, i, variants[k])
    ensures variants[k].target == variants[k].name + "Tx"
  {
    RenderedExactly(pkg, variants, k);
    var c := Ordered(pkg)[k];
    ChosenExactlyFollow(pkg, c);
    EndsInTx(c.fn.name);
    VariantNames(c.fn, c.field, PoolOf(pkg));
    assert Emits(pkg, c.fn, c.field, variants[k]);
  }

  lemma EmittedIsThere(pkg: Package, variants: seq<Variant>, fn: Func, i: nat, v: Variant)
    requires Produces(pkg, Wrote(variants)) && Emits(pkg, fn, i, v)
    ensures v in variants
  {
    var c := Choice(fn, i);
    ChosenExactlyFollow(pkg, c);
    SortHolds(Chosen(Items(pkg.files), pkg.name));
    var k :| 0 <= k < |Ordered(pkg)| && Ordered(pkg)[k] == c;
    RenderedExactly(pkg, variants, k);
    assert variants[k] == v;
  }

  // What is written holds a variant exactly for each function that follows: of
  // its name without Tx, taking the pool from the package's own Conn if it has one.
  lemma WritesExactly(pkg: Package, variants: seq<Variant>, v: Variant)
    requires Produces(pkg, Wrote(variants))
    ensures v in variants <==> exists fn, i :: Emits(pkg, fn, i, v)
    ensures v in variants ==> v.target == v.name + "Tx"
  {
    if v in variants {
      var k :| 0 <= k < |variants| && variants[k] == v;
      VariantComesFrom(pkg, variants, k);
    }
    if fn, i :| Emits(pkg, fn, i, v) {
      EmittedIsThere(pkg, variants, fn, i, v);
    }
  }
}
