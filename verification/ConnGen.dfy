// cmd/conngen over a package: which variants it writes, in what order.
module ConnGen {
  import opened Text
  import opened ConnVariant
  import opened Wrappers

  const GEN_FILE := "conn.gen.go"

  datatype Decl = FuncDecl(fn: Func) | GenDecl(names: seq<string>)

  datatype File = File(base: string, imports: seq<Import>, decls: seq<Decl>)

  datatype Package = Package(name: string, files: seq<File>)

  // A declaration with the imports of its file.
  datatype Item = Item(imports: seq<Import>, decl: Decl)

  function ItemsOf(file: File): seq<Item> {
    if file.base == GEN_FILE then [] else
      seq(|file.decls|, i requires 0 <= i < |file.decls| => Item(file.imports, file.decls[i]))
  }

  // The hand-written declarations.
  function Items(files: seq<File>): seq<Item> {
    if files == [] then [] else Items(files[..|files| - 1]) + ItemsOf(files[|files| - 1])
  }

  predicate Declares(d: Decl, name: string) {
    match d
    case FuncDecl(fn) => !fn.isMethod && fn.name == name
    case GenDecl(names) => name in names
  }

  predicate Declared(items: seq<Item>, name: string) {
    exists it :: it in items && Declares(it.decl, name)
  }

  lemma ItemsGrow(files: seq<File>, i: nat)
    requires i < |files|
    ensures Items(files[..i + 1]) == Items(files[..i]) + ItemsOf(files[i])
  {
    assert files[..i + 1][..i] == files[..i];
  }

  lemma DeclaredSplits(a: seq<Item>, b: seq<Item>, name: string)
    ensures Declared(a + b, name) <==> Declared(a, name) || Declared(b, name)
  {
    if Declared(a + b, name) {
      var it :| it in a + b && Declares(it.decl, name);
    }
    if Declared(a, name) {
      var it :| it in a && Declares(it.decl, name);
      assert it in a + b;
    }
    if Declared(b, name) {
      var it :| it in b && Declares(it.decl, name);
      assert it in a + b;
    }
  }

  lemma Halves<T>(s: seq<T>, i: nat)
    requires i <= |s|
    ensures s == s[..i] + s[i..]
  {
  }

  lemma ItemsStep(init: seq<File>, last: File)
    ensures Items(init + [last]) == Items(init) + ItemsOf(last)
  {
    assert (init + [last])[..|init|] == init;
  }

  lemma {:induction false} ItemsAppend(a: seq<File>, b: seq<File>)
    ensures Items(a + b) == Items(a) + Items(b)
  {
    if b == [] {
      assert a + b == a;
    } else {
      var init, last := b[..|b| - 1], b[|b| - 1];
      assert b == init + [last];
      ItemsAppend(a, init);
      Regroup(a, init, [last]);
      assert a + b == (a + init) + [last];
      ItemsStep(a + init, last);
      ItemsStep(init, last);
      Regroup(Items(a), Items(init), ItemsOf(last));
    }
  }

  lemma ItemsPrefix(files: seq<File>, i: nat)
    requires i <= |files|
    ensures Items(files) == Items(files[..i]) + Items(files[i..])
  {
    Halves(files, i);
    ItemsAppend(files[..i], files[i..]);
  }

  // One file of the scan.
  method FileDeclares(file: File, name: string) returns (found: bool)
    requires file.base != GEN_FILE
    ensures found <==> Declared(ItemsOf(file), name)
  {
    for i := 0 to |file.decls|
      invariant forall k :: 0 <= k < i ==> !Declares(file.decls[k], name)
    {
      if Declares(file.decls[i], name) {
        assert ItemsOf(file)[i] in ItemsOf(file);
        return true;
      }
    }
    return false;
  }

  // declaresTopLevel
  method DeclaresTopLevel(pkg: Package, name: string) returns (found: bool)
    ensures found <==> Declared(Items(pkg.files), name)
  {
    for i := 0 to |pkg.files|
      invariant !Declared(Items(pkg.files[..i]), name)
    {
      ItemsGrow(pkg.files, i);
      DeclaredSplits(Items(pkg.files[..i]), ItemsOf(pkg.files[i]), name);
      if pkg.files[i].base != GEN_FILE {
        found := FileDeclares(pkg.files[i], name);
        if found {
          ItemsPrefix(pkg.files, i + 1);
          DeclaredSplits(Items(pkg.files[..i + 1]), Items(pkg.files[i + 1..]), name);
          return;
        }
      }
    }
    assert pkg.files[..|pkg.files|] == pkg.files;
    return false;
  }

  // connExpr
  function ConnOf(items: seq<Item>): ConnExpr {
    if Declared(items, "Conn") then Bare else Qualified
  }

  predicate Exported(name: string) {
    name != "" && 'A' <= name[0] <= 'Z'
  }

  // The field at which an item takes the pool, if it follows the convention.
  function Selected(it: Item, pkgName: string): (r: Option<nat>)
    ensures r.Some? ==> it.decl.FuncDecl? && !it.decl.fn.isMethod && r.value < |it.decl.fn.params|
    ensures r.Some? ==> Exported(it.decl.fn.name) && EndsWith(it.decl.fn.name, "Tx")
  {
    if it.decl.FuncDecl? && !it.decl.fn.isMethod && Exported(it.decl.fn.name) && EndsWith(it.decl.fn.name, "Tx")
    then TxField(it.imports, pkgName, it.decl.fn.params, 0) else None
  }

  // A function to emit a variant of, and its Queryable field.
  datatype Choice = Choice(fn: Func, field: nat)

  function ChosenBy(it: Item, pkgName: string): (cs: seq<Choice>)
    ensures forall c :: c in cs ==> c.field < |c.fn.params| && it.decl == FuncDecl(c.fn)
  {
    if Selected(it, pkgName).Some? then [Choice(it.decl.fn, Selected(it, pkgName).value)] else []
  }

  function Chosen(items: seq<Item>, pkgName: string): (cs: seq<Choice>)
    ensures forall c :: c in cs ==> c.field < |c.fn.params|
  {
    if items == [] then [] else Chosen(items[..|items| - 1], pkgName) + ChosenBy(items[|items| - 1], pkgName)
  }

  lemma ChosenGrows(init: seq<Item>, last: Item, pkgName: string)
    ensures Chosen(init + [last], pkgName) == Chosen(init, pkgName) + ChosenBy(last, pkgName)
  {
    assert (init + [last])[..|init|] == init;
  }

  lemma {:induction false} ChosenAppend(a: seq<Item>, b: seq<Item>, pkgName: string)
    ensures Chosen(a + b, pkgName) == Chosen(a, pkgName) + Chosen(b, pkgName)
  {
    if b == [] {
      assert a + b == a;
    } else {
      var init, last := b[..|b| - 1], b[|b| - 1];
      assert b == init + [last];
      ChosenAppend(a, init, pkgName);
      Regroup(a, init, [last]);
      assert a + b == (a + init) + [last];
      ChosenGrows(a + init, last, pkgName);
      ChosenGrows(init, last, pkgName);
      Regroup(Chosen(a, pkgName), Chosen(init, pkgName), ChosenBy(last, pkgName));
    }
  }

  ghost predicate ChosenFrom(items: seq<Item>, pkgName: string, c: Choice) {
    exists it :: it in items && c in ChosenBy(it, pkgName)
  }

  lemma {:induction false} ChosenExactly(items: seq<Item>, pkgName: string, c: Choice)
    ensures c in Chosen(items, pkgName) <==> ChosenFrom(items, pkgName, c)
  {
    if items != [] {
      var init, last := items[..|items| - 1], items[|items| - 1];
      assert items == init + [last];
      ChosenGrows(init, last, pkgName);
      ChosenExactly(init, pkgName, c);
      if ChosenFrom(init, pkgName, c) {
        var it :| it in init && c in ChosenBy(it, pkgName);
        assert it in items;
      }
    }
  }

  // ---- The order of the output ------------------------------------------------------

  // Ordered by the name of the *Tx function.
  predicate Ascending(cs: seq<Choice>) {
    forall i, j :: 0 <= i < j < |cs| ==> !Below(cs[j].fn.name, cs[i].fn.name)
  }

  // The library's sort, as an insertion sort.
  function Insert(c: Choice, cs: seq<Choice>): seq<Choice> {
    if cs == [] || !Below(cs[0].fn.name, c.fn.name) then [c] + cs else [cs[0]] + Insert(c, cs[1..])
  }

  function Sort(cs: seq<Choice>): seq<Choice> {
    if cs == [] then [] else Insert(cs[0], Sort(cs[1..]))
  }

  lemma NotBelowTransitive(a: string, b: string, c: string)
    requires !Below(b, a) && !Below(c, b)
    ensures !Below(c, a)
  {
    BelowIsStrict(a, b);
    BelowIsStrict(b, c);
    BelowIsStrict(c, a);
    if Below(c, a) && a != b { BelowIsTransitive(c, a, b); }
  }

  lemma {:induction false} InsertKeeps(c: Choice, cs: seq<Choice>)
    ensures multiset(Insert(c, cs)) == multiset(cs) + multiset{c}
  {
    if cs != [] && Below(cs[0].fn.name, c.fn.name) {
      InsertKeeps(c, cs[1..]);
      assert cs == [cs[0]] + cs[1..];
    }
  }

  lemma {:induction false} SortKeeps(cs: seq<Choice>)
    ensures multiset(Sort(cs)) == multiset(cs)
  {
    if cs != [] {
      SortKeeps(cs[1..]);
      InsertKeeps(cs[0], Sort(cs[1..]));
      assert cs == [cs[0]] + cs[1..];
    }
  }

  predicate NoneBelow(cs: seq<Choice>, name: string) {
    forall c :: c in cs ==> !Below(c.fn.name, name)
  }

  lemma AscendingStep(c: Choice, cs: seq<Choice>)
    ensures Ascending([c] + cs) <==> NoneBelow(cs, c.fn.name) && Ascending(cs)
  {
    var all := [c] + cs;
    assert forall k :: 0 <= k < |cs| ==> all[k + 1] == cs[k];
    if Ascending(all) {
      forall i, j | 0 <= i < j < |cs| ensures !Below(cs[j].fn.name, cs[i].fn.name) {
        assert !Below(all[j + 1].fn.name, all[i + 1].fn.name);
      }
      forall d | d in cs ensures !Below(d.fn.name, c.fn.name) {
        var k :| 0 <= k < |cs| && cs[k] == d;
        assert !Below(all[k + 1].fn.name, all[0].fn.name);
      }
    }
  }

  lemma {:induction false} InsertSorts(c: Choice, cs: seq<Choice>)
    requires Ascending(cs)
    ensures Ascending(Insert(c, cs))
  {
    if cs == [] {
    } else {
      assert cs == [cs[0]] + cs[1..];
      AscendingStep(cs[0], cs[1..]);
      if Below(cs[0].fn.name, c.fn.name) {
        InsertSorts(c, cs[1..]);
        InsertKeeps(c, cs[1..]);
        BelowIsStrict(cs[0].fn.name, c.fn.name);
        forall d | d in Insert(c, cs[1..]) ensures !Below(d.fn.name, cs[0].fn.name) {
          assert d in multiset(Insert(c, cs[1..]));
        }
        AscendingStep(cs[0], Insert(c, cs[1..]));
      } else {
        forall d | d in cs ensures !Below(d.fn.name, c.fn.name) {
          if d != cs[0] { NotBelowTransitive(c.fn.name, cs[0].fn.name, d.fn.name); }
        }
        AscendingStep(c, cs);
      }
    }
  }

  lemma {:induction false} SortSorts(cs: seq<Choice>)
    ensures Ascending(Sort(cs))
  {
    if cs != [] {
      SortSorts(cs[1..]);
      InsertSorts(cs[0], Sort(cs[1..]));
    }
  }

  lemma SortHolds(cs: seq<Choice>)
    ensures forall c :: c in Sort(cs) <==> c in cs
  {
    SortKeeps(cs);
    forall c ensures c in Sort(cs) <==> c in cs {
      assert c in Sort(cs) <==> c in multiset(Sort(cs));
    }
  }

  predicate DistinctNames(cs: seq<Choice>) {
    forall i, j :: 0 <= i < j < |cs| ==> cs[i].fn.name != cs[j].fn.name
  }

  predicate SameChoices(a: seq<Choice>, b: seq<Choice>) {
    (forall c :: c in a ==> c in b) && (forall c :: c in b ==> c in a)
  }

  // A set of differently named choices has one ascending order.
  lemma {:induction false} OneOrder(a: seq<Choice>, b: seq<Choice>)
    requires Ascending(a) && Ascending(b) && DistinctNames(a) && DistinctNames(b) && SameChoices(a, b)
    ensures a == b
  {
    if a != [] { assert a[0] in b; }
    if b != [] { assert b[0] in a; }
    if a != [] {
      assert a == [a[0]] + a[1..] && b == [b[0]] + b[1..];
      AscendingStep(a[0], a[1..]);
      AscendingStep(b[0], b[1..]);
      assert a[0] in b && b[0] in a;
      BelowIsStrict(a[0].fn.name, b[0].fn.name);
      SameHead(a, b);
      assert SameChoices(a[1..], b[1..]);
      OneOrder(a[1..], b[1..]);
    }
  }

  lemma SameHead(a: seq<Choice>, b: seq<Choice>)
    requires a != [] && b != [] && DistinctNames(a) && DistinctNames(b) && SameChoices(a, b)
    requires !Below(a[0].fn.name, b[0].fn.name) && !Below(b[0].fn.name, a[0].fn.name)
    ensures a[0] == b[0] && SameChoices(a[1..], b[1..])
  {
    BelowIsStrict(a[0].fn.name, b[0].fn.name);
    assert a[0] in b && b[0] in a;
    forall c | c in a[1..] ensures c in b[1..] {
      assert c in b && c.fn.name != a[0].fn.name;
    }
    forall c | c in b[1..] ensures c in a[1..] {
      assert c in a && c.fn.name != b[0].fn.name;
    }
  }

  // ---- A run ------------------------------------------------------------------------

  datatype Output = Removed | Wrote(variants: seq<Variant>) | Refused(bare: string) | Unformattable

  // A choice whose bare name is hand-written already.
  predicate Taken(c: Choice, items: seq<Item>) {
    Declared(items, BareName(c.fn.name))
  }

  // A function called Tx leaves no name for its variant, and no valid Go.
  predicate Nameless(cs: seq<Choice>) {
    exists c :: c in cs && BareName(c.fn.name) == ""
  }

  predicate Clashes(cs: seq<Choice>, items: seq<Item>) {
    exists c :: c in cs && Taken(c, items)
  }

  // The name of a refusal is a choice's own bare name, hand-written already.
  ghost predicate Refuses(cs: seq<Choice>, items: seq<Item>, bare: string) {
    exists c :: c in cs && Taken(c, items) && bare == BareName(c.fn.name)
  }

  function Rendered(cs: seq<Choice>, conn: ConnExpr): seq<Variant>
    requires forall c :: c in cs ==> c.field < |c.fn.params|
  {
    seq(|cs|, i requires 0 <= i < |cs| => VariantOf(cs[i].fn, cs[i].field, conn))
  }

  ghost predicate Produces(pkg: Package, out: Output) {
    var items := Items(pkg.files);
    var chosen := Chosen(items, pkg.name);
    SortHolds(chosen);
    if Clashes(chosen, items) then out.Refused? && Refuses(chosen, items, out.bare)
    else if chosen == [] then out == Removed
    else if Nameless(chosen) then out == Unformattable
    else out == Wrote(Rendered(Sort(chosen), ConnOf(items)))
  }

  lemma ItemIsChosen(items: seq<Item>, i: nat, pkgName: string)
    requires i < |items| && Selected(items[i], pkgName).Some?
    ensures Choice(items[i].decl.fn, Selected(items[i], pkgName).value) in Chosen(items, pkgName)
  {
    var c := Choice(items[i].decl.fn, Selected(items[i], pkgName).value);
    assert items[i] in items && c in ChosenBy(items[i], pkgName);
    ChosenExactly(items, pkgName, c);
  }

  // What the next declaration of a file adds to its choices.
  lemma ChosenNext(file: File, i: nat, pkgName: string)
    requires file.base != GEN_FILE && i < |file.decls|
    ensures var items, it := ItemsOf(file), Item(file.imports, file.decls[i]);
            && |items| == |file.decls| && items[i] == it
            && Chosen(items[..i + 1], pkgName) == Chosen(items[..i], pkgName) + ChosenBy(it, pkgName)
  {
    var items, it := ItemsOf(file), Item(file.imports, file.decls[i]);
    assert items[i] == it && items[..i + 1] == items[..i] + [it];
    ChosenGrows(items[..i], it, pkgName);
  }

  lemma ClashesNext(cs: seq<Choice>, c: Choice, items: seq<Item>)
    requires !Clashes(cs, items) && !Taken(c, items)
    ensures !Clashes(cs + [c], items)
  {
  }

  lemma TakenClashes(cs: seq<Choice>, c: Choice, items: seq<Item>)
    requires c in cs && Taken(c, items)
    ensures Clashes(cs, items) && Refuses(cs, items, BareName(c.fn.name))
  {
  }

  // One file of the scan, up to the first bare name that is taken.
  method ChooseIn(pkg: Package, file: File) returns (cs: seq<Choice>, stop: Option<string>)
    requires file.base != GEN_FILE
    ensures stop.Some? ==> Clashes(Chosen(ItemsOf(file), pkg.name), Items(pkg.files))
    ensures stop.Some? ==> Refuses(Chosen(ItemsOf(file), pkg.name), Items(pkg.files), stop.value)
    ensures stop.None? ==> cs == Chosen(ItemsOf(file), pkg.name) && !Clashes(cs, Items(pkg.files))
  {
    cs := [];
    ghost var items := ItemsOf(file);
    for i := 0 to |file.decls|
      invariant cs == Chosen(items[..i], pkg.name) && !Clashes(cs, Items(pkg.files))
    {
      var it := Item(file.imports, file.decls[i]);
      ChosenNext(file, i, pkg.name);
      var field := Selected(it, pkg.name);
      if field.Some? {
        var c := Choice(it.decl.fn, field.value);
        var bare := BareName(it.decl.fn.name);
        var taken := DeclaresTopLevel(pkg, bare);
        if taken {
          ItemIsChosen(items, i, pkg.name);
          TakenClashes(Chosen(items, pkg.name), c, Items(pkg.files));
          return [], Some(bare);
        }
        ClashesNext(cs, c, Items(pkg.files));
        cs := cs + [c];
      }
    }
    assert items[..|file.decls|] == items;
    return cs, None;
  }

  method RenderAll(cs: seq<Choice>, conn: ConnExpr) returns (variants: seq<Variant>)
    requires forall c :: c in cs ==> c.field < |c.fn.params|
    ensures variants == Rendered(cs, conn)
  {
    variants := [];
    for i := 0 to |cs|
      invariant |variants| == i && forall k :: 0 <= k < i ==> variants[k] == VariantOf(cs[k].fn, cs[k].field, conn)
    {
      var v := Render(cs[i].fn, cs[i].field, conn);
      variants := variants + [v];
    }
  }

  lemma ClashesSplit(a: seq<Choice>, b: seq<Choice>, items: seq<Item>)
    ensures Clashes(a + b, items) <==> Clashes(a, items) || Clashes(b, items)
  {
    if Clashes(a, items) {
      var c :| c in a && Taken(c, items);
      assert c in a + b;
    }
    if Clashes(b, items) {
      var c :| c in b && Taken(c, items);
      assert c in a + b;
    }
  }

  lemma ChosenInFiles(files: seq<File>, i: nat, pkgName: string)
    requires i < |files|
    ensures Chosen(Items(files[..i + 1]), pkgName) ==
            Chosen(Items(files[..i]), pkgName) + Chosen(ItemsOf(files[i]), pkgName)
    ensures Chosen(Items(files), pkgName) ==
            Chosen(Items(files[..i + 1]), pkgName) + Chosen(Items(files[i + 1..]), pkgName)
  {
    ItemsGrow(files, i);
    ChosenAppend(Items(files[..i]), ItemsOf(files[i]), pkgName);
    ItemsPrefix(files, i + 1);
    ChosenAppend(Items(files[..i + 1]), Items(files[i + 1..]), pkgName);
  }

  // generate. Rendering has no effects, so it is done after the sort.
  method Generate(pkg: Package) returns (out: Output)
    ensures Produces(pkg, out)
  {
    var chosen: seq<Choice> := [];
    ghost var items := Items(pkg.files);
    for i := 0 to |pkg.files|
      invariant chosen == Chosen(Items(pkg.files[..i]), pkg.name) && !Clashes(chosen, items)
    {
      ChosenInFiles(pkg.files, i, pkg.name);
      if pkg.files[i].base != GEN_FILE {
        var more, stop := ChooseIn(pkg, pkg.files[i]);
        ghost var rest := Chosen(Items(pkg.files[i + 1..]), pkg.name);
        ClashesSplit(chosen, Chosen(ItemsOf(pkg.files[i]), pkg.name), items);
        ClashesSplit(chosen + Chosen(ItemsOf(pkg.files[i]), pkg.name), rest, items);
        if stop.Some? {
          return Refused(stop.value);
        }
        chosen := chosen + more;
      }
    }
    assert pkg.files[..|pkg.files|] == pkg.files;
    if chosen == [] {
      return Removed;
    }
    SortHolds(chosen);
    var ordered := Sort(chosen);
    var hasConn := DeclaresTopLevel(pkg, "Conn");
    var variants := RenderAll(ordered, if hasConn then Bare else Qualified);
    if exists c :: c in ordered && BareName(c.fn.name) == "" {
      return Unformattable;
    }
    return Wrote(variants);
  }

  // ---- What the output depends on -----------------------------------------------------

  // Go lets a package declare each exported function once.
  predicate DistinctFunctions(items: seq<Item>) {
    forall i, j :: 0 <= i < j < |items| && IsFunction(items[i]) && IsFunction(items[j]) ==>
      items[i].decl.fn.name != items[j].decl.fn.name
  }

  predicate IsFunction(it: Item) {
    it.decl.FuncDecl? && !it.decl.fn.isMethod && Exported(it.decl.fn.name)
  }

  // The same hand-written declarations, in any files and any order.
  predicate SameItems(a: seq<Item>, b: seq<Item>) {
    (forall it :: it in a ==> it in b) && (forall it :: it in b ==> it in a)
  }

  lemma {:induction false} ChosenAreDistinct(items: seq<Item>, pkgName: string)
    requires DistinctFunctions(items)
    ensures DistinctNames(Chosen(items, pkgName))
  {
    if items != [] {
      var init, last := items[..|items| - 1], items[|items| - 1];
      ChosenAreDistinct(init, pkgName);
      forall c | c in Chosen(init, pkgName) && Selected(last, pkgName).Some?
        ensures c.fn.name != last.decl.fn.name
      {
        ChosenExactly(init, pkgName, c);
        var it :| it in init && c in ChosenBy(it, pkgName);
        var i :| 0 <= i < |init| && init[i] == it;
        assert items[i] == it && IsFunction(items[i]) && IsFunction(items[|items| - 1]);
      }
    }
  }

  lemma SortedAreDistinct(cs: seq<Choice>)
    requires DistinctNames(cs)
    ensures DistinctNames(Sort(cs))
  {
    SortKeeps(cs);
    var sorted := Sort(cs);
    forall i, j | 0 <= i < j < |sorted| ensures sorted[i].fn.name != sorted[j].fn.name {
      if sorted[i].fn.name == sorted[j].fn.name {
        TwiceInSorted(cs, sorted, i, j);
      }
    }
  }

  lemma TwiceInSorted(cs: seq<Choice>, sorted: seq<Choice>, i: nat, j: nat)
    requires DistinctNames(cs) && multiset(sorted) == multiset(cs) && i < j < |sorted|
    ensures sorted[i].fn.name != sorted[j].fn.name
  {
    var c, d := sorted[i], sorted[j];
    assert c in multiset(cs) && d in multiset(cs);
    if c == d {
      assert sorted == sorted[..i] + [c] + sorted[i + 1..j] + [c] + sorted[j + 1..];
      assert multiset(sorted)[c] >= 2;
      OnceInDistinct(cs, c);
    }
  }

  lemma {:induction false} OnceInDistinct(cs: seq<Choice>, c: Choice)
    requires DistinctNames(cs)
    ensures multiset(cs)[c] <= 1
  {
    if cs != [] {
      assert cs == [cs[0]] + cs[1..];
      OnceInDistinct(cs[1..], c);
      if c == cs[0] {
        forall d | d in cs[1..] ensures d != c {
          assert d.fn.name != cs[0].fn.name;
        }
      }
    }
  }

  lemma SameItemsChoose(a: seq<Item>, b: seq<Item>, pkgName: string)
    requires SameItems(a, b)
    ensures SameChoices(Chosen(a, pkgName), Chosen(b, pkgName))
    ensures forall name :: Declared(a, name) <==> Declared(b, name)
  {
    forall c ensures c in Chosen(a, pkgName) <==> c in Chosen(b, pkgName) {
      ChosenExactly(a, pkgName, c);
      ChosenExactly(b, pkgName, c);
    }
  }

  // The output is fixed by the set of hand-written declarations: the order of
  // files and declarations, and which file holds which, do not matter.
  lemma OutputIgnoresOrder(p: Package, q: Package, out: Output, other: Output)
    requires p.name == q.name && SameItems(Items(p.files), Items(q.files))
    requires DistinctFunctions(Items(p.files)) && DistinctFunctions(Items(q.files))
    requires Produces(p, out) && Produces(q, other)
    ensures out == other || (out.Refused? && other.Refused?)
  {
    var a, b := Chosen(Items(p.files), p.name), Chosen(Items(q.files), q.name);
    SameItemsChoose(Items(p.files), Items(q.files), p.name);
    ChosenAreDistinct(Items(p.files), p.name);
    ChosenAreDistinct(Items(q.files), q.name);
    SortedAreDistinct(a);
    SortedAreDistinct(b);
    SortSorts(a);
    SortSorts(b);
    SortHolds(a);
    SortHolds(b);
    OneOrder(Sort(a), Sort(b));
    if a != [] { assert a[0] in b; }
    if b != [] { assert b[0] in a; }
  }

  lemma GeneratedAddsNothing(a: seq<File>, generated: File, b: seq<File>)
    requires generated.base == GEN_FILE
    ensures Items(a + [generated] + b) == Items(a + b)
  {
    ItemsAppend(a + [generated], b);
    ItemsStep(a, generated);
    ItemsAppend(a, b);
  }

  // A generated file, old or new, does not matter, wherever it is listed: so a
  // second run finds what the first one did.
  lemma RerunProducesTheSame(pkg: Package, i: nat, generated: File, out: Output)
    requires i <= |pkg.files| && generated.base == GEN_FILE && Produces(pkg, out)
    ensures Produces(Package(pkg.name, pkg.files[..i] + [generated] + pkg.files[i..]), out)
  {
    Halves(pkg.files, i);
    GeneratedAddsNothing(pkg.files[..i], generated, pkg.files[i..]);
  }

  lemma BareNameIsInjective(a: string, b: string)
    requires EndsWith(a, "Tx") && EndsWith(b, "Tx") && BareName(a) == BareName(b)
    ensures a == b
  {
    assert a == BareName(a) + "Tx" && b == BareName(b) + "Tx";
  }

  // The choices a run renders, in its order.
  function Ordered(pkg: Package): seq<Choice> {
    Sort(Chosen(Items(pkg.files), pkg.name))
  }

  lemma OrderedShape(pkg: Package)
    requires DistinctFunctions(Items(pkg.files))
    ensures Ascending(Ordered(pkg)) && DistinctNames(Ordered(pkg))
    ensures forall c :: c in Ordered(pkg) ==> EndsWith(c.fn.name, "Tx")
    ensures forall it :: it in Items(pkg.files) && Selected(it, pkg.name).Some? ==>
      Choice(it.decl.fn, Selected(it, pkg.name).value) in Ordered(pkg)
  {
    var items, chosen := Items(pkg.files), Chosen(Items(pkg.files), pkg.name);
    ChosenAreDistinct(items, pkg.name);
    SortedAreDistinct(chosen);
    SortSorts(chosen);
    SortHolds(chosen);
    forall c | c in chosen ensures EndsWith(c.fn.name, "Tx") {
      ChosenExactly(items, pkg.name, c);
    }
    forall it | it in items && Selected(it, pkg.name).Some?
      ensures Choice(it.decl.fn, Selected(it, pkg.name).value) in chosen
    {
      ChosenExactly(items, pkg.name, Choice(it.decl.fn, Selected(it, pkg.name).value));
    }
  }

  lemma OrderedNames(cs: seq<Choice>, i: nat, j: nat)
    requires i < j < |cs| && Ascending(cs) && DistinctNames(cs)
    requires forall c :: c in cs ==> EndsWith(c.fn.name, "Tx")
    ensures BareName(cs[i].fn.name) != BareName(cs[j].fn.name) && Below(cs[i].fn.name, cs[j].fn.name)
  {
    BelowIsStrict(cs[i].fn.name, cs[j].fn.name);
    assert cs[i] in cs && cs[j] in cs;
    if BareName(cs[i].fn.name) == BareName(cs[j].fn.name) {
      BareNameIsInjective(cs[i].fn.name, cs[j].fn.name);
    }
  }

  // No emitted name is empty, hand-written, or emitted twice; and the variants
  // come in the order of their *Tx functions' names.
  lemma EmittedNamesAreNew(pkg: Package, variants: seq<Variant>)
    requires Produces(pkg, Wrote(variants)) && DistinctFunctions(Items(pkg.files))
    ensures forall i, j :: 0 <= i < j < |variants| ==>
      variants[i].name != variants[j].name && Below(variants[i].target, variants[j].target)
    ensures forall v :: v in variants ==> v.name != "" && !Declared(Items(pkg.files), v.name)
  {
    var cs := Ordered(pkg);
    OrderedShape(pkg);
    SortHolds(Chosen(Items(pkg.files), pkg.name));
    forall i, j | 0 <= i < j < |variants|
      ensures variants[i].name != variants[j].name && Below(variants[i].target, variants[j].target)
    {
      OrderedNames(cs, i, j);
    }
    forall v | v in variants ensures v.name != "" && !Declared(Items(pkg.files), v.name) {
      var k :| 0 <= k < |variants| && variants[k] == v;
      assert cs[k] in cs;
    }
  }

  // Every function that follows the convention has its variant.
  lemma EveryChoiceIsEmitted(pkg: Package, variants: seq<Variant>, it: Item)
    requires Produces(pkg, Wrote(variants)) && DistinctFunctions(Items(pkg.files))
    requires it in Items(pkg.files) && Selected(it, pkg.name).Some?
    ensures VariantOf(it.decl.fn, Selected(it, pkg.name).value, ConnOf(Items(pkg.files))) in variants
  {
    var c := Choice(it.decl.fn, Selected(it, pkg.name).value);
    OrderedShape(pkg);
    assert c in Ordered(pkg);
    var k :| 0 <= k < |Ordered(pkg)| && Ordered(pkg)[k] == c;
    assert variants[k] in variants;
  }
}
