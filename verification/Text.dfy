// Strings as the scripts and generators use them.
module Text {
  // Code-unit order, as Go's and JavaScript's sorts compare strings.
  predicate Below(a: string, b: string) {
    if b == "" then false
    else if a == "" then true
    else a[0] < b[0] || (a[0] == b[0] && Below(a[1..], b[1..]))
  }

  lemma {:induction false} BelowIsStrict(a: string, b: string)
    ensures !(Below(a, b) && Below(b, a)) && (a == b || Below(a, b) || Below(b, a)) && !Below(a, a)
  {
    if a != "" && b != "" {
      BelowIsStrict(a[1..], b[1..]);
      BelowIsStrict(a[1..], a[1..]);
      assert a == [a[0]] + a[1..] && b == [b[0]] + b[1..];
    } else if a != "" {
      BelowIsStrict(a[1..], "");
      BelowIsStrict(a[1..], a[1..]);
    }
  }

  lemma {:induction false} BelowIsTransitive(a: string, b: string, c: string)
    requires Below(a, b) && Below(b, c)
    ensures Below(a, c)
  {
    if a != "" && a[0] == b[0] == c[0] {
      BelowIsTransitive(a[1..], b[1..], c[1..]);
    }
  }

  ghost predicate IsLeast(m: string, names: set<string>) {
    m in names && forall x :: x in names && x != m ==> Below(m, x)
  }

  lemma {:induction false} LeastExists(names: set<string>)
    requires names != {}
    ensures exists m :: IsLeast(m, names)
  {
    var x :| x in names;
    var rest := names - {x};
    if rest == {} {
      assert names == {x};
      assert IsLeast(x, names);
    } else {
      LeastExists(rest);
      var n :| IsLeast(n, rest);
      BelowIsStrict(x, n);
      if Below(x, n) {
        forall y | y in names && y != x ensures Below(x, y) {
          if y != n { BelowIsTransitive(x, n, y); }
        }
        assert IsLeast(x, names);
      } else {
        assert IsLeast(n, names);
      }
    }
  }

  // The names of a set in order, each once.
  ghost function Sorted(names: set<string>): seq<string>
    decreases |names|
  {
    if names == {} then [] else
      LeastExists(names);
      var m :| IsLeast(m, names);
      [m] + Sorted(names - {m})
  }

  lemma LeastIsUnique(m: string, n: string, names: set<string>)
    requires IsLeast(m, names) && IsLeast(n, names)
    ensures m == n
  {
    BelowIsStrict(m, n);
  }

  lemma SortedStep(names: set<string>, m: string)
    requires IsLeast(m, names)
    ensures Sorted(names) == [m] + Sorted(names - {m})
  {
    assert names != {};
    var n :| IsLeast(n, names) && Sorted(names) == [n] + Sorted(names - {n});
    LeastIsUnique(m, n, names);
  }

  lemma {:induction false} SortedHas(names: set<string>, x: string)
    ensures x in Sorted(names) <==> x in names
    decreases |names|
  {
    if names != {} {
      LeastExists(names);
      var m :| IsLeast(m, names);
      SortedStep(names, m);
      SortedHas(names - {m}, x);
    }
  }

  lemma {:induction false} SortedIsDistinct(names: set<string>)
    ensures forall i, j :: 0 <= i < j < |Sorted(names)| ==> Sorted(names)[i] != Sorted(names)[j]
    decreases |names|
  {
    if names != {} {
      LeastExists(names);
      var m :| IsLeast(m, names) && Sorted(names) == [m] + Sorted(names - {m});
      SortedIsDistinct(names - {m});
      SortedHas(names - {m}, m);
    }
  }

  // The names below a, and those above.
  ghost function Lower(names: set<string>, a: string): set<string> {
    set x | x in names && Below(x, a)
  }

  ghost function Upper(names: set<string>, a: string): set<string> {
    set x | x in names && Below(a, x)
  }

  lemma Sides(names: set<string>, m: string, a: string)
    requires IsLeast(m, names)
    ensures Below(m, a) ==> m in Lower(names, a) && IsLeast(m, Lower(names, a)) && m !in Upper(names, a)
    ensures m == a || Below(a, m) ==> Lower(names, a) == {}
    ensures Below(a, m) ==> a !in names && m in Upper(names, a) && IsLeast(m, Upper(names, a))
    ensures m == a ==> a !in Upper(names, a)
  {
    BelowIsStrict(m, a);
    if m == a || Below(a, m) {
      forall x | x in names ensures !Below(x, a) {
        BelowIsStrict(x, a);
        if x != m && m != a { BelowIsTransitive(a, m, x); }
      }
    }
    if a in names {
      BelowIsStrict(m, a);
    }
  }

  // Sets that differ in one name have the same names on either side of it.
  lemma SidesAgree(names: set<string>, names': set<string>, a: string)
    requires forall n :: n != a ==> (n in names' <==> n in names)
    ensures Lower(names', a) == Lower(names, a) && Upper(names', a) == Upper(names, a)
  {
    BelowIsStrict(a, a);
  }

  lemma WithoutLeast(names: set<string>, m: string, a: string)
    requires IsLeast(m, names)
    ensures Lower(names - {m}, a) == Lower(names, a) - {m} && Upper(names - {m}, a) == Upper(names, a) - {m}
  {
  }

  lemma Prepend(m: string, l: seq<string>, x: seq<string>, h: seq<string>)
    ensures [m] + (l + x + h) == ([m] + l) + x + h
  {
  }

  lemma PrependAlone(m: string, h: seq<string>)
    ensures [m] + ([] + [] + h) == [] + [m] + h == [] + [] + ([m] + h)
  {
  }

  // Adding or removing one name leaves the rest of the order where it was.
  lemma {:induction false} SortedAround(names: set<string>, a: string)
    ensures Sorted(names) == Sorted(Lower(names, a)) + (if a in names then [a] else []) + Sorted(Upper(names, a))
    decreases |names|
  {
    if names == {} {
      assert Lower(names, a) == {} && Upper(names, a) == {};
    } else {
      LeastExists(names);
      var m :| IsLeast(m, names);
      SortedAround(names - {m}, a);
      SortedFrom(names, m, a);
    }
  }

  lemma SortedFrom(names: set<string>, m: string, a: string)
    requires IsLeast(m, names)
    requires Sorted(names - {m}) ==
             Sorted(Lower(names - {m}, a)) + (if a in names - {m} then [a] else []) + Sorted(Upper(names - {m}, a))
    ensures Sorted(names) == Sorted(Lower(names, a)) + (if a in names then [a] else []) + Sorted(Upper(names, a))
  {
    SortedStep(names, m);
    WithoutLeast(names, m, a);
    Sides(names, m, a);
    BelowIsStrict(m, a);
    if Below(m, a) {
      SortedFromBelow(names, m, a);
    } else {
      SortedFromAbove(names, m, a);
    }
  }

  lemma SortedFromBelow(names: set<string>, m: string, a: string)
    requires IsLeast(m, names) && Below(m, a) && Sorted(names) == [m] + Sorted(names - {m})
    requires Sorted(names - {m}) ==
             Sorted(Lower(names, a) - {m}) + (if a in names - {m} then [a] else []) + Sorted(Upper(names, a) - {m})
    ensures Sorted(names) == Sorted(Lower(names, a)) + (if a in names then [a] else []) + Sorted(Upper(names, a))
  {
    var lo, hi := Lower(names, a), Upper(names, a);
    Sides(names, m, a);
    BelowIsStrict(m, a);
    assert hi - {m} == hi;
    SortedStep(lo, m);
    Prepend(m, Sorted(lo - {m}), if a in names then [a] else [], Sorted(hi));
  }

  lemma SortedFromAbove(names: set<string>, m: string, a: string)
    requires IsLeast(m, names) && (m == a || Below(a, m)) && Sorted(names) == [m] + Sorted(names - {m})
    requires Sorted(names - {m}) ==
             Sorted(Lower(names, a) - {m}) + (if a in names - {m} then [a] else []) + Sorted(Upper(names, a) - {m})
    ensures Sorted(names) == Sorted(Lower(names, a)) + (if a in names then [a] else []) + Sorted(Upper(names, a))
  {
    var lo, hi := Lower(names, a), Upper(names, a);
    Sides(names, m, a);
    assert lo == {} && lo - {m} == {} && Sorted({}) == [] && a !in names - {m};
    PrependAlone(m, Sorted(hi - {m}));
    if m == a {
      assert hi - {m} == hi;
    } else {
      SortedStep(hi, m);
    }
  }

  predicate IsSpace(c: char) {
    || '\t' <= c <= '\r' || c == ' ' || c == '\U{00A0}' || c == '\U{1680}' || '\U{2000}' <= c <= '\U{200A}'
    || c == '\U{2028}' || c == '\U{2029}' || c == '\U{202F}' || c == '\U{205F}' || c == '\U{3000}' || c == '\U{FEFF}'
  }

  function TrimStart(s: string): string {
    if s != "" && IsSpace(s[0]) then TrimStart(s[1..]) else s
  }

  function TrimEnd(s: string): string {
    if s != "" && IsSpace(s[|s| - 1]) then TrimEnd(s[..|s| - 1]) else s
  }

  function Trim(s: string): string {
    TrimEnd(TrimStart(s))
  }

  predicate AllSpace(s: string) {
    forall c :: c in s ==> IsSpace(c)
  }

  lemma {:induction false} TrimStartBlank(s: string)
    requires AllSpace(TrimStart(s))
    ensures AllSpace(s)
  {
    if s != "" && IsSpace(s[0]) {
      TrimStartBlank(s[1..]);
      assert s == [s[0]] + s[1..];
    }
  }

  lemma {:induction false} TrimEndBlank(s: string)
    requires TrimEnd(s) == ""
    ensures AllSpace(s)
  {
    if s != "" {
      TrimEndBlank(s[..|s| - 1]);
      assert s == s[..|s| - 1] + [s[|s| - 1]];
    }
  }

  lemma TrimBlank(s: string)
    requires Trim(s) == ""
    ensures AllSpace(s)
  {
    TrimEndBlank(TrimStart(s));
    TrimStartBlank(s);
  }

  predicate OccursAt(s: string, t: string, i: nat) {
    i + |t| <= |s| && s[i..i + |t|] == t
  }

  predicate Contains(s: string, t: string) {
    exists i :: 0 <= i <= |s| && OccursAt(s, t, i)
  }

  lemma ContainsMiddle(a: string, t: string, b: string)
    ensures Contains(a + t + b, t)
  {
    assert OccursAt(a + t + b, t, |a|);
  }

  function Join(parts: seq<string>, sep: string): string {
    if parts == [] then ""
    else if |parts| == 1 then parts[0]
    else parts[0] + sep + Join(parts[1..], sep)
  }

  lemma JoinStep(head: string, tail: seq<string>, sep: string)
    ensures Join([head] + tail, sep) == head + if tail == [] then "" else sep + Join(tail, sep)
  {
    assert ([head] + tail)[1..] == tail;
  }

  lemma Regroup<T>(a: seq<T>, b: seq<T>, c: seq<T>)
    ensures (a + b) + c == a + (b + c)
  {
  }

  lemma CancelSuffix(x: string, y: string, r: string)
    requires x + r == y + r
    ensures x == y
  {
    assert |x| == |y|;
    assert x == (x + r)[..|x|] == (y + r)[..|x|] == y;
  }

  lemma CancelPrefix(p: string, u: string, v: string)
    requires p + u == p + v
    ensures u == v
  {
    assert u == (p + u)[|p|..] == (p + v)[|p|..] == v;
  }

  // A joined text determines its middle part, the others being fixed.
  lemma {:induction false} JoinDeterminesMiddle(a: seq<string>, x: string, y: string, b: seq<string>, sep: string)
    requires Join(a + [x] + b, sep) == Join(a + [y] + b, sep)
    ensures x == y
  {
    if a == [] {
      assert a + [x] + b == [x] + b && a + [y] + b == [y] + b;
      JoinStep(x, b, sep);
      JoinStep(y, b, sep);
      CancelSuffix(x, y, if b == [] then "" else sep + Join(b, sep));
    } else {
      var t := a[1..];
      assert a + [x] + b == [a[0]] + (t + [x] + b) && a + [y] + b == [a[0]] + (t + [y] + b);
      JoinStep(a[0], t + [x] + b, sep);
      JoinStep(a[0], t + [y] + b, sep);
      CancelPrefix(a[0], sep + Join(t + [x] + b, sep), sep + Join(t + [y] + b, sep));
      CancelPrefix(sep, Join(t + [x] + b, sep), Join(t + [y] + b, sep));
      JoinDeterminesMiddle(t, x, y, b, sep);
    }
  }

  lemma {:induction false} JoinGrows(a: seq<string>, x: string, b: seq<string>, sep: string)
    requires x != ""
    ensures |Join(a + [x] + b, sep)| > |Join(a + b, sep)|
  {
    if a == [] {
      assert a + [x] + b == [x] + b && a + b == b;
      JoinStep(x, b, sep);
    } else {
      var t := a[1..];
      JoinGrows(t, x, b, sep);
      assert a + [x] + b == [a[0]] + (t + [x] + b) && a + b == [a[0]] + (t + b);
      JoinStep(a[0], t + [x] + b, sep);
      JoinStep(a[0], t + b, sep);
    }
  }

  predicate EndsWith(s: string, suffix: string) {
    |suffix| <= |s| && s[|s| - |suffix|..] == suffix
  }

  predicate StartsWith(s: string, prefix: string) {
    |prefix| <= |s| && s[..|prefix|] == prefix
  }

  function Split(s: string, sep: char): (parts: seq<string>)
    ensures parts != []
  {
    if s == "" then [""]
    else
      var rest := Split(s[1..], sep);
      if s[0] == sep then [""] + rest else [[s[0]] + rest[0]] + rest[1..]
  }

  lemma {:induction false} JoinOfSplit(s: string, sep: char)
    ensures Join(Split(s, sep), [sep]) == s
  {
    if s != "" {
      var rest := Split(s[1..], sep);
      JoinOfSplit(s[1..], sep);
      if s[0] == sep {
        JoinStep("", rest, [sep]);
      } else {
        assert rest == [rest[0]] + rest[1..];
        JoinStep(rest[0], rest[1..], [sep]);
        JoinStep([s[0]] + rest[0], rest[1..], [sep]);
      }
    }
  }

  lemma {:induction false} SplitOfWord(w: string, rest: string, sep: char)
    requires sep !in w
    ensures Split(w, sep) == [w]
    ensures Split(w + [sep] + rest, sep) == [w] + Split(rest, sep)
  {
    if w == "" {
      assert w + [sep] + rest == [sep] + rest && ([sep] + rest)[1..] == rest;
    } else {
      SplitOfWord(w[1..], rest, sep);
      assert (w + [sep] + rest)[1..] == w[1..] + [sep] + rest;
      assert w == [w[0]] + w[1..];
    }
  }

  lemma {:induction false} SplitOfJoin(parts: seq<string>, sep: char)
    requires parts != [] && forall p :: p in parts ==> sep !in p
    ensures Split(Join(parts, [sep]), sep) == parts
  {
    SplitOfWord(parts[0], Join(parts[1..], [sep]), sep);
    if |parts| > 1 {
      SplitOfJoin(parts[1..], sep);
      assert parts == [parts[0]] + parts[1..];
    } else {
      assert parts == [parts[0]];
    }
  }

  // strings.ToUpper on an ASCII character.
  function ToUpper(c: char): char {
    if 'a' <= c <= 'z' then (c as int - 32) as char else c
  }
}
