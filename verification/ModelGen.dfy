// cmd/modelgen/main.go and db/rowmap.go: one Go struct and one row map per
// table, generated from its columns.
module ModelGen {
  import opened Text
  import opened Wrappers

  // ---- Column names and field names ------------------------------------------

  predicate Lower(c: char) { 'a' <= c <= 'z' }

  predicate Upper(c: char) { 'A' <= c <= 'Z' }

  predicate Digit(c: char) { '0' <= c <= '9' }

  function ToLower(c: char): char {
    if Upper(c) then (c as int + 32) as char else c
  }

  function Capital(part: string): string
    requires part != ""
  {
    if part == "id" then "ID" else [ToUpper(part[0])] + part[1..]
  }

  function Capitals(parts: seq<string>): seq<string>
    requires "" !in parts
  {
    seq(|parts|, i requires 0 <= i < |parts| => Capital(parts[i]))
  }

  // None where part[:1] of an empty part panics.
  function FieldName(column: string): Option<string> {
    var parts := Split(column, '_');
    if "" in parts then None else Some(Join(Capitals(parts), ""))
  }

  // The loop of fieldName, which rewrites the parts in place; false is a panic.
  method CapitalizeParts(parts: array<string>) returns (ok: bool)
    modifies parts
    ensures ok <==> "" !in old(parts[..])
    ensures ok ==> parts[..] == Capitals(old(parts[..]))
  {
    ghost var was := parts[..];
    var i := 0;
    while i < parts.Length
      invariant 0 <= i <= parts.Length
      invariant forall k :: 0 <= k < i ==> was[k] != "" && parts[k] == Capital(was[k])
      invariant forall k :: i <= k < parts.Length ==> parts[k] == was[k]
    {
      if parts[i] == "" {
        assert was[i] == "";
        return false;
      }
      parts[i] := Capital(parts[i]);
      i := i + 1;
    }
    return true;
  }

  method ComputeFieldName(column: string) returns (name: Option<string>)
    ensures name == FieldName(column)
  {
    var split := Split(column, '_');
    var parts := new string[|split|](i requires 0 <= i < |split| => split[i]);
    assert parts[..] == split;
    var ok := CapitalizeParts(parts);
    return if ok then Some(Join(parts[..], "")) else None;
  }

  // Lower-case letters and digits.
  predicate Part(p: string) {
    p != "" && forall c :: c in p ==> Lower(c) || Digit(c)
  }

  predicate Parts(parts: seq<string>) {
    forall p :: p in parts ==> Part(p)
  }

  predicate Plain(column: string) {
    Parts(Split(column, '_'))
  }

  predicate DigitLed(p: string) {
    p != "" && Digit(p[0])
  }

  // ---- Canonical parts ---------------------------------------------------------

  // ID is written for "id" and for "i", "d" alike.
  function Expand(parts: seq<string>): seq<string> {
    if parts == [] then [] else (if parts[0] == "id" then ["i", "d"] else [parts[0]]) + Expand(parts[1..])
  }

  // A part that a digit leads leaves no trace of where it began.
  function Merge(parts: seq<string>): seq<string>
    decreases |parts|
  {
    if |parts| <= 1 then parts
    else if DigitLed(parts[1]) then Merge([parts[0] + parts[1]] + parts[2..])
    else [parts[0]] + Merge(parts[1..])
  }

  function Fold(parts: seq<string>): seq<string> {
    if parts == [] then []
    else if |parts| >= 2 && parts[0] == "i" && parts[1] == "d" then ["id"] + Fold(parts[2..])
    else [parts[0]] + Fold(parts[1..])
  }

  // The parts up to what their field name cannot tell.
  function Canon(parts: seq<string>): seq<string> {
    Fold(Merge(Expand(parts)))
  }

  // "i" stands before "d".
  predicate SplitsId(parts: seq<string>) {
    exists i :: 0 < i < |parts| && parts[i - 1] == "i" && parts[i] == "d"
  }

  // A digit leads a part other than the first.
  predicate SplitsDigits(parts: seq<string>) {
    exists i :: 0 < i < |parts| && DigitLed(parts[i])
  }

  // ---- A decoder for field names ---------------------------------------------

  function UntilUpper(s: string): (n: nat)
    ensures n <= |s|
  {
    if s == "" || Upper(s[0]) then 0 else 1 + UntilUpper(s[1..])
  }

  // One word from each capital on.
  function Words(s: string): seq<string>
    decreases |s|
  {
    if s == "" then [] else
      var n := 1 + UntilUpper(s[1..]);
      [[ToLower(s[0])] + s[1..n]] + Words(s[n..])
  }

  function Decode(s: string): seq<string> {
    Fold(Words(s))
  }

  lemma {:induction false} UntilUpperStops(tail: string, rest: string)
    requires forall c :: c in tail ==> !Upper(c)
    requires rest == "" || Upper(rest[0])
    ensures UntilUpper(tail + rest) == |tail|
  {
    if tail == "" {
      assert tail + rest == rest;
    } else {
      UntilUpperStops(tail[1..], rest);
      assert (tail + rest)[1..] == tail[1..] + rest;
    }
  }

  // Every part with its first character raised, without regard to "id".
  function Raised(parts: seq<string>): string
    requires "" !in parts
  {
    if parts == [] then "" else [ToUpper(parts[0][0])] + parts[0][1..] + Raised(parts[1..])
  }

  function Written(parts: seq<string>): string
    requires "" !in parts
  {
    Join(Capitals(parts), "")
  }

  lemma WrittenStep(parts: seq<string>)
    requires parts != [] && "" !in parts
    ensures Written(parts) == Capital(parts[0]) + Written(parts[1..])
  {
    assert Capitals(parts) == [Capital(parts[0])] + Capitals(parts[1..]);
    JoinStep(Capital(parts[0]), Capitals(parts[1..]), "");
    assert "" + Join(Capitals(parts[1..]), "") == Join(Capitals(parts[1..]), "");
  }

  lemma RaisedStep(head: string, tail: seq<string>)
    requires head != "" && "" !in tail
    ensures "" !in [head] + tail
    ensures Raised([head] + tail) == [ToUpper(head[0])] + head[1..] + Raised(tail)
  {
    assert ([head] + tail)[1..] == tail;
  }

  lemma RaisedId(tail: seq<string>)
    requires "" !in tail
    ensures "" !in ["i", "d"] + tail && Raised(["i", "d"] + tail) == "ID" + Raised(tail)
  {
    RaisedStep("d", tail);
    RaisedStep("i", ["d"] + tail);
    assert ["i", "d"] + tail == ["i"] + (["d"] + tail);
    assert "I" + "" + ("D" + "" + Raised(tail)) == "ID" + Raised(tail);
  }

  lemma {:induction false} WrittenIsRaised(parts: seq<string>)
    requires "" !in parts
    ensures "" !in Expand(parts) && "id" !in Expand(parts)
    ensures Written(parts) == Raised(Expand(parts))
  {
    if parts != [] {
      var tail := Expand(parts[1..]);
      WrittenStep(parts);
      WrittenIsRaised(parts[1..]);
      if parts[0] == "id" {
        RaisedId(tail);
        assert Expand(parts) == ["i", "d"] + tail;
      } else {
        RaisedStep(parts[0], tail);
        assert Expand(parts) == [parts[0]] + tail;
      }
    }
  }

  lemma {:induction false} ExpandKeepsParts(parts: seq<string>)
    requires Parts(parts)
    ensures Parts(Expand(parts))
  {
    if parts != [] {
      ExpandKeepsParts(parts[1..]);
      assert Part("i") && Part("d");
    }
  }

  lemma MergedPart(a: string, b: string)
    requires Part(a) && Part(b) && DigitLed(b)
    ensures Part(a + b) && a + b != "id"
    ensures [ToUpper(a[0])] + a[1..] + ([ToUpper(b[0])] + b[1..]) == [ToUpper((a + b)[0])] + (a + b)[1..]
  {
    assert (a + b)[|a|] == b[0];
    assert [ToUpper(b[0])] + b[1..] == b;
    assert (a + b)[1..] == a[1..] + b;
  }

  lemma RaisedMerged(a: string, b: string, rest: seq<string>)
    requires Part(a) && Part(b) && DigitLed(b) && Parts(rest)
    ensures "" !in [a + b] + rest && "" !in [a] + ([b] + rest)
    ensures Raised([a + b] + rest) == Raised([a] + ([b] + rest))
  {
    MergedPart(a, b);
    RaisedStep(b, rest);
    RaisedStep(a, [b] + rest);
    RaisedStep(a + b, rest);
  }

  // Merging loses nothing of the name, and leaves no digit in the lead.
  lemma {:induction false} MergeIsRaisedAlike(q: seq<string>)
    requires Parts(q)
    ensures Parts(Merge(q)) && Raised(Merge(q)) == Raised(q)
    ensures !SplitsDigits(Merge(q)) && ("id" !in q ==> "id" !in Merge(q))
    decreases |q|
  {
    if |q| >= 2 {
      var rest := q[2..];
      assert Part(q[0]) && Part(q[1]) by { assert q[0] in q && q[1] in q; }
      assert q == [q[0]] + ([q[1]] + rest) && q[1..] == [q[1]] + rest;
      if DigitLed(q[1]) {
        MergedPart(q[0], q[1]);
        RaisedMerged(q[0], q[1], rest);
        MergeIsRaisedAlike([q[0] + q[1]] + rest);
      } else {
        MergeIsRaisedAlike(q[1..]);
        MergeStarts(q[1..]);
        RaisedStep(q[0], Merge(q[1..]));
        RaisedStep(q[0], q[1..]);
        NoDigitsAfter(q[0], Merge(q[1..]));
      }
    }
  }

  lemma {:induction false} MergeStarts(q: seq<string>)
    requires Parts(q) && q != [] && q[0] != ""
    ensures Merge(q) != [] && Merge(q)[0] != "" && Merge(q)[0][0] == q[0][0]
    decreases |q|
  {
    if |q| >= 2 && DigitLed(q[1]) {
      assert q[0] in q && q[1] in q;
      MergedPart(q[0], q[1]);
      MergeStarts([q[0] + q[1]] + q[2..]);
    }
  }

  lemma NoDigitsAfter(head: string, tail: seq<string>)
    requires tail != [] && !DigitLed(tail[0]) && !SplitsDigits(tail)
    ensures !SplitsDigits([head] + tail)
  {
    var all := [head] + tail;
    forall i | 0 < i < |all| ensures !DigitLed(all[i]) {
      assert all[i] == tail[i - 1];
    }
  }

  lemma RaisedStartsUpper(q: seq<string>)
    requires Parts(q) && q != [] && !DigitLed(q[0])
    ensures Raised(q) != "" && Upper(Raised(q)[0])
  {
    assert q[0] in q;
    assert q[0][0] in q[0];
  }

  lemma WordsStep(w: string, rest: string)
    requires Part(w) && (rest == "" || Upper(rest[0]))
    ensures Words([ToUpper(w[0])] + w[1..] + rest) == [w] + Words(rest)
  {
    var s, tail := [ToUpper(w[0])] + w[1..] + rest, w[1..];
    forall c | c in tail ensures !Upper(c) {
      assert c in w;
    }
    UntilUpperStops(tail, rest);
    Regroup([ToUpper(w[0])], tail, rest);
    assert s[1..] == tail + rest;
    assert s[1..|w|] == (tail + rest)[..|tail|] == tail && s[|w|..] == (tail + rest)[|tail|..] == rest;
    assert w[0] in w && [ToLower(ToUpper(w[0]))] + tail == w;
  }

  lemma {:induction false} WordsOfRaised(q: seq<string>)
    requires Parts(q) && !SplitsDigits(q)
    ensures Words(Raised(q)) == q
  {
    if q != [] {
      var tail := q[1..];
      assert forall i :: 0 <= i < |tail| ==> tail[i] == q[i + 1];
      WordsOfRaised(tail);
      if tail != [] { RaisedStartsUpper(tail); }
      WordsStep(q[0], Raised(tail));
      assert q == [q[0]] + tail;
    }
  }

  // Decoding a field name gives the canonical parts of the column it came from.
  lemma DecodeWritten(parts: seq<string>)
    requires Parts(parts)
    ensures Decode(Written(parts)) == Canon(parts)
  {
    WrittenIsRaised(parts);
    ExpandKeepsParts(parts);
    MergeIsRaisedAlike(Expand(parts));
    WordsOfRaised(Merge(Expand(parts)));
  }

  lemma ExpandStep(head: string, tail: seq<string>)
    ensures Expand([head] + tail) == (if head == "id" then ["i", "d"] else [head]) + Expand(tail)
    ensures Part(head) && Parts(tail) ==> Parts([head] + tail)
  {
    assert ([head] + tail)[1..] == tail;
  }

  lemma ExpandOfPair(q: seq<string>)
    requires |q| >= 2 && q[0] == "i" && q[1] == "d"
    requires Expand(Fold(q[2..])) == q[2..] && Parts(Fold(q[2..]))
    ensures Expand(Fold(q)) == q && Parts(Fold(q))
  {
    ExpandStep("id", Fold(q[2..]));
    assert q == ["i", "d"] + q[2..];
    assert Part("id");
  }

  lemma ExpandOfOther(q: seq<string>)
    requires q != [] && !(|q| >= 2 && q[0] == "i" && q[1] == "d") && q[0] != "id" && Part(q[0])
    requires Expand(Fold(q[1..])) == q[1..] && Parts(Fold(q[1..]))
    ensures Expand(Fold(q)) == q && Parts(Fold(q))
  {
    ExpandStep(q[0], Fold(q[1..]));
    assert q == [q[0]] + q[1..];
  }

  lemma {:induction false} ExpandOfFold(q: seq<string>)
    requires Parts(q) && "id" !in q
    ensures Expand(Fold(q)) == q && Parts(Fold(q))
    decreases |q|
  {
    if q != [] {
      if |q| >= 2 && q[0] == "i" && q[1] == "d" {
        ExpandOfFold(q[2..]);
        ExpandOfPair(q);
      } else {
        ExpandOfFold(q[1..]);
        assert q[0] in q;
        ExpandOfOther(q);
      }
    }
  }

  lemma CanonIsWrittenAlike(parts: seq<string>)
    requires Parts(parts)
    ensures Parts(Canon(parts)) && Written(Canon(parts)) == Written(parts)
  {
    var merged := Merge(Expand(parts));
    WrittenIsRaised(parts);
    ExpandKeepsParts(parts);
    MergeIsRaisedAlike(Expand(parts));
    ExpandOfFold(merged);
    WrittenIsRaised(Fold(merged));
  }

  // ---- When the canonical parts are the parts ---------------------------------------

  lemma NoIdAfter(head: string, tail: seq<string>)
    requires !SplitsId(tail) && !(head == "i" && tail != [] && tail[0] == "d")
    ensures !SplitsId([head] + tail)
  {
    var all := [head] + tail;
    forall i | 0 < i < |all| ensures !(all[i - 1] == "i" && all[i] == "d") {
      assert all[i] == tail[i - 1] && (i > 1 ==> all[i - 1] == tail[i - 2]);
    }
  }

  lemma {:induction false} FoldNeverSplitsId(q: seq<string>)
    ensures !SplitsId(Fold(q))
    ensures q != [] ==> Fold(q) != [] && Fold(q)[0] == if |q| >= 2 && q[0] == "i" && q[1] == "d" then "id" else q[0]
    decreases |q|
  {
    if q != [] {
      if |q| >= 2 && q[0] == "i" && q[1] == "d" {
        FoldNeverSplitsId(q[2..]);
        NoIdAfter("id", Fold(q[2..]));
      } else {
        FoldNeverSplitsId(q[1..]);
        NoIdAfter(q[0], Fold(q[1..]));
      }
    }
  }

  lemma {:induction false} FoldHoldsParts(q: seq<string>)
    ensures forall p :: p in Fold(q) ==> p in q || p == "id"
    decreases |q|
  {
    if q != [] {
      FoldHoldsParts(if |q| >= 2 && q[0] == "i" && q[1] == "d" then q[2..] else q[1..]);
    }
  }

  lemma LaterParts(q: seq<string>)
    requires q != []
    ensures !SplitsDigits(q) <==> forall p :: p in q[1..] ==> !DigitLed(p)
  {
    assert forall i :: 0 < i < |q| ==> q[i] == q[1..][i - 1];
    if !SplitsDigits(q) {
      forall p | p in q[1..] ensures !DigitLed(p) {
        var i :| 0 <= i < |q[1..]| && q[1..][i] == p;
        assert q[i + 1] == p;
      }
    }
  }

  lemma FoldNeverSplitsDigits(q: seq<string>)
    requires !SplitsDigits(q)
    ensures !SplitsDigits(Fold(q))
  {
    if q != [] {
      var tail := if |q| >= 2 && q[0] == "i" && q[1] == "d" then q[2..] else q[1..];
      FoldHoldsParts(tail);
      LaterParts(q);
      LaterParts(Fold(q));
      assert Fold(q)[1..] == Fold(tail);
      assert forall p :: p in tail ==> p in q[1..];
    }
  }

  lemma FoldNeverSplits(q: seq<string>)
    ensures !SplitsId(Fold(q))
    ensures !SplitsDigits(q) ==> !SplitsDigits(Fold(q))
    ensures q != [] ==> Fold(q) != [] && Fold(q)[0] == if |q| >= 2 && q[0] == "i" && q[1] == "d" then "id" else q[0]
  {
    FoldNeverSplitsId(q);
    if !SplitsDigits(q) {
      FoldNeverSplitsDigits(q);
    }
  }

  lemma {:induction false} MergeKeeps(q: seq<string>)
    requires !SplitsDigits(q)
    ensures Merge(q) == q
    decreases |q|
  {
    if |q| >= 2 {
      assert !DigitLed(q[1]);
      assert forall i :: 0 <= i < |q[1..]| ==> q[1..][i] == q[i + 1];
      MergeKeeps(q[1..]);
    }
  }

  lemma {:induction false} ExpandHasNoDigits(parts: seq<string>)
    requires forall p :: p in parts ==> !DigitLed(p)
    ensures forall p :: p in Expand(parts) ==> !DigitLed(p)
  {
    if parts != [] {
      ExpandHasNoDigits(parts[1..]);
    }
  }

  lemma ExpandKeepsDigitsFirst(parts: seq<string>)
    requires !SplitsDigits(parts)
    ensures !SplitsDigits(Expand(parts))
  {
    if parts != [] {
      var tail := parts[1..];
      forall p | p in tail ensures !DigitLed(p) {
        var i :| 0 <= i < |tail| && tail[i] == p;
        assert parts[i + 1] == p;
      }
      ExpandHasNoDigits(tail);
      var e := Expand(parts);
      forall i | 0 < i < |e| ensures !DigitLed(e[i]) {
        assert e[i] == "d" || e[i] in Expand(tail);
      }
    }
  }

  lemma {:induction false} FoldOfExpand(parts: seq<string>)
    requires !SplitsId(parts)
    ensures Fold(Expand(parts)) == parts
    decreases |parts|
  {
    if parts != [] {
      var tail := parts[1..];
      assert forall i :: 0 <= i < |tail| ==> tail[i] == parts[i + 1];
      FoldOfExpand(tail);
      var e := Expand(tail);
      assert parts == [parts[0]] + tail;
      if parts[0] == "id" {
        assert Expand(parts) == ["i", "d"] + e && (["i", "d"] + e)[2..] == e;
      } else {
        assert Expand(parts) == [parts[0]] + e && ([parts[0]] + e)[1..] == e;
        assert e != [] ==> e[0] == if tail[0] == "id" then "i" else tail[0];
      }
    }
  }

  lemma CanonKeepsExactly(parts: seq<string>)
    requires Parts(parts)
    ensures Canon(parts) == parts <==> !SplitsId(parts) && !SplitsDigits(parts)
  {
    ExpandKeepsParts(parts);
    MergeIsRaisedAlike(Expand(parts));
    FoldNeverSplits(Merge(Expand(parts)));
    if !SplitsId(parts) && !SplitsDigits(parts) {
      ExpandKeepsDigitsFirst(parts);
      MergeKeeps(Expand(parts));
      FoldOfExpand(parts);
    }
  }

  // Two columns share a field name exactly when their canonical parts agree.
  lemma FieldNamesCollideExactly(a: string, b: string)
    requires Plain(a) && Plain(b)
    ensures FieldName(a).Some? && FieldName(b).Some?
    ensures FieldName(a) == FieldName(b) <==> Canon(Split(a, '_')) == Canon(Split(b, '_'))
  {
    DecodeWritten(Split(a, '_'));
    DecodeWritten(Split(b, '_'));
    CanonIsWrittenAlike(Split(a, '_'));
    CanonIsWrittenAlike(Split(b, '_'));
  }

  lemma NoSeparatorInParts(parts: seq<string>)
    requires Parts(parts)
    ensures forall p :: p in parts ==> '_' !in p
  {
  }

  // The decoder recovers the column exactly when no part "i" precedes a part
  // "d" and no digit leads a part but the first.
  lemma FieldNameRoundTripExactly(column: string)
    requires Plain(column)
    ensures FieldName(column).Some?
    ensures Join(Decode(FieldName(column).value), "_") == column <==>
            !SplitsId(Split(column, '_')) && !SplitsDigits(Split(column, '_'))
  {
    var parts := Split(column, '_');
    DecodeWritten(parts);
    CanonKeepsExactly(parts);
    CanonIsWrittenAlike(parts);
    CanonIsNotEmpty(parts);
    JoinOfSplit(column, '_');
    NoSeparatorInParts(Canon(parts));
    SplitOfJoin(Canon(parts), '_');
  }

  lemma CanonIsNotEmpty(parts: seq<string>)
    requires Parts(parts) && parts != []
    ensures Canon(parts) != []
  {
    var expanded := Expand(parts);
    ExpandKeepsParts(parts);
    assert expanded[0] in expanded;
    MergeStarts(expanded);
    FoldNeverSplits(Merge(expanded));
  }

  lemma FieldNameIsInjective(a: string, b: string)
    requires Plain(a) && !SplitsId(Split(a, '_')) && !SplitsDigits(Split(a, '_'))
    requires Plain(b) && !SplitsId(Split(b, '_')) && !SplitsDigits(Split(b, '_'))
    requires FieldName(a) == FieldName(b)
    ensures a == b
  {
    FieldNameRoundTripExactly(a);
    FieldNameRoundTripExactly(b);
  }

  lemma NameOfOne(a: string)
    requires a != "" && '_' !in a
    ensures Split(a, '_') == [a] && FieldName(a) == Some(Capital(a))
  {
    SplitOfWord(a, "", '_');
    assert Capitals([a]) == [Capital(a)];
  }

  lemma NameOfTwo(a: string, b: string)
    requires a != "" && b != "" && '_' !in a && '_' !in b
    ensures Split(a + "_" + b, '_') == [a, b] && FieldName(a + "_" + b) == Some(Capital(a) + Capital(b))
  {
    SplitOfTwo(a, b);
    var caps := Capitals([a, b]);
    assert caps == [Capital(a), Capital(b)];
    JoinOfTwo(Capital(a), Capital(b));
  }

  lemma SplitOfTwo(a: string, b: string)
    requires '_' !in a && '_' !in b
    ensures Split(a + "_" + b, '_') == [a, b]
  {
    SplitOfWord(a, b, '_');
    SplitOfWord(b, "", '_');
  }

  lemma JoinOfTwo(x: string, y: string)
    ensures Join([x, y], "") == x + y
  {
    assert [x, y][1..] == [y];
    assert x + "" + y == x + y;
  }

  lemma IdsMeet()
    ensures Plain("i_d") && Plain("id") && FieldName("i_d") == FieldName("id")
  {
    NameOfTwo("i", "d");
    NameOfOne("id");
    assert "i" + "_" + "d" == "i_d";
    assert Capital("i") + Capital("d") == Capital("id");
  }

  lemma DigitsMeet()
    ensures Plain("a_1") && Plain("a1") && FieldName("a_1") == FieldName("a1")
  {
    NameOfTwo("a", "1");
    NameOfOne("a1");
    assert "a" + "_" + "1" == "a_1";
    assert Capital("a") + Capital("1") == Capital("a1");
  }

  // Both provisos are needed: "i_d" meets "id", and "a_1" meets "a1".
  lemma FieldNamesThatMeet()
    ensures Plain("i_d") && Plain("id") && FieldName("i_d") == FieldName("id")
    ensures Plain("a_1") && Plain("a1") && FieldName("a_1") == FieldName("a1")
  {
    IdsMeet();
    DigitsMeet();
  }
}
