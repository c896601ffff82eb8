/**
 The type part of EIP-712 typed data, tdata/tdata.go: the walk through the types a type
 refers to and the encoding of a type.
 */
module TypedData {
  import opened Sequences

  datatype Field = Field(name: string, typ: string)

  type Types = map<string, seq<Field>>

  // ---------- which types a type refers to ----------

  predicate RefersTo(types: Types, a: string, b: string) {
    a in types && b in types && exists i :: 0 <= i < |types[a]| && types[a][i].typ == b
  }

  /** A chain of defined types, each of which has a field of the next. */
  ghost predicate Chain(types: Types, path: seq<string>) {
    && path != [] && path[0] in types
    && forall i {:trigger path[i]} :: 0 < i < |path| ==> RefersTo(types, path[i - 1], path[i])
  }

  /** b is a defined type that a refers to, directly or not; or a itself. */
  ghost predicate Reachable(types: Types, a: string, b: string) {
    exists path :: Chain(types, path) && path[0] == a && path[|path| - 1] == b
  }

  lemma ReachesItself(types: Types, a: string)
    requires a in types
    ensures Reachable(types, a, a)
  {
    assert Chain(types, [a]);
  }

  lemma ReachesVia(types: Types, a: string, b: string, c: string)
    requires RefersTo(types, a, b) && Reachable(types, b, c)
    ensures Reachable(types, a, c)
  {
    var path :| Chain(types, path) && path[0] == b && path[|path| - 1] == c;
    var longer := [a] + path;
    forall i | 0 < i < |longer| ensures RefersTo(types, longer[i - 1], longer[i]) {
      assert i > 1 ==> longer[i - 1] == path[i - 2] && longer[i] == path[i - 1];
    }
    assert Chain(types, longer);
  }

  /** What the walk from a type may add to the names it has found: new defined names that
      the type reaches, and with a name everything it refers to. */
  ghost predicate Extends(types: Types, primary: string, found: seq<string>, r: seq<string>) {
    && found <= r && Distinct(r)
    && (forall i {:trigger r[i]} :: |found| <= i < |r| ==> r[i] in types && Reachable(types, primary, r[i]))
  }

  ghost predicate ClosedFrom(types: Types, start: nat, r: seq<string>) {
    forall i, b {:trigger RefersTo(types, r[i], b)} :: start <= i < |r| && RefersTo(types, r[i], b) ==> b in r
  }

  function NameSet(names: seq<string>): set<string> { set i | 0 <= i < |names| :: names[i] }

  /** Appends the names that are not there yet. */
  method AppendNew(found: seq<string>, deps: seq<string>) returns (r: seq<string>)
    requires found <= deps && Distinct(deps)
    ensures r == deps
  {
    r := found;
    for i := 0 to |deps|
      invariant r == if i <= |found| then found else deps[..i]
    {
      if deps[i] !in r {
        r := r + [deps[i]];
      }
    }
  }

  /** Dependencies: the walk ends on every type graph, also with cycles, because it never
      enters a type twice. */
  method Dependencies(types: Types, primary: string, found: seq<string>) returns (r: seq<string>)
    requires Distinct(found)
    ensures Extends(types, primary, found, r) && ClosedFrom(types, |found|, r)
    ensures if primary in types then primary in r else r == found
    ensures primary in types && primary !in found ==> |r| > |found| && r[|found|] == primary
    decreases types.Keys - NameSet(found)
  {
    if primary in found {
      return found;
    }
    if primary !in types {
      return found;
    }
    r := found + [primary];
    ReachesItself(types, primary);
    for i := 0 to |types[primary]|
      invariant Extends(types, primary, found, r) && found + [primary] <= r
      invariant ClosedFrom(types, |found| + 1, r)
      invariant forall j :: 0 <= j < i && types[primary][j].typ in types ==> types[primary][j].typ in r
    {
      var sub := types[primary][i].typ;
      FewerLeft(types, primary, found, r);
      var deps := Dependencies(types, sub, r);
      NewFromField(types, primary, i, r, deps);
      r := AppendNew(r, deps);
    }
    assert r[|found|] == primary;
  }

  lemma FewerLeft(types: Types, primary: string, found: seq<string>, r: seq<string>)
    requires primary in types && primary !in found && found + [primary] <= r
    ensures types.Keys - NameSet(r) < types.Keys - NameSet(found)
  {
    forall name | name in NameSet(found) ensures name in NameSet(r) {
      var i :| 0 <= i < |found| && found[i] == name;
      assert r[i] == name;
    }
    assert r[|found|] == primary;
    assert primary in types.Keys - NameSet(found) && primary !in types.Keys - NameSet(r);
  }

  lemma NewFromField(types: Types, primary: string, i: nat, r: seq<string>, deps: seq<string>)
    requires primary in types && i < |types[primary]| && Extends(types, types[primary][i].typ, r, deps)
    ensures forall k {:trigger deps[k]} :: |r| <= k < |deps| ==> Reachable(types, primary, deps[k])
  {
    var sub := types[primary][i].typ;
    forall k | |r| <= k < |deps| ensures Reachable(types, primary, deps[k]) {
      assert Reachable(types, sub, deps[k]);
      var path :| Chain(types, path) && path[0] == sub && path[|path| - 1] == deps[k];
      ReachesVia(types, primary, sub, deps[k]);
    }
  }

  /** Started with nothing found, the walk returns, without repetition and the primary type
      first, exactly the defined types that the primary type reaches. */
  method AllDependencies(types: Types, primary: string) returns (r: seq<string>)
    ensures Distinct(r) && forall b :: b in r <==> Reachable(types, primary, b)
    ensures primary in types ==> |r| > 0 && r[0] == primary
    ensures primary !in types ==> r == []
  {
    r := Dependencies(types, primary, []);
    forall b | Reachable(types, primary, b) ensures b in r {
      var path :| Chain(types, path) && path[0] == primary && path[|path| - 1] == b;
      ReachedIsFound(types, r, path, |path| - 1);
    }
  }

  lemma {:induction false} ReachedIsFound(types: Types, r: seq<string>, path: seq<string>, i: nat)
    requires Chain(types, path) && i < |path| && path[0] in r && ClosedFrom(types, 0, r)
    ensures path[i] in r
  {
    if i > 0 {
      ReachedIsFound(types, r, path, i - 1);
      var k :| 0 <= k < |r| && r[k] == path[i - 1];
      assert RefersTo(types, r[k], path[i]);
    }
  }

  // ---------- encoding a type ----------

  /** The order of Go's strings. */
  predicate Le(a: string, b: string) {
    a == [] || (b != [] && (a[0] < b[0] || (a[0] == b[0] && Le(a[1..], b[1..]))))
  }

  /** The first string is a prefix of the second or smaller at the first difference. */
  lemma {:induction false} LeIsLexicographic(a: string, b: string)
    ensures Le(a, b) <==>
            a <= b || exists i :: 0 <= i < |a| && i < |b| && a[..i] == b[..i] && a[i] < b[i]
  {
    if a != [] && b != [] && a[0] == b[0] {
      LeIsLexicographic(a[1..], b[1..]);
      assert a == [a[0]] + a[1..] && b == [b[0]] + b[1..];
      if i :| 0 <= i < |a[1..]| && i < |b[1..]| && a[1..][..i] == b[1..][..i] && a[1..][i] < b[1..][i] {
        assert a[..i + 1] == [a[0]] + a[1..][..i] && b[..i + 1] == [b[0]] + b[1..][..i];
      }
      if i :| 0 <= i < |a| && i < |b| && a[..i] == b[..i] && a[i] < b[i] {
        assert i > 0;
        assert a[1..][..i - 1] == a[..i][1..] && b[1..][..i - 1] == b[..i][1..];
      }
    } else if a != [] && b != [] && a[0] < b[0] {
      assert a[..0] == b[..0];
    } else {
      assert forall i :: 0 < i < |a| && i < |b| ==> a[..i][0] == a[0] && b[..i][0] == b[0];
    }
  }

  lemma {:induction false} LeTotal(a: string, b: string)
    ensures Le(a, b) || Le(b, a)
  {
    if a != [] && b != [] {
      LeTotal(a[1..], b[1..]);
    }
  }

  lemma {:induction false} LeTransitive(a: string, b: string, c: string)
    requires Le(a, b) && Le(b, c)
    ensures Le(a, c)
  {
    if a != [] && a[0] == b[0] == c[0] {
      LeTransitive(a[1..], b[1..], c[1..]);
    }
  }

  lemma {:induction false} LeAntisymmetric(a: string, b: string)
    requires Le(a, b) && Le(b, a)
    ensures a == b
  {
    if a != [] {
      LeAntisymmetric(a[1..], b[1..]);
      assert a == [a[0]] + a[1..] && b == [b[0]] + b[1..];
    }
  }

  ghost predicate Sorted(s: seq<string>) {
    forall i, j {:trigger s[i], s[j]} :: 0 <= i < j < |s| ==> Le(s[i], s[j])
  }

  function Insert(s: seq<string>, x: string): seq<string> {
    if s == [] || Le(s[|s| - 1], x) then s + [x] else Insert(s[..|s| - 1], x) + [s[|s| - 1]]
  }

  lemma {:induction false} InsertSorts(s: seq<string>, x: string)
    requires Sorted(s)
    ensures Sorted(Insert(s, x)) && multiset(Insert(s, x)) == multiset(s) + multiset{x}
  {
    if s != [] {
      var n := |s| - 1;
      assert s == s[..n] + [s[n]];
      if Le(s[n], x) {
        forall i | 0 <= i < |s| ensures Le(s[i], x) {
          if i < n {
            LeTransitive(s[i], s[n], x);
          }
        }
      } else {
        LeTotal(s[n], x);
        InsertSorts(s[..n], x);
        var t := Insert(s[..n], x);
        forall i | 0 <= i < |t| ensures Le(t[i], s[n]) {
          assert t[i] in multiset(t);
          assert t[i] == x || t[i] in s[..n];
        }
      }
    }
  }

  /** sort.Strings. */
  method SortStrings(s: seq<string>) returns (r: seq<string>)
    ensures Sorted(r) && multiset(r) == multiset(s)
  {
    r := [];
    for i := 0 to |s|
      invariant Sorted(r) && multiset(r) == multiset(s[..i])
    {
      InsertSorts(r, s[i]);
      assert s[..i + 1] == s[..i] + [s[i]];
      r := Insert(r, s[i]);
    }
    assert s[..|s|] == s;
  }

  function Member(f: Field): string { f.typ + " " + f.name }

  /** The members, separated by commas. */
  function Joined(fields: seq<Field>): string {
    if fields == [] then ""
    else if |fields| == 1 then Member(fields[0])
    else Joined(fields[..|fields| - 1]) + "," + Member(fields[|fields| - 1])
  }

  /** encodeType of a single struct type, section "Definition of encodeType" of EIP-712. */
  function EncodeStruct(name: string, fields: seq<Field>): string {
    name + "(" + Joined(fields) + ")"
  }

  function EncodeStructs(types: Types, names: seq<string>): string
    requires forall i :: 0 <= i < |names| ==> names[i] in types
  {
    if names == [] then ""
    else
      var n := |names| - 1;
      EncodeStructs(types, names[..n]) + EncodeStruct(names[n], types[names[n]])
  }

  /** What the program writes: the cut at the end of the members takes away the last comma,
      or the parenthesis if there are no members. */
  function Written(types: Types, names: seq<string>): string
    requires forall i :: 0 <= i < |names| ==> names[i] in types
  {
    if names == [] then ""
    else
      var n := |names| - 1;
      Written(types, names[..n]) +
      if types[names[n]] == [] then names[n] + ")" else EncodeStruct(names[n], types[names[n]])
  }

  function Fieldless(types: Types, names: seq<string>): nat
    requires forall i :: 0 <= i < |names| ==> names[i] in types
  {
    if names == [] then 0
    else
      var n := |names| - 1;
      Fieldless(types, names[..n]) + if types[names[n]] == [] then 1 else 0
  }

  lemma {:induction false} ShorterByFieldless(types: Types, names: seq<string>)
    requires forall i :: 0 <= i < |names| ==> names[i] in types
    ensures |EncodeStructs(types, names)| == |Written(types, names)| + Fieldless(types, names)
    ensures Fieldless(types, names) == 0 ==> Written(types, names) == EncodeStructs(types, names)
    ensures Fieldless(types, names) == 0 <==> forall i :: 0 <= i < |names| ==> types[names[i]] != []
  {
    if names != [] {
      var n := |names| - 1;
      ShorterByFieldless(types, names[..n]);
      assert forall i :: 0 <= i < n ==> names[..n][i] == names[i];
    }
  }

  /** The encoding is that of EIP-712 exactly if no type in it is without fields. */
  lemma WrittenIsEncoded(types: Types, names: seq<string>)
    requires forall i :: 0 <= i < |names| ==> names[i] in types
    ensures Written(types, names) == EncodeStructs(types, names) <==>
            forall i :: 0 <= i < |names| ==> types[names[i]] != []
  {
    ShorterByFieldless(types, names);
  }

  /** The loop over the fields of one type, and the cut after it. */
  method WriteType(buffer: string, name: string, fields: seq<Field>) returns (r: string)
    ensures r == buffer + (if fields == [] then name + ")" else EncodeStruct(name, fields))
  {
    r := buffer + name + "(";
    ghost var start := r;
    for i := 0 to |fields|
      invariant r == start + Members(fields[..i])
    {
      MembersNext(start, fields, i);
      r := r + fields[i].typ + " " + fields[i].name + ",";
    }
    assert fields[..|fields|] == fields;
    LastIsCut(buffer, name, fields);
    r := r[..|r| - 1];
    r := r + ")";
  }

  /** The members with a comma after each of them. */
  function Members(fields: seq<Field>): string {
    if fields == [] then "" else Joined(fields) + ","
  }

  lemma MembersNext(start: string, fields: seq<Field>, i: nat)
    requires i < |fields|
    ensures start + Members(fields[..i]) + fields[i].typ + " " + fields[i].name + "," ==
            start + Members(fields[..i + 1])
  {
    assert fields[..i + 1][..i] == fields[..i];
  }

  lemma LastIsCut(buffer: string, name: string, fields: seq<Field>)
    ensures var text := buffer + name + "(" + Members(fields);
            text[..|text| - 1] + ")" ==
            buffer + (if fields == [] then name + ")" else EncodeStruct(name, fields))
  {
    if fields == [] {
      assert buffer + name + "(" + "" == buffer + name + "(";
      CutOne(buffer + name, "(");
    } else {
      var head := buffer + name + "(" + Joined(fields);
      assert buffer + name + "(" + (Joined(fields) + ",") == head + ",";
      CutOne(head, ",");
      assert head + ")" == buffer + EncodeStruct(name, fields);
    }
  }

  lemma CutOne(head: string, last: string)
    requires |last| == 1
    ensures (head + last)[..|head + last| - 1] == head
  {}

  /** The names in the order in which EIP-712 lists them: the primary type first, then all
      other types it reaches, sorted. */
  ghost predicate Listing(types: Types, primary: string, names: seq<string>) {
    && Distinct(names) && (forall b :: b in names <==> Reachable(types, primary, b))
    && (primary in types ==> |names| > 0 && names[0] == primary && Sorted(names[1..]))
  }

  lemma ListedAreDefined(types: Types, primary: string, names: seq<string>)
    requires Listing(types, primary, names)
    ensures forall i :: 0 <= i < |names| ==> names[i] in types
    ensures primary !in types ==> names == []
  {
    forall i | 0 <= i < |names| ensures names[i] in types {
      DefinedAtEnds(types, primary, names[i]);
    }
    if names != [] {
      DefinedAtEnds(types, primary, names[0]);
    }
  }

  lemma {:induction false} SortedUnique(a: seq<string>, b: seq<string>)
    requires Sorted(a) && Sorted(b) && Distinct(a) && Distinct(b) && forall x :: x in a <==> x in b
    ensures a == b
  {
    if a != [] {
      assert a[0] in a;
    }
    if b != [] {
      assert b[0] in b;
    }
    if a != [] && b != [] {
      FirstIsLeast(a, b);
      FirstIsLeast(b, a);
      LeAntisymmetric(a[0], b[0]);
      forall x ensures x in a[1..] <==> x in b[1..] {
        assert x in a <==> x == a[0] || x in a[1..];
        assert x in b <==> x == b[0] || x in b[1..];
      }
      SortedUnique(a[1..], b[1..]);
      assert a == [a[0]] + a[1..] && b == [b[0]] + b[1..];
    }
  }

  lemma FirstIsLeast(a: seq<string>, b: seq<string>)
    requires Sorted(a) && a != [] && b != [] && forall x :: x in b ==> x in a
    ensures Le(a[0], b[0])
  {
    assert b[0] in a;
    LeTotal(a[0], a[0]);
  }

  /** There is only one such order, so the encoding of a type is determined by the types. */
  lemma ListingUnique(types: Types, primary: string, a: seq<string>, b: seq<string>)
    requires Listing(types, primary, a) && Listing(types, primary, b)
    ensures a == b
  {
    ListedAreDefined(types, primary, a);
    ListedAreDefined(types, primary, b);
    if primary in types {
      assert a == [primary] + a[1..] && b == [primary] + b[1..];
      forall x ensures x in a[1..] <==> x in b[1..] {
        assert x in a <==> x in b;
        assert primary !in a[1..] && primary !in b[1..];
        assert x in a <==> x == primary || x in a[1..];
        assert x in b <==> x == primary || x in b[1..];
      }
      SortedUnique(a[1..], b[1..]);
    }
  }

  /** The format on two fields. */
  lemma FormatExample()
    ensures EncodeStruct("P", [Field("a", "T"), Field("b", "U")]) == "P(T a,U b)"
  {
    var fields := [Field("a", "T"), Field("b", "U")];
    assert fields[..1] == [fields[0]] && Member(fields[0]) == "T a" && Member(fields[1]) == "U b";
  }

  method OrderedDependencies(types: Types, primary: string) returns (names: seq<string>)
    ensures Listing(types, primary, names)
  {
    names := AllDependencies(types, primary);
    if |names| > 0 {
      var slicedDeps := SortStrings(names[1..]);
      SameNames(names, [primary] + slicedDeps);
      names := [primary] + slicedDeps;
    }
  }

  lemma WrittenNext(types: Types, names: seq<string>, i: nat)
    requires i < |names| && forall j :: 0 <= j < |names| ==> names[j] in types
    ensures Written(types, names[..i + 1]) ==
            Written(types, names[..i])
            + (if types[names[i]] == [] then names[i] + ")" else EncodeStruct(names[i], types[names[i]]))
  {
    assert names[..i + 1][..i] == names[..i];
  }

  method WriteTypes(types: Types, deps: seq<string>) returns (buffer: string)
    requires forall i :: 0 <= i < |deps| ==> deps[i] in types
    ensures buffer == Written(types, deps)
  {
    buffer := "";
    for i := 0 to |deps|
      invariant buffer == Written(types, deps[..i])
    {
      WrittenNext(types, deps, i);
      buffer := WriteType(buffer, deps[i], types[deps[i]]);
    }
    assert deps[..|deps|] == deps;
  }

  /** EncodeType: the type and everything it refers to, listed as EIP-712 asks; and encoded
      as it asks exactly if none of them is without fields. */
  method EncodeType(types: Types, primary: string) returns (buffer: string)
    ensures exists names :: Listing(types, primary, names)
    ensures forall names {:trigger Listing(types, primary, names)} :: Listing(types, primary, names) ==>
              && (forall i :: 0 <= i < |names| ==> names[i] in types) && buffer == Written(types, names)
              && (buffer == EncodeStructs(types, names) <==> forall i :: 0 <= i < |names| ==> types[names[i]] != [])
    ensures primary !in types ==> buffer == ""
  {
    var deps := OrderedDependencies(types, primary);
    ListedAreDefined(types, primary, deps);
    buffer := WriteTypes(types, deps);
    WrittenIsEncoded(types, deps);
    forall names | Listing(types, primary, names) ensures names == deps {
      ListingUnique(types, primary, names, deps);
    }
  }

  lemma DefinedAtEnds(types: Types, a: string, b: string)
    requires Reachable(types, a, b)
    ensures a in types && b in types
  {
    var path :| Chain(types, path) && path[0] == a && path[|path| - 1] == b;
    assert |path| > 1 ==> RefersTo(types, path[|path| - 2], path[|path| - 1]);
  }

  /** Sorting all but the first name keeps the names and keeps them distinct. */
  lemma SameNames(deps: seq<string>, sorted: seq<string>)
    requires deps != [] && sorted != [] && sorted[0] == deps[0] && Distinct(deps)
    requires multiset(sorted[1..]) == multiset(deps[1..])
    ensures Distinct(sorted) && forall b :: b in sorted <==> b in deps
  {
    assert deps == [deps[0]] + deps[1..] && sorted == [sorted[0]] + sorted[1..];
    assert multiset(sorted) == multiset(deps);
    forall b ensures b in sorted <==> b in deps {
      assert b in multiset(sorted) <==> b in multiset(deps);
    }
    DistinctCounts(deps);
    CountsDistinct(sorted);
  }

  lemma {:induction false} DistinctCounts(s: seq<string>)
    requires Distinct(s)
    ensures forall x :: multiset(s)[x] <= 1
  {
    if s != [] {
      var n := |s| - 1;
      DistinctCounts(s[..n]);
      assert s == s[..n] + [s[n]];
      assert s[n] !in multiset(s[..n]);
    }
  }

  lemma CountsDistinct(s: seq<string>)
    requires forall x :: multiset(s)[x] <= 1
    ensures Distinct(s)
  {
    forall i, j | 0 <= i < j < |s| ensures s[i] != s[j] {
      assert s == s[..i] + [s[i]] + s[i + 1..];
      assert s[j] == s[i + 1..][j - i - 1];
      assert multiset(s) == multiset(s[..i]) + multiset{s[i]} + multiset(s[i + 1..]);
      assert s[j] in multiset(s[i + 1..]);
      assert multiset(s)[s[i]] <= 1;
    }
  }
}
