/**
 * The templates Cardumen repairs with. Every statement of the program is
 * a template whose variable names are placeholders; instantiating it
 * renames them after a tuple of the variables in scope at the statement
 * to be replaced. A probabilistic model scores every multiset of
 * variables by how many statements use exactly those variables, and a
 * scope constructor records, for every statement, the scopes that
 * enclose it.
 *
 * Syntax trees are abstract: a node has an identity, a kind, and its
 * children in field order.
 */
module Templates {
  import opened Util

  // ---------------------------------------------------------------------
  // Syntax trees

  /** The node kinds the visitors tell apart. */
  datatype Kind =
    | FunctionDef
    | AsyncFunctionDef
    | ClassDef
    | Statement(typeName: string)   // any other statement
    | Name(id: string)
    | Arg(arg: string)
    | Expression(typeName: string)  // any other node

  /** A syntax tree: the node's identity, its kind and its children. */
  datatype Ast = Ast(node: int, kind: Kind, children: seq<Ast>)

  /** Definitions open a scope of their own. */
  predicate OpensScope(k: Kind)
  {
    k.FunctionDef? || k.AsyncFunctionDef? || k.ClassDef?
  }

  /** `isinstance(node, ast.stmt)`. */
  predicate IsStmt(k: Kind)
  {
    OpensScope(k) || k.Statement?
  }

  /** `type(node).__name__`. */
  function TypeName(k: Kind): string
  {
    match k
    case FunctionDef => "FunctionDef"
    case AsyncFunctionDef => "AsyncFunctionDef"
    case ClassDef => "ClassDef"
    case Statement(n) => n
    case Name(_) => "Name"
    case Arg(_) => "arg"
    case Expression(n) => n
  }

  /** Some node of the tree has kind `k`. */
  predicate Occurs(t: Ast, k: Kind)
    decreases t, 1
  {
    t.kind == k || OccursAll(t.children, k)
  }

  predicate OccursAll(ts: seq<Ast>, k: Kind)
    decreases ts, 0
  {
    ts != [] && (OccursAll(ts[..|ts| - 1], k) || Occurs(ts[|ts| - 1], k))
  }

  // ---------------------------------------------------------------------
  // Variable names

  /** What `VarNamesCollector` takes from a node itself: a name's id, an argument other than `self`. */
  function Own(k: Kind): set<string>
  {
    match k
    case Name(id) => {id}
    case Arg(a) => if a == "self" then {} else {a}
    case _ => {}
  }

  /** `VarNamesCollector().visit(t).vars`: what every node of the tree contributes. */
  function VarNames(t: Ast): set<string>
    decreases t, 1
  {
    Own(t.kind) + VarNamesAll(t.children)
  }

  function VarNamesAll(ts: seq<Ast>): set<string>
    decreases ts, 0
  {
    if ts == [] then {} else VarNamesAll(ts[..|ts| - 1]) + VarNames(ts[|ts| - 1])
  }

  /**
   * The collected names are exactly the ids of the tree's names and the
   * tree's arguments other than `self`.
   */
  lemma {:induction false} VarNamesExact(t: Ast, x: string)
    ensures x in VarNames(t) <==> Occurs(t, Name(x)) || (x != "self" && Occurs(t, Arg(x)))
    decreases t, 1
  {
    VarNamesAllExact(t.children, x);
  }

  lemma {:induction false} VarNamesAllExact(ts: seq<Ast>, x: string)
    ensures x in VarNamesAll(ts) <==> OccursAll(ts, Name(x)) || (x != "self" && OccursAll(ts, Arg(x)))
    decreases ts, 0
  {
    if ts != [] {
      VarNamesAllExact(ts[..|ts| - 1], x);
      VarNamesExact(ts[|ts| - 1], x);
    }
  }

  /** Iterating a set: its elements, once each, in an order the model leaves open. */
  method Enumerate(s: set<string>) returns (order: seq<string>)
    ensures NoDup(order) && |order| == |s|
    ensures forall x :: x in order <==> x in s
  {
    order := [];
    var rest := s;
    while rest != {}
      invariant rest <= s && NoDup(order) && |order| + |rest| == |s|
      invariant forall x :: x in order <==> x in s && x !in rest
      decreases |rest|
    {
      var x :| x in rest;
      order := order + [x];
      rest := rest - {x};
    }
  }

  // ---------------------------------------------------------------------
  // Multisets of names

  /** `s` without the occurrences of `x`, in order. */
  function Without(s: seq<string>, x: string): (r: seq<string>)
    ensures |r| <= |s| && multiset(r) == multiset(s)[x := 0]
  {
    if s == [] then []
    else
      assert s == [s[0]] + s[1..];
      (if s[0] == x then [] else [s[0]]) + Without(s[1..], x)
  }

  /** `n` copies of `x`. */
  function Repeat(x: string, n: nat): (r: seq<string>)
    ensures |r| == n && multiset(r) == multiset{}[x := n]
  {
    if n == 0 then [] else Repeat(x, n - 1) + [x]
  }

  /**
   * The order in which `FrozenMultiset(t)` yields its items: the distinct
   * elements in order of first occurrence, each repeated as often as it
   * occurs. It is a permutation of `t`.
   */
  function Grouped(t: seq<string>): (r: seq<string>)
    ensures multiset(r) == multiset(t)
    decreases |t|
  {
    if t == [] then []
    else
      assert t == [t[0]] + t[1..];
      Repeat(t[0], multiset(t)[t[0]]) + Grouped(Without(t[1..], t[0]))
  }

  /** `dict(zip(keys, values))`, built key by key. */
  function Pairing(keys: seq<string>, values: seq<string>): map<string, string>
    requires |keys| == |values|
    decreases |keys|
  {
    if keys == [] then map[]
    else Pairing(keys[..|keys| - 1], values[..|values| - 1])[keys[|keys| - 1] := values[|values| - 1]]
  }

  /** The keys are mapped, and each key of a duplicate-free list to the value at its position. */
  lemma {:induction false} PairingMeaning(keys: seq<string>, values: seq<string>)
    requires |keys| == |values|
    ensures Pairing(keys, values).Keys == set k | k in keys
    ensures NoDup(keys) ==> forall i :: 0 <= i < |keys| ==> Pairing(keys, values)[keys[i]] == values[i]
    decreases |keys|
  {
    if keys != [] {
      PairingMeaning(keys[..|keys| - 1], values[..|values| - 1]);
    }
  }

  // ---------------------------------------------------------------------
  // Templates

  /**
   * A template: the statement it was made from, the file it comes from,
   * the statement's type name, its variables, their number, and the
   * mapping of every variable to itself, whose keys iterate in `keys`
   * order.
   */
  datatype Template = Template(statement: Ast, path: string, targetCodeType: string, vars: set<string>,
                               countPlaceholder: nat, mapping: map<string, string>, keys: seq<string>)

  /** What `Template.__init__` establishes. */
  predicate WellFormed(t: Template)
  {
    && t.vars == VarNames(t.statement)
    && t.countPlaceholder == |t.vars| == |t.keys|
    && NoDup(t.keys) && (forall x :: x in t.keys ==> x in t.vars) && (forall x :: x in t.vars ==> x in t.keys)
    && t.mapping.Keys == t.vars && (forall x :: x in t.mapping ==> t.mapping[x] == x)
  }

  /**
   * `Template(statement, path)`: the statement's variables become the
   * placeholders, each mapped to itself.
   */
  method NewTemplate(statement: Ast, path: string) returns (t: Template)
    ensures t.statement == statement && t.path == path && t.targetCodeType == TypeName(statement.kind)
    ensures t.vars == VarNames(statement) && t.countPlaceholder == |VarNames(statement)|
    ensures WellFormed(t)
  {
    var vars := VarNames(statement);
    var order := Enumerate(vars);
    var mapping: map<string, string> := map[];
    for k := 0 to |order|
      invariant mapping.Keys == set x | x in order[..k]
      invariant forall x :: x in mapping ==> mapping[x] == x
    {
      assert order[..k + 1] == order[..k] + [order[k]];
      mapping := mapping[order[k] := order[k]];
    }
    assert order[..|order|] == order;
    t := Template(statement, path, TypeName(statement.kind), vars, |vars|, mapping, order);
  }

  // ---------------------------------------------------------------------
  // Renaming

  /**
   * `TemplateTransformer(mapping).visit(t)` as written: a name or an
   * argument takes its new name from the mapping, and raises KeyError when
   * the mapping has none; its own children are kept as they are. Every
   * other node is rebuilt from its renamed children.
   */
  function RenameAsWritten(t: Ast, m: map<string, string>): Result<Ast>
    decreases t, 1
  {
    match t.kind
    case Name(id) => if id in m then Ok(t.(kind := Name(m[id]))) else Err(KeyError)
    case Arg(a) => if a in m then Ok(t.(kind := Arg(m[a]))) else Err(KeyError)
    case _ =>
      var children :- RenameAllAsWritten(t.children, m);
      Ok(t.(children := children))
  }

  function RenameAllAsWritten(ts: seq<Ast>, m: map<string, string>): Result<seq<Ast>>
    decreases ts, 0
  {
    if ts == [] then Ok([])
    else
      var init :- RenameAllAsWritten(ts[..|ts| - 1], m);
      var last :- RenameAsWritten(ts[|ts| - 1], m);
      Ok(init + [last])
  }

  /**
   * The renaming the template mechanism intends: as written, except that
   * a `self` argument the mapping does not know is kept, since `self` is
   * never a placeholder of its own.
   */
  function Rename(t: Ast, m: map<string, string>): Result<Ast>
    decreases t, 1
  {
    match t.kind
    case Name(id) => if id in m then Ok(t.(kind := Name(m[id]))) else Err(KeyError)
    case Arg(a) =>
      if a in m then Ok(t.(kind := Arg(m[a])))
      else if a == "self" then Ok(t)
      else Err(KeyError)
    case _ =>
      var children :- RenameAll(t.children, m);
      Ok(t.(children := children))
  }

  function RenameAll(ts: seq<Ast>, m: map<string, string>): Result<seq<Ast>>
    decreases ts, 0
  {
    if ts == [] then Ok([])
    else
      var init :- RenameAll(ts[..|ts| - 1], m);
      var last :- Rename(ts[|ts| - 1], m);
      Ok(init + [last])
  }

  /** A mapping that knows every collected name renames the whole tree without raising. */
  lemma {:induction false} RenameDefined(t: Ast, m: map<string, string>)
    requires VarNames(t) <= m.Keys
    ensures Rename(t, m).Ok?
    decreases t, 1
  {
    if !t.kind.Name? && !t.kind.Arg? {
      RenameAllDefined(t.children, m);
    }
  }

  lemma {:induction false} RenameAllDefined(ts: seq<Ast>, m: map<string, string>)
    requires VarNamesAll(ts) <= m.Keys
    ensures RenameAll(ts, m).Ok? && |RenameAll(ts, m).value| == |ts|
    decreases ts, 0
  {
    if ts != [] {
      RenameAllDefined(ts[..|ts| - 1], m);
      RenameDefined(ts[|ts| - 1], m);
    }
  }

  /** Renaming with the template's own mapping, every name to itself, gives the statement back. */
  lemma {:induction false} RenameIdentity(t: Ast, m: map<string, string>)
    requires VarNames(t) <= m.Keys && forall x :: x in m ==> m[x] == x
    ensures Rename(t, m) == Ok(t)
    decreases t, 1
  {
    if !t.kind.Name? && !t.kind.Arg? {
      RenameAllIdentity(t.children, m);
    }
  }

  lemma {:induction false} RenameAllIdentity(ts: seq<Ast>, m: map<string, string>)
    requires VarNamesAll(ts) <= m.Keys && forall x :: x in m ==> m[x] == x
    ensures RenameAll(ts, m) == Ok(ts)
    decreases ts, 0
  {
    if ts != [] {
      RenameAllIdentity(ts[..|ts| - 1], m);
      RenameIdentity(ts[|ts| - 1], m);
      assert ts[..|ts| - 1] + [ts[|ts| - 1]] == ts;
    }
  }

  /** When the mapping knows `self`, the transformer as written and the intended renaming agree. */
  lemma {:induction false} RenameAsWrittenAgrees(t: Ast, m: map<string, string>)
    requires "self" in m
    ensures RenameAsWritten(t, m) == Rename(t, m)
    decreases t, 1
  {
    if !t.kind.Name? && !t.kind.Arg? {
      RenameAllAsWrittenAgrees(t.children, m);
    }
  }

  lemma {:induction false} RenameAllAsWrittenAgrees(ts: seq<Ast>, m: map<string, string>)
    requires "self" in m
    ensures RenameAllAsWritten(ts, m) == RenameAll(ts, m)
    decreases ts, 0
  {
    if ts != [] {
      RenameAllAsWrittenAgrees(ts[..|ts| - 1], m);
      RenameAsWrittenAgrees(ts[|ts| - 1], m);
    }
  }

  /** `def f(self, a): return a`, a method that never reads `self`. */
  const SelfMethod: Ast :=
    Ast(0, FunctionDef, [
      Ast(1, Expression("arguments"), [Ast(2, Arg("self"), []), Ast(3, Arg("a"), [])]),
      Ast(4, Statement("Return"), [Ast(5, Name("a"), [])])])

  /**
   * The template made from `SelfMethod` has the single placeholder `a`;
   * instantiating it with any mapping of its placeholders raises KeyError
   * at the `self` argument as written, and succeeds as intended.
   */
  lemma SelfParameterRaises(m: map<string, string>)
    requires m.Keys == VarNames(SelfMethod)
    ensures VarNames(SelfMethod) == {"a"}
    ensures RenameAsWritten(SelfMethod, m) == Err(KeyError)
    ensures Rename(SelfMethod, m).Ok?
  {
    var arguments := SelfMethod.children[0];
    var ret := SelfMethod.children[1];
    assert VarNames(arguments.children[0]) == {};
    assert VarNamesAll(arguments.children) == VarNames(arguments.children[1]) == {"a"};
    assert VarNames(ret) == {"a"};
    assert VarNamesAll(SelfMethod.children) == VarNames(arguments) + VarNames(ret);
    assert RenameAsWritten(arguments.children[0], m) == Err(KeyError);
    assert RenameAllAsWritten(arguments.children[..1], m) == Err(KeyError);
    assert RenameAllAsWritten(SelfMethod.children[..1], m) == Err(KeyError);
    RenameDefined(SelfMethod, m);
  }

  // ---------------------------------------------------------------------
  // Instances

  function Power(b: nat, e: nat): nat
  {
    if e == 0 then 1 else b * Power(b, e - 1)
  }

  /** `[v] + t` for every `t`, in order. */
  function Prepend(v: string, ts: seq<seq<string>>): (r: seq<seq<string>>)
    ensures |r| == |ts| && forall k :: 0 <= k < |ts| ==> r[k] == [v] + ts[k]
  {
    seq(|ts|, k requires 0 <= k < |ts| => [v] + ts[k])
  }

  /** Every `[v] + t`, the first element varying slowest. */
  function Spread(vs: seq<string>, ts: seq<seq<string>>): seq<seq<string>>
  {
    if vs == [] then [] else Prepend(vs[0], ts) + Spread(vs[1..], ts)
  }

  /** `itertools.product(vars, repeat=n)`: every n-tuple over `vars`, the first position varying slowest. */
  function Product(vars: seq<string>, n: nat): seq<seq<string>>
  {
    if n == 0 then [[]] else Spread(vars, Product(vars, n - 1))
  }

  lemma {:induction false} SpreadLength(vs: seq<string>, ts: seq<seq<string>>)
    ensures |Spread(vs, ts)| == |vs| * |ts|
  {
    if vs != [] {
      SpreadLength(vs[1..], ts);
      assert |vs| * |ts| == |ts| + (|vs| - 1) * |ts|;
    }
  }

  /** There are `|vars|` to the `n` tuples. */
  lemma {:induction false} ProductCount(vars: seq<string>, n: nat)
    ensures |Product(vars, n)| == Power(|vars|, n)
  {
    if n > 0 {
      ProductCount(vars, n - 1);
      SpreadLength(vars, Product(vars, n - 1));
    }
  }

  lemma {:induction false} SpreadMembers(vs: seq<string>, ts: seq<seq<string>>, t: seq<string>)
    ensures t in Spread(vs, ts) <==> |t| >= 1 && t[0] in vs && t[1..] in ts
  {
    if vs != [] {
      SpreadMembers(vs[1..], ts, t);
      if |t| >= 1 && t[0] == vs[0] && t[1..] in ts {
        var k :| 0 <= k < |ts| && ts[k] == t[1..];
        assert Prepend(vs[0], ts)[k] == t;
      }
    }
  }

  /** A tuple is produced exactly when it has length `n` and takes every element from `vars`. */
  lemma {:induction false} ProductMembers(vars: seq<string>, n: nat, t: seq<string>)
    ensures t in Product(vars, n) <==> |t| == n && forall j :: 0 <= j < n ==> t[j] in vars
  {
    if n > 0 {
      SpreadMembers(vars, Product(vars, n - 1), t);
      if |t| >= 1 {
        ProductMembers(vars, n - 1, t[1..]);
        assert forall j :: 1 <= j < |t| ==> t[j] == t[1..][j - 1];
      }
    }
  }

  lemma ProductLengths(vars: seq<string>, n: nat)
    ensures forall k :: 0 <= k < |Product(vars, n)| ==> |Product(vars, n)[k]| == n
  {
    forall k | 0 <= k < |Product(vars, n)| ensures |Product(vars, n)[k]| == n {
      ProductMembers(vars, n, Product(vars, n)[k]);
    }
  }

  lemma NoDupConcat<T>(a: seq<T>, b: seq<T>)
    requires NoDup(a) && NoDup(b) && forall x :: x in a ==> x !in b
    ensures NoDup(a + b)
  {
    forall i, j | 0 <= i < j < |a + b| ensures (a + b)[i] != (a + b)[j] {
      if i < |a| && j >= |a| {
        assert (a + b)[i] in a && (a + b)[j] == b[j - |a|];
      }
    }
  }

  lemma {:induction false} SpreadDistinct(vs: seq<string>, ts: seq<seq<string>>)
    requires NoDup(vs) && NoDup(ts)
    ensures NoDup(Spread(vs, ts))
  {
    if vs != [] {
      var first := Prepend(vs[0], ts);
      SpreadDistinct(vs[1..], ts);
      forall i, j | 0 <= i < j < |first| ensures first[i] != first[j] {
        assert first[i][1..] == ts[i] && first[j][1..] == ts[j];
      }
      forall x | x in first ensures x !in Spread(vs[1..], ts) {
        SpreadMembers(vs[1..], ts, x);
        assert x[0] == vs[0] && vs[0] !in vs[1..];
      }
      NoDupConcat(first, Spread(vs[1..], ts));
    }
  }

  /** Over distinct variables, no tuple is produced twice. */
  lemma {:induction false} ProductDistinct(vars: seq<string>, n: nat)
    requires NoDup(vars)
    ensures NoDup(Product(vars, n))
  {
    if n > 0 {
      ProductDistinct(vars, n - 1);
      SpreadDistinct(vars, Product(vars, n - 1));
    }
  }

  /** `v` prepended to each of the three one-tuples. */
  lemma PrependExample(v: string)
    ensures Prepend(v, [[]]) == [[v]]
    ensures Prepend(v, [["1"], ["2"], ["3"]]) == [[v, "1"], [v, "2"], [v, "3"]]
  {
    assert [v] + [] == [v];
    assert [v] + ["1"] == [v, "1"] && [v] + ["2"] == [v, "2"] && [v] + ["3"] == [v, "3"];
  }

  /** The documented example: three variables and two placeholders give nine tuples, in this order. */
  lemma ProductExample()
    ensures Product(["1", "2", "3"], 2)
         == [["1", "1"], ["1", "2"], ["1", "3"], ["2", "1"], ["2", "2"], ["2", "3"], ["3", "1"], ["3", "2"], ["3", "3"]]
  {
    var vars := ["1", "2", "3"];
    assert vars[1..] == ["2", "3"] && vars[1..][1..] == ["3"] && vars[1..][1..][1..] == [];
    PrependExample("1");
    PrependExample("2");
    PrependExample("3");
    assert Product(vars, 1) == [["1"], ["2"], ["3"]];
  }

  /** A template instance: its template, the renamed statement, the tuple drawn and the mapping used. */
  datatype TemplateInstance = TemplateInstance(template: Template, tree: Ast, combination: seq<string>,
                                               mapping: map<string, string>)

  /** `Combination(tuple).items`. */
  function Items(combination: seq<string>): multiset<string>
  {
    multiset(combination)
  }

  /**
   * `create_Mapping` as written: the placeholders, in key order, zipped
   * with the items in the order the multiset yields them; AssertionError
   * when the counts differ.
   */
  function CreateMappingAsWritten(template: Template, combination: seq<string>): (r: Result<map<string, string>>)
    requires WellFormed(template)
  {
    if template.countPlaceholder != |combination| then Err(AssertionError)
    else Ok(Pairing(template.keys, Grouped(combination)))
  }

  /** A three-placeholder template over the keys `x`, `y`, `z`. */
  const XYZ: Ast :=
    Ast(0, Statement("Assign"), [Ast(1, Name("x"), []), Ast(2, Expression("Tuple"), [Ast(3, Name("y"), []), Ast(4, Name("z"), [])])])

  lemma GroupedSingle(x: string)
    ensures Grouped([x]) == [x]
  {
    assert multiset([x])[x] == 1 && [x][1..] == [];
    assert Repeat(x, 1) == [x];
  }

  /** The multiset of `(a, b, a)` yields `a, a, b`. */
  lemma GroupedABA()
    ensures Grouped(["a", "b", "a"]) == ["a", "a", "b"]
  {
    GroupedSingle("b");
    var aba := ["a", "b", "a"];
    assert multiset(aba)["a"] == 2;
    assert Repeat("a", 2) == ["a", "a"];
    assert aba[1..] == ["b", "a"] && ["b", "a"][1..] == ["a"] && ["a"][1..] == [];
    assert Without(["a"], "a") == [];
    assert Without(["b", "a"], "a") == ["b"];
  }

  /** The multiset of `(a, a, b)` yields `a, a, b`. */
  lemma GroupedAAB()
    ensures Grouped(["a", "a", "b"]) == ["a", "a", "b"]
  {
    GroupedSingle("b");
    var aab := ["a", "a", "b"];
    assert multiset(aab)["a"] == 2;
    assert Repeat("a", 2) == ["a", "a"];
    assert aab[1..] == ["a", "b"] && ["a", "b"][1..] == ["b"] && ["b"][1..] == [];
    assert Without(["b"], "a") == ["b"];
    assert Without(["a", "b"], "a") == ["b"];
  }

  /** Zipping `x, y, z` with `a, a, b`. */
  lemma PairingExample()
    ensures Pairing(["x", "y", "z"], ["a", "a", "b"]) == map["x" := "a", "y" := "a", "z" := "b"]
  {
    var keys := ["x", "y", "z"];
    var values := ["a", "a", "b"];
    assert keys[..2] == ["x", "y"] && keys[..2][..1] == ["x"] && keys[..1][..0] == [];
    assert values[..2] == ["a", "a"] && values[..2][..1] == ["a"] && values[..1][..0] == [];
    assert Pairing(["x"], ["a"]) == map["x" := "a"];
    assert Pairing(["x", "y"], ["a", "a"]) == map["x" := "a", "y" := "a"];
  }

  /**
   * As written, the tuple `(a, b, a)` renames `y` to `a`, not to its own
   * second item `b`, and gives the same mapping as `(a, a, b)`: the
   * multiset yields equal items together.
   */
  lemma MappingAsWrittenRegroups(t: Template)
    requires WellFormed(t) && t.keys == ["x", "y", "z"]
    ensures CreateMappingAsWritten(t, ["a", "b", "a"]) == Ok(map["x" := "a", "y" := "a", "z" := "b"])
    ensures CreateMappingAsWritten(t, ["a", "b", "a"]) == CreateMappingAsWritten(t, ["a", "a", "b"])
  {
    GroupedABA();
    GroupedAAB();
    PairingExample();
  }

  /**
   * `create_Mapping` with the placeholders paired with the tuple's items
   * position by position; AssertionError when the counts differ.
   */
  method CreateMapping(template: Template, combination: seq<string>) returns (r: Result<map<string, string>>)
    requires WellFormed(template)
    ensures r.Err? <==> template.countPlaceholder != |combination|
    ensures r.Err? ==> r.error == AssertionError
    ensures r.Ok? ==> r.value == Pairing(template.keys, combination)
  {
    if template.countPlaceholder != |combination| {
      return Err(AssertionError);
    }
    var mapping: map<string, string> := map[];
    for k := 0 to |combination|
      invariant mapping == Pairing(template.keys[..k], combination[..k])
    {
      assert template.keys[..k + 1][..k] == template.keys[..k] && combination[..k + 1][..k] == combination[..k];
      mapping := mapping[template.keys[k] := combination[k]];
    }
    assert template.keys[..|combination|] == template.keys && combination[..|combination|] == combination;
    return Ok(mapping);
  }

  /** The instance for one tuple: the positional mapping, and the statement renamed after it. */
  function Instance(template: Template, combination: seq<string>): TemplateInstance
    requires WellFormed(template) && |combination| == template.countPlaceholder
  {
    var m := Pairing(template.keys, combination);
    PairingMeaning(template.keys, combination);
    RenameDefined(template.statement, m);
    TemplateInstance(template, Rename(template.statement, m).value, combination, m)
  }

  /**
   * An instance renames every placeholder, the k-th key to the tuple's
   * k-th item, and its tree is the template's statement renamed so.
   */
  lemma InstanceMeaning(template: Template, combination: seq<string>)
    requires WellFormed(template) && |combination| == template.countPlaceholder
    ensures var r := Instance(template, combination);
      && r.template == template && r.combination == combination
      && r.mapping.Keys == template.vars
      && (forall k :: 0 <= k < |combination| ==> r.mapping[template.keys[k]] == combination[k])
      && Rename(template.statement, r.mapping) == Ok(r.tree)
  {
    PairingMeaning(template.keys, combination);
    RenameDefined(template.statement, Pairing(template.keys, combination));
  }

  /** One step of `construct_all_Combinations`: map the tuple, rename a copy of the statement. */
  method NewInstance(template: Template, combination: seq<string>) returns (instance: TemplateInstance)
    requires WellFormed(template) && |combination| == template.countPlaceholder
    ensures instance == Instance(template, combination)
  {
    var mapping := CreateMapping(template, combination);
    PairingMeaning(template.keys, combination);
    RenameDefined(template.statement, mapping.value);
    var tree := Rename(template.statement, mapping.value).value;
    instance := TemplateInstance(template, tree, combination, mapping.value);
  }

  /**
   * `construct_all_Combinations(vars)`: one instance per tuple of
   * `product(vars, repeat=count_placeholder)`, in that order.
   */
  method ConstructAllCombinations(template: Template, vars: seq<string>) returns (r: seq<TemplateInstance>)
    requires WellFormed(template)
    ensures |r| == |Product(vars, template.countPlaceholder)| == Power(|vars|, template.countPlaceholder)
    ensures forall k :: 0 <= k < |r| ==>
      |Product(vars, template.countPlaceholder)[k]| == template.countPlaceholder
      && r[k] == Instance(template, Product(vars, template.countPlaceholder)[k])
  {
    var combinations := Product(vars, template.countPlaceholder);
    ProductCount(vars, template.countPlaceholder);
    ProductLengths(vars, template.countPlaceholder);
    r := [];
    for k := 0 to |combinations|
      invariant |r| == k
      invariant forall q :: 0 <= q < k ==> r[q] == Instance(template, combinations[q])
    {
      var instance := NewInstance(template, combinations[k]);
      r := r + [instance];
    }
  }

  /** The tuple that lists a renaming's values in key order is instantiated with that renaming. */
  lemma InstanceOfRenaming(template: Template, m: map<string, string>, c: seq<string>)
    requires WellFormed(template) && m.Keys == template.vars
    requires |c| == template.countPlaceholder && forall j :: 0 <= j < |c| ==> c[j] == m[template.keys[j]]
    ensures Instance(template, c).mapping == m
  {
    var inst := Instance(template, c);
    InstanceMeaning(template, c);
    forall x | x in m ensures inst.mapping[x] == m[x] {
      var j :| 0 <= j < |c| && template.keys[j] == x;
    }
  }

  /**
   * Every renaming of the placeholders to variables drawn from `vars` is
   * the mapping of an instance.
   */
  lemma InstancesCoverRenamings(template: Template, vars: seq<string>, m: map<string, string>)
    requires WellFormed(template) && m.Keys == template.vars
    requires forall x :: x in m ==> m[x] in vars
    ensures exists k ::
      && 0 <= k < |Product(vars, template.countPlaceholder)|
      && |Product(vars, template.countPlaceholder)[k]| == template.countPlaceholder
      && Instance(template, Product(vars, template.countPlaceholder)[k]).mapping == m
  {
    var n := template.countPlaceholder;
    var c := seq(n, j requires 0 <= j < n => m[template.keys[j]]);
    ProductMembers(vars, n, c);
    var k :| 0 <= k < |Product(vars, n)| && Product(vars, n)[k] == c;
    InstanceOfRenaming(template, m, c);
  }

  // ---------------------------------------------------------------------
  // The probabilistic model

  /**
   * Statements whose variables are exactly the multiset's items (a
   * multiset equals a set when it holds each of the set's elements once).
   */
  function SameCombination(statements: seq<Ast>, k: multiset<string>): nat
  {
    if statements == [] then 0
    else SameCombination(statements[..|statements| - 1], k)
         + (if k == multiset(VarNames(statements[|statements| - 1])) then 1 else 0)
  }

  /** Statements with as many variables as the multiset has items. */
  function SameNumber(statements: seq<Ast>, k: multiset<string>): nat
  {
    if statements == [] then 0
    else SameNumber(statements[..|statements| - 1], k)
         + (if |k| == |VarNames(statements[|statements| - 1])| then 1 else 0)
  }

  lemma {:induction false} SetMultisetSize(s: set<string>)
    ensures |multiset(s)| == |s|
    decreases |s|
  {
    if s != {} {
      var x :| x in s;
      SetMultisetSize(s - {x});
      assert multiset(s) == multiset(s - {x}) + multiset{x};
    }
  }

  /** A statement with exactly the multiset's variables also has as many variables as it has items. */
  lemma {:induction false} SameCombinationWithinNumber(statements: seq<Ast>, k: multiset<string>)
    ensures SameCombination(statements, k) <= SameNumber(statements, k)
  {
    if statements != [] {
      SameCombinationWithinNumber(statements[..|statements| - 1], k);
      SetMultisetSize(VarNames(statements[|statements| - 1]));
    }
  }

  /** Some statement is counted exactly when some statement's variables are the multiset's items. */
  lemma {:induction false} SameCombinationPositive(statements: seq<Ast>, k: multiset<string>)
    ensures SameCombination(statements, k) > 0 <==> exists j :: 0 <= j < |statements| && k == multiset(VarNames(statements[j]))
  {
    if statements != [] {
      var init := statements[..|statements| - 1];
      SameCombinationPositive(init, k);
      if exists j :: 0 <= j < |statements| && k == multiset(VarNames(statements[j])) {
        var j :| 0 <= j < |statements| && k == multiset(VarNames(statements[j]));
        if j < |init| {
          assert init[j] == statements[j];
        }
      }
      if exists j :: 0 <= j < |init| && k == multiset(VarNames(init[j])) {
        var j :| 0 <= j < |init| && k == multiset(VarNames(init[j]));
        assert init[j] == statements[j];
      }
    }
  }

  /**
   * The probability of a multiset: `same_combination /
   * same_number_of_vars`, and 0.0 where that division raises
   * ZeroDivisionError.
   */
  function Probability(statements: seq<Ast>, k: multiset<string>): real
  {
    if SameNumber(statements, k) == 0 then 0.0
    else SameCombination(statements, k) as real / SameNumber(statements, k) as real
  }

  /**
   * A probability lies in [0, 1], and it is positive exactly when some
   * statement uses exactly the multiset's variables.
   */
  lemma ProbabilityMeaning(statements: seq<Ast>, k: multiset<string>)
    ensures 0.0 <= Probability(statements, k) <= 1.0
    ensures Probability(statements, k) > 0.0 <==> exists j :: 0 <= j < |statements| && k == multiset(VarNames(statements[j]))
  {
    SameCombinationWithinNumber(statements, k);
    SameCombinationPositive(statements, k);
    if SameNumber(statements, k) > 0 {
      Ratio(SameCombination(statements, k), SameNumber(statements, k));
    }
  }

  /** A count over a larger positive count is a fraction in [0, 1], positive when the count is. */
  lemma Ratio(a: nat, b: nat)
    requires a <= b && 0 < b
    ensures 0.0 <= a as real / b as real <= 1.0
    ensures a as real / b as real > 0.0 <==> a > 0
  {
    var q := a as real / b as real;
    assert q * b as real == a as real;
  }

  /**
   * `itertools.combinations_with_replacement(pool, r)`: the r-tuples that
   * take pool elements in non-decreasing pool position, in lexicographic
   * order.
   */
  function CWR(pool: seq<string>, r: nat): seq<seq<string>>
    decreases |pool|, r
  {
    if r == 0 then [[]]
    else if pool == [] then []
    else Prepend(pool[0], CWR(pool, r - 1)) + CWR(pool[1..], r)
  }

  /** A drawn tuple has `r` items, all from the pool. */
  lemma {:induction false} CWRSound(pool: seq<string>, r: nat, t: seq<string>)
    requires t in CWR(pool, r)
    ensures |t| == r && forall x :: x in t ==> x in pool
    decreases |pool|, r
  {
    if r > 0 && pool != [] {
      var first := Prepend(pool[0], CWR(pool, r - 1));
      if t in first {
        var k :| 0 <= k < |first| && first[k] == t;
        CWRSound(pool, r - 1, CWR(pool, r - 1)[k]);
      } else {
        CWRSound(pool[1..], r, t);
      }
    }
  }

  lemma CWRPrepend(pool: seq<string>, r: nat, t: seq<string>)
    requires pool != [] && r > 0 && t in CWR(pool, r - 1)
    ensures [pool[0]] + t in CWR(pool, r)
  {
    var k :| 0 <= k < |CWR(pool, r - 1)| && CWR(pool, r - 1)[k] == t;
    assert Prepend(pool[0], CWR(pool, r - 1))[k] == [pool[0]] + t;
  }

  /** Every multiset of `r` items from the pool is the multiset of some drawn tuple. */
  lemma {:induction false} CWRComplete(pool: seq<string>, r: nat, m: multiset<string>)
    requires |m| == r && forall x :: x in m ==> x in pool
    ensures exists t :: t in CWR(pool, r) && multiset(t) == m
    decreases |pool|, r
  {
    if r == 0 {
      assert m == multiset{};
      var empty: seq<string> := [];
      assert empty in CWR(pool, r) && multiset(empty) == m;
    } else {
      assert m != multiset{};
      var x :| x in m;
      if pool[0] in m {
        var rest := m - multiset{pool[0]};
        CWRComplete(pool, r - 1, rest);
        var t' :| t' in CWR(pool, r - 1) && multiset(t') == rest;
        CWRPrepend(pool, r, t');
        assert multiset([pool[0]] + t') == m;
      } else {
        forall y | y in m ensures y in pool[1..] {
          assert y in pool && y != pool[0];
        }
        CWRComplete(pool[1..], r, m);
        var t :| t in CWR(pool[1..], r) && multiset(t) == m;
        assert t in CWR(pool, r);
      }
    }
  }

  /** The multisets `createModel` draws from a statement with these variables: one to all of them many items, each one of them. */
  predicate Fits(k: multiset<string>, vars: set<string>)
  {
    1 <= |k| <= |vars| && forall x :: x in k ==> x in vars
  }

  /** One of the first `n` statements draws the multiset. */
  ghost predicate DrawnBy(statements: seq<Ast>, n: nat, k: multiset<string>)
  {
    exists j :: 0 <= j < n && j < |statements| && Fits(k, VarNames(statements[j]))
  }

  lemma DrawnByStep(statements: seq<Ast>, n: nat)
    requires n < |statements|
    ensures forall k :: DrawnBy(statements, n + 1, k) <==> DrawnBy(statements, n, k) || Fits(k, VarNames(statements[n]))
  {
    forall k | DrawnBy(statements, n + 1, k) ensures DrawnBy(statements, n, k) || Fits(k, VarNames(statements[n])) {
      var j :| 0 <= j < n + 1 && j < |statements| && Fits(k, VarNames(statements[j]));
    }
  }

  /** One of the first `q` tuples has the multiset as its items. */
  ghost predicate Among(k: multiset<string>, tuples: seq<seq<string>>, q: nat)
  {
    exists p :: 0 <= p < q && p < |tuples| && k == multiset(tuples[p])
  }

  /** The items of the drawn r-tuples are exactly the multisets of `r` pool elements. */
  lemma CWRItems(pool: seq<string>, r: nat)
    ensures forall k :: Among(k, CWR(pool, r), |CWR(pool, r)|) <==> |k| == r && forall x :: x in k ==> x in pool
  {
    var tuples := CWR(pool, r);
    forall k ensures Among(k, tuples, |tuples|) <==> |k| == r && forall x :: x in k ==> x in pool {
      if Among(k, tuples, |tuples|) {
        var p :| 0 <= p < |tuples| && k == multiset(tuples[p]);
        CWRSound(pool, r, tuples[p]);
      }
      if |k| == r && forall x :: x in k ==> x in pool {
        CWRComplete(pool, r, k);
        var t :| t in tuples && multiset(t) == k;
        var p :| 0 <= p < |tuples| && tuples[p] == t;
      }
    }
  }

  class ProbabilisticModel {
    const statements: seq<Ast>
    var probabilities: map<multiset<string>, real>

    /** Every stored value is the model's probability of its key. */
    ghost predicate Valid()
      reads this`probabilities
    {
      forall k :: k in probabilities ==> probabilities[k] == Probability(statements, k)
    }

    /**
     * `ProbabilisticModel(statements)`: the probability of exactly the
     * multisets some statement draws.
     */
    constructor(statements: seq<Ast>)
      ensures this.statements == statements && Valid()
      ensures forall k :: k in probabilities <==> DrawnBy(statements, |statements|, k)
    {
      this.statements := statements;
      probabilities := map[];
      new;
      CreateModel();
    }

    /**
     * `createModel`: every multiset of one to all of a statement's
     * variables gets its probability. The `not in` test compares a
     * `Combination` with the stored multisets and so always holds; storing
     * the same value again is harmless.
     */
    method CreateModel()
      requires Valid()
      modifies this`probabilities
      ensures Valid()
      ensures forall k :: k in probabilities <==> k in old(probabilities) || DrawnBy(statements, |statements|, k)
    {
      ghost var base := probabilities;
      for j := 0 to |statements|
        invariant Valid()
        invariant forall k :: k in probabilities <==> k in base || DrawnBy(statements, j, k)
      {
        var vars := VarNames(statements[j]);
        StoreStatement(vars);
        DrawnByStep(statements, j);
      }
    }

    /** The loops of `createModel` over one statement's variables. */
    method StoreStatement(vars: set<string>)
      requires Valid()
      modifies this`probabilities
      ensures Valid()
      ensures forall k :: k in probabilities <==> k in old(probabilities) || Fits(k, vars)
    {
      var pool := Enumerate(vars);
      ghost var base := probabilities;
      for i := 1 to |vars| + 1
        invariant Valid()
        invariant forall k :: k in probabilities <==> k in base || (1 <= |k| < i && forall x :: x in k ==> x in vars)
      {
        StoreSize(pool, i);
      }
    }

    /** The loop of `createModel` over `combinations_with_replacement(vars, i)`. */
    method StoreSize(pool: seq<string>, i: nat)
      requires Valid()
      modifies this`probabilities
      ensures Valid()
      ensures forall k :: k in probabilities <==> k in old(probabilities) || (|k| == i && forall x :: x in k ==> x in pool)
    {
      var combinations := CWR(pool, i);
      ghost var base := probabilities;
      for q := 0 to |combinations|
        invariant Valid()
        invariant forall k :: k in probabilities <==> k in base || Among(k, combinations, q)
      {
        var items := Items(combinations[q]);
        var same, sameNumber := CheckCombination(items);
        var probability := if sameNumber == 0 then 0.0 else same as real / sameNumber as real;
        probabilities := probabilities[items := probability];
        forall k ensures Among(k, combinations, q + 1) <==> Among(k, combinations, q) || k == items {
          if Among(k, combinations, q + 1) {
            var p :| 0 <= p < q + 1 && p < |combinations| && k == multiset(combinations[p]);
          }
        }
      }
      CWRItems(pool, i);
    }

    /**
     * `checkCombination`: how many statements use exactly the multiset's
     * variables, and how many use as many variables as it has items.
     */
    method CheckCombination(items: multiset<string>) returns (same: nat, sameNumber: nat)
      ensures same == SameCombination(statements, items) && sameNumber == SameNumber(statements, items)
    {
      same, sameNumber := 0, 0;
      for j := 0 to |statements|
        invariant same == SameCombination(statements[..j], items)
        invariant sameNumber == SameNumber(statements[..j], items)
      {
        assert statements[..j + 1][..j] == statements[..j];
        var vars := VarNames(statements[j]);
        if items == multiset(vars) {
          same := same + 1;
        }
        if |items| == |vars| {
          sameNumber := sameNumber + 1;
        }
      }
      assert statements[..|statements|] == statements;
    }
  }

  // ---------------------------------------------------------------------
  // The scopes of statements

  /** The names a visit adds to the innermost scope: its own, and those below it outside nested definitions. */
  function Direct(t: Ast): set<string>
    decreases t, 1
  {
    if OpensScope(t.kind) then {} else Own(t.kind) + DirectAll(t.children)
  }

  function DirectAll(ts: seq<Ast>): set<string>
    decreases ts, 0
  {
    if ts == [] then {} else DirectAll(ts[..|ts| - 1]) + Direct(ts[|ts| - 1])
  }

  /** The scopes a visit opens, in the order it opens them, each with the names it ends up holding. */
  function Opened(t: Ast): seq<set<string>>
    decreases t, 1
  {
    if OpensScope(t.kind) then [DirectAll(t.children)] + OpenedAll(t.children) else OpenedAll(t.children)
  }

  function OpenedAll(ts: seq<Ast>): seq<set<string>>
    decreases ts, 0
  {
    if ts == [] then [] else OpenedAll(ts[..|ts| - 1]) + Opened(ts[|ts| - 1])
  }

  /**
   * The lists `generic_visit` records while visiting `t`, entered with the
   * scope stack `stack` after `next` scopes were made: every statement
   * maps to the stack at the time, outermost scope first.
   */
  function Record(m: map<int, seq<nat>>, t: Ast, stack: seq<nat>, next: nat): map<int, seq<nat>>
    decreases t, 2
  {
    if OpensScope(t.kind) then Helper(m, t, stack, next)
    else RecordAll(if IsStmt(t.kind) then m[t.node := stack] else m, t.children, stack, next)
  }

  /** What `visit_Helper` records: the node and its children visited inside a new scope. */
  function Helper(m: map<int, seq<nat>>, t: Ast, stack: seq<nat>, next: nat): map<int, seq<nat>>
    decreases t, 1
  {
    var inner := stack + [next];
    RecordAll(if IsStmt(t.kind) then m[t.node := inner] else m, t.children, inner, next + 1)
  }

  function RecordAll(m: map<int, seq<nat>>, ts: seq<Ast>, stack: seq<nat>, next: nat): map<int, seq<nat>>
    decreases ts, 0
  {
    if ts == [] then m
    else
      var init := ts[..|ts| - 1];
      Record(RecordAll(m, init, stack, next), ts[|ts| - 1], stack, next + |OpenedAll(init)|)
  }

  /**
   * `Scope_Constructor`. Every `Scope` made so far is a position in
   * `scopes` holding its variables; the stack and the recorded lists name
   * scopes by position, so a name a scope gains later shows in every list
   * that holds the scope.
   */
  class ScopeConstructor {
    var scopeStack: seq<nat>
    var scopes: seq<set<string>>
    var scopeStmt: map<int, seq<nat>>

    /** Every position names a scope made so far. */
    ghost predicate Valid()
      reads this
    {
      && (forall q :: 0 <= q < |scopeStack| ==> scopeStack[q] < |scopes|)
      && (forall n :: n in scopeStmt ==> forall q :: 0 <= q < |scopeStmt[n]| ==> scopeStmt[n][q] < |scopes|)
    }

    constructor()
      ensures scopeStack == [] && scopes == [] && scopeStmt == map[] && Valid()
    {
      scopeStack := [];
      scopes := [];
      scopeStmt := map[];
    }

    /** `scope_stack[-1].add(x)`. */
    method Add(x: string)
      requires Valid() && scopeStack != []
      modifies this`scopes
      ensures Valid()
      ensures scopes == old(scopes)[scopeStack[|scopeStack| - 1] := old(scopes)[scopeStack[|scopeStack| - 1]] + {x}]
    {
      var top := scopeStack[|scopeStack| - 1];
      scopes := scopes[top := scopes[top] + {x}];
    }

    /**
     * `visit`: a name, and an argument other than `self`, is added to the
     * innermost scope; a definition is visited inside a scope of its own;
     * the children of every other node are visited in order. The stack is
     * as it was; the innermost scope has gained the names outside nested
     * definitions, and the scopes the definitions opened follow.
     */
    method Visit(t: Ast)
      requires Valid() && scopeStack != []
      modifies this
      ensures Valid() && scopeStack == old(scopeStack)
      ensures var top := scopeStack[|scopeStack| - 1];
        scopes == old(scopes)[top := old(scopes)[top] + Direct(t)] + Opened(t)
      ensures scopeStmt == Record(old(scopeStmt), t, old(scopeStack), old(|scopes|))
      decreases t, 2
    {
      var top := scopeStack[|scopeStack| - 1];
      match t.kind {
        case FunctionDef =>
          VisitHelper(t);
        case AsyncFunctionDef =>
          VisitHelper(t);
        case ClassDef =>
          VisitHelper(t);
        case Name(id) =>
          Add(id);
          GenericVisit(t);
          AddTwice(old(scopes), top, {id}, DirectAll(t.children));
        case Arg(a) =>
          if a != "self" {
            Add(a);
            GenericVisit(t);
            AddTwice(old(scopes), top, {a}, DirectAll(t.children));
          } else {
            GenericVisit(t);
            assert Direct(t) == DirectAll(t.children);
          }
          assert scopes == old(scopes)[top := old(scopes)[top] + Direct(t)] + Opened(t);
        case _ =>
          GenericVisit(t);
          assert Direct(t) == DirectAll(t.children);
          assert scopes == old(scopes)[top := old(scopes)[top] + Direct(t)] + Opened(t);
      }
      if OpensScope(t.kind) {
        UpdateSame(old(scopes), top);
        assert old(scopes) + [DirectAll(t.children)] + OpenedAll(t.children) == old(scopes) + Opened(t);
      }
    }

    /**
     * `generic_visit`: a statement records the current stack, then the
     * children are visited in order.
     */
    method GenericVisit(t: Ast)
      requires Valid() && scopeStack != []
      modifies this
      ensures Valid() && scopeStack == old(scopeStack)
      ensures var top := scopeStack[|scopeStack| - 1];
        scopes == old(scopes)[top := old(scopes)[top] + DirectAll(t.children)] + OpenedAll(t.children)
      ensures scopeStmt == RecordAll(if IsStmt(t.kind) then old(scopeStmt)[t.node := old(scopeStack)] else old(scopeStmt),
                                     t.children, old(scopeStack), old(|scopes|))
      decreases t, 0
    {
      if IsStmt(t.kind) {
        scopeStmt := scopeStmt[t.node := scopeStack];
      }
      var top := scopeStack[|scopeStack| - 1];
      ghost var start := scopes;
      ghost var recorded := scopeStmt;
      UpdateSame(start, top);
      for i := 0 to |t.children|
        invariant Valid() && scopeStack == old(scopeStack)
        invariant scopes == start[top := start[top] + DirectAll(t.children[..i])] + OpenedAll(t.children[..i])
        invariant scopeStmt == RecordAll(recorded, t.children[..i], scopeStack, |start|)
      {
        VisitNext(t, i, start, recorded);
      }
      assert t.children[..|t.children|] == t.children;
    }

    /** One turn of `generic_visit`'s loop: the next child is visited. */
    method VisitNext(t: Ast, i: nat, ghost start: seq<set<string>>, ghost recorded: map<int, seq<nat>>)
      requires Valid() && scopeStack != [] && i < |t.children|
      requires var top := scopeStack[|scopeStack| - 1];
        && top < |start|
        && scopes == start[top := start[top] + DirectAll(t.children[..i])] + OpenedAll(t.children[..i])
        && scopeStmt == RecordAll(recorded, t.children[..i], scopeStack, |start|)
      modifies this
      ensures Valid() && scopeStack == old(scopeStack)
      ensures var top := scopeStack[|scopeStack| - 1];
        scopes == start[top := start[top] + DirectAll(t.children[..i + 1])] + OpenedAll(t.children[..i + 1])
      ensures scopeStmt == RecordAll(recorded, t.children[..i + 1], scopeStack, |start|)
      decreases t, 0, i
    {
      var top := scopeStack[|scopeStack| - 1];
      assert t.children[..i + 1][..i] == t.children[..i];
      Visit(t.children[i]);
      Grow(start, OpenedAll(t.children[..i]), top, DirectAll(t.children[..i]), Direct(t.children[i]), Opened(t.children[i]));
    }

    /** `visit_Helper`: a new scope is pushed for the node's visit and popped after it. */
    method VisitHelper(t: Ast)
      requires Valid()
      modifies this
      ensures Valid() && scopeStack == old(scopeStack)
      ensures scopes == old(scopes) + [DirectAll(t.children)] + OpenedAll(t.children)
      ensures scopeStmt == Helper(old(scopeStmt), t, old(scopeStack), old(|scopes|))
      decreases t, 1
    {
      scopes := scopes + [{}];
      scopeStack := scopeStack + [|scopes| - 1];
      GenericVisit(t);
      PushGrow(old(scopes), DirectAll(t.children));
      scopeStack := scopeStack[..|scopeStack| - 1];
    }

    /** `search(tree)`: the whole tree visited inside a scope of its own. */
    method Search(tree: Ast)
      requires Valid()
      modifies this
      ensures Valid() && scopeStack == old(scopeStack)
      ensures scopes == old(scopes) + [DirectAll(tree.children)] + OpenedAll(tree.children)
      ensures scopeStmt == Helper(old(scopeStmt), tree, old(scopeStack), old(|scopes|))
    {
      VisitHelper(tree);
    }
  }

  /** Adding nothing to a scope leaves the scopes as they are. */
  lemma UpdateSame(a: seq<set<string>>, top: nat)
    requires top < |a|
    ensures a[top := a[top] + {}] == a
  {
    assert a[top] + {} == a[top];
  }

  /** Adding `x`, then `y`, to a scope adds both. */
  lemma AddTwice(a: seq<set<string>>, top: nat, x: set<string>, y: set<string>)
    requires top < |a|
    ensures a[top := a[top] + x][top := a[top := a[top] + x][top] + y] == a[top := a[top] + (x + y)]
    ensures a[top := a[top] + {}] == a
  {
    assert a[top := a[top] + x][top] + y == a[top] + (x + y);
    assert a[top] + {} == a[top];
  }

  /** A pushed empty scope that gains `d`. */
  lemma PushGrow(a: seq<set<string>>, d: set<string>)
    ensures (a + [{}])[|a| := (a + [{}])[|a|] + d] == a + [d]
  {
    assert (a + [{}])[|a|] + d == d;
  }

  /** Adding to the innermost scope, then appending the scopes a child opened. */
  lemma Grow(start: seq<set<string>>, b: seq<set<string>>, top: nat, di: set<string>, d: set<string>, o: seq<set<string>>)
    requires top < |start|
    ensures var a := start[top := start[top] + di];
      (a + b)[top := (a + b)[top] + d] + o == start[top := start[top] + (di + d)] + (b + o)
  {
    var a := start[top := start[top] + di];
    assert (a + b)[top] + d == start[top] + (di + d);
  }

  /** Every name some scope of the list holds. */
  function Union(ss: seq<set<string>>): set<string>
  {
    if ss == [] then {} else Union(ss[..|ss| - 1]) + ss[|ss| - 1]
  }

  lemma {:induction false} UnionConcat(a: seq<set<string>>, b: seq<set<string>>)
    ensures Union(a + b) == Union(a) + Union(b)
    decreases |b|
  {
    if b != [] {
      assert (a + b)[..|a + b| - 1] == a + b[..|b| - 1];
      assert (a + b)[|a + b| - 1] == b[|b| - 1];
      UnionConcat(a, b[..|b| - 1]);
    } else {
      assert a + b == a;
    }
  }

  /**
   * The scopes a visit fills hold exactly the names `VarNamesCollector`
   * collects: those added to the innermost scope and those of the scopes
   * it opens.
   */
  lemma {:induction false} ScopesHoldVarNames(t: Ast)
    ensures Direct(t) + Union(Opened(t)) == VarNames(t)
    decreases t, 1
  {
    ScopesHoldVarNamesAll(t.children);
    if OpensScope(t.kind) {
      UnionConcat([DirectAll(t.children)], OpenedAll(t.children));
      assert [DirectAll(t.children)][..0] == [];
    }
  }

  lemma {:induction false} ScopesHoldVarNamesAll(ts: seq<Ast>)
    ensures DirectAll(ts) + Union(OpenedAll(ts)) == VarNamesAll(ts)
    decreases ts, 0
  {
    if ts != [] {
      var init := ts[..|ts| - 1];
      ScopesHoldVarNamesAll(init);
      ScopesHoldVarNames(ts[|ts| - 1]);
      UnionConcat(OpenedAll(init), Opened(ts[|ts| - 1]));
    }
  }

  /** The identities of the tree's statements. */
  function StmtNodes(t: Ast): set<int>
    decreases t, 1
  {
    (if IsStmt(t.kind) then {t.node} else {}) + StmtNodesAll(t.children)
  }

  function StmtNodesAll(ts: seq<Ast>): set<int>
    decreases ts, 0
  {
    if ts == [] then {} else StmtNodesAll(ts[..|ts| - 1]) + StmtNodes(ts[|ts| - 1])
  }

  /** A visit records a list for every statement of the tree, and for nothing else. */
  lemma {:induction false} RecordKeys(m: map<int, seq<nat>>, t: Ast, stack: seq<nat>, next: nat)
    ensures Record(m, t, stack, next).Keys == m.Keys + StmtNodes(t)
    ensures Helper(m, t, stack, next).Keys == m.Keys + StmtNodes(t)
    decreases t, 2
  {
    RecordAllKeys(if IsStmt(t.kind) then m[t.node := stack] else m, t.children, stack, next);
    RecordAllKeys(if IsStmt(t.kind) then m[t.node := stack + [next]] else m, t.children, stack + [next], next + 1);
  }

  lemma {:induction false} RecordAllKeys(m: map<int, seq<nat>>, ts: seq<Ast>, stack: seq<nat>, next: nat)
    ensures RecordAll(m, ts, stack, next).Keys == m.Keys + StmtNodesAll(ts)
    decreases ts, 0
  {
    if ts != [] {
      var init := ts[..|ts| - 1];
      RecordAllKeys(m, init, stack, next);
      RecordKeys(RecordAll(m, init, stack, next), ts[|ts| - 1], stack, next + |OpenedAll(init)|);
    }
  }

  /**
   * Every entry of `r` is `m`'s, or lists `stack` followed by scopes made
   * at positions from `lo` up to, not including, `hi`.
   */
  ghost predicate ExtendsWith(m: map<int, seq<nat>>, r: map<int, seq<nat>>, stack: seq<nat>, lo: nat, hi: nat)
  {
    forall n :: n in r ==>
      || (n in m && r[n] == m[n])
      || (stack <= r[n] && forall q :: |stack| <= q < |r[n]| ==> lo <= r[n][q] < hi)
  }

  lemma ExtendsTrans(m: map<int, seq<nat>>, r1: map<int, seq<nat>>, r2: map<int, seq<nat>>, stack: seq<nat>, lo: nat, hi: nat)
    requires ExtendsWith(m, r1, stack, lo, hi) && ExtendsWith(r1, r2, stack, lo, hi)
    ensures ExtendsWith(m, r2, stack, lo, hi)
  {
  }

  lemma ExtendsWiden(m: map<int, seq<nat>>, r: map<int, seq<nat>>, stack: seq<nat>, lo: nat, hi: nat, lo': nat, hi': nat)
    requires ExtendsWith(m, r, stack, lo, hi) && lo' <= lo && hi <= hi'
    ensures ExtendsWith(m, r, stack, lo', hi')
  {
  }

  lemma ExtendsInner(m: map<int, seq<nat>>, r: map<int, seq<nat>>, stack: seq<nat>, lo: nat, hi: nat)
    requires ExtendsWith(m, r, stack + [lo], lo + 1, hi) && lo < hi
    ensures ExtendsWith(m, r, stack, lo, hi)
  {
    forall n | n in r && !(n in m && r[n] == m[n])
      ensures stack <= r[n] && forall q :: |stack| <= q < |r[n]| ==> lo <= r[n][q] < hi
    {
      assert stack + [lo] <= r[n];
      assert r[n][|stack|] == lo;
    }
  }

  /**
   * A visit entered with `stack` records, for every statement it meets,
   * `stack` followed by scopes the visit itself makes; inside a definition
   * or a searched tree, the first of those is the scope made for it.
   */
  lemma {:induction false} RecordExtends(m: map<int, seq<nat>>, t: Ast, stack: seq<nat>, next: nat)
    ensures ExtendsWith(m, Record(m, t, stack, next), stack, next, next + |Opened(t)|)
    ensures ExtendsWith(m, Helper(m, t, stack, next), stack + [next], next + 1, next + 1 + |OpenedAll(t.children)|)
    decreases t, 2
  {
    var hi := next + 1 + |OpenedAll(t.children)|;
    var inner := stack + [next];
    var m1 := if IsStmt(t.kind) then m[t.node := inner] else m;
    RecordAllExtends(m1, t.children, inner, next + 1);
    assert ExtendsWith(m, m1, inner, next + 1, hi);
    ExtendsTrans(m, m1, Helper(m, t, stack, next), inner, next + 1, hi);
    if OpensScope(t.kind) {
      ExtendsInner(m, Helper(m, t, stack, next), stack, next, hi);
    } else {
      var m2 := if IsStmt(t.kind) then m[t.node := stack] else m;
      RecordAllExtends(m2, t.children, stack, next);
      assert ExtendsWith(m, m2, stack, next, next + |Opened(t)|);
      ExtendsTrans(m, m2, Record(m, t, stack, next), stack, next, next + |Opened(t)|);
    }
  }

  lemma {:induction false} RecordAllExtends(m: map<int, seq<nat>>, ts: seq<Ast>, stack: seq<nat>, next: nat)
    ensures ExtendsWith(m, RecordAll(m, ts, stack, next), stack, next, next + |OpenedAll(ts)|)
    decreases ts, 0
  {
    if ts != [] {
      var init := ts[..|ts| - 1];
      var hi := next + |OpenedAll(ts)|;
      var mid := next + |OpenedAll(init)|;
      var r1 := RecordAll(m, init, stack, next);
      RecordAllExtends(m, init, stack, next);
      ExtendsWiden(m, r1, stack, next, mid, next, hi);
      RecordExtends(r1, ts[|ts| - 1], stack, mid);
      ExtendsWiden(r1, RecordAll(m, ts, stack, next), stack, mid, hi, next, hi);
      ExtendsTrans(m, r1, RecordAll(m, ts, stack, next), stack, next, hi);
    }
  }
}
