/**
 * The lexical scopes of the data-flow analysis: each scope maps names to
 * the AST node that defines them, knows its parent, and is either a plain
 * scope or a "sub" scope (a nested block whose definitions add to those of
 * the enclosing scope). Lookups go up the parent chain.
 */
module Scopes {
  import opened Util

  /** The defining AST node, known to the model only by its identity. */
  type Def = int

  class Scope {
    const parent: Scope?
    const sub: bool
    /** Distance to the root; it only exists to make recursion up the chain terminate. */
    const depth: nat
    var defs: map<string, Def>
    var children: seq<Scope>

    /** The parent chain is finite: every parent is strictly closer to the root. */
    predicate Chain()
      decreases depth
    {
      parent == null || (parent.depth < depth && parent.Chain())
    }

    /** This scope followed by its ancestors, innermost first; the root is last. */
    function Path(): (r: seq<Scope>)
      requires Chain()
      decreases depth
      ensures r != [] && r[0] == this && r[|r| - 1].parent == null
      ensures forall i :: 0 <= i < |r| - 1 ==> r[i].parent == r[i + 1]
      ensures forall i :: 0 < i < |r| ==> r[i].depth < depth
    {
      if parent == null then [this] else [this] + parent.Path()
    }

    function Ancestors(): set<Scope>
      requires Chain()
    {
      set s | s in Path()
    }

    constructor(parent: Scope?, sub: bool)
      requires parent != null ==> parent.Chain()
      ensures this.parent == parent && this.sub == sub && defs == map[] && children == []
      ensures Chain()
    {
      this.parent := parent;
      this.sub := sub;
      depth := if parent == null then 0 else parent.depth + 1;
      defs := map[];
      children := [];
    }

    /** `item in scope`: defined here or, failing that, in the parent chain. */
    predicate Contains(item: string)
      reads Ancestors()
      requires Chain()
      decreases depth
    {
      item in defs || (parent != null && parent.Contains(item))
    }

    /** Some scope of the chain defines `item`. */
    ghost predicate DefinedOnPath(item: string)
      reads Ancestors()
      requires Chain()
    {
      exists i :: 0 <= i < |Path()| && item in Path()[i].defs
    }

    /** `get_variables`: the names defined anywhere along the chain. */
    function GetVariables(): (r: set<string>)
      reads Ancestors()
      requires Chain()
      decreases depth
      ensures defs.Keys <= r
      ensures forall x :: x in r ==> DefinedOnPath(x)
      ensures forall x :: DefinedOnPath(x) ==> x in r
    {
      if parent == null then defs.Keys
      else
        var up := parent.GetVariables();
        assert Path() == [this] + parent.Path();
        forall x | DefinedOnPath(x) ensures x in defs.Keys + up {
          var i :| 0 <= i < |Path()| && x in Path()[i].defs;
          if i > 0 {
            assert x in parent.Path()[i - 1].defs;
          }
        }
        forall x | x in up ensures DefinedOnPath(x) {
          var i :| 0 <= i < |parent.Path()| && x in parent.Path()[i].defs;
          assert x in Path()[i + 1].defs;
        }
        defs.Keys + up
    }

    /** Membership and the variable set agree, and both mean "defined somewhere on the chain". */
    lemma {:induction false} ContainsIsGetVariables(item: string)
      requires Chain()
      ensures Contains(item) <==> item in GetVariables()
      ensures Contains(item) <==> DefinedOnPath(item)
      decreases depth
    {
      if parent != null {
        parent.ContainsIsGetVariables(item);
      }
    }

    /** `scope[name] = value`: only this scope's definitions change. */
    method SetItem(name: string, value: Def)
      requires Chain()
      modifies this`defs
      ensures defs == old(defs)[name := value]
      ensures Contains(name)
      ensures GetVariables() == old(GetVariables()) + {name}
    {
      ghost var up := if parent == null then {} else parent.GetVariables();
      assert GetVariables() == defs.Keys + up;
      if parent != null {
        Acyclic();
      }
      defs := defs[name := value];
      assert parent != null ==> parent.GetVariables() == up;
      ContainsIsGetVariables(name);
    }

    /** A scope is not among its parent's ancestors. */
    lemma Acyclic()
      requires Chain() && parent != null
      ensures this !in parent.Ancestors()
    {
      var p := parent.Path();
      forall i | 0 <= i < |p| ensures p[i].depth < depth {
        if i > 0 {
          assert p[i].depth < parent.depth;
        }
      }
    }

    /**
     * `enter(sub)`: a fresh, empty child whose parent is this scope,
     * recorded among the children; it sees exactly this scope's variables.
     */
    method Enter(sub: bool) returns (child: Scope)
      requires Chain()
      modifies this`children
      ensures fresh(child) && child.parent == this && child.sub == sub
      ensures child.defs == map[] && child.children == [] && child.Chain()
      ensures children == old(children) + [child]
      ensures child.GetVariables() == GetVariables()
    {
      child := new Scope(this, sub);
      children := children + [child];
    }

    /**
     * `exit`: the scope to continue in after leaving this one. It is this
     * scope or an ancestor (the properties are proved in `ExitClimbs`).
     */
    function Exit(): (r: Scope)
      requires Chain()
      decreases depth
      ensures r.Chain() && r in Ancestors()
    {
      if parent != null then
        if sub && parent.sub then parent.Exit() else parent
      else this
    }

    /**
     * Position `j` of the chain is where a climb from this sub scope stops:
     * every scope below it is a sub scope, and it is plain or the root.
     */
    ghost predicate StopsAt(j: nat)
      reads Ancestors()
      requires Chain()
    {
      && 1 <= j < |Path()|
      && (forall i :: 0 <= i < j ==> Path()[i].sub)
      && (!Path()[j].sub || Path()[j].parent == null)
    }

    /**
     * The root exits to itself; a plain scope exits to its parent; a sub
     * scope climbs through consecutive sub scopes and stops at the first
     * plain ancestor, or at the root when there is none.
     */
    lemma {:induction false} ExitClimbs()
      requires Chain()
      ensures parent == null ==> Exit() == this
      ensures parent != null && !sub ==> Exit() == parent
      ensures parent != null && sub ==> exists j: nat :: StopsAt(j) && Exit() == Path()[j]
      decreases depth
    {
      if parent != null && sub {
        var p := Path();
        assert p == [this] + parent.Path();
        if parent.sub && parent.parent != null {
          parent.ExitClimbs();
          var j: nat :| parent.StopsAt(j) && parent.Exit() == parent.Path()[j];
          ClimbOneMore(j);
        } else {
          assert Exit() == p[1];
          assert StopsAt(1);
        }
      }
    }

    /** A climb that stops at `j` from the parent stops at `j + 1` from a sub scope. */
    lemma ClimbOneMore(j: nat)
      requires Chain() && parent != null && sub && parent.sub
      requires parent.StopsAt(j) && parent.Exit() == parent.Path()[j]
      ensures StopsAt(j + 1) && Exit() == Path()[j + 1]
    {
      var p := Path();
      assert p == [this] + parent.Path();
      forall i | 1 <= i < j + 1 ensures p[i].sub {
        assert p[i] == parent.Path()[i - 1];
      }
    }

    /**
     * `scope[name]` as written: the definitions are collected but every
     * path still ends in raising KeyError (a failed lookup in the parent
     * propagates its own KeyError).
     */
    function GetItemAsWritten(name: string): (r: Result<seq<Def>>)
      reads Ancestors()
      requires Chain()
      decreases depth
    {
      if name in defs then
        var found := [defs[name]];
        if sub && parent != null then
          var more :- parent.GetItemAsWritten(name);
          var discarded := found + more;
          Err(KeyError)
        else
          Err(KeyError)
      else if parent != null then
        parent.GetItemAsWritten(name)
      else
        Err(KeyError)
    }

    /** Indexing a scope never succeeds, whatever the chain defines. */
    lemma {:induction false} GetItemAsWrittenAlwaysRaises(name: string)
      requires Chain()
      ensures GetItemAsWritten(name) == Err(KeyError)
      decreases depth
    {
      if parent != null {
        parent.GetItemAsWrittenAlwaysRaises(name);
      }
    }

    /** The definition of `name` in the nearest scope of the chain that has one. */
    function Nearest(name: string): (r: Option<Def>)
      reads Ancestors()
      requires Chain()
      decreases depth
    {
      if name in defs then Some(defs[name])
      else if parent != null then parent.Nearest(name)
      else None
    }

    /**
     * `scope[name]` with the collected definitions returned: the nearest
     * definition, followed, when it sits in a sub scope below another
     * scope, by what the parent yields for the name (nothing more when the
     * parent's chain does not define it); KeyError exactly when the chain
     * does not define the name.
     */
    function GetItem(name: string): (r: Result<seq<Def>>)
      reads Ancestors()
      requires Chain()
      decreases depth
      ensures r.Ok? <==> Contains(name)
      ensures r.Err? ==> r.error == KeyError
      ensures r.Ok? ==> r.value != [] && Nearest(name) == Some(r.value[0])
      ensures r.Ok? ==> forall d :: d in r.value ==> DefinedAs(name, d)
    {
      if name in defs then
        assert Path()[0] == this;
        var found := [defs[name]];
        if sub && parent != null then
          match parent.GetItem(name)
          case Ok(more) =>
            LiftDefinedAs(name, more);
            Ok(found + more)
          case Err(_) =>
            Ok(found)
        else
          Ok(found)
      else if parent != null then
        var r := parent.GetItem(name);
        if r.Ok? then
          LiftDefinedAs(name, r.value);
          r
        else
          r
      else
        Err(KeyError)
    }

    /** A sub scope that defines a name its ancestors lack yields its own definition alone. */
    lemma SubScopeOwnDefinition(name: string)
      requires Chain() && sub && parent != null
      requires name in defs && !parent.Contains(name)
      ensures GetItem(name) == Ok([defs[name]])
    {
    }

    /** Some scope of the chain binds `name` to `d`. */
    ghost predicate DefinedAs(name: string, d: Def)
      reads Ancestors()
      requires Chain()
    {
      exists i :: 0 <= i < |Path()| && name in Path()[i].defs && Path()[i].defs[name] == d
    }

    /** What the parent's chain binds, this chain binds too. */
    lemma LiftDefinedAs(name: string, ds: seq<Def>)
      requires Chain() && parent != null
      requires forall d :: d in ds ==> parent.DefinedAs(name, d)
      ensures forall d :: d in ds ==> DefinedAs(name, d)
    {
      assert Path() == [this] + parent.Path();
      forall d | d in ds
        ensures DefinedAs(name, d)
      {
        var i :| 0 <= i < |parent.Path()| && name in parent.Path()[i].defs && parent.Path()[i].defs[name] == d;
        assert Path()[i + 1] == parent.Path()[i];
      }
    }

    /** No scope of the chain is a sub scope. */
    predicate Plain()
      requires Chain()
      decreases depth
    {
      !sub && (parent == null || parent.Plain())
    }

    /** In a chain of plain scopes, a lookup succeeds exactly for defined names and yields the nearest definition. */
    lemma {:induction false} GetItemPlain(name: string)
      requires Chain() && Plain()
      ensures GetItem(name).Ok? <==> Contains(name)
      ensures Contains(name) ==> GetItem(name) == Ok([Nearest(name).value])
      decreases depth
    {
      if name !in defs && parent != null {
        parent.GetItemPlain(name);
      }
    }
  }
}
