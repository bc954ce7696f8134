/**
 * The edit model: mutation operators, the `mutations` dictionary they
 * write into, and the `Mutator` that folds an operator list into that
 * dictionary and rewrites a tree with it.
 *
 * Syntax trees are abstract. `Stmt(id, body)` is the original statement
 * registered under `id` (the statement object `statements[id]`), with the
 * statements nested in it; `Pass` and `Module` are the nodes the operators
 * create.
 */
module Operators {
  import opened Util
  import Templates

  datatype Node = Stmt(id: int, body: seq<Node>) | Pass | Module(body: seq<Node>)

  /** Which of `InsertBefore`/`InsertAfter` (or `MoveBefore`/`MoveAfter`) a *Both operator drew. */
  datatype Side = Before | After

  /** The `ReplaceOperator` subclasses; they differ only in their class name. */
  datatype OperatorKind = AnyOperator | BinaryOperator | ComparisonOperator | UnaryOperator | BooleanOperator

  /**
   * One mutation operator. `selection` is the `selection_identifier` drawn
   * from `choices` when the operator was built; the choices themselves are
   * not kept, as no operator reads them afterwards. `ReplaceCardumen`
   * carries the template instance Cardumen chose for the statement; the
   * class that applies it is not part of this model, so here it is equal
   * only to itself and writes nothing.
   */
  datatype Op =
    | Delete(identifier: int)
    | InsertBefore(identifier: int, selection: int)
    | InsertAfter(identifier: int, selection: int)
    | InsertBoth(identifier: int, selection: int, inserter: Side)
    | Replace(identifier: int, selection: int)
    | MoveBefore(identifier: int, selection: int)
    | MoveAfter(identifier: int, selection: int)
    | MoveBoth(identifier: int, selection: int, mover: Side)
    | Swap(identifier: int, selection: int)
    | Copy(identifier: int)
    | ReplaceOperator(identifier: int, kind: OperatorKind)
    | Rename(identifier: int)
    | ReplaceCardumen(identifier: int, instance: Templates.TemplateInstance)

  predicate IsInsert(op: Op)
  {
    op.InsertBefore? || op.InsertAfter? || op.InsertBoth?
  }

  // ---------------------------------------------------------------------
  // Equality and hashing

  function ClassName(op: Op): string
  {
    match op
    case Delete(_) => "Delete"
    case InsertBefore(_, _) => "InsertBefore"
    case InsertAfter(_, _) => "InsertAfter"
    case InsertBoth(_, _, _) => "InsertBoth"
    case Replace(_, _) => "Replace"
    case MoveBefore(_, _) => "MoveBefore"
    case MoveAfter(_, _) => "MoveAfter"
    case MoveBoth(_, _, _) => "MoveBoth"
    case Swap(_, _) => "Swap"
    case Copy(_) => "Copy"
    case ReplaceOperator(_, kind) =>
      (match kind
       case AnyOperator => "ReplaceOperator"
       case BinaryOperator => "ReplaceBinaryOperator"
       case ComparisonOperator => "ReplaceComparisonOperator"
       case UnaryOperator => "ReplaceUnaryOperator"
       case BooleanOperator => "ReplaceBooleanOperator")
    case Rename(_) => "Rename"
    case ReplaceCardumen(_, _) => "ReplaceCardumen"
  }

  /** `__hash__`: the pair (class name, identifier) that Python hashes. */
  function HashKey(op: Op): (string, int)
  {
    (ClassName(op), op.identifier)
  }

  /** `__eq__` of each operator class. */
  predicate OpEq(a: Op, b: Op)
  {
    match a
    case Delete(i) => b.Delete? && b.identifier == i
    case InsertBefore(i, s) => b.InsertBefore? && b.identifier == i && b.selection == s
    case InsertAfter(i, s) => b.InsertAfter? && b.identifier == i && b.selection == s
    case InsertBoth(i, s, side) => b.InsertBoth? && b.identifier == i && b.selection == s && b.inserter == side
    case Replace(i, s) => b.Replace? && b.identifier == i && b.selection == s
    case MoveBefore(i, s) => b.MoveBefore? && b.identifier == i && b.selection == s
    case MoveAfter(i, s) => b.MoveAfter? && b.identifier == i && b.selection == s
    case MoveBoth(i, s, side) => b.MoveBoth? && b.identifier == i && b.selection == s && b.mover == side
    case Swap(i, s) => b.Swap? && b.identifier == i && b.selection == s
    case Copy(i) => b.Copy? && b.identifier == i
    case ReplaceOperator(_, _) => false
    case Rename(_) => false
    case ReplaceCardumen(_, _) => a == b
  }

  /** Operators whose `__eq__` always answers False. */
  predicate NeverEqual(op: Op)
  {
    op.ReplaceOperator? || op.Rename?
  }

  /**
   * `__eq__` agrees with equality of the modelled fields, except that
   * ReplaceOperator and Rename are unequal even to themselves; and equal
   * operators have equal hash keys.
   */
  lemma OpEqCharacterized(a: Op, b: Op)
    ensures OpEq(a, b) <==> a == b && !NeverEqual(a)
    ensures OpEq(a, b) ==> HashKey(a) == HashKey(b)
  {
  }

  lemma OpEqSymmetric(a: Op, b: Op)
    ensures OpEq(a, b) <==> OpEq(b, a)
  {
  }

  // ---------------------------------------------------------------------
  // mutate

  /**
   * `mutations.get(id, statements[id])`: the default is evaluated before
   * the lookup, so an id unknown to `statements` raises KeyError even when
   * `mutations` holds it.
   */
  function Current(mutations: map<int, Node>, statements: map<int, Node>, id: int): (r: Result<Node>)
    ensures r.Err? <==> id !in statements
    ensures r.Ok? ==> r.value == (if id in mutations then mutations[id] else statements[id])
  {
    if id !in statements then Err(KeyError)
    else if id in mutations then Ok(mutations[id])
    else Ok(statements[id])
  }

  /** The ids whose original statement `mutate` looks up. */
  function Reads(op: Op): set<int>
  {
    match op
    case Delete(_) => {}
    case InsertBefore(i, s) => {i, s}
    case InsertAfter(i, s) => {i, s}
    case InsertBoth(i, s, _) => {i, s}
    case Replace(_, s) => {s}
    case MoveBefore(i, s) => {i, s}
    case MoveAfter(i, s) => {i, s}
    case MoveBoth(i, s, _) => {i, s}
    case Swap(i, s) => {i, s}
    case Copy(i) => {i}
    case ReplaceOperator(_, _) => {}
    case Rename(_) => {}
    case ReplaceCardumen(_, _) => {}
  }

  /** The keys `mutate` assigns. */
  function Writes(op: Op): set<int>
  {
    match op
    case Delete(i) => {i}
    case InsertBefore(i, _) => {i}
    case InsertAfter(i, _) => {i}
    case InsertBoth(i, _, _) => {i}
    case Replace(i, _) => {i}
    case MoveBefore(i, s) => {i, s}
    case MoveAfter(i, s) => {i, s}
    case MoveBoth(i, s, _) => {i, s}
    case Swap(i, s) => {i, s}
    case Copy(i) => {i}
    case ReplaceOperator(_, _) => {}
    case Rename(_) => {}
    case ReplaceCardumen(_, _) => {}
  }

  /** `Insert.insert` of InsertBefore / InsertAfter. */
  function Inserted(side: Side, tree: Node, selection: Node): Node
  {
    match side
    case Before => Module([selection, tree])
    case After => Module([tree, selection])
  }

  /** `mutate_identifier` of MoveBefore / MoveAfter. */
  function Moved(side: Side, cur: Node, other: Node): Node
  {
    match side
    case Before => Module([other, cur])
    case After => Module([cur, other])
  }

  /**
   * `op.mutate(mutations, statements)`: the dictionary after the operator
   * wrote into it, or the KeyError of a failed statement lookup.
   */
  function Mutate(op: Op, mutations: map<int, Node>, statements: map<int, Node>): (r: Result<map<int, Node>>)
    ensures r.Err? <==> !(Reads(op) <= statements.Keys)
    ensures r.Ok? ==> r.value.Keys == mutations.Keys + Writes(op)
    ensures r.Ok? ==> forall k :: k in mutations && k !in Writes(op) ==> r.value[k] == mutations[k]
  {
    match op
    case Delete(i) => Ok(mutations[i := Pass])
    case InsertBefore(i, s) => InsertAt(mutations, statements, i, s, Before)
    case InsertAfter(i, s) => InsertAt(mutations, statements, i, s, After)
    case InsertBoth(i, s, side) => InsertAt(mutations, statements, i, s, side)
    case Replace(i, s) =>
      var sel :- Current(mutations, statements, s);
      Ok(mutations[i := sel])
    case MoveBefore(i, s) => MoveTo(mutations, statements, i, s, Before)
    case MoveAfter(i, s) => MoveTo(mutations, statements, i, s, After)
    case MoveBoth(i, s, side) => MoveTo(mutations, statements, i, s, side)
    case Swap(i, s) =>
      var cur :- Current(mutations, statements, i);
      var other :- Current(mutations, statements, s);
      Ok(mutations[i := other][s := cur])
    case Copy(i) =>
      var statement :- Current(mutations, statements, i);
      Ok(mutations[i := Module([statement, statement])])
    case ReplaceOperator(_, _) => Ok(mutations)
    case Rename(_) => Ok(mutations)
    case ReplaceCardumen(_, _) => Ok(mutations)
  }

  /** The insert operators: the target becomes the Module of its current value and the selection. */
  function InsertAt(mutations: map<int, Node>, statements: map<int, Node>, i: int, s: int, side: Side): (r: Result<map<int, Node>>)
    ensures r.Err? <==> !({i, s} <= statements.Keys)
    ensures r.Ok? ==> r.value.Keys == mutations.Keys + {i}
    ensures r.Ok? ==> forall k :: k in mutations && k != i ==> r.value[k] == mutations[k]
  {
    var cur :- Current(mutations, statements, i);
    var sel :- Current(mutations, statements, s);
    Ok(mutations[i := Inserted(side, cur, sel)])
  }

  /** The move operators: the target gets the moved Module, then the selection is emptied. */
  function MoveTo(mutations: map<int, Node>, statements: map<int, Node>, i: int, s: int, side: Side): (r: Result<map<int, Node>>)
    ensures r.Err? <==> !({i, s} <= statements.Keys)
    ensures r.Ok? ==> r.value.Keys == mutations.Keys + {i, s}
    ensures r.Ok? ==> forall k :: k in mutations && k != i && k != s ==> r.value[k] == mutations[k]
  {
    var cur :- Current(mutations, statements, i);
    var other :- Current(mutations, statements, s);
    Ok(mutations[i := Moved(side, cur, other)][s := Pass])
  }

  /** Delete writes Pass at its target; it reads no statement, so it never fails. */
  lemma DeleteWritesPass(i: int, mutations: map<int, Node>, statements: map<int, Node>)
    ensures Mutate(Delete(i), mutations, statements).Ok?
    ensures Mutate(Delete(i), mutations, statements).value[i] == Pass
  {
  }

  /**
   * Insert wraps the current target and the current selection in a Module,
   * the selection first for InsertBefore and last for InsertAfter.
   */
  lemma InsertPlacesSelection(op: Op, mutations: map<int, Node>, statements: map<int, Node>)
    requires IsInsert(op) && op.identifier in statements && op.selection in statements
    ensures Mutate(op, mutations, statements).Ok?
    ensures var cur := Current(mutations, statements, op.identifier).value;
            var sel := Current(mutations, statements, op.selection).value;
            var written := Mutate(op, mutations, statements).value[op.identifier];
            && (op.InsertBefore? ==> written == Module([sel, cur]))
            && (op.InsertAfter? ==> written == Module([cur, sel]))
            && (op.InsertBoth? ==> written == Inserted(op.inserter, cur, sel))
  {
  }

  /** Replace copies the current selection to the target; Copy doubles the target. */
  lemma ReplaceAndCopyValues(i: int, s: int, mutations: map<int, Node>, statements: map<int, Node>)
    requires i in statements && s in statements
    ensures Mutate(Replace(i, s), mutations, statements).value[i] == Current(mutations, statements, s).value
    ensures var cur := Current(mutations, statements, i).value;
            Mutate(Copy(i), mutations, statements).value[i] == Module([cur, cur])
  {
  }

  /**
   * A move writes the Module at the target and then Pass at the selection;
   * a move of a statement onto itself therefore just deletes it.
   */
  lemma MoveValues(op: Op, mutations: map<int, Node>, statements: map<int, Node>)
    requires op.MoveBefore? || op.MoveAfter? || op.MoveBoth?
    requires op.identifier in statements && op.selection in statements
    ensures var r := Mutate(op, mutations, statements).value;
            var cur := Current(mutations, statements, op.identifier).value;
            var other := Current(mutations, statements, op.selection).value;
            && r[op.selection] == Pass
            && (op.identifier != op.selection && op.MoveBefore? ==> r[op.identifier] == Module([other, cur]))
            && (op.identifier != op.selection && op.MoveAfter? ==> r[op.identifier] == Module([cur, other]))
            && (op.identifier != op.selection && op.MoveBoth? ==>
                  r[op.identifier] == (if op.mover == Before then Module([other, cur]) else Module([cur, other])))
            && (op.identifier == op.selection ==> r[op.identifier] == Pass)
  {
  }

  /** Swap reads both entries before writing either, so it exchanges them. */
  lemma SwapExchanges(i: int, s: int, mutations: map<int, Node>, statements: map<int, Node>)
    requires i in statements && s in statements
    ensures var r := Mutate(Swap(i, s), mutations, statements).value;
            && r[i] == Current(mutations, statements, s).value
            && r[s] == Current(mutations, statements, i).value
  {
  }

  /** Swapping twice restores the two current values. */
  lemma SwapTwice(i: int, s: int, mutations: map<int, Node>, statements: map<int, Node>)
    requires i in statements && s in statements
    ensures var once := Mutate(Swap(i, s), mutations, statements).value;
            var twice := Mutate(Swap(i, s), once, statements).value;
            && twice[i] == Current(mutations, statements, i).value
            && twice[s] == Current(mutations, statements, s).value
  {
  }

  /** ReplaceOperator and Rename leave the dictionary as it is. */
  lemma NoOpOperators(op: Op, mutations: map<int, Node>, statements: map<int, Node>)
    requires op.ReplaceOperator? || op.Rename?
    ensures Mutate(op, mutations, statements) == Ok(mutations)
  {
  }

  // ---------------------------------------------------------------------
  // Mutator

  /** Applies the operators in list order, stopping at the first KeyError. */
  function ApplyAll(ops: seq<Op>, mutations: map<int, Node>, statements: map<int, Node>): Result<map<int, Node>>
  {
    if ops == [] then Ok(mutations)
    else
      var next :- Mutate(ops[0], mutations, statements);
      ApplyAll(ops[1..], next, statements)
  }

  function ReadsAll(ops: seq<Op>): set<int>
  {
    if ops == [] then {} else Reads(ops[0]) + ReadsAll(ops[1..])
  }

  function WritesAll(ops: seq<Op>): set<int>
  {
    if ops == [] then {} else Writes(ops[0]) + WritesAll(ops[1..])
  }

  /**
   * Folding an operator list fails exactly when some operator looks up an
   * unknown statement, and otherwise adds exactly the keys the operators
   * write.
   */
  lemma {:induction false} ApplyAllKeys(ops: seq<Op>, mutations: map<int, Node>, statements: map<int, Node>)
    ensures ApplyAll(ops, mutations, statements).Ok? <==> ReadsAll(ops) <= statements.Keys
    ensures ApplyAll(ops, mutations, statements).Ok? ==>
              ApplyAll(ops, mutations, statements).value.Keys == mutations.Keys + WritesAll(ops)
  {
    if ops != [] {
      var step := Mutate(ops[0], mutations, statements);
      if step.Ok? {
        ApplyAllKeys(ops[1..], step.value, statements);
      }
    }
  }

  /**
   * The state `Mutator.__init__` builds: the operators, the original
   * statements and the folded `identifier_map`.
   */
  datatype Mutator = Mutator(statements: map<int, Node>, mutations: seq<Op>, identifierMap: map<int, Node>)

  /**
   * `Mutator(statements, mutations)`: folds the operators over an empty
   * dictionary, then builds `mutation_map`, whose `statements[identifier]`
   * lookup raises KeyError for a key no statement carries (a Delete of an
   * unknown id).
   */
  method NewMutator(statements: map<int, Node>, mutations: seq<Op>) returns (r: Result<Mutator>)
    ensures r.Ok? <==> ReadsAll(mutations) <= statements.Keys && WritesAll(mutations) <= statements.Keys
    ensures r.Ok? ==> ApplyAll(mutations, map[], statements) == Ok(r.value.identifierMap)
    ensures r.Ok? ==> r.value.statements == statements && r.value.mutations == mutations
  {
    var identifierMap: map<int, Node> := map[];
    var i := 0;
    while i < |mutations|
      invariant 0 <= i <= |mutations|
      invariant ApplyAll(mutations, map[], statements) == ApplyAll(mutations[i..], identifierMap, statements)
      invariant ReadsAll(mutations[..i]) <= statements.Keys
      invariant identifierMap.Keys == WritesAll(mutations[..i])
    {
      var step := Mutate(mutations[i], identifierMap, statements);
      if step.Err? {
        ReadsAllSplit(mutations, i);
        return Err(step.error);
      }
      assert mutations[i..][1..] == mutations[i + 1..];
      WritesAllSplit(mutations, i);
      ReadsAllSplit(mutations, i);
      identifierMap := step.value;
      i := i + 1;
    }
    assert mutations[..i] == mutations;
    if !(identifierMap.Keys <= statements.Keys) {
      return Err(KeyError);
    }
    return Ok(Mutator(statements, mutations, identifierMap));
  }

  lemma {:induction false} ReadsAllSplit(ops: seq<Op>, i: nat)
    requires i < |ops|
    ensures ReadsAll(ops[..i + 1]) == ReadsAll(ops[..i]) + Reads(ops[i])
    ensures ReadsAll(ops) == ReadsAll(ops[..i]) + ReadsAll(ops[i..])
  {
    ReadsAllAppend(ops[..i], [ops[i]]);
    assert ops[..i] + [ops[i]] == ops[..i + 1];
    ReadsAllAppend(ops[..i], ops[i..]);
    assert ops[..i] + ops[i..] == ops;
  }

  lemma {:induction false} ReadsAllAppend(a: seq<Op>, b: seq<Op>)
    ensures ReadsAll(a + b) == ReadsAll(a) + ReadsAll(b)
  {
    if a != [] {
      ReadsAllAppend(a[1..], b);
      assert (a + b)[1..] == a[1..] + b;
    } else {
      assert a + b == b;
    }
  }

  lemma {:induction false} WritesAllSplit(ops: seq<Op>, i: nat)
    requires i < |ops|
    ensures WritesAll(ops[..i + 1]) == WritesAll(ops[..i]) + Writes(ops[i])
  {
    WritesAllAppend(ops[..i], [ops[i]]);
    assert ops[..i] + [ops[i]] == ops[..i + 1];
  }

  lemma {:induction false} WritesAllAppend(a: seq<Op>, b: seq<Op>)
    ensures WritesAll(a + b) == WritesAll(a) + WritesAll(b)
  {
    if a != [] {
      WritesAllAppend(a[1..], b);
      assert (a + b)[1..] == a[1..] + b;
    } else {
      assert a + b == b;
    }
  }

  /** `get_mutation_indices`: exactly the keys the operators wrote. */
  function MutationIndices(m: Mutator): (r: set<int>)
    requires ApplyAll(m.mutations, map[], m.statements) == Ok(m.identifierMap)
    ensures r == WritesAll(m.mutations)
  {
    ApplyAllKeys(m.mutations, map[], m.statements);
    m.identifierMap.Keys
  }

  // ---------------------------------------------------------------------
  // generic_visit

  /**
   * The tree `generic_visit` returns: a targeted statement is replaced by
   * its `identifier_map` entry, whose contents are not visited; every other
   * node is copied with its children rewritten. Visiting never yields None
   * or a list here, so no child is dropped or spliced.
   */
  function Rewritten(t: Node, identifierMap: map<int, Node>): Node
    decreases t, 1
  {
    match t
    case Stmt(id, body) =>
      if id in identifierMap then identifierMap[id] else Stmt(id, RewrittenAll(body, identifierMap))
    case Pass => Pass
    case Module(body) => Module(RewrittenAll(body, identifierMap))
  }

  function RewrittenAll(ts: seq<Node>, identifierMap: map<int, Node>): (r: seq<Node>)
    ensures |r| == |ts|
    decreases ts, 0
  {
    if ts == [] then [] else [Rewritten(ts[0], identifierMap)] + RewrittenAll(ts[1..], identifierMap)
  }

  function Children(t: Node): seq<Node>
  {
    match t
    case Stmt(_, body) => body
    case Pass => []
    case Module(body) => body
  }

  /** `generic_visit(node)` with its `new_values` loop over the children. */
  method GenericVisit(t: Node, identifierMap: map<int, Node>) returns (r: Node)
    ensures r == Rewritten(t, identifierMap)
    decreases t
  {
    if t.Stmt? && t.id in identifierMap {
      return identifierMap[t.id];
    }
    var old_values := Children(t);
    var new_values: seq<Node> := [];
    var i := 0;
    while i < |old_values|
      invariant 0 <= i <= |old_values|
      invariant new_values + RewrittenAll(old_values[i..], identifierMap) == RewrittenAll(old_values, identifierMap)
    {
      assert old_values[i] in Children(t);
      var value := GenericVisit(old_values[i], identifierMap);
      assert old_values[i..][1..] == old_values[i + 1..];
      assert RewrittenAll(old_values[i..], identifierMap) == [value] + RewrittenAll(old_values[i + 1..], identifierMap);
      AppendAssociative(new_values, [value], RewrittenAll(old_values[i + 1..], identifierMap));
      new_values := new_values + [value];
      i := i + 1;
    }
    match t
    case Stmt(id, _) => r := Stmt(id, new_values);
    case Pass => r := Pass;
    case Module(_) => r := Module(new_values);
  }

  /** The ids of the original statements occurring in a tree. */
  function StmtIds(t: Node): set<int>
    decreases t, 1
  {
    match t
    case Stmt(id, body) => {id} + StmtIdsAll(body)
    case Pass => {}
    case Module(body) => StmtIdsAll(body)
  }

  function StmtIdsAll(ts: seq<Node>): set<int>
    decreases ts, 0
  {
    if ts == [] then {} else StmtIds(ts[0]) + StmtIdsAll(ts[1..])
  }

  /** A tree with no targeted statement comes back unchanged. */
  lemma {:induction false} RewriteUntargeted(t: Node, identifierMap: map<int, Node>)
    requires StmtIds(t) !! identifierMap.Keys
    ensures Rewritten(t, identifierMap) == t
    decreases t, 1
  {
    match t
    case Stmt(id, body) => RewriteUntargetedAll(body, identifierMap);
    case Pass =>
    case Module(body) => RewriteUntargetedAll(body, identifierMap);
  }

  lemma {:induction false} RewriteUntargetedAll(ts: seq<Node>, identifierMap: map<int, Node>)
    requires StmtIdsAll(ts) !! identifierMap.Keys
    ensures RewrittenAll(ts, identifierMap) == ts
    decreases ts, 0
  {
    if ts != [] {
      RewriteUntargeted(ts[0], identifierMap);
      RewriteUntargetedAll(ts[1..], identifierMap);
    }
  }

  function ValueIds(identifierMap: map<int, Node>): set<int>
  {
    set id, v | id in identifierMap && v == identifierMap[id] && v in identifierMap.Values, x <- StmtIds(v) :: x
  }

  /**
   * Rewriting invents no statement: every statement of the result is one
   * of the input's that was not replaced, or comes from a replacement.
   * When no replacement mentions a targeted statement (a Delete, say),
   * no targeted statement survives.
   */
  lemma {:induction false} RewriteIds(t: Node, identifierMap: map<int, Node>)
    ensures StmtIds(Rewritten(t, identifierMap)) <= (StmtIds(t) - identifierMap.Keys) + ValueIds(identifierMap)
    decreases t, 1
  {
    match t
    case Stmt(id, body) =>
      if id in identifierMap {
        var v := identifierMap[id];
        assert v in identifierMap.Values;
        forall x | x in StmtIds(v) ensures x in ValueIds(identifierMap) {}
      } else {
        RewriteIdsAll(body, identifierMap);
      }
    case Pass =>
    case Module(body) => RewriteIdsAll(body, identifierMap);
  }

  lemma {:induction false} RewriteIdsAll(ts: seq<Node>, identifierMap: map<int, Node>)
    ensures StmtIdsAll(RewrittenAll(ts, identifierMap)) <= (StmtIdsAll(ts) - identifierMap.Keys) + ValueIds(identifierMap)
    decreases ts, 0
  {
    if ts != [] {
      RewriteIds(ts[0], identifierMap);
      RewriteIdsAll(ts[1..], identifierMap);
    }
  }

  // -----------------------------------------------------------------------
  // Building operators

  /** The operator classes a repair is configured with; each is called as `cls(identifier, choices)`. */
  datatype OperatorClass =
    | DeleteClass
    | InsertBeforeClass
    | InsertAfterClass
    | InsertBothClass
    | ReplaceClass
    | MoveBeforeClass
    | MoveAfterClass
    | MoveBothClass
    | SwapClass
    | CopyClass
    | ReplaceOperatorClass(kind: OperatorKind)
    | RenameClass

  /** The classes whose constructor draws `selection_identifier = random.choice(choices)`. */
  predicate NeedsSelection(cls: OperatorClass)
  {
    cls in {InsertBeforeClass, InsertAfterClass, InsertBothClass, ReplaceClass,
            MoveBeforeClass, MoveAfterClass, MoveBothClass, SwapClass}
  }

  /** The class an operator was built from. */
  function ClassOf(op: Op): Option<OperatorClass>
  {
    match op
    case Delete(_) => Some(DeleteClass)
    case InsertBefore(_, _) => Some(InsertBeforeClass)
    case InsertAfter(_, _) => Some(InsertAfterClass)
    case InsertBoth(_, _, _) => Some(InsertBothClass)
    case Replace(_, _) => Some(ReplaceClass)
    case MoveBefore(_, _) => Some(MoveBeforeClass)
    case MoveAfter(_, _) => Some(MoveAfterClass)
    case MoveBoth(_, _, _) => Some(MoveBothClass)
    case Swap(_, _) => Some(SwapClass)
    case Copy(_) => Some(CopyClass)
    case ReplaceOperator(_, kind) => Some(ReplaceOperatorClass(kind))
    case Rename(_) => Some(RenameClass)
    case ReplaceCardumen(_, _) => None
  }

  /** A constructor's draws: a position in `choices`, and the side for InsertBoth and MoveBoth. */
  datatype OpDraw = OpDraw(pick: nat, side: Side)

  /**
   * `cls(identifier, choices)`: an operator of that class at `identifier`;
   * the selecting classes take `choices[pick]` as their selection and
   * raise IndexError on an empty `choices`.
   */
  function Build(cls: OperatorClass, identifier: int, choices: seq<int>, draw: OpDraw): (r: Result<Op>)
    requires NeedsSelection(cls) && choices != [] ==> draw.pick < |choices|
    ensures r.Err? <==> NeedsSelection(cls) && choices == []
    ensures r.Err? ==> r.error == IndexError
    ensures r.Ok? ==> r.value.identifier == identifier && ClassOf(r.value) == Some(cls)
    ensures r.Ok? && NeedsSelection(cls) ==> r.value.selection == choices[draw.pick] && r.value.selection in choices
  {
    if NeedsSelection(cls) && choices == [] then Err(IndexError)
    else
      match cls
      case DeleteClass => Ok(Delete(identifier))
      case InsertBeforeClass => Ok(InsertBefore(identifier, choices[draw.pick]))
      case InsertAfterClass => Ok(InsertAfter(identifier, choices[draw.pick]))
      case InsertBothClass => Ok(InsertBoth(identifier, choices[draw.pick], draw.side))
      case ReplaceClass => Ok(Replace(identifier, choices[draw.pick]))
      case MoveBeforeClass => Ok(MoveBefore(identifier, choices[draw.pick]))
      case MoveAfterClass => Ok(MoveAfter(identifier, choices[draw.pick]))
      case MoveBothClass => Ok(MoveBoth(identifier, choices[draw.pick], draw.side))
      case SwapClass => Ok(Swap(identifier, choices[draw.pick]))
      case CopyClass => Ok(Copy(identifier))
      case ReplaceOperatorClass(kind) => Ok(ReplaceOperator(identifier, kind))
      case RenameClass => Ok(Rename(identifier))
  }
}
