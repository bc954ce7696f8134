/**
 * PyCardumen: the genetic repair whose one operator replaces a statement
 * with an instance of a template. The templates are the program's own
 * statements. For a suggested statement, a template is drawn from those
 * of the statement's file, weighted by the share of the template's
 * variables the statement uses; the template is instantiated with every
 * tuple of the variables in scope at the statement, and one instance is
 * drawn with the probability the model gives its multiset of variables.
 */
module Cardumen {
  import opened Util
  import opened Operators
  import opened Candidates
  import opened Location
  import opened Selection
  import opened Repair
  import opened Templates

  // ---------------------------------------------------------------------
  // Paths

  /** The position just after the last `/` of a path, 0 when it has none. */
  function SplitPoint(p: string): (i: nat)
    ensures i <= |p|
    ensures i > 0 ==> p[i - 1] == '/'
    ensures forall j :: i <= j < |p| ==> p[j] != '/'
  {
    if p == [] then 0
    else if p[|p| - 1] == '/' then |p|
    else SplitPoint(p[..|p| - 1])
  }

  predicate AllSlashes(s: string)
  {
    forall j :: 0 <= j < |s| ==> s[j] == '/'
  }

  /** `head.rstrip('/')`: the longest prefix that does not end in `/`. */
  function StripSlashes(s: string): (r: string)
    ensures r <= s
    ensures r == [] || r[|r| - 1] != '/'
    ensures forall j :: |r| <= j < |s| ==> s[j] == '/'
  {
    if s != [] && s[|s| - 1] == '/' then StripSlashes(s[..|s| - 1]) else s
  }

  /**
   * `os.path.dirname` on POSIX paths: everything before the last `/`,
   * with the trailing slashes removed unless the head is all slashes.
   */
  function Dirname(p: string): (r: string)
    ensures r <= p
    ensures (forall j :: 0 <= j < |p| ==> p[j] != '/') ==> r == []
  {
    var head := p[..SplitPoint(p)];
    if head != [] && !AllSlashes(head) then StripSlashes(head) else head
  }

  /** The directory of `d + "/" + name` is `d`, for a directory not ending in `/`. */
  lemma DirnameOfJoin(d: string, name: string)
    requires d != [] && d[|d| - 1] != '/'
    requires forall j :: 0 <= j < |name| ==> name[j] != '/'
    ensures Dirname(d + "/" + name) == d
  {
    var p := d + "/" + name;
    var i := SplitPoint(p);
    assert p[|d|] == '/';
    assert i == |d| + 1;
    assert p[..i] == d + "/";
    assert p[..i][..|d|] == d;
    assert !AllSlashes(p[..i]) by {
      assert p[..i][|d| - 1] != '/';
    }
  }

  // ---------------------------------------------------------------------
  // The template pool

  /** Whether `filter_template_pool` keeps a template. */
  predicate Keeps(t: Template, location: string, file: string, statement: Ast, codeTypeMode: bool)
  {
    && (codeTypeMode ==> t.targetCodeType == TypeName(statement.kind))
    && (location == "local" ==> t.path == file)
    && (location == "folder" ==> Dirname(t.path) == Dirname(file))
  }

  function OfType(statement: Ast): Template -> bool
  {
    (t: Template) => t.targetCodeType == TypeName(statement.kind)
  }

  function InFile(file: string): Template -> bool
  {
    (t: Template) => t.path == file
  }

  function InFolder(file: string): Template -> bool
  {
    (t: Template) => Dirname(t.path) == Dirname(file)
  }

  /**
   * `filter_template_pool`: with `code_type_mode`, the templates of the
   * statement's node type; then, for "local", those of the statement's
   * file, for "folder", those of its directory, and for any other
   * location all of them.
   */
  function FilterTemplatePool(pool: seq<Template>, location: string, file: string, statement: Ast, codeTypeMode: bool)
    : seq<Template>
  {
    var typed := if codeTypeMode then Filter(pool, OfType(statement)) else pool;
    if location == "local" then Filter(typed, InFile(file))
    else if location == "folder" then Filter(typed, InFolder(file))
    else typed
  }

  /** The filtered pool keeps exactly the templates that pass, in the pool's order. */
  lemma FilterTemplatePoolMeaning(pool: seq<Template>, location: string, file: string, statement: Ast, codeTypeMode: bool)
    ensures var r := FilterTemplatePool(pool, location, file, statement, codeTypeMode);
      && (forall t :: t in r <==> t in pool && Keeps(t, location, file, statement, codeTypeMode))
      && IsSubsequence(r, pool)
  {
    var typed := if codeTypeMode then Filter(pool, OfType(statement)) else pool;
    if codeTypeMode {
      FilterIsSubsequence(pool, OfType(statement));
    } else {
      SubsequenceRefl(pool);
    }
    var r := FilterTemplatePool(pool, location, file, statement, codeTypeMode);
    if location == "local" {
      FilterIsSubsequence(typed, InFile(file));
      SubsequenceTrans(r, typed, pool);
    } else if location == "folder" {
      FilterIsSubsequence(typed, InFolder(file));
      SubsequenceTrans(r, typed, pool);
    }
  }

  /** The templates of the statement's file are among those of its directory, in the same order. */
  lemma LocalWithinFolder(pool: seq<Template>, file: string, statement: Ast, codeTypeMode: bool)
    ensures IsSubsequence(FilterTemplatePool(pool, "local", file, statement, codeTypeMode),
                          FilterTemplatePool(pool, "folder", file, statement, codeTypeMode))
  {
    var typed := if codeTypeMode then Filter(pool, OfType(statement)) else pool;
    FilterMonotone(typed, InFile(file), InFolder(file));
  }

  /**
   * The construction of the template pool: one template per statement,
   * in the statements' order, with the statement's file as its path.
   * Raises KeyError at the first statement without a file.
   */
  method TemplatePool(ids: seq<int>, statements: map<int, Ast>, files: map<int, string>) returns (r: Result<seq<Template>>)
    requires forall i :: 0 <= i < |ids| ==> ids[i] in statements
    ensures r.Err? <==> exists i :: 0 <= i < |ids| && ids[i] !in files
    ensures r.Err? ==> r.error == KeyError
    ensures r.Ok? ==> |r.value| == |ids| && forall i :: 0 <= i < |ids| ==>
      && r.value[i].statement == statements[ids[i]] && r.value[i].path == files[ids[i]]
      && WellFormed(r.value[i])
  {
    var pool: seq<Template> := [];
    for i := 0 to |ids|
      invariant |pool| == i && forall j :: 0 <= j < i ==>
        && ids[j] in statements && ids[j] in files
        && pool[j].statement == statements[ids[j]] && pool[j].path == files[ids[j]]
        && WellFormed(pool[j])
    {
      if ids[i] !in files {
        return Err(KeyError);
      }
      var template := NewTemplate(statements[ids[i]], files[ids[i]]);
      pool := AppendTemplate(pool, template, ids, i, statements, files);
    }
    return Ok(pool);
  }

  /** One more template built, for the statement at position `i`. */
  method AppendTemplate(pool: seq<Template>, template: Template, ids: seq<int>, i: nat,
                        statements: map<int, Ast>, files: map<int, string>) returns (r: seq<Template>)
    requires i < |ids| && ids[i] in statements && ids[i] in files
    requires template.statement == statements[ids[i]] && template.path == files[ids[i]] && WellFormed(template)
    requires |pool| == i && forall j :: 0 <= j < i ==>
      && ids[j] in statements && ids[j] in files
      && pool[j].statement == statements[ids[j]] && pool[j].path == files[ids[j]]
      && WellFormed(pool[j])
    ensures |r| == i + 1 && forall j :: 0 <= j < i + 1 ==>
      && ids[j] in statements && ids[j] in files
      && r[j].statement == statements[ids[j]] && r[j].path == files[ids[j]]
      && WellFormed(r[j])
  {
    r := pool + [template];
  }

  // ---------------------------------------------------------------------
  // Selecting a template

  lemma SubsetSize(a: set<string>, b: set<string>)
    requires a <= b
    ensures |a| <= |b| && (|a| == |b| ==> a == b)
  {
    assert b == a + (b - a);
    assert a * (b - a) == {};
    if |a| == |b| {
      assert |b - a| == 0;
    }
  }

  /**
   * The inner loop of `selecting_template`: every template variable the
   * statement's copy still holds is counted and removed from the copy.
   * The variables are visited in some order; the count is the number the
   * two share.
   */
  method CountShared(inTemplate: set<string>, inStatement: set<string>) returns (count: nat)
    ensures count == |inTemplate * inStatement|
  {
    var rest := inTemplate;
    var copy := inStatement;
    count := 0;
    while rest != {}
      invariant rest <= inTemplate
      invariant copy == inStatement - (inTemplate - rest)
      invariant count == |(inTemplate - rest) * inStatement|
      decreases |rest|
    {
      var x :| x in rest;
      ghost var seen := inTemplate - rest;
      assert inTemplate - (rest - {x}) == seen + {x};
      if x in copy {
        assert (seen + {x}) * inStatement == seen * inStatement + {x};
        count := count + 1;
        copy := copy - {x};
      } else {
        assert (seen + {x}) * inStatement == seen * inStatement;
      }
      rest := rest - {x};
    }
  }

  /** `count / len(var_in_template)`: the share of the template's variables the statement uses. */
  function Weight(inTemplate: set<string>, inStatement: set<string>): real
    requires inTemplate != {}
  {
    (|inTemplate * inStatement| as real) / (|inTemplate| as real)
  }

  /**
   * A weight lies in [0, 1]; it is 0 exactly when the two share no
   * variable, and 1 exactly when the statement uses all of the template's.
   */
  lemma WeightMeaning(inTemplate: set<string>, inStatement: set<string>)
    requires inTemplate != {}
    ensures 0.0 <= Weight(inTemplate, inStatement) <= 1.0
    ensures Weight(inTemplate, inStatement) == 0.0 <==> inTemplate * inStatement == {}
    ensures Weight(inTemplate, inStatement) == 1.0 <==> inTemplate <= inStatement
  {
    SubsetSize(inTemplate * inStatement, inTemplate);
    var a := |inTemplate * inStatement| as real;
    var b := |inTemplate| as real;
    assert (a / b) * b == a;
    if inTemplate <= inStatement {
      assert inTemplate * inStatement == inTemplate;
    }
    if a / b == 1.0 {
      assert inTemplate * inStatement == inTemplate;
    }
  }

  /** Every template of the pool has a variable. */
  predicate HasVariables(pool: seq<Template>)
  {
    forall i :: 0 <= i < |pool| ==> VarNames(pool[i].statement) != {}
  }

  function Weights(pool: seq<Template>, inStatement: set<string>): (r: seq<real>)
    requires HasVariables(pool)
    ensures |r| == |pool|
  {
    seq(|pool|, i requires 0 <= i < |pool| => Weight(VarNames(pool[i].statement), inStatement))
  }

  lemma WeightsStep(pool: seq<Template>, i: nat, inStatement: set<string>)
    requires i < |pool| && HasVariables(pool[..i]) && VarNames(pool[i].statement) != {}
    ensures HasVariables(pool[..i + 1])
    ensures Weights(pool[..i + 1], inStatement) == Weights(pool[..i], inStatement) + [Weight(VarNames(pool[i].statement), inStatement)]
  {
    assert forall j :: 0 <= j < i ==> pool[..i + 1][j] == pool[..i][j];
  }

  /**
   * The weights loop of `selecting_template`: ZeroDivisionError at the
   * first template without variables, otherwise one weight per template.
   */
  method TemplateWeights(pool: seq<Template>, statement: Ast) returns (r: Result<seq<real>>)
    ensures r.Err? <==> !HasVariables(pool)
    ensures r.Err? ==> r.error == ZeroDivisionError
    ensures r.Ok? ==> r.value == Weights(pool, VarNames(statement))
  {
    var inStatement := VarNames(statement);
    var weights: seq<real> := [];
    for i := 0 to |pool|
      invariant HasVariables(pool[..i])
      invariant weights == Weights(pool[..i], inStatement)
    {
      var inTemplate := VarNames(pool[i].statement);
      if inTemplate == {} {
        return Err(ZeroDivisionError);
      }
      var count := CountShared(inTemplate, inStatement);
      WeightsStep(pool, i, inStatement);
      weights := weights + [count as real / |inTemplate| as real];
    }
    assert pool[..|pool|] == pool;
    return Ok(weights);
  }

  /** Non-negative weights add up to at most 0 exactly when every one is 0. */
  lemma {:induction false} SumZero(ws: seq<real>)
    requires NonNegative(ws)
    ensures Sum(ws) >= 0.0
    ensures Sum(ws) <= 0.0 <==> forall i :: 0 <= i < |ws| ==> ws[i] == 0.0
  {
    if ws != [] {
      assert forall i :: 1 <= i < |ws| ==> ws[i] == ws[1..][i - 1];
      SumZero(ws[1..]);
    }
  }

  /** No template of the pool shares a variable with the statement. */
  predicate Unrelated(pool: seq<Template>, statement: Ast)
  {
    forall i :: 0 <= i < |pool| ==> VarNames(pool[i].statement) * VarNames(statement) == {}
  }

  /**
   * `selecting_template`: ZeroDivisionError when a template has no
   * variables, IndexError on an empty pool, ValueError when no template
   * shares a variable with the statement; otherwise a template of the pool
   * that shares one.
   */
  method SelectingTemplate(pool: seq<Template>, statement: Ast, u: real) returns (r: Result<Template>)
    requires 0.0 <= u < 1.0
    ensures !HasVariables(pool) ==> r == Err(ZeroDivisionError)
    ensures HasVariables(pool) && pool == [] ==> r == Err(IndexError)
    ensures HasVariables(pool) && pool != [] && Unrelated(pool, statement) ==> r == Err(ValueError)
    ensures HasVariables(pool) && !Unrelated(pool, statement) ==> r.Ok?
    ensures r.Ok? ==> r.value in pool && VarNames(r.value.statement) * VarNames(statement) != {}
    ensures r.Err? ==> r.error in {ZeroDivisionError, IndexError, ValueError}
  {
    var weights :- TemplateWeights(pool, statement);
    if pool == [] {
      return Err(IndexError);
    }
    var inStatement := VarNames(statement);
    forall i | 0 <= i < |weights|
      ensures weights[i] >= 0.0 && (weights[i] == 0.0 <==> VarNames(pool[i].statement) * inStatement == {})
    {
      WeightMeaning(VarNames(pool[i].statement), inStatement);
    }
    SumZero(weights);
    if Sum(weights) <= 0.0 {
      return Err(ValueError);
    }
    var i := PickWeighted(weights, u);
    return Ok(pool[i]);
  }

  // ---------------------------------------------------------------------
  // Instantiating a template

  /** Every position names one of the scopes. */
  predicate InRange(scopeStmt: map<int, seq<nat>>, scopes: seq<set<string>>)
  {
    forall n :: n in scopeStmt ==> forall q :: 0 <= q < |scopeStmt[n]| ==> scopeStmt[n][q] < |scopes|
  }

  /** The names the scopes at the given positions hold. */
  function ScopeVars(positions: seq<nat>, scopes: seq<set<string>>): (r: set<string>)
    requires forall q :: 0 <= q < |positions| ==> positions[q] < |scopes|
    ensures forall x :: x in r <==> exists q :: 0 <= q < |positions| && x in scopes[positions[q]]
  {
    if positions == [] then {}
    else
      var n := |positions| - 1;
      var r := ScopeVars(positions[..n], scopes) + scopes[positions[n]];
      assert forall q :: 0 <= q < n ==> positions[..n][q] == positions[q];
      r
  }

  /** A tuple of `n` variables drawn from `vars`. */
  predicate Tuple(c: seq<string>, n: nat, vars: set<string>)
  {
    |c| == n && forall j :: 0 <= j < |c| ==> c[j] in vars
  }

  /**
   * The instances of a template over `vars`: one for each tuple of
   * `count_placeholder` variables drawn from `vars`, each tuple once.
   */
  ghost predicate InstancesOver(instances: seq<TemplateInstance>, template: Template, vars: set<string>)
    requires WellFormed(template)
  {
    && |instances| == Power(|vars|, template.countPlaceholder)
    && (forall k :: 0 <= k < |instances| ==>
          && Tuple(instances[k].combination, template.countPlaceholder, vars)
          && instances[k] == Instance(template, instances[k].combination))
    && (forall c :: Tuple(c, template.countPlaceholder, vars) ==>
          exists k :: 0 <= k < |instances| && instances[k].combination == c)
    && (forall k, l :: 0 <= k < l < |instances| ==> instances[k].combination != instances[l].combination)
  }

  /** An instance drawn from the instances over `vars` fills the template with a tuple over `vars`. */
  lemma InstanceOfList(instances: seq<TemplateInstance>, template: Template, vars: set<string>, instance: TemplateInstance)
    requires WellFormed(template) && InstancesOver(instances, template, vars) && instance in instances
    ensures Tuple(instance.combination, template.countPlaceholder, vars)
    ensures instance == Instance(template, instance.combination) && instance.template == template
  {
    var k :| 0 <= k < |instances| && instances[k] == instance;
  }

  /** The instances built from the product over an enumeration of `vars` are the instances over `vars`. */
  lemma ProductInstances(template: Template, order: seq<string>, vars: set<string>, instances: seq<TemplateInstance>)
    requires WellFormed(template) && NoDup(order) && |order| == |vars|
    requires forall x :: x in order <==> x in vars
    requires |instances| == |Product(order, template.countPlaceholder)| == Power(|order|, template.countPlaceholder)
    requires forall k :: 0 <= k < |instances| ==>
      |Product(order, template.countPlaceholder)[k]| == template.countPlaceholder
      && instances[k] == Instance(template, Product(order, template.countPlaceholder)[k])
    ensures InstancesOver(instances, template, vars)
  {
    var n := template.countPlaceholder;
    var tuples := Product(order, n);
    forall k | 0 <= k < |instances|
      ensures instances[k].combination == tuples[k]
      ensures Tuple(instances[k].combination, n, vars)
    {
      InstanceMeaning(template, tuples[k]);
      ProductMembers(order, n, tuples[k]);
    }
    forall c | Tuple(c, n, vars)
      ensures exists k :: 0 <= k < |instances| && instances[k].combination == c
    {
      ProductMembers(order, n, c);
      var k :| 0 <= k < |tuples| && tuples[k] == c;
    }
    ProductDistinct(order, n);
  }

  /**
   * `instance_template`: KeyError when the statement has no scopes;
   * otherwise the instances of the template over the names of all the
   * statement's scopes.
   */
  method InstanceTemplate(template: Template, statement: Ast, scopeStmt: map<int, seq<nat>>, scopes: seq<set<string>>)
    returns (r: Result<seq<TemplateInstance>>)
    requires WellFormed(template) && InRange(scopeStmt, scopes)
    ensures r.Err? <==> statement.node !in scopeStmt
    ensures r.Err? ==> r.error == KeyError
    ensures r.Ok? ==> InstancesOver(r.value, template, ScopeVars(scopeStmt[statement.node], scopes))
  {
    if statement.node !in scopeStmt {
      return Err(KeyError);
    }
    var positions := scopeStmt[statement.node];
    var varsInScope: set<string> := {};
    for i := 0 to |positions|
      invariant varsInScope == ScopeVars(positions[..i], scopes)
    {
      assert positions[..i + 1][..i] == positions[..i];
      varsInScope := varsInScope + scopes[positions[i]];
    }
    assert positions[..|positions|] == positions;
    var order := Enumerate(varsInScope);
    var instances := ConstructAllCombinations(template, order);
    ProductInstances(template, order, varsInScope, instances);
    return Ok(instances);
  }

  // ---------------------------------------------------------------------
  // Selecting an instance

  /** The model has a probability for the items of every instance's tuple. */
  predicate Known(probabilities: map<multiset<string>, real>, instances: seq<TemplateInstance>)
  {
    forall k :: 0 <= k < |instances| ==> Items(instances[k].combination) in probabilities
  }

  function InstanceWeights(probabilities: map<multiset<string>, real>, instances: seq<TemplateInstance>): (r: seq<real>)
    requires Known(probabilities, instances)
    ensures |r| == |instances|
  {
    seq(|instances|, k requires 0 <= k < |instances| => probabilities[Items(instances[k].combination)])
  }

  /**
   * The loop of `selecting_template_instance`: each instance's probability
   * is looked up; KeyError at the first tuple whose items the model does
   * not know.
   */
  method LookUpProbabilities(probabilities: map<multiset<string>, real>, instances: seq<TemplateInstance>)
    returns (r: Result<seq<real>>)
    ensures r.Err? <==> !Known(probabilities, instances)
    ensures r.Err? ==> r.error == KeyError
    ensures r.Ok? ==> r.value == InstanceWeights(probabilities, instances)
  {
    var weights: seq<real> := [];
    for k := 0 to |instances|
      invariant Known(probabilities, instances[..k])
      invariant weights == InstanceWeights(probabilities, instances[..k])
    {
      var items := Items(instances[k].combination);
      if items !in probabilities {
        return Err(KeyError);
      }
      weights := weights + [probabilities[items]];
      assert instances[..k + 1][..k] == instances[..k];
    }
    assert instances[..|instances|] == instances;
    return Ok(weights);
  }

  /**
   * `selecting_template_instance`: KeyError when the model has no
   * probability for some instance, IndexError when there is no instance,
   * ValueError when every probability is 0; otherwise an instance whose
   * variables some statement of the program uses exactly.
   */
  method SelectingTemplateInstance(model: ProbabilisticModel, instances: seq<TemplateInstance>, u: real)
    returns (r: Result<TemplateInstance>)
    requires model.Valid() && 0.0 <= u < 1.0
    ensures !Known(model.probabilities, instances) ==> r == Err(KeyError)
    ensures Known(model.probabilities, instances) && instances == [] ==> r == Err(IndexError)
    ensures Known(model.probabilities, instances) && instances != []
            && (forall k :: 0 <= k < |instances| ==> model.probabilities[Items(instances[k].combination)] == 0.0)
            ==> r == Err(ValueError)
    ensures r.Ok? ==> r.value in instances && Items(r.value.combination) in model.probabilities
                      && model.probabilities[Items(r.value.combination)] > 0.0
    ensures r.Ok? ==> exists j :: 0 <= j < |model.statements| && Items(r.value.combination) == multiset(VarNames(model.statements[j]))
    ensures r.Err? ==> r.error in {KeyError, IndexError, ValueError}
  {
    var weights :- LookUpProbabilities(model.probabilities, instances);
    if instances == [] {
      return Err(IndexError);
    }
    forall k | 0 <= k < |weights| ensures weights[k] >= 0.0 {
      ProbabilityMeaning(model.statements, Items(instances[k].combination));
    }
    SumZero(weights);
    if Sum(weights) <= 0.0 {
      return Err(ValueError);
    }
    var k := PickWeighted(weights, u);
    ProbabilityMeaning(model.statements, Items(instances[k].combination));
    return Ok(instances[k]);
  }

  // ---------------------------------------------------------------------
  // The scopes of the program

  /** The scopes one constructor holds after searching each tree in turn. */
  function SearchedScopes(trees: seq<Ast>): seq<set<string>>
  {
    if trees == [] then []
    else
      var t := trees[|trees| - 1];
      SearchedScopes(trees[..|trees| - 1]) + [DirectAll(t.children)] + OpenedAll(t.children)
  }

  /** The scope lists it records for the statements. */
  function SearchedRecord(trees: seq<Ast>): map<int, seq<nat>>
  {
    if trees == [] then map[]
    else
      var init := trees[..|trees| - 1];
      Helper(SearchedRecord(init), trees[|trees| - 1], [], |SearchedScopes(init)|)
  }

  /** Every statement of the searched trees has a scope list, and nothing else has. */
  lemma {:induction false} SearchedKeys(trees: seq<Ast>)
    ensures SearchedRecord(trees).Keys == StmtNodesAll(trees)
  {
    if trees != [] {
      var init := trees[..|trees| - 1];
      SearchedKeys(init);
      RecordKeys(SearchedRecord(init), trees[|trees| - 1], [], |SearchedScopes(init)|);
    }
  }

  /**
   * Every recorded scope list names scopes that exist; a statement of the
   * last tree lists that tree's own scope first.
   */
  lemma {:induction false} SearchedInRange(trees: seq<Ast>)
    ensures InRange(SearchedRecord(trees), SearchedScopes(trees))
  {
    if trees != [] {
      var init := trees[..|trees| - 1];
      var t := trees[|trees| - 1];
      var m := SearchedRecord(init);
      var next := |SearchedScopes(init)|;
      var r := SearchedRecord(trees);
      var hi := |SearchedScopes(trees)|;
      SearchedInRange(init);
      RecordExtends(m, t, [], next);
      assert hi == next + 1 + |OpenedAll(t.children)|;
      forall n | n in r ensures forall q :: 0 <= q < |r[n]| ==> r[n][q] < hi {
        if !(n in m && r[n] == m[n]) {
          assert [next] <= r[n];
          assert r[n][0] == next;
        }
      }
    }
  }

  /** The scopes hold exactly the names used below the roots of the trees. */
  lemma {:induction false} SearchedNames(trees: seq<Ast>)
    ensures forall x :: x in Union(SearchedScopes(trees)) <==> exists i :: 0 <= i < |trees| && x in VarNamesAll(trees[i].children)
  {
    if trees != [] {
      var init := trees[..|trees| - 1];
      var t := trees[|trees| - 1];
      SearchedNames(init);
      ScopesHoldVarNamesAll(t.children);
      AppendAssociative(SearchedScopes(init), [DirectAll(t.children)], OpenedAll(t.children));
      UnionConcat(SearchedScopes(init), [DirectAll(t.children)] + OpenedAll(t.children));
      UnionConcat([DirectAll(t.children)], OpenedAll(t.children));
      assert [DirectAll(t.children)][..0] == [];
      forall x ensures x in Union(SearchedScopes(trees)) <==> exists i :: 0 <= i < |trees| && x in VarNamesAll(trees[i].children) {
        if exists i :: 0 <= i < |trees| && x in VarNamesAll(trees[i].children) {
          var i :| 0 <= i < |trees| && x in VarNamesAll(trees[i].children);
          if i < |init| {
            assert init[i] == trees[i];
          }
        }
        if exists i :: 0 <= i < |init| && x in VarNamesAll(init[i].children) {
          var i :| 0 <= i < |init| && x in VarNamesAll(init[i].children);
          assert init[i] == trees[i];
        }
      }
    }
  }

  /**
   * The constructor of `mutate`: a fresh `Scope_Constructor` that
   * searches every tree of the program in turn.
   */
  method SearchTrees(trees: seq<Ast>) returns (sc: ScopeConstructor)
    ensures fresh(sc) && sc.Valid() && sc.scopeStack == []
    ensures sc.scopes == SearchedScopes(trees) && sc.scopeStmt == SearchedRecord(trees)
  {
    sc := new ScopeConstructor();
    for i := 0 to |trees|
      invariant sc.Valid() && sc.scopeStack == []
      invariant sc.scopes == SearchedScopes(trees[..i]) && sc.scopeStmt == SearchedRecord(trees[..i])
    {
      assert trees[..i + 1][..i] == trees[..i];
      sc.Search(trees[i]);
    }
    assert trees[..|trees|] == trees;
  }

  // ---------------------------------------------------------------------
  // The repair

  /** One suggestion's draws: two for `should_mutate`, one for each weighted choice. */
  datatype CardumenDraw = CardumenDraw(weightDraw: real, rateDraw: real, template: real, instance: real)

  predicate ValidCardumenDraws(draws: seq<CardumenDraw>, n: nat)
  {
    && |draws| >= n
    && forall i :: 0 <= i < n ==> 0.0 <= draws[i].template < 1.0 && 0.0 <= draws[i].instance < 1.0
  }

  /** The identifiers of the suggestions whose draws pass `should_mutate`, in suggestion order. */
  function Picked(suggestions: seq<WeightedIdentifier>, draws: seq<CardumenDraw>, wMut: real): seq<int>
    requires |draws| >= |suggestions|
  {
    if suggestions == [] then []
    else
      var n := |suggestions| - 1;
      Picked(suggestions[..n], draws, wMut)
      + (if ShouldMutateOn(suggestions[n].weight, wMut, draws[n].weightDraw, draws[n].rateDraw)
         then [suggestions[n].identifier] else [])
  }

  lemma PickedStep(suggestions: seq<WeightedIdentifier>, draws: seq<CardumenDraw>, wMut: real, i: nat)
    requires i < |suggestions| <= |draws|
    ensures Picked(suggestions[..i + 1], draws, wMut)
         == Picked(suggestions[..i], draws, wMut)
            + (if ShouldMutateOn(suggestions[i].weight, wMut, draws[i].weightDraw, draws[i].rateDraw)
               then [suggestions[i].identifier] else [])
  {
    assert suggestions[..i + 1][..i] == suggestions[..i];
  }

  /** The picked identifiers are those of exactly the suggestions whose draws pass. */
  lemma {:induction false} PickedMeaning(suggestions: seq<WeightedIdentifier>, draws: seq<CardumenDraw>, wMut: real)
    requires |draws| >= |suggestions|
    ensures |Picked(suggestions, draws, wMut)| <= |suggestions|
    ensures forall id :: id in Picked(suggestions, draws, wMut) <==>
      exists i :: 0 <= i < |suggestions| && suggestions[i].identifier == id
                  && ShouldMutateOn(suggestions[i].weight, wMut, draws[i].weightDraw, draws[i].rateDraw)
  {
    if suggestions != [] {
      var n := |suggestions| - 1;
      var init := suggestions[..n];
      PickedMeaning(init, draws, wMut);
      forall id ensures id in Picked(suggestions, draws, wMut) <==>
        exists i :: 0 <= i < |suggestions| && suggestions[i].identifier == id
                    && ShouldMutateOn(suggestions[i].weight, wMut, draws[i].weightDraw, draws[i].rateDraw)
      {
        if exists i :: 0 <= i < |suggestions| && suggestions[i].identifier == id
                       && ShouldMutateOn(suggestions[i].weight, wMut, draws[i].weightDraw, draws[i].rateDraw) {
          var i :| 0 <= i < |suggestions| && suggestions[i].identifier == id
                   && ShouldMutateOn(suggestions[i].weight, wMut, draws[i].weightDraw, draws[i].rateDraw);
          if i < n {
            assert init[i] == suggestions[i];
          }
        }
        if exists i :: 0 <= i < n && init[i].identifier == id
                       && ShouldMutateOn(init[i].weight, wMut, draws[i].weightDraw, draws[i].rateDraw) {
          var i :| 0 <= i < n && init[i].identifier == id
                   && ShouldMutateOn(init[i].weight, wMut, draws[i].weightDraw, draws[i].rateDraw);
          assert init[i] == suggestions[i];
        }
      }
    }
  }

  class PyCardumen {
    const repair: GeneticRepair
    /** The candidate's statements by identifier, as syntax trees. */
    const statements: map<int, Ast>
    /** `statement_finder.files`: the file of each statement. */
    const files: map<int, string>
    /** The trees of the program's files. */
    const trees: seq<Ast>
    const templatePool: seq<Template>
    const scopeStmt: map<int, seq<nat>>
    const model: ProbabilisticModel

    ghost predicate Valid()
      reads this, model
    {
      && model.Valid()
      && forall i :: 0 <= i < |templatePool| ==> WellFormed(templatePool[i])
    }

    /**
     * The set-up of the repair: a template per statement, in the
     * statements' order, the scopes of the program's trees, and the model
     * over the statements.
     */
    constructor(repair: GeneticRepair, statements: map<int, Ast>, ids: seq<int>, files: map<int, string>, trees: seq<Ast>)
      requires NoDup(ids) && forall i :: 0 <= i < |ids| ==> ids[i] in statements
      requires forall i :: 0 <= i < |ids| ==> ids[i] in files
      ensures this.repair == repair && this.statements == statements && this.files == files && this.trees == trees
      ensures |templatePool| == |ids| && forall i :: 0 <= i < |ids| ==>
        templatePool[i].statement == statements[ids[i]] && templatePool[i].path == files[ids[i]]
      ensures scopeStmt == SearchedRecord(trees)
      ensures fresh(model) && model.statements == seq(|ids|, i requires 0 <= i < |ids| => statements[ids[i]])
      ensures forall k :: k in model.probabilities <==> DrawnBy(model.statements, |model.statements|, k)
      ensures Valid()
    {
      this.repair := repair;
      this.statements := statements;
      this.files := files;
      this.trees := trees;
      var pool := TemplatePool(ids, statements, files);
      templatePool := pool.value;
      var sc := SearchTrees(trees);
      scopeStmt := sc.scopeStmt;
      model := new ProbabilisticModel(seq(|ids|, i requires 0 <= i < |ids| => statements[ids[i]]));
    }

    /**
     * An instance `mutate` may put at the statement: of a template from
     * the statement's file that shares a variable with it, over a tuple of
     * the names in scope at the statement, whose items the model gives a
     * positive probability.
     */
    ghost predicate Admissible(instance: TemplateInstance, identifier: int)
      reads this, model
    {
      && identifier in statements && identifier in files
      && var statement := statements[identifier];
      && instance.template in FilterTemplatePool(templatePool, "local", files[identifier], statement, false)
      && VarNames(instance.template.statement) * VarNames(statement) != {}
      && WellFormed(instance.template)
      && statement.node in SearchedRecord(trees)
      && InRange(SearchedRecord(trees), SearchedScopes(trees))
      && Tuple(instance.combination, instance.template.countPlaceholder,
               ScopeVars(SearchedRecord(trees)[statement.node], SearchedScopes(trees)))
      && instance == Instance(instance.template, instance.combination)
      && Items(instance.combination) in model.probabilities
      && model.probabilities[Items(instance.combination)] > 0.0
    }

    /**
     * The body of `mutate`'s loop for a suggestion that passed: the scopes
     * of the program, the statement and its file, a template of that file,
     * its instances in scope, and one instance. KeyError when the
     * statement or its file is unknown; the selections raise as they do.
     */
    method MutateAt(identifier: int, d: CardumenDraw) returns (r: Result<Op>)
      requires Valid() && 0.0 <= d.template < 1.0 && 0.0 <= d.instance < 1.0
      ensures identifier !in statements || identifier !in files ==> r == Err(KeyError)
      ensures r.Err? ==> r.error in {KeyError, ZeroDivisionError, IndexError, ValueError}
      ensures r.Ok? ==> r.value.ReplaceCardumen? && r.value.identifier == identifier && Admissible(r.value.instance, identifier)
    {
      var sc := SearchTrees(trees);
      if identifier !in statements {
        return Err(KeyError);
      }
      var statement := statements[identifier];
      if identifier !in files {
        return Err(KeyError);
      }
      var template :- LocalTemplate(identifier, d.template);
      var scopeStmt, scopes := sc.scopeStmt, sc.scopes;
      var instances :- InstanceTemplate(template, statement, scopeStmt, scopes);
      var instance :- SelectingTemplateInstance(model, instances, d.instance);
      InstanceOfList(instances, template, ScopeVars(scopeStmt[statement.node], scopes), instance);
      return Ok(ReplaceCardumen(identifier, instance));
    }

    /** A template of the statement's own file, chosen by `selecting_template`. */
    method LocalTemplate(identifier: int, u: real) returns (r: Result<Template>)
      requires Valid() && identifier in statements && identifier in files && 0.0 <= u < 1.0
      ensures r.Err? ==> r.error in {ZeroDivisionError, IndexError, ValueError}
      ensures r.Ok? ==>
        && r.value in FilterTemplatePool(templatePool, "local", files[identifier], statements[identifier], false)
        && VarNames(r.value.statement) * VarNames(statements[identifier]) != {}
        && WellFormed(r.value)
    {
      var statement := statements[identifier];
      var pool := FilterTemplatePool(templatePool, "local", files[identifier], statement, false);
      FilterTemplatePoolMeaning(templatePool, "local", files[identifier], statement, false);
      r := SelectingTemplate(pool, statement, u);
    }

    /** Each operator replaces the statement picked at its position with an admissible instance. */
    ghost predicate AdmissibleOps(ops: seq<Op>, picked: seq<int>)
      reads this, model
    {
      && |ops| == |picked|
      && forall j :: 0 <= j < |ops| ==>
           ops[j].ReplaceCardumen? && ops[j].identifier == picked[j] && Admissible(ops[j].instance, picked[j])
    }

    lemma AdmissibleOpsAppend(ops: seq<Op>, picked: seq<int>, op: Op)
      requires AdmissibleOps(ops, picked)
      requires op.ReplaceCardumen? && Admissible(op.instance, op.identifier)
      ensures AdmissibleOps(ops + [op], picked + [op.identifier])
    {
      var ops', picked' := ops + [op], picked + [op.identifier];
      forall j | 0 <= j < |ops'|
        ensures ops'[j].ReplaceCardumen? && ops'[j].identifier == picked'[j] && Admissible(ops'[j].instance, picked'[j])
      {
        if j < |ops| {
          assert ops'[j] == ops[j] && picked'[j] == picked[j];
        }
      }
    }

    /**
     * `mutate`: a clone one generation on, with a `ReplaceCardumen` for
     * every suggestion whose draw passes `should_mutate`, in suggestion
     * order; the first raise ends it.
     */
    method Mutate(selection: GeneticCandidate, draws: seq<CardumenDraw>) returns (r: Result<seq<GeneticCandidate>>)
      requires Valid() && ValidCardumenDraws(draws, |repair.suggestions|)
      ensures r.Ok? ==> |r.value| == 1
      ensures r.Ok? ==> var child := r.value[0];
        && |child.mutations| >= |selection.mutations|
        && child == Offspring(selection, child.mutations, true)
        && child.mutations[..|selection.mutations|] == selection.mutations
        && AdmissibleOps(child.mutations[|selection.mutations|..], Picked(repair.suggestions, draws, repair.wMut))
      ensures Picked(repair.suggestions, draws, repair.wMut) == [] ==> r == Ok([Clone(selection, true)])
      ensures r.Err? ==> r.error in {KeyError, ZeroDivisionError, IndexError, ValueError}
    {
      var suggestions := repair.suggestions;
      var candidate := Clone(selection, true);
      ghost var picked: seq<int> := [];
      ghost var ops: seq<Op> := [];
      assert selection.mutations + ops == selection.mutations;
      for i := 0 to |suggestions|
        invariant picked == Picked(suggestions[..i], draws, repair.wMut)
        invariant candidate == Offspring(selection, selection.mutations + ops, true)
        invariant AdmissibleOps(ops, picked)
      {
        var location := suggestions[i];
        PickedStep(suggestions, draws, repair.wMut, i);
        if ShouldMutateOn(location.weight, repair.wMut, draws[i].weightDraw, draws[i].rateDraw) {
          var op := MutateAt(location.identifier, draws[i]);
          if op.Err? {
            PickedMeaning(suggestions, draws, repair.wMut);
            assert location.identifier in Picked(suggestions, draws, repair.wMut);
            return Err(op.error);
          }
          AppendAssociative(selection.mutations, ops, [op.value]);
          AdmissibleOpsAppend(ops, picked, op.value);
          candidate := candidate.(mutations := candidate.mutations + [op.value]);
          ops := ops + [op.value];
          picked := picked + [location.identifier];
        }
      }
      assert suggestions[..|suggestions|] == suggestions;
      assert candidate.mutations[|selection.mutations|..] == ops;
      assert candidate.mutations[..|selection.mutations|] == selection.mutations;
      return Ok([candidate]);
    }
  }
}
