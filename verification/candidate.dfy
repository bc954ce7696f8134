/**
 * Repair candidates: a source tree with its statement index, and the
 * genetic candidate that adds an operator list, a generation number and a
 * fitness.
 *
 * Candidates are values here. `clone` hands the same mutation list to the
 * copy; this model copies the list instead (see the repair module for
 * what the shared list does).
 */
module Candidates {
  import opened Util
  import opened Operators

  /** `lines[file][lineno]`: the statement ids registered at a line. */
  type Lines = map<string, map<int, seq<int>>>

  /** The `trees` argument: absent (or empty), a dictionary, or an iterable of paths. */
  datatype TreesArg = NoTrees | TreeMap(trees: map<string, Option<Node>>) | Paths(paths: seq<string>)

  datatype Candidate = Candidate(
    src: string,
    statements: map<int, Node>,
    trees: map<string, Option<Node>>,
    files: map<int, string>,
    lines: Lines)

  datatype GeneticCandidate = GeneticCandidate(
    src: string,
    statements: map<int, Node>,
    trees: map<string, Option<Node>>,
    files: map<int, string>,
    lines: Lines,
    mutations: seq<Op>,
    gen: int,
    fitness: real)

  /** `if trees: ... else: dict()`: a path iterable maps every path to None. */
  function TreesOf(arg: TreesArg): (r: map<string, Option<Node>>)
    ensures arg.Paths? ==> r.Keys == set p | p in arg.paths
    ensures arg.Paths? ==> forall p :: p in r ==> r[p] == None
    ensures arg.TreeMap? ==> r == arg.trees
    ensures arg.NoTrees? ==> r == map[]
  {
    match arg
    case NoTrees => map[]
    case TreeMap(trees) => trees
    case Paths(paths) => map p | p in paths :: None
  }

  /** `Candidate(src, statements, trees, files, lines)`; an absent dictionary is an empty one. */
  function NewCandidate(src: string, statements: map<int, Node>, trees: TreesArg, files: map<int, string>, lines: Lines): (c: Candidate)
    ensures c.src == src && c.statements == statements && c.files == files && c.lines == lines
    ensures c.trees == TreesOf(trees)
  {
    Candidate(src, statements, TreesOf(trees), files, lines)
  }

  /** `GeneticCandidate.from_candidate`: no operators, generation 0, fitness 0.0. */
  function FromCandidate(c: Candidate): (g: GeneticCandidate)
    ensures g.mutations == [] && g.gen == 0 && g.fitness == 0.0
    ensures g.src == c.src && g.statements == c.statements && g.trees == c.trees
    ensures g.files == c.files && g.lines == c.lines
  {
    GeneticCandidate(c.src, c.statements, c.trees, c.files, c.lines, [], 0, 0.0)
  }

  /** `clone(change_gen)`: everything is kept; the generation grows by one unless `change_gen` is False. */
  function Clone(c: GeneticCandidate, changeGen: bool): (d: GeneticCandidate)
    ensures d.gen == (if changeGen then c.gen + 1 else c.gen)
    ensures d == c.(gen := d.gen)
  {
    c.(gen := if changeGen then c.gen + 1 else c.gen)
  }

  /** `offspring(mutations, change_gen)`: a clone carrying the given operator list. */
  function Offspring(c: GeneticCandidate, mutations: seq<Op>, changeGen: bool): (d: GeneticCandidate)
    ensures d.mutations == mutations
    ensures d.gen == (if changeGen then c.gen + 1 else c.gen)
    ensures d == c.(mutations := mutations, gen := d.gen)
  {
    Clone(c, changeGen).(mutations := mutations)
  }

  /** `candidate[i]` for an integer index, with Python's negative indexing. */
  function GetItem(c: GeneticCandidate, i: int): (r: Result<Op>)
    ensures r.Ok? <==> -|c.mutations| <= i < |c.mutations|
    ensures 0 <= i < |c.mutations| ==> r == Ok(c.mutations[i])
    ensures -|c.mutations| <= i < 0 ==> r == Ok(c.mutations[|c.mutations| + i])
  {
    if 0 <= i < |c.mutations| then Ok(c.mutations[i])
    else if -|c.mutations| <= i < 0 then Ok(c.mutations[|c.mutations| + i])
    else Err(IndexError)
  }

  /** `Candidate.__eq__`: the source paths agree. */
  predicate CandidateEq(a: Candidate, b: Candidate)
  {
    a.src == b.src
  }

  /** `GeneticCandidate.__eq__`: same source path and equal operator lists. */
  predicate GeneticEq(a: GeneticCandidate, b: GeneticCandidate)
  {
    a.src == b.src && a.mutations == b.mutations
  }

  /** What `hash(tuple(self.mutations))` is computed from. */
  function HashKeys(c: GeneticCandidate): (r: seq<(string, int)>)
    ensures |r| == |c.mutations|
    ensures forall i :: 0 <= i < |r| ==> r[i] == HashKey(c.mutations[i])
  {
    seq(|c.mutations|, i requires 0 <= i < |c.mutations| => HashKey(c.mutations[i]))
  }

  /** Equal genetic candidates hash equally; fitness and generation play no part. */
  lemma GeneticEqHash(a: GeneticCandidate, b: GeneticCandidate)
    requires GeneticEq(a, b)
    ensures HashKeys(a) == HashKeys(b)
  {
  }

  /**
   * A clone equals (and hashes like) its original; an offspring with the
   * parent's own list and `change_gen=False` is the parent itself.
   */
  lemma CloneIsEqual(c: GeneticCandidate, changeGen: bool)
    ensures GeneticEq(Clone(c, changeGen), c)
    ensures HashKeys(Clone(c, changeGen)) == HashKeys(c)
    ensures Offspring(c, c.mutations, false) == c
  {
  }

  /** GeneticEq is an equivalence relation, as `set(...)` deduplication needs. */
  lemma GeneticEqEquivalence(a: GeneticCandidate, b: GeneticCandidate, c: GeneticCandidate)
    ensures GeneticEq(a, a)
    ensures GeneticEq(a, b) ==> GeneticEq(b, a)
    ensures GeneticEq(a, b) && GeneticEq(b, c) ==> GeneticEq(a, c)
  {
  }
}
