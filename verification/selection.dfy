/**
 * Selection of a smaller population: uniformly at random, by fitness
 * ("universal"), or by repeated tournaments.
 *
 * The random draws are the caller's: `random.sample` and the weighted
 * sampling without replacement become lists of positions, and each
 * tournament's pick becomes a number in [0, 1) that selects a position
 * uniformly or through the cumulative fitness, as inverse-transform
 * sampling does.
 */
module Selection {
  import opened Util
  import opened Operators
  import opened Candidates

  /**
   * The tolerance below which a total fitness counts as zero. The
   * constants module the code imports it from does not define it; the
   * model takes a small positive value, and nothing proved depends on
   * which.
   */
  const EPSILON: real := 0.0000000001

  function Sum(ws: seq<real>): real
  {
    if ws == [] then 0.0 else ws[0] + Sum(ws[1..])
  }

  function Fitnesses(cs: seq<GeneticCandidate>): (r: seq<real>)
    ensures |r| == |cs|
    ensures forall i :: 0 <= i < |r| ==> r[i] == cs[i].fitness
  {
    seq(|cs|, i requires 0 <= i < |cs| => cs[i].fitness)
  }

  /** A draw of `random.sample(range(n), k)`: `k` distinct positions below `n`. */
  predicate ValidSample(picks: seq<nat>, n: nat, k: nat)
  {
    |picks| == k && NoDup(picks) && forall i :: 0 <= i < |picks| ==> picks[i] < n
  }

  /** The elements at the drawn positions, in draw order. */
  function Pick<T>(s: seq<T>, picks: seq<nat>): (r: seq<T>)
    requires forall i :: 0 <= i < |picks| ==> picks[i] < |s|
    ensures |r| == |picks|
    ensures forall i :: 0 <= i < |r| ==> r[i] == s[picks[i]]
  {
    seq(|picks|, i requires 0 <= i < |picks| => s[picks[i]])
  }

  lemma PickConcat<T>(s: seq<T>, a: seq<nat>, b: seq<nat>)
    requires forall i :: 0 <= i < |a| ==> a[i] < |s|
    requires forall i :: 0 <= i < |b| ==> b[i] < |s|
    ensures Pick(s, a + b) == Pick(s, a) + Pick(s, b)
  {
  }

  lemma PickPrefix<T>(s: seq<T>, m: nat, picks: seq<nat>)
    requires m <= |s|
    requires forall i :: 0 <= i < |picks| ==> picks[i] < m
    ensures Pick(s, picks) == Pick(s[..m], picks)
  {
  }

  /** Dropping the draw at position `q` keeps the others distinct and below the last position. */
  lemma DropDraw(picks: seq<nat>, q: nat, m: nat)
    requires NoDup(picks) && q < |picks| && picks[q] == m
    requires forall i :: 0 <= i < |picks| ==> picks[i] <= m
    ensures var rest := picks[..q] + picks[q + 1..];
            && NoDup(rest)
            && forall i :: 0 <= i < |rest| ==> rest[i] < m
  {
    var rest := picks[..q] + picks[q + 1..];
    forall i | 0 <= i < |rest|
      ensures rest[i] < m
    {
      var i' := if i < q then i else i + 1;
      assert rest[i] == picks[i'] && i' != q;
    }
    forall i, j | 0 <= i < j < |rest|
      ensures rest[i] != rest[j]
    {
      var i', j' := if i < q then i else i + 1, if j < q then j else j + 1;
      assert rest[i] == picks[i'] && rest[j] == picks[j'];
    }
  }

  /** The draw of the last position, split out of the others. */
  lemma PickLast<T>(s: seq<T>, picks: seq<nat>, q: nat)
    requires |s| > 0 && q < |picks| && picks[q] == |s| - 1
    requires NoDup(picks) && forall i :: 0 <= i < |picks| ==> picks[i] < |s|
    ensures Pick(s, picks) == Pick(s[..|s| - 1], picks[..q]) + [s[|s| - 1]] + Pick(s[..|s| - 1], picks[q + 1..])
  {
    var m := |s| - 1;
    var head, tail := picks[..q], picks[q + 1..];
    assert forall i :: 0 <= i < |head| ==> head[i] == picks[i] && picks[i] != picks[q];
    assert forall i :: 0 <= i < |tail| ==> tail[i] == picks[q + 1 + i] && picks[q + 1 + i] != picks[q];
    var a, b := Pick(s[..m], head), Pick(s[..m], tail);
    var r := a + [s[m]] + b;
    forall i | 0 <= i < |picks|
      ensures Pick(s, picks)[i] == r[i]
    {
      if i < q {
        assert head[i] == picks[i] && r[i] == a[i];
        assert a[i] == s[..m][head[i]];
      } else if q < i {
        var k := i - q - 1;
        assert tail[k] == picks[i] && r[i] == b[k];
        assert b[k] == s[..m][tail[k]];
      } else {
        assert r[i] == s[m];
      }
    }
    assert |Pick(s, picks)| == |r|;
  }

  /** Counted, the draw of the last position is its element and the other draws over the shorter sequence. */
  lemma PickLastMultiset<T>(s: seq<T>, picks: seq<nat>, q: nat)
    requires |s| > 0 && q < |picks| && picks[q] == |s| - 1
    requires NoDup(picks) && forall i :: 0 <= i < |picks| ==> picks[i] < |s|
    ensures var m := |s| - 1;
            multiset(Pick(s, picks)) == multiset(Pick(s[..m], picks[..q] + picks[q + 1..])) + multiset{s[m]}
  {
    var m := |s| - 1;
    var init, head, tail := s[..m], picks[..q], picks[q + 1..];
    PickLast(s, picks, q);
    calc {
      multiset(Pick(s, picks));
      multiset(Pick(init, head) + [s[m]] + Pick(init, tail));
      multiset(Pick(init, head) + Pick(init, tail)) + multiset{s[m]};
      { PickConcat(init, head, tail); }
      multiset(Pick(init, head + tail)) + multiset{s[m]};
    }
  }

  /** Sampling without replacement: every element is drawn at most as often as it occurs. */
  lemma {:induction false} PickWithoutReplacement<T>(s: seq<T>, picks: seq<nat>)
    requires NoDup(picks) && forall i :: 0 <= i < |picks| ==> picks[i] < |s|
    ensures multiset(Pick(s, picks)) <= multiset(s)
    decreases |s|
  {
    if picks != [] {
      assert picks[0] < |s|;
      var m := |s| - 1;
      var init := s[..m];
      assert s == init + [s[m]];
      if q :| 0 <= q < |picks| && picks[q] == m {
        var head, tail := picks[..q], picks[q + 1..];
        DropDraw(picks, q, m);
        PickWithoutReplacement(init, head + tail);
        PickLastMultiset(s, picks, q);
      } else {
        PickPrefix(s, m, picks);
        PickWithoutReplacement(init, picks);
      }
    }
  }

  // -----------------------------------------------------------------------
  // RandomSelection

  /**
   * `RandomSelection.select`: the population itself when it is no larger
   * than `size`, otherwise the sampled elements; a negative size makes
   * `random.sample` raise.
   */
  function RandomSelect(population: seq<GeneticCandidate>, size: int, picks: seq<nat>): (r: Result<seq<GeneticCandidate>>)
    requires 0 <= size < |population| ==> ValidSample(picks, |population|, size)
    ensures |population| <= size ==> r == Ok(population)
    ensures r.Err? <==> size < 0
    ensures r.Err? ==> r.error == ValueError
    ensures 0 <= size < |population| ==> r == Ok(Pick(population, picks))
  {
    if |population| <= size then Ok(population)
    else if size < 0 then Err(ValueError)
    else Ok(Pick(population, picks))
  }

  /** A shrinking random selection returns exactly `size` elements, drawn without replacement. */
  lemma RandomSelectWithoutReplacement(population: seq<GeneticCandidate>, size: int, picks: seq<nat>)
    requires 0 <= size < |population| ==> ValidSample(picks, |population|, size)
    requires size >= 0
    ensures RandomSelect(population, size, picks).Ok?
    ensures |RandomSelect(population, size, picks).value| == if |population| <= size then |population| else size
    ensures multiset(RandomSelect(population, size, picks).value) <= multiset(population)
  {
    if size < |population| {
      PickWithoutReplacement(population, picks);
    }
  }

  // -----------------------------------------------------------------------
  // UniversalSelection

  function PositiveCount(cs: seq<GeneticCandidate>): nat
  {
    |set i | 0 <= i < |cs| && cs[i].fitness > 0.0|
  }

  predicate NonNegativeFitness(cs: seq<GeneticCandidate>)
  {
    forall i :: 0 <= i < |cs| ==> cs[i].fitness >= 0.0
  }

  /** Weighted sampling only ever draws elements of positive weight. */
  predicate PositivePicks(cs: seq<GeneticCandidate>, picks: seq<nat>)
    requires forall i :: 0 <= i < |picks| ==> picks[i] < |cs|
  {
    forall i :: 0 <= i < |picks| ==> cs[picks[i]].fitness > 0.0
  }

  /**
   * `UniversalSelection.select`: the population itself when it is no
   * larger than `size`; a uniform sample when the total fitness is at most
   * EPSILON; otherwise `size` distinct elements drawn with probability
   * proportional to fitness, which raises when a fitness is negative or
   * fewer than `size` elements have positive fitness.
   */
  function UniversalSelect(population: seq<GeneticCandidate>, size: int, picks: seq<nat>): (r: Result<seq<GeneticCandidate>>)
    requires 0 <= size < |population| ==> ValidSample(picks, |population|, size)
    requires (0 <= size < |population| && Sum(Fitnesses(population)) > EPSILON && NonNegativeFitness(population)
              && PositiveCount(population) >= size) ==> PositivePicks(population, picks)
    ensures |population| <= size ==> r == Ok(population)
    ensures |population| > size && Sum(Fitnesses(population)) <= EPSILON ==> r == RandomSelect(population, size, picks)
    ensures |population| > size && Sum(Fitnesses(population)) > EPSILON ==>
      (r.Ok? <==> size >= 0 && NonNegativeFitness(population) && PositiveCount(population) >= size)
    ensures r.Err? ==> r.error == ValueError
    ensures r.Ok? && |population| > size ==> r.value == Pick(population, picks)
  {
    if |population| <= size then Ok(population)
    else if Sum(Fitnesses(population)) <= EPSILON then RandomSelect(population, size, picks)
    else if size < 0 || !NonNegativeFitness(population) || PositiveCount(population) < size then Err(ValueError)
    else Ok(Pick(population, picks))
  }

  /**
   * A weighted universal selection returns `size` distinct elements, each
   * of positive fitness.
   */
  lemma UniversalSelectPositive(population: seq<GeneticCandidate>, size: int, picks: seq<nat>)
    requires 0 <= size < |population| ==> ValidSample(picks, |population|, size)
    requires (0 <= size < |population| && Sum(Fitnesses(population)) > EPSILON && NonNegativeFitness(population)
              && PositiveCount(population) >= size) ==> PositivePicks(population, picks)
    requires |population| > size && Sum(Fitnesses(population)) > EPSILON
    requires UniversalSelect(population, size, picks).Ok?
    ensures var r := UniversalSelect(population, size, picks).value;
            && |r| == size
            && multiset(r) <= multiset(population)
            && forall i :: 0 <= i < |r| ==> r[i].fitness > 0.0
  {
    PickWithoutReplacement(population, picks);
  }

  // -----------------------------------------------------------------------
  // TournamentSelection

  /**
   * Inverse-transform sampling: the first position whose running total
   * exceeds `t`. Positions of weight 0 are never chosen.
   */
  function WeightedIndex(ws: seq<real>, t: real): (i: nat)
    requires forall j :: 0 <= j < |ws| ==> ws[j] >= 0.0
    requires 0.0 <= t < Sum(ws)
    ensures i < |ws| && ws[i] > 0.0
  {
    if t < ws[0] then 0
    else 1 + WeightedIndex(ws[1..], t - ws[0])
  }

  /** A draw `u` in [0, 1) scaled to a positive total `t` stays in [0, t). */
  function Scale(u: real, t: real): (r: real)
    requires 0.0 <= u < 1.0 && t > 0.0
    ensures 0.0 <= r < t
  {
    assert t - u * t == t * (1.0 - u);
    u * t
  }

  /** A uniform position below `n` from a draw `u` in [0, 1). */
  function UniformIndex(n: nat, u: real): (i: nat)
    requires n > 0 && 0.0 <= u < 1.0
    ensures i < n
  {
    var x := Scale(u, n as real);
    assert x.Floor as real <= x < n as real;
    assert x.Floor < n;
    x.Floor
  }

  /** A uniform winner; an empty tournament raises. */
  function UniformWinner(tournament: seq<GeneticCandidate>, u: real): (r: Result<GeneticCandidate>)
    requires 0.0 <= u < 1.0
    ensures r.Ok? ==> r.value in tournament
    ensures r.Err? <==> tournament == []
    ensures r.Err? ==> r.error == IndexError
  {
    if tournament == [] then Err(IndexError)
    else Ok(tournament[UniformIndex(|tournament|, u)])
  }

  /** A winner drawn proportionally to fitness; a negative fitness raises, and a winner has positive fitness. */
  function WeightedWinner(tournament: seq<GeneticCandidate>, u: real): (r: Result<GeneticCandidate>)
    requires 0.0 <= u < 1.0 && Sum(Fitnesses(tournament)) > 0.0
    ensures r.Ok? ==> r.value in tournament && r.value.fitness > 0.0
    ensures r.Err? <==> !NonNegativeFitness(tournament)
    ensures r.Err? ==> r.error == ValueError
  {
    if !NonNegativeFitness(tournament) then Err(ValueError)
    else
      var i := PickWeighted(Fitnesses(tournament), u);
      Ok(tournament[i])
  }

  /** A draw `u` in [0, 1) scaled to the total weight selects a position of positive weight. */
  function PickWeighted(ws: seq<real>, u: real): (i: nat)
    requires 0.0 <= u < 1.0 && Sum(ws) > 0.0
    requires forall j :: 0 <= j < |ws| ==> ws[j] >= 0.0
    ensures i < |ws| && ws[i] > 0.0
  {
    WeightedIndex(ws, Scale(u, Sum(ws)))
  }

  /**
   * One tournament's winner: uniform when the tournament's total fitness
   * is at most EPSILON, proportional to fitness otherwise.
   */
  function TournamentWinner(tournament: seq<GeneticCandidate>, u: real): (r: Result<GeneticCandidate>)
    requires 0.0 <= u < 1.0
    ensures r.Ok? ==> r.value in tournament
    ensures r.Err? <==> tournament == [] || (Sum(Fitnesses(tournament)) > EPSILON && !NonNegativeFitness(tournament))
    ensures r.Err? && tournament == [] ==> r.error == IndexError
    ensures r.Err? && tournament != [] ==> r.error == ValueError
    ensures r.Ok? && Sum(Fitnesses(tournament)) > EPSILON ==> r.value.fitness > 0.0
  {
    if Sum(Fitnesses(tournament)) <= EPSILON then UniformWinner(tournament, u)
    else
      assert tournament != [];
      WeightedWinner(tournament, u)
  }

  /** `population.remove(choice)`: drops the first element equal to `w` (same source, same operators). */
  function RemoveFirst(pool: seq<GeneticCandidate>, w: GeneticCandidate): (r: seq<GeneticCandidate>)
    ensures |r| == if exists i :: 0 <= i < |pool| && GeneticEq(pool[i], w) then |pool| - 1 else |pool|
    ensures multiset(r) <= multiset(pool)
  {
    if pool == [] then []
    else
      assert pool == [pool[0]] + pool[1..];
      if GeneticEq(pool[0], w) then pool[1..]
      else [pool[0]] + RemoveFirst(pool[1..], w)
  }

  /** The element removed is the first one equal to `w`; the others keep their order. */
  lemma {:induction false} RemoveFirstRemovesFirstEqual(pool: seq<GeneticCandidate>, w: GeneticCandidate, i: nat)
    requires i < |pool| && GeneticEq(pool[i], w)
    requires forall j :: 0 <= j < i ==> !GeneticEq(pool[j], w)
    ensures RemoveFirst(pool, w) == pool[..i] + pool[i + 1..]
  {
    if i > 0 {
      RemoveFirstRemovesFirstEqual(pool[1..], w, i - 1);
      assert pool[1..][..i - 1] == pool[1..i];
      assert pool[1..][i..] == pool[i + 1..];
      assert pool[..i] == [pool[0]] + pool[1..i];
    }
  }

  /** A tournament draw: the sampled positions in the current pool, and the pick in [0, 1). */
  type Round = (seq<nat>, real)

  /**
   * The draws are well formed for `k` rounds starting from a pool of `n`:
   * round `j` samples `tsize` distinct positions of a pool of `n - j`
   * (when that is possible at all) and picks with a number in [0, 1).
   */
  predicate ValidRounds(rounds: seq<Round>, n: nat, tsize: int, k: nat)
  {
    |rounds| >= k && forall j :: 0 <= j < k ==> ValidRound(rounds[j], n - j, tsize)
  }

  /** One round's draws for a pool of `n`: a sample of `tsize` positions when there are enough, and a pick in [0, 1). */
  predicate ValidRound(round: Round, n: int, tsize: int)
  {
    0.0 <= round.1 < 1.0 && (0 <= tsize <= n ==> ValidSample(round.0, n, tsize))
  }

  /**
   * One round on `pool`: sample `tsize` of its members (raising when
   * there are too few or `tsize` is negative), pick the winner, and
   * remove it from the pool.
   */
  function TournamentRound(pool: seq<GeneticCandidate>, round: Round, tsize: int)
    : (r: Result<(GeneticCandidate, seq<GeneticCandidate>)>)
    requires ValidRound(round, |pool|, tsize)
    ensures r.Ok? ==> r.value.0 in pool && |r.value.1| == |pool| - 1
    ensures r.Ok? ==> multiset(r.value.1) <= multiset(pool)
    ensures tsize < 0 || tsize > |pool| ==> r == Err(ValueError)
  {
    if tsize < 0 || tsize > |pool| then Err(ValueError)
    else
      var tournament := Pick(pool, round.0);
      var winner :- TournamentWinner(tournament, round.1);
      assert exists i :: 0 <= i < |pool| && GeneticEq(pool[i], winner) by {
        var i :| 0 <= i < |tournament| && tournament[i] == winner;
        assert GeneticEq(pool[round.0[i]], winner);
      }
      Ok((winner, RemoveFirst(pool, winner)))
  }

  lemma ValidRoundsTail(rounds: seq<Round>, n: nat, tsize: int, k: nat)
    requires k > 0 && n > 0 && ValidRounds(rounds, n, tsize, k)
    ensures ValidRounds(rounds[1..], n - 1, tsize, k - 1)
  {
    forall j | 0 <= j < k - 1
      ensures ValidRound(rounds[1..][j], n - 1 - j, tsize)
    {
      assert rounds[1..][j] == rounds[j + 1];
    }
  }

  /** `k` tournaments from `pool`, one after the other. */
  function Tournaments(pool: seq<GeneticCandidate>, rounds: seq<Round>, tsize: int, k: nat): (r: Result<seq<GeneticCandidate>>)
    requires ValidRounds(rounds, |pool|, tsize, k)
    decreases k
  {
    if k == 0 then Ok([])
    else
      var round :- TournamentRound(pool, rounds[0], tsize);
      ValidRoundsTail(rounds, |pool|, tsize, k);
      var others :- Tournaments(round.1, rounds[1..], tsize, k - 1);
      Ok([round.0] + others)
  }

  /** The first round decides the first winner and the pool the remaining rounds start from. */
  lemma TournamentsUnfold(pool: seq<GeneticCandidate>, rounds: seq<Round>, tsize: int, k: nat)
    requires k > 0 && ValidRounds(rounds, |pool|, tsize, k)
    ensures TournamentRound(pool, rounds[0], tsize).Err? ==>
      Tournaments(pool, rounds, tsize, k) == Err(TournamentRound(pool, rounds[0], tsize).error)
    ensures TournamentRound(pool, rounds[0], tsize).Ok? ==>
      var (winner, rest) := TournamentRound(pool, rounds[0], tsize).value;
      && ValidRounds(rounds[1..], |rest|, tsize, k - 1)
      && Tournaments(pool, rounds, tsize, k) == Prefixed([winner], Tournaments(rest, rounds[1..], tsize, k - 1))
  {
    if TournamentRound(pool, rounds[0], tsize).Ok? {
      ValidRoundsTail(rounds, |pool|, tsize, k);
    }
  }

  /** After `j` rounds: `candidates` won them, `pool` is left, and the rest of the selection is still ahead. */
  ghost predicate Progress(population: seq<GeneticCandidate>, rounds: seq<Round>, tsize: int, size: nat,
                           pool: seq<GeneticCandidate>, candidates: seq<GeneticCandidate>, j: nat)
  {
    && ValidRounds(rounds, |population|, tsize, size)
    && j <= size && |rounds| >= size
    && ValidRounds(rounds[j..], |pool|, tsize, size - j)
    && Tournaments(population, rounds, tsize, size)
       == Prefixed(candidates, Tournaments(pool, rounds[j..], tsize, size - j))
  }

  lemma ProgressStep(population: seq<GeneticCandidate>, rounds: seq<Round>, tsize: int, size: nat,
                     pool: seq<GeneticCandidate>, candidates: seq<GeneticCandidate>, j: nat)
    requires Progress(population, rounds, tsize, size, pool, candidates, j) && j < size
    ensures ValidRound(rounds[j], |pool|, tsize)
    ensures TournamentRound(pool, rounds[j], tsize).Err? ==>
      Tournaments(population, rounds, tsize, size) == Err(TournamentRound(pool, rounds[j], tsize).error)
    ensures TournamentRound(pool, rounds[j], tsize).Ok? ==>
      var (choice, rest) := TournamentRound(pool, rounds[j], tsize).value;
      Progress(population, rounds, tsize, size, rest, candidates + [choice], j + 1)
  {
    assert rounds[j..][0] == rounds[j];
    TournamentsUnfold(pool, rounds[j..], tsize, size - j);
    if TournamentRound(pool, rounds[j], tsize).Ok? {
      var (choice, rest) := TournamentRound(pool, rounds[j], tsize).value;
      assert rounds[j..][1..] == rounds[j + 1..];
      PrefixedTwice(candidates, [choice], Tournaments(rest, rounds[j + 1..], tsize, size - j - 1));
    }
  }

  /**
   * `TournamentSelection.select`: the population itself when it is no
   * larger than `size`, otherwise `size` tournaments run one after the
   * other on a private copy of the pool.
   */
  method TournamentSelect(population: seq<GeneticCandidate>, size: int, tsize: int, rounds: seq<Round>)
    returns (r: Result<seq<GeneticCandidate>>)
    requires size >= 0 ==> ValidRounds(rounds, |population|, tsize, size)
    ensures |population| <= size ==> r == Ok(population)
    ensures |population| > size && size < 0 ==> r == Ok([])
    ensures |population| > size && size >= 0 ==> r == Tournaments(population, rounds, tsize, size)
    ensures r.Ok? && |population| > size >= 0 ==> |r.value| == size
    ensures r.Ok? ==> forall c :: c in r.value ==> c in population
  {
    if |population| <= size {
      return Ok(population);
    }
    if size < 0 {
      return Ok([]);
    }
    var pool := population;
    var candidates := [];
    var j := 0;
    assert Progress(population, rounds, tsize, size, pool, candidates, j) by {
      assert rounds[0..] == rounds;
      PrefixedNothing(Tournaments(population, rounds, tsize, size));
    }
    while j < size
      invariant Progress(population, rounds, tsize, size, pool, candidates, j)
      invariant |candidates| == j
      invariant forall c :: c in candidates ==> c in population
      invariant forall w :: w in pool ==> w in population
      decreases size - j
    {
      ProgressStep(population, rounds, tsize, size, pool, candidates, j);
      var round := TournamentRound(pool, rounds[j], tsize);
      if round.Err? {
        return Err(round.error);
      }
      var (choice, rest) := round.value;
      forall w | w in rest
        ensures w in population
      {
        assert w in multiset(rest);
      }
      candidates := candidates + [choice];
      pool := rest;
      j := j + 1;
    }
    assert Tournaments(pool, rounds[j..], tsize, 0) == Ok([]);
    assert candidates + [] == candidates;
    return Ok(candidates);
  }
}
