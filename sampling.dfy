/** The two ways the games pick three wrong answers to show beside the
    correct one.

    Rejection sampling (addition, subtraction, counting, alphabet): draw a
    random candidate, keep it unless the list already holds it, repeat until
    the list has four entries. In the games the draws come from
    `Math.random()`; here they are a finite oracle `draws`, each draw turned
    into a candidate by the game's `pick` rule. The games' loop has no other
    exit; a finite oracle can run out first, and then no list is produced.

    Sampling without replacement (shape): draw an index into the pool of
    the other names, move that name from the pool to the list, until the
    list has four entries or the pool is empty. */
module Sampling {
  import opened Wrappers
  import opened OptionSets

  /** The list rejection sampling holds when it stops: starting from `opts`,
      each draw yields the candidate `pick(d)`, which is appended when it is
      not already present; it stops at four entries or when the draws run out. */
  function Fill<A(==)>(opts: seq<A>, pick: nat -> A, draws: seq<nat>): (r: seq<A>)
    ensures opts <= r
    ensures |opts| >= 4 ==> r == opts
    decreases |draws|
  {
    if |opts| >= 4 || draws == [] then opts
    else
      var candidate := pick(draws[0]);
      Fill(if candidate in opts then opts else opts + [candidate], pick, draws[1..])
  }

  /** Sampling only appends: the starting list is a prefix of the result,
      and the result never grows past four entries. */
  lemma {:induction false} FillExtends<A>(opts: seq<A>, pick: nat -> A, draws: seq<nat>)
    requires |opts| <= 4
    ensures opts <= Fill(opts, pick, draws)
    ensures |Fill(opts, pick, draws)| <= 4
    decreases |draws|
  {
    if |opts| < 4 && draws != [] {
      var candidate := pick(draws[0]);
      var next := if candidate in opts then opts else opts + [candidate];
      FillExtends(next, pick, draws[1..]);
    }
  }

  /** A candidate is appended only when it is not already present, so a
      list without duplicates stays without duplicates. */
  lemma {:induction false} FillKeepsNoDuplicates<A>(opts: seq<A>, pick: nat -> A, draws: seq<nat>)
    requires NoDuplicates(opts)
    ensures NoDuplicates(Fill(opts, pick, draws))
    decreases |draws|
  {
    if |opts| < 4 && draws != [] {
      var candidate := pick(draws[0]);
      var next := if candidate in opts then opts else opts + [candidate];
      FillKeepsNoDuplicates(next, pick, draws[1..]);
    }
  }

  /** Every entry of the result was in the starting list or is the
      candidate of one of the draws. */
  lemma {:induction false} FillDrawnFrom<A>(opts: seq<A>, pick: nat -> A, draws: seq<nat>)
    ensures forall x :: x in Fill(opts, pick, draws) ==> x in opts || exists d :: d in draws && x == pick(d)
    decreases |draws|
  {
    if |opts| < 4 && draws != [] {
      var candidate := pick(draws[0]);
      var next := if candidate in opts then opts else opts + [candidate];
      FillDrawnFrom(next, pick, draws[1..]);
      forall x | x in Fill(opts, pick, draws)
        ensures x in opts || exists d :: d in draws && x == pick(d)
      {
        if x !in next {
          var d :| d in draws[1..] && x == pick(d);
          assert d in draws;
        } else if x !in opts {
          assert x == pick(draws[0]);
        }
      }
    }
  }

  /** When the draws run out before four entries are held, every candidate
      drawn is already in the list: the oracle offered too few new values. */
  lemma {:induction false} FillShortKeepsEveryDraw<A>(opts: seq<A>, pick: nat -> A, draws: seq<nat>)
    requires |Fill(opts, pick, draws)| < 4
    ensures forall d :: d in draws ==> pick(d) in Fill(opts, pick, draws)
    decreases |draws|
  {
    if draws != [] {
      assert |opts| < 4;
      var candidate := pick(draws[0]);
      var next := if candidate in opts then opts else opts + [candidate];
      FillShortKeepsEveryDraw(next, pick, draws[1..]);
      FillExtends(next, pick, draws[1..]);
      assert candidate in next;
      forall d | d in draws ensures pick(d) in Fill(opts, pick, draws) {
        if d != draws[0] {
          assert d in draws[1..];
        }
      }
    }
  }

  /** The rejection-sampling loop of the numeric and alphabet games:
      `options = [correct]`, then `while (options.length < 4)` push each new
      candidate. Returns the list before it is shuffled, or `None` when the
      draws ran out first. */
  method RejectionSample<A(==)>(correct: A, pick: nat -> A, draws: seq<nat>) returns (r: Option<seq<A>>)
    ensures r.Some? <==> |Fill([correct], pick, draws)| == 4
    ensures r.None? <==> |Fill([correct], pick, draws)| < 4
    ensures r.Some? ==> r.value == Fill([correct], pick, draws)
    ensures r.Some? ==> r.value[0] == correct && IsOptionSet(r.value, correct)
    ensures r.Some? ==> forall x :: x in r.value ==> x == correct || exists d :: d in draws && x == pick(d)
  {
    var options := [correct];
    var i := 0;
    while |options| < 4 && i < |draws|
      invariant 0 <= i <= |draws|
      invariant 1 <= |options| <= 4 && options[0] == correct
      invariant Fill(options, pick, draws[i..]) == Fill([correct], pick, draws)
    {
      var wrong := pick(draws[i]);
      assert draws[i..][1..] == draws[i + 1..];
      if wrong !in options {
        options := options + [wrong];
      }
      i := i + 1;
    }
    assert Fill(options, pick, draws[i..]) == options;
    FillExtends([correct], pick, draws);
    FillKeepsNoDuplicates([correct], pick, draws);
    FillDrawnFrom([correct], pick, draws);
    if |options| == 4 {
      r := Some(options);
    } else {
      r := None;
    }
  }

  /** The rejection-sampling games' `generateOptions`: sample, then shuffle
      the sampled list with `keys`. `None` when the draws run out first. */
  method ShuffledSample<A(==)>(correct: A, pick: nat -> A, draws: seq<nat>, keys: seq<nat>) returns (r: Option<seq<A>>)
    ensures r.None? <==> |Fill([correct], pick, draws)| < 4
    ensures r.Some? ==> IsOptionSet(r.value, correct) && multiset(r.value)[correct] == 1
    ensures r.Some? ==> multiset(r.value) == multiset(Fill([correct], pick, draws))
    ensures r.Some? ==> forall x :: x in r.value && x != correct ==> exists d :: d in draws && x == pick(d)
  {
    var generated := RejectionSample(correct, pick, draws);
    match generated {
      case None =>
        r := None;
      case Some(list) =>
        var shown := Shuffle(list, keys);
        ShuffleKeepsOptionSet(list, correct, keys);
        ShuffleIsPermutation(list, keys);
        forall x | x in shown && x != correct ensures exists d :: d in draws && x == pick(d) {
          assert x in multiset(list);
          assert x in list;
        }
        r := Some(shown);
    }
  }

  /** `names.filter((n) => n !== x)`: the names other than `x`, in order. */
  function Without<A(==)>(names: seq<A>, x: A): (r: seq<A>)
    ensures forall y :: y in r ==> y in names && y != x
    ensures forall y :: y in names && y != x ==> y in r
    ensures NoDuplicates(names) ==> NoDuplicates(r)
    ensures multiset(r) <= multiset(names)
  {
    if names == [] then []
    else
      assert NoDuplicates(names) ==> NoDuplicates(names[1..]) && names[0] !in names[1..];
      assert names == [names[0]] + names[1..];
      (if names[0] == x then [] else [names[0]]) + Without(names[1..], x)
  }

  /** The shape game's loop: start from `[correct]` and the pool of other
      names, and while fewer than four options are held and the pool is not
      empty, splice a randomly indexed name out of the pool and push it.
      Each pick leaves the pool, so no name is picked twice. */
  method SpliceSample<A(==)>(correct: A, names: seq<A>, draws: seq<nat>) returns (r: seq<A>)
    ensures |r| == if 1 + |Without(names, correct)| < 4 then 1 + |Without(names, correct)| else 4
    ensures r[0] == correct
    ensures multiset(r[1..]) <= multiset(Without(names, correct))
    ensures forall x :: x in r[1..] ==> x in names && x != correct
    ensures NoDuplicates(names) ==> NoDuplicates(r)
  {
    var pool := Without(names, correct);
    var options := [correct];
    var wrongOptions := pool;
    var i := 0;
    while |options| < 4 && |wrongOptions| > 0
      invariant 1 <= |options| <= 4 && options[0] == correct
      invariant |options| - 1 + |wrongOptions| == |pool|
      invariant multiset(options[1..]) + multiset(wrongOptions) == multiset(pool)
      decreases |wrongOptions|
    {
      var k := DrawAt(draws, i) % |wrongOptions|;
      var wrong := wrongOptions[k];
      assert wrongOptions == wrongOptions[..k] + [wrong] + wrongOptions[k + 1..];
      assert (options + [wrong])[1..] == options[1..] + [wrong];
      wrongOptions := wrongOptions[..k] + wrongOptions[k + 1..];
      options := options + [wrong];
      i := i + 1;
    }
    r := options;
    assert multiset(r[1..]) <= multiset(pool);
    forall x | x in r[1..] ensures x in names && x != correct {
      assert x in multiset(r[1..]);
      assert x in multiset(pool);
    }
    if NoDuplicates(names) {
      NoDuplicatesForAppend(r, pool, correct);
    }
  }

  /** `[correct] + tail` has no duplicates when `tail` is drawn without
      replacement from a duplicate-free pool that lacks `correct`. */
  lemma NoDuplicatesForAppend<A>(r: seq<A>, pool: seq<A>, correct: A)
    requires |r| >= 1 && r[0] == correct
    requires NoDuplicates(pool) && correct !in pool
    requires multiset(r[1..]) <= multiset(pool)
    ensures NoDuplicates(r)
  {
    forall x ensures multiset(r)[x] <= 1 {
      NoDuplicatesCount(pool, x);
      assert r == [correct] + r[1..];
      assert multiset(r) == multiset{correct} + multiset(r[1..]);
    }
    CountAtMostOneIsNoDuplicates(r);
  }

}
