/** The loop around the completions. */
module Formatter {
  // Three LLM completions at most, each with its own retries, whose content is parsed and normalised into a
  // canonical recipe.
  import opened Text
  import opened Json
  import opened Schemas
  import opened CanonicalRecipe
  import opened Retry

  const MAX_RETRIES: nat := 3

  /** `JSON.parse`: None when it throws. */
  type Parser = string -> Option<Json>

  /** `parseAndValidate` */
  function ParseAndValidate(parse: Parser, content: string): Option<Json> {
    match parse(content)
    case None => None
    case Some(parsed) =>
      match CanonicalRecipeSchema(parsed)
      case Ok(recipe) => Some(recipe)
      case _ => None
  }

  /** What becomes of the content of a completion: a recipe, or an exception. */
  type Validator = string -> Option<Json>

  function ValidatorOf(parse: Parser): Validator { content => ParseAndValidate(parse, content) }

  /** How attempt `k` of the formatter goes: its completion takes `fetches` requests and ends in `outcome`. */
  datatype Completion = Completion(fetches: nat, outcome: Outcome)

  predicate Yields(validate: Validator, c: Completion) {
    c.outcome.Success? && validate(c.outcome.value).Some?
  }

  /** The completions of the first `n` attempts are those that the scripts lead to. */
  ghost predicate Completes(scripts: nat -> Script, max: nat, n: nat, completions: seq<Completion>) {
    && |completions| == n
    && forall k :: 0 <= k < n ==> CompletesAt(scripts, max, k + 1, completions[k])
  }

  ghost predicate CompletesAt(scripts: nat -> Script, max: nat, attempt: nat, c: Completion) {
    StopsAt(scripts(attempt), max, c.fetches, c.outcome)
  }

  function TotalFetches(completions: seq<Completion>): nat {
    if completions == [] then 0
    else TotalFetches(completions[..|completions| - 1]) + completions[|completions| - 1].fetches
  }

  /** What a call of `format` does: it goes on until a completion yields a recipe, three times at most. */
  ghost predicate FormatDoes(
      scripts: nat -> Script, max: nat, validate: Validator, recipe: Option<Json>, completions: seq<Completion>) {
    && 1 <= |completions| <= MAX_RETRIES && Completes(scripts, max, |completions|, completions)
    && (forall k :: 0 <= k < |completions| - 1 ==> !Yields(validate, completions[k]))
    && (recipe.Some? <==> Yields(validate, completions[|completions| - 1]))
    && (recipe.Some? ==> recipe == validate(completions[|completions| - 1].outcome.value))
    && (recipe.None? ==> |completions| == MAX_RETRIES)
  }

  /**
   * `format`: the first completion that yields a recipe is returned; after three that do not, it
   * fails. The throw after the loop is never reached.
   */
  method Format(scripts: nat -> Script, max: nat, base: nat, jitters: nat -> nat, parse: Parser)
    returns (recipe: Option<Json>, completions: seq<Completion>)
    requires max >= 1
    ensures FormatDoes(scripts, max, ValidatorOf(parse), recipe, completions)
  {
    hide ParseAndValidate, StopsAt;
    completions := [];
    var attempt := 1;
    while attempt <= MAX_RETRIES
      invariant 1 <= attempt <= MAX_RETRIES && |completions| == attempt - 1
      invariant Completes(scripts, max, |completions|, completions)
      invariant forall k :: 0 <= k < |completions| ==> !Yields(ValidatorOf(parse), completions[k])
      decreases MAX_RETRIES - attempt
    {
      var outcome, fetches, waited := RequestWithRetry(scripts(attempt), max, base, jitters);
      assert CompletesAt(scripts, max, attempt, Completion(fetches, outcome));
      completions := completions + [Completion(fetches, outcome)];
      if outcome.Success? {
        recipe := ParseAndValidate(parse, outcome.value);
        if recipe.Some? {
          return;
        }
      }
      if attempt == MAX_RETRIES {
        return None, completions;
      }
      attempt := attempt + 1;
    }
    assert false;
  }

  /** The attempt throws only on invalid JSON: the schema accepts every value. */
  lemma {:induction false} OnlyInvalidJsonIsRefused(parse: Parser, content: string)
    ensures ParseAndValidate(parse, content).Some? <==> parse(content).Some?
    ensures parse(content).Some? ==>
      ParseAndValidate(parse, content) == Some(NormalizeCanonicalRecipe(parse(content).value))
    ensures ParseAndValidate(parse, content).Some? ==>
      IsCanonical(ParseAndValidate(parse, content).value)
      && NormalizeCanonicalRecipe(ParseAndValidate(parse, content).value) == ParseAndValidate(parse, content).value
  {
    hide CanonicalRecipeSchema, NormalizeCanonicalRecipe, IsCanonical;
    if parse(content).Some? {
      SchemaIsTotal(parse(content).value);
      NormalizationIsIdempotent(parse(content).value);
    }
  }

  /** A returned recipe is canonical, so normalising it again, as the import result does, changes nothing. */
  lemma {:induction false} FormattedIsCanonical(
      scripts: nat -> Script, max: nat, parse: Parser, recipe: Option<Json>, completions: seq<Completion>)
    requires FormatDoes(scripts, max, ValidatorOf(parse), recipe, completions)
    ensures recipe.Some? ==> IsCanonical(recipe.value) && NormalizeCanonicalRecipe(recipe.value) == recipe.value
    ensures recipe.Some? ==>
      var last := completions[|completions| - 1].outcome;
      && last.Success? && parse(last.value).Some?
      && recipe.value == NormalizeCanonicalRecipe(parse(last.value).value)
    ensures recipe.None? ==> forall c :: c in completions && c.outcome.Success? ==> parse(c.outcome.value).None?
  {
    hide CanonicalRecipeSchema, NormalizeCanonicalRecipe, IsCanonical, ParseAndValidate;
    if recipe.Some? {
      OnlyInvalidJsonIsRefused(parse, completions[|completions| - 1].outcome.value);
    } else {
      forall c | c in completions && c.outcome.Success? ensures parse(c.outcome.value).None? {
        OnlyInvalidJsonIsRefused(parse, c.outcome.value);
      }
    }
  }

  lemma {:induction false} FetchesBounded(completions: seq<Completion>, max: nat)
    requires forall c :: c in completions ==> c.fetches <= max
    ensures TotalFetches(completions) <= |completions| * max
  {
    if completions == [] {
    } else {
      var n := |completions| - 1;
      FetchesBounded(completions[..n], max);
      assert (n + 1) * max == n * max + max;
      assert completions[n] in completions;
    }
  }

  /** At most three times the attempts of one completion are requested. */
  lemma {:induction false} AtMostThreeLoops(
      scripts: nat -> Script, max: nat, validate: Validator, recipe: Option<Json>, completions: seq<Completion>)
    requires FormatDoes(scripts, max, validate, recipe, completions)
    ensures TotalFetches(completions) <= MAX_RETRIES * max
  {
    hide Yields;
    forall k | 0 <= k < |completions| ensures completions[k].fetches <= max {
      assert CompletesAt(scripts, max, k + 1, completions[k]);
    }
    FetchesBounded(completions, max);
    assert |completions| * max <= MAX_RETRIES * max;
  }

  /** With an aborted signal every call of fetch is rejected at once, before anything is sent. */
  ghost predicate Dead(script: Script) { forall k :: script(k).reply.Transport? && script(k).atReply.Aborted? }

  /** A batch of completions under an aborted signal calls fetch once each and yields nothing. */
  lemma {:induction false} DeadCompletions(
      scripts: nat -> Script, max: nat, validate: Validator, completions: seq<Completion>, j: nat)
    requires j <= |completions| && Completes(scripts, max, |completions|, completions)
    requires forall k :: j < k <= |completions| ==> Dead(scripts(k))
    ensures TotalFetches(completions) == TotalFetches(completions[..j]) + (|completions| - j)
    ensures forall k :: j <= k < |completions| ==> !Yields(validate, completions[k])
  {
    var n := |completions|;
    if j < n {
      assert CompletesAt(scripts, max, n, completions[n - 1]);
      NoRetryAfterAbort(scripts(n), max, completions[n - 1].fetches, completions[n - 1].outcome, 1);
      var before := completions[..n - 1];
      forall k | 0 <= k < n - 1 ensures CompletesAt(scripts, max, k + 1, before[k]) {
        assert CompletesAt(scripts, max, k + 1, completions[k]);
      }
      DeadCompletions(scripts, max, validate, before, j);
      assert before[..j] == completions[..j];
      forall k | j <= k < n - 1 ensures !Yields(validate, completions[k]) {
        assert before[k] == completions[k];
      }
    } else {
      assert completions[..j] == completions;
    }
  }

  /**
   * The formatter does not look at the signal: when it is aborted during the j-th completion, which
   * yields nothing, exactly the other 3 - j completions are still started, with one call of fetch each.
   * So no call follows the abort exactly when the aborted completion was the last one.
   */
  lemma {:induction false} AbortIsNotNoticed(
      scripts: nat -> Script, max: nat, validate: Validator, recipe: Option<Json>, completions: seq<Completion>, j: nat)
    requires FormatDoes(scripts, max, validate, recipe, completions) && j <= |completions|
    requires j > 0 ==> !Yields(validate, completions[j - 1])
    requires forall k :: j < k ==> Dead(scripts(k))
    ensures recipe.None? && |completions| == MAX_RETRIES
    ensures TotalFetches(completions) == TotalFetches(completions[..j]) + (MAX_RETRIES - j)
    ensures TotalFetches(completions) == TotalFetches(completions[..j]) <==> j == MAX_RETRIES
  {
    hide Yields, TotalFetches, CompletesAt;
    DeadCompletions(scripts, max, validate, completions, j);
    assert !Yields(validate, completions[|completions| - 1]);
  }

  /** The signal is aborted during the very first call of fetch, and stays so. */
  const ABORTED_AT_ONCE: nat -> Script :=
    (attempt: nat) => (k: nat) => Attempt(Transport, Aborted(false), Aborted(false))

  /** With these scripts the formatter calls fetch twice more after the abort. */
  lemma {:induction false} FetchesFollowTheAbort(max: nat, validate: Validator) returns (completions: seq<Completion>)
    requires max >= 1
    ensures FormatDoes(ABORTED_AT_ONCE, max, validate, None, completions)
    ensures ABORTED_AT_ONCE(1)(1).atReply.Aborted? && completions[0].fetches == 1
    ensures TotalFetches(completions) == 3
  {
    var stopped := Completion(1, Stopped(false));
    completions := [stopped, stopped, stopped];
    forall k | 0 <= k < 3 ensures CompletesAt(ABORTED_AT_ONCE, max, k + 1, completions[k]) {
    }
    assert Completes(ABORTED_AT_ONCE, max, 3, completions);
    AbortIsNotNoticed(ABORTED_AT_ONCE, max, validate, None, completions, 1);
    assert completions[..1] == [stopped] && [stopped][..0] == [];
  }
}
