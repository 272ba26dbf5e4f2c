/** Cumulative token accounting over the rounds of one generation. */
module Usage {
  import opened Json
  import opened Types

  /** One counter after one more round. */
  function Added(total: Option<size>, value: Option<size>, first: bool): (r: Result<Option<size>, Failure>)
  {
    if value.None? then Ok(None)
    else if first then Ok(value)
    else if total.None? then Ok(None)
    else if value.value > SIZE_MAX - total.value then Err(UsageOverflow)
    else Ok(Some(total.value + value.value))
  }

  /** A round that does not report the counter ends it, and once absent it stays absent; the
      first round starts it; a sum past a word is refused, never wrapped. */
  method AddCount(total: Option<size>, value: Option<size>, first: bool)
    returns (r: Result<Option<size>, Failure>)
    ensures r.Err? <==> !first && total.Some? && value.Some? && (total.value as int) + (value.value as int) > SIZE_MAX
    ensures r.Ok? ==> (r.value.Some? <==> value.Some? && (first || total.Some?))
    ensures r.Ok? && r.value.Some? ==>
              r.value.value as int == (value.value as int) + (if first then 0 else total.value as int)
    ensures r == Added(total, value, first)
  {
    if value.None? { return Ok(None); }
    if first { return Ok(value); }
    if total.None? { return Ok(None); }
    var current: size := total.value;
    if value.value > SIZE_MAX - current { return Err(UsageOverflow); }
    var sum: size := current + value.value;
    return Ok(Some(sum));
  }

  datatype Counter = InputTokens | OutputTokens | TotalTokens | CachedInput | CacheCreation | Reasoning

  function Get(usage: TokenUsage, counter: Counter): (count: Option<size>)
  {
    match counter
    case InputTokens => usage.input
    case OutputTokens => usage.output
    case TotalTokens => usage.total
    case CachedInput => usage.cachedInput
    case CacheCreation => usage.cacheCreation
    case Reasoning => usage.reasoning
  }

  /** All six counters move together, or one of them overflows. */
  method AddUsage(total: TokenUsage, value: TokenUsage, first: bool) returns (r: Result<TokenUsage, Failure>)
    ensures r.Ok? ==> forall c :: Added(Get(total, c), Get(value, c), first) == Ok(Get(r.value, c))
    ensures r.Err? ==> r.error == UsageOverflow
    ensures r.Err? <==> exists c :: Added(Get(total, c), Get(value, c), first).Err?
    ensures r == AddedUsage(total, value, first)
  {
    var input := AddCount(total.input, value.input, first);
    assert input == Added(Get(total, InputTokens), Get(value, InputTokens), first);
    if input.Err? { return Err(UsageOverflow); }
    var output := AddCount(total.output, value.output, first);
    assert output == Added(Get(total, OutputTokens), Get(value, OutputTokens), first);
    if output.Err? { return Err(UsageOverflow); }
    var sum := AddCount(total.total, value.total, first);
    assert sum == Added(Get(total, TotalTokens), Get(value, TotalTokens), first);
    if sum.Err? { return Err(UsageOverflow); }
    var cached := AddCount(total.cachedInput, value.cachedInput, first);
    assert cached == Added(Get(total, CachedInput), Get(value, CachedInput), first);
    if cached.Err? { return Err(UsageOverflow); }
    var creation := AddCount(total.cacheCreation, value.cacheCreation, first);
    assert creation == Added(Get(total, CacheCreation), Get(value, CacheCreation), first);
    if creation.Err? { return Err(UsageOverflow); }
    var reasoning := AddCount(total.reasoning, value.reasoning, first);
    assert reasoning == Added(Get(total, Reasoning), Get(value, Reasoning), first);
    if reasoning.Err? { return Err(UsageOverflow); }
    r := Ok(TokenUsage(input.value, output.value, sum.value, cached.value, creation.value, reasoning.value));
  }

  function AddedUsage(total: TokenUsage, value: TokenUsage, first: bool): (r: Result<TokenUsage, Failure>)
  {
    var input := Added(total.input, value.input, first);
    var output := Added(total.output, value.output, first);
    var sum := Added(total.total, value.total, first);
    var cached := Added(total.cachedInput, value.cachedInput, first);
    var creation := Added(total.cacheCreation, value.cacheCreation, first);
    var reasoning := Added(total.reasoning, value.reasoning, first);
    if input.Err? || output.Err? || sum.Err? || cached.Err? || creation.Err? || reasoning.Err? then
      Err(UsageOverflow)
    else
      Ok(TokenUsage(input.value, output.value, sum.value, cached.value, creation.value, reasoning.value))
  }

  // ---- what accumulation over rounds means ----

  /** The usage after a run of rounds, the first of which starts the count. */
  function Accumulated(rounds: seq<TokenUsage>): (r: Result<TokenUsage, Failure>)
  {
    if rounds == [] then Ok(NO_USAGE)
    else
      var n := |rounds| - 1;
      match Accumulated(rounds[..n])
      case Err(e) => Err(e)
      case Ok(total) => AddedUsage(total, rounds[n], n == 0)
  }

  predicate AllReported(rounds: seq<TokenUsage>, c: Counter)
  {
    forall i | 0 <= i < |rounds| :: Get(rounds[i], c).Some?
  }

  function Sum(rounds: seq<TokenUsage>, c: Counter): (n: nat)
    requires AllReported(rounds, c)
  {
    if rounds == [] then 0
    else Sum(rounds[..|rounds| - 1], c) + Get(rounds[|rounds| - 1], c).value
  }

  /** The first `k` rounds all report the counter and their sum does not fit a word. */
  predicate OverflowsBy(rounds: seq<TokenUsage>, c: Counter, k: nat)
  {
    k <= |rounds| && AllReported(rounds[..k], c) && Sum(rounds[..k], c) > SIZE_MAX
  }

  lemma {:induction false} AddedUsageByCounter(total: TokenUsage, value: TokenUsage, first: bool)
    ensures var r := AddedUsage(total, value, first);
            && (r.Ok? ==> forall c :: Added(Get(total, c), Get(value, c), first) == Ok(Get(r.value, c)))
            && (r.Err? <==> exists c :: Added(Get(total, c), Get(value, c), first).Err?)
  {
    assert Added(Get(total, InputTokens), Get(value, InputTokens), first) == Added(total.input, value.input, first);
    assert Added(Get(total, OutputTokens), Get(value, OutputTokens), first) == Added(total.output, value.output, first);
    assert Added(Get(total, TotalTokens), Get(value, TotalTokens), first) == Added(total.total, value.total, first);
    assert Added(Get(total, CachedInput), Get(value, CachedInput), first)
        == Added(total.cachedInput, value.cachedInput, first);
    assert Added(Get(total, CacheCreation), Get(value, CacheCreation), first)
        == Added(total.cacheCreation, value.cacheCreation, first);
    assert Added(Get(total, Reasoning), Get(value, Reasoning), first) == Added(total.reasoning, value.reasoning, first);
  }

  /** A counter is present exactly when every round reported it, and is then the true
      sum; overflow is raised exactly when some counter's reported rounds outgrow a word
      at some prefix. */
  lemma {:induction false} AccumulationExact(rounds: seq<TokenUsage>)
    requires rounds != []
    ensures Accumulated(rounds).Ok? ==> forall c ::
              && (Get(Accumulated(rounds).value, c).Some? <==> AllReported(rounds, c))
              && (AllReported(rounds, c) ==> Get(Accumulated(rounds).value, c).value == Sum(rounds, c))
    ensures Accumulated(rounds).Err? <==> exists c, k: nat :: OverflowsBy(rounds, c, k)
  {
    hide AddedUsage;
    var n := |rounds| - 1;
    var front := rounds[..n];
    var before := Accumulated(front);
    assert rounds == front + [rounds[n]];
    forall c, k: nat | k <= n ensures OverflowsBy(front, c, k) <==> OverflowsBy(rounds, c, k) {
      assert front[..k] == rounds[..k];
    }
    if n > 0 { AccumulationExact(front); }
    if before.Err? {
      var c, k: nat :| OverflowsBy(front, c, k);
      assert OverflowsBy(rounds, c, k);
    } else {
      AddedUsageByCounter(before.value, rounds[n], n == 0);
      assert rounds[..n + 1] == rounds;
      forall c ensures Added(Get(before.value, c), Get(rounds[n], c), n == 0).Err? <==> OverflowsBy(rounds, c, n + 1) {
        LastRoundExact(rounds, c, Get(before.value, c));
      }
      forall c, k: nat | OverflowsBy(rounds, c, k) ensures k == n + 1 {
        assert k <= n ==> OverflowsBy(front, c, k);
      }
      forall c ensures AllReported(rounds, c) <==> AllReported(front, c) && Get(rounds[n], c).Some? {}
    }
  }

  lemma {:induction false} LastRoundExact(rounds: seq<TokenUsage>, c: Counter, total: Option<size>)
    requires rounds != []
    requires var front := rounds[..|rounds| - 1];
             front != [] ==>
               (total.Some? <==> AllReported(front, c)) && (AllReported(front, c) ==> total.value == Sum(front, c))
    ensures Added(total, Get(rounds[|rounds| - 1], c), |rounds| == 1).Err? <==> OverflowsBy(rounds, c, |rounds|)
  {
    hide Get;
    var n := |rounds| - 1;
    var front := rounds[..n];
    assert rounds[..|rounds|] == rounds;
    assert forall i | 0 <= i < n :: front[i] == rounds[i];
    if AllReported(front, c) && Get(rounds[n], c).Some? {
      forall i | 0 <= i < |rounds| ensures Get(rounds[i], c).Some? {
        if i < n { assert Get(front[i], c).Some?; }
      }
      assert Sum(rounds, c) == Sum(front, c) + Get(rounds[n], c).value;
    }
  }
}
