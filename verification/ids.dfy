/** Run ids, and the call ids the adapters make up when a provider sends none. */
module SyntheticIds {
  import opened Numerals
  import opened Types
  import Generation

  /** How many values the run counter has: it is an unsigned long long. */
  const WORD := 0x1_0000_0000_0000_0000

  type word = n: int | 0 <= n < WORD

  function RunId(n: word): (id: string)
  {
    "run-" + Decimal(n)
  }

  /** The process-wide counter. Its one operation is atomic, so the calls of all threads
      are a sequence. */
  class RunCounter {
    var next: word

    constructor ()
      ensures next == Counter(0)
    {
      next := 1;
    }

    method MakeRunId() returns (id: string)
      modifies this
      ensures id == RunId(old(next))
      ensures forall i: nat :: old(next) == Counter(i) ==> id == RunIdAt(i) && next == Counter(i + 1)
    {
      id := RunId(next);
      ghost var was := next;
      next := if next == WORD - 1 then 0 else next + 1;
      forall i: nat | was == Counter(i) ensures next == Counter(i + 1) {
        NextWord(1 + i);
      }
    }
  }

  /** The counter before the run that is started after `i` others. */
  function Counter(i: nat): (n: word)
  {
    (1 + i) % WORD
  }

  function RunIdAt(i: nat): (id: string)
  {
    RunId(Counter(i))
  }

  lemma {:induction false} RunIdInjective(m: word, n: word)
    requires RunId(m) == RunId(n)
    ensures m == n
  {
    assert RunId(m)[4..] == Decimal(m) && RunId(n)[4..] == Decimal(n);
    DecimalInjective(m, n);
  }

  lemma {:induction false} NextWord(i: nat)
    ensures (1 + i) % WORD == if i % WORD == WORD - 1 then 0 else i % WORD + 1
  {
  }

  /** Run ids repeat exactly when the counter has gone all the way round. */
  lemma {:induction false} RunIdsRepeatExactly(i: nat, j: nat)
    ensures RunIdAt(i) == RunIdAt(j) <==> i % WORD == j % WORD
  {
    hide RunId;
    NextWord(i);
    NextWord(j);
    if RunIdAt(i) == RunIdAt(j) { RunIdInjective(Counter(i), Counter(j)); }
  }

  // ---- made-up call ids ----

  function GeminiId(run: string, messages: nat, index: nat): (id: string)
  {
    "gemini_call_" + run + "_" + Decimal(messages) + "_" + Decimal(index)
  }

  function LegacyId(run: string, messages: nat): (id: string)
  {
    "legacy_function_call_" + run + "_" + Decimal(messages)
  }

  /** What ids look like. */
  lemma {:induction false} IdForms()
    ensures RunIdAt(0) == "run-1" && RunIdAt(41) == "run-42"
    ensures GeminiId("run-1", 3, 0) == "gemini_call_run-1_3_0"
    ensures LegacyId("run-1", 5) == "legacy_function_call_run-1_5"
  {
    assert Decimal(0) == "0" && Decimal(1) == "1" && Decimal(3) == "3" && Decimal(5) == "5" && Decimal(4) == "4";
    assert Decimal(42) == Decimal(4) + "2";
  }

  /** A text is cut at its first separator in one way only. */
  lemma {:induction false} CutOnce(a: string, b: string, c: string, d: string, separator: char)
    requires a + [separator] + b == c + [separator] + d
    requires separator !in a && separator !in c
    ensures a == c && b == d
  {
    var text := a + [separator] + b;
    assert text[|a|] == separator && text[|c|] == separator;
    assert forall i | 0 <= i < |a| :: text[i] == a[i] && a[i] != separator;
    assert forall i | 0 <= i < |c| :: text[i] == c[i] && c[i] != separator;
    assert a == text[..|a|] && c == text[..|c|];
    assert b == text[|a| + 1..] && d == text[|c| + 1..];
  }

  lemma {:induction false} NoUnderscore(n: nat)
    ensures '_' !in Decimal(n)
    ensures n < WORD ==> '_' !in RunId(n)
  {
  }

  lemma {:induction false} GeminiIdInjective(r: word, m: nat, x: nat, s: word, n: nat, y: nat)
    requires GeminiId(RunId(r), m, x) == GeminiId(RunId(s), n, y)
    ensures r == s && m == n && x == y
  {
    var front := "gemini_call_";
    var back, other := Decimal(m) + "_" + Decimal(x), Decimal(n) + "_" + Decimal(y);
    assert GeminiId(RunId(r), m, x)[|front|..] == RunId(r) + ['_'] + back;
    assert GeminiId(RunId(s), n, y)[|front|..] == RunId(s) + ['_'] + other;
    NoUnderscore(r);
    NoUnderscore(s);
    CutOnce(RunId(r), back, RunId(s), other, '_');
    NoUnderscore(m);
    NoUnderscore(n);
    CutOnce(Decimal(m), Decimal(x), Decimal(n), Decimal(y), '_');
    RunIdInjective(r, s);
    DecimalInjective(m, n);
    DecimalInjective(x, y);
  }

  lemma {:induction false} LegacyIdInjective(r: word, m: nat, s: word, n: nat)
    requires LegacyId(RunId(r), m) == LegacyId(RunId(s), n)
    ensures r == s && m == n
  {
    var front := "legacy_function_call_";
    assert LegacyId(RunId(r), m)[|front|..] == RunId(r) + ['_'] + Decimal(m);
    assert LegacyId(RunId(s), n)[|front|..] == RunId(s) + ['_'] + Decimal(n);
    NoUnderscore(r);
    NoUnderscore(s);
    CutOnce(RunId(r), Decimal(m), RunId(s), Decimal(n), '_');
    RunIdInjective(r, s);
    DecimalInjective(m, n);
  }

  // ---- over all runs of a process ----

  /** One run: on any session, with any provider and any tools. */
  datatype Started = Started(
    config: Generation.Config, oracle: Generation.Oracle, history: seq<Message>, input: Message)

  /** Where an id was made up: in which run, which of its rounds and, for Gemini, at which
      of the response's calls. A response has at most one legacy call. */
  datatype Site = GeminiSite(run: nat, round: nat, index: nat) | LegacySite(run: nat, round: nat)

  /** The histories the provider was asked with in the rounds of a run. */
  ghost function RequestsOf(started: Started): (requests: seq<seq<Message>>)
    requires started.config.maxRounds >= 1
  {
    Generation.Generate(started.config, started.oracle, started.history, started.input).1.requests
  }

  ghost predicate StartedOk(runs: seq<Started>)
  {
    forall i | 0 <= i < |runs| ::
      Generation.ConfigOk(runs[i].config) && Generation.Faithful(runs[i].config, runs[i].oracle)
  }

  ghost predicate OnSite(runs: seq<Started>, site: Site)
    requires StartedOk(runs)
  {
    site.run < |runs| && site.round < |RequestsOf(runs[site.run])|
  }

  ghost function IdAt(runs: seq<Started>, site: Site): (id: string)
    requires StartedOk(runs) && OnSite(runs, site)
  {
    IdWith(site, |RequestsOf(runs[site.run])[site.round]|)
  }

  function IdWith(site: Site, messages: nat): (id: string)
  {
    match site
    case GeminiSite(run, _, index) => GeminiId(RunIdAt(run), messages, index)
    case LegacySite(run, _) => LegacyId(RunIdAt(run), messages)
  }

  lemma {:induction false} IdWithInjective(a: Site, m: nat, b: Site, n: nat)
    requires IdWith(a, m) == IdWith(b, n)
    ensures m == n && RunIdAt(a.run) == RunIdAt(b.run)
    ensures a.GeminiSite? <==> b.GeminiSite?
    ensures a.GeminiSite? && b.GeminiSite? ==> a.index == b.index
  {
    var r, s := Counter(a.run), Counter(b.run);
    assert a.GeminiSite? <==> IdWith(a, m)[0] == 'g';
    assert b.GeminiSite? <==> IdWith(b, n)[0] == 'g';
    hide RunId;
    if a.GeminiSite? {
      GeminiIdInjective(r, m, a.index, s, n, b.index);
    } else {
      LegacyIdInjective(r, m, s, n);
    }
  }

  /** The rounds of one run ask with histories of different lengths. */
  lemma {:induction false} LengthsDiffer(started: Started, i: nat, j: nat)
    requires Generation.ConfigOk(started.config) && Generation.Faithful(started.config, started.oracle)
    requires i < |RequestsOf(started)| && j < |RequestsOf(started)|
    ensures |RequestsOf(started)[i]| == |RequestsOf(started)[j]| <==> i == j
  {
    Generation.EveryRun(started.config, started.oracle, started.history, started.input);
    hide Generation.Generate, Generation.HistoryOk, Generation.UsageOk, Generation.Faithful;
  }

  /** Two ids made up anywhere in a process, in whatever runs, rounds and calls, are equal
      only if they are the same one, or the run counter has gone all the way round between
      their runs. */
  lemma {:induction false} NeverRepeat(runs: seq<Started>, a: Site, b: Site)
    requires StartedOk(runs) && OnSite(runs, a) && OnSite(runs, b)
    ensures IdAt(runs, a) == IdAt(runs, b) && a != b ==> a.run != b.run && a.run % WORD == b.run % WORD
    ensures |runs| <= WORD ==> (IdAt(runs, a) == IdAt(runs, b) <==> a == b)
  {
    hide RequestsOf, Generation.Faithful, IdWith, RunIdAt;
    if IdAt(runs, a) == IdAt(runs, b) {
      var m, n := |RequestsOf(runs[a.run])[a.round]|, |RequestsOf(runs[b.run])[b.round]|;
      IdWithInjective(a, m, b, n);
      RunIdsRepeatExactly(a.run, b.run);
      if a.run == b.run { LengthsDiffer(runs[a.run], a.round, b.round); }
    }
  }
}
