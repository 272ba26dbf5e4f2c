/** Replacing configured secrets in untrusted text, and in JSON trees. */
module Redaction {
  import opened Json

  const WORD := "REDACTED"
  const MARKER := "[" + WORD + "]"

  // ---- occurrences ----

  predicate At(text: string, i: nat, needle: string)
  {
    i + |needle| <= |text| && text[i..i + |needle|] == needle
  }

  ghost predicate Occurs(needle: string, text: string)
  {
    exists i: nat :: At(text, i, needle)
  }

  predicate Matches(rest: string, secret: string)
  {
    secret != [] && secret <= rest
  }

  ghost predicate IsLongest(rest: string, secrets: set<string>, secret: string)
  {
    secret in secrets && Matches(rest, secret)
    && forall other | other in secrets && Matches(rest, other) :: |other| <= |secret|
  }

  /** The longest secret that starts `rest`. Two secrets of one length that both
      start it are the same string. */
  ghost function Longest(rest: string, secrets: set<string>): (secret: Option<string>)
    ensures secret.Some? ==> IsLongest(rest, secrets, secret.value)
    ensures secret.None? ==> forall s | s in secrets :: !Matches(rest, s)
    decreases |secrets|
  {
    if secrets == {} then None
    else
      var s :| s in secrets;
      var best := Longest(rest, secrets - {s});
      if Matches(rest, s) && (best.None? || |best.value| < |s|) then Some(s) else best
  }

  lemma {:induction false} LongestUnique(rest: string, secrets: set<string>, secret: string)
    requires IsLongest(rest, secrets, secret)
    ensures Longest(rest, secrets) == Some(secret)
  {
    var found := Longest(rest, secrets).value;
    assert found == rest[..|found|] && secret == rest[..|secret|];
  }

  // ---- the declarative meaning: a leftmost-longest segmentation ----

  datatype Segment = Kept(c: char) | Cut(secret: string)

  function SourceOf(segment: Segment): (text: string)
  {
    match segment
    case Kept(c) => [c]
    case Cut(secret) => secret
  }

  function Source(segments: seq<Segment>): (text: string)
  {
    if segments == [] then [] else SourceOf(segments[0]) + Source(segments[1..])
  }

  function RenderOf(segment: Segment): (text: string)
  {
    if segment.Kept? then [segment.c] else MARKER
  }

  function Render(segments: seq<Segment>): (text: string)
  {
    if segments == [] then [] else RenderOf(segments[0]) + Render(segments[1..])
  }

  /** A character is kept only where no secret starts, and what is cut is the
      longest secret that starts there. */
  ghost predicate Fits(segment: Segment, rest: string, secrets: set<string>)
  {
    match segment
    case Kept(_) => forall s | s in secrets :: !Matches(rest, s)
    case Cut(secret) => IsLongest(rest, secrets, secret)
  }

  ghost predicate LeftmostLongest(input: string, secrets: set<string>, segments: seq<Segment>)
  {
    Source(segments) == input
    && forall k | 0 <= k < |segments| :: Fits(segments[k], Source(segments[k..]), secrets)
  }

  ghost function Segments(input: string, secrets: set<string>): (segments: seq<Segment>)
    decreases |input|
  {
    if input == [] then []
    else
      match Longest(input, secrets)
      case None => [Kept(input[0])] + Segments(input[1..], secrets)
      case Some(secret) => [Cut(secret)] + Segments(input[|secret|..], secrets)
  }

  /** What redaction of `input` has to produce. */
  ghost function Redacted(input: string, secrets: set<string>): (text: string)
  {
    Render(Segments(input, secrets))
  }

  /** The first segment, and the rest as the segments of what follows it. */
  lemma {:induction false} FirstSegment(input: string, secrets: set<string>) returns (first: Segment, rest: string)
    requires input != []
    ensures Segments(input, secrets) == [first] + Segments(rest, secrets)
    ensures Segments(input, secrets)[0] == first && Segments(input, secrets)[1..] == Segments(rest, secrets)
    ensures Redacted(input, secrets) == RenderOf(first) + Redacted(rest, secrets)
    ensures first == match Longest(input, secrets) case None => Kept(input[0]) case Some(s) => Cut(s)
    ensures Fits(first, input, secrets)
    ensures SourceOf(first) != [] && input == SourceOf(first) + rest
    ensures rest == input[|SourceOf(first)|..]
  {
    hide Longest, IsLongest;
    var found := Longest(input, secrets);
    first := if found.None? then Kept(input[0]) else Cut(found.value);
    if found.Some? { LongestIsPrefix(input, secrets); }
    rest := input[|SourceOf(first)|..];
    assert Segments(input, secrets) == [first] + Segments(rest, secrets);
    assert Segments(input, secrets)[1..] == Segments(rest, secrets);
  }

  lemma {:induction false} LongestIsPrefix(rest: string, secrets: set<string>)
    requires Longest(rest, secrets).Some?
    ensures var s := Longest(rest, secrets).value; s != [] && |s| <= |rest| && rest[..|s|] == s
  {
    assert IsLongest(rest, secrets, Longest(rest, secrets).value);
  }

  lemma {:induction false} FitsFromFirst(segments: seq<Segment>, secrets: set<string>)
    requires segments != []
    ensures (forall k | 0 <= k < |segments| :: Fits(segments[k], Source(segments[k..]), secrets))
            <==> Fits(segments[0], Source(segments), secrets)
                 && forall k | 0 <= k < |segments[1..]| :: Fits(segments[1..][k], Source(segments[1..][k..]), secrets)
  {
    hide Fits, Source;
    assert segments[0..] == segments;
    assert forall k | 0 <= k < |segments[1..]| ::
        segments[1..][k] == segments[k + 1] && segments[1..][k..] == segments[k + 1..];
    if Fits(segments[0], Source(segments), secrets)
       && forall k | 0 <= k < |segments[1..]| :: Fits(segments[1..][k], Source(segments[1..][k..]), secrets)
    {
      forall k | 0 <= k < |segments| ensures Fits(segments[k], Source(segments[k..]), secrets) {
        if k > 0 { assert Fits(segments[1..][k - 1], Source(segments[1..][k - 1..]), secrets); }
      }
    }
  }

  lemma {:induction false} SegmentsFit(input: string, secrets: set<string>)
    ensures LeftmostLongest(input, secrets, Segments(input, secrets))
    decreases |input|
  {
    if input != [] {
      hide Segments, Fits;
      var first, rest := FirstSegment(input, secrets);
      SegmentsFit(rest, secrets);
      FitsFromFirst(Segments(input, secrets), secrets);
    }
  }

  /** The leftmost-longest segmentation exists and is unique, so `Redacted` is the
      declarative replacement and nothing else. */
  lemma {:induction false} SegmentationUnique(input: string, secrets: set<string>, segments: seq<Segment>)
    ensures LeftmostLongest(input, secrets, segments) <==> segments == Segments(input, secrets)
    decreases |segments|
  {
    SegmentsFit(input, secrets);
    if LeftmostLongest(input, secrets, segments) && segments != [] {
      hide Segments, Longest, IsLongest;
      FitsFromFirst(segments, secrets);
      var first, rest := FirstSegment(input, secrets);
      SameFirst(input, secrets, segments[0], first);
      assert rest == Source(segments[1..]);
      SegmentationUnique(rest, secrets, segments[1..]);
      assert segments == [first] + segments[1..];
    }
  }

  lemma {:induction false} SameFirst(input: string, secrets: set<string>, a: Segment, b: Segment)
    requires Fits(a, input, secrets) && Fits(b, input, secrets)
    requires SourceOf(a) <= input && SourceOf(b) <= input
    ensures a == b
  {
    assert a.Kept? ==> SourceOf(a)[0] == input[0];
    assert b.Kept? ==> SourceOf(b)[0] == input[0];
    if a.Cut? && b.Cut? {
      LongestUnique(input, secrets, a.secret);
      LongestUnique(input, secrets, b.secret);
    }
  }

  /** Neither the order of the secrets, nor duplicates, nor empty secrets matter:
      the result is a function of the set of nonempty ones. */
  lemma {:induction false} EmptySecretsIgnored(input: string, secrets: set<string>)
    ensures Redacted(input, secrets) == Redacted(input, secrets - {[]})
    decreases |input|
  {
    SegmentsFit(input, secrets);
    var segments := Segments(input, secrets);
    forall k | 0 <= k < |segments| ensures Fits(segments[k], Source(segments[k..]), secrets - {[]}) {
      assert Fits(segments[k], Source(segments[k..]), secrets);
    }
    SegmentationUnique(input, secrets - {[]}, segments);
  }

  // ---- the algorithm ----

  predicate Descending(values: seq<string>)
  {
    forall i, j | 0 <= i < j < |values| :: |values[i]| >= |values[j]|
  }

  /** Some ordering of the values by length, longest first. Which of several values of
      one length comes first is not promised. */
  method SortByLength(values: seq<string>) returns (ordered: seq<string>)
    ensures multiset(ordered) == multiset(values)
    ensures Descending(ordered)
  {
    ordered := [];
    for n := 0 to |values|
      invariant multiset(ordered) == multiset(values[..n])
      invariant Descending(ordered)
    {
      assert values[..n + 1] == values[..n] + [values[n]];
      hide Insert;
      ordered := Insert(ordered, values[n]);
    }
    assert values[..|values|] == values;
  }

  function Insert(ordered: seq<string>, value: string): (inserted: seq<string>)
    requires Descending(ordered)
    ensures multiset(inserted) == multiset(ordered) + multiset{value}
    ensures Descending(inserted)
    ensures inserted != [] && (inserted[0] == value || (ordered != [] && inserted[0] == ordered[0]))
    ensures ordered != [] && |ordered[0]| >= |value| ==> inserted[0] == ordered[0]
  {
    if ordered == [] || |ordered[0]| < |value| then
      [value] + ordered
    else
      var tail := Insert(ordered[1..], value);
      assert ordered == [ordered[0]] + ordered[1..];
      DescendingFrom(ordered[0], tail);
      [ordered[0]] + tail
  }

  lemma {:induction false} DescendingFrom(head: string, tail: seq<string>)
    requires Descending(tail) && (tail != [] ==> |head| >= |tail[0]|)
    ensures Descending([head] + tail)
  {
    forall j | 0 <= j < |tail| ensures |head| >= |tail[j]| {
      if j > 0 { assert |tail[0]| >= |tail[j]|; }
    }
  }

  ghost function Values(values: seq<string>): (all: set<string>)
  {
    set s | s in values
  }

  method FindMatch(ordered: seq<string>, input: string, index: nat) returns (found: Option<string>)
    requires Descending(ordered) && index < |input|
    ensures found == Longest(input[index..], Values(ordered))
  {
    var rest := input[index..];
    for i := 0 to |ordered|
      invariant forall j | 0 <= j < i :: !Matches(rest, ordered[j])
    {
      if ordered[i] != [] && index + |ordered[i]| <= |input|
         && input[index..index + |ordered[i]|] == ordered[i]
      {
        assert rest[..|ordered[i]|] == ordered[i];
        assert IsLongest(rest, Values(ordered), ordered[i]);
        LongestUnique(rest, Values(ordered), ordered[i]);
        return Some(ordered[i]);
      }
      assert index + |ordered[i]| <= |input| ==> rest[..|ordered[i]|] == input[index..index + |ordered[i]|];
    }
    found := None;
  }

  method RedactSensitiveValues(input: string, sensitive: seq<string>) returns (result: string)
    ensures result == Redacted(input, Values(sensitive))
  {
    var ordered := SortByLength(sensitive);
    SameValues(ordered, sensitive);
    hide Redacted, Longest, Descending, Values;
    ghost var secrets := Values(sensitive);
    EmptyInput(secrets);
    result := [];
    var index := 0;
    assert input[0..] == input;
    while index < |input|
      invariant 0 <= index <= |input|
      invariant Redacted(input, secrets) == result + Redacted(input[index..], secrets)
    {
      var found := FindMatch(ordered, input, index);
      NextSegment(input, index, secrets);
      ghost var before := result;
      if found.None? {
        result := result + [input[index]];
        index := index + 1;
        Regroup(before, [input[index - 1]], Redacted(input[index..], secrets));
      } else {
        result := result + MARKER;
        index := index + |found.value|;
        Regroup(before, MARKER, Redacted(input[index..], secrets));
      }
    }
    assert input[index..] == [];
  }

  lemma {:induction false} Regroup(a: string, b: string, c: string)
    ensures (a + b) + c == a + (b + c)
  {
  }

  lemma {:induction false} SameValues(a: seq<string>, b: seq<string>)
    requires multiset(a) == multiset(b)
    ensures Values(a) == Values(b)
  {
    assert forall s :: s in a <==> s in multiset(a);
    assert forall s :: s in b <==> s in multiset(b);
  }

  lemma {:induction false} NextSegment(input: string, index: nat, secrets: set<string>)
    requires index < |input|
    ensures match Longest(input[index..], secrets)
            case None =>
              Redacted(input[index..], secrets) == [input[index]] + Redacted(input[index + 1..], secrets)
            case Some(s) =>
              && index + |s| <= |input|
              && Redacted(input[index..], secrets) == MARKER + Redacted(input[index + |s|..], secrets)
  {
    hide Segments, Redacted, Longest, IsLongest;
    var first, rest := FirstSegment(input[index..], secrets);
    assert rest == input[index + |SourceOf(first)|..];
  }

  /** Collects a credential once; empty strings are never collected. */
  method AppendUniqueSecret(values: seq<string>, value: string) returns (appended: seq<string>)
    ensures Values(appended) == Values(values) + (if value == [] then {} else {value})
    ensures (forall i, j | 0 <= i < j < |values| :: values[i] != values[j])
            ==> forall i, j | 0 <= i < j < |appended| :: appended[i] != appended[j]
  {
    if value == [] { return values; }
    if value in values { return values; }
    appended := values + [value];
  }

  // ---- what redaction guarantees ----

  predicate BracketFree(secret: string)
  {
    '[' !in secret && ']' !in secret
  }

  ghost predicate Secret(s: string, secrets: set<string>)
  {
    s in secrets && s != []
  }

  /** Some secret can be read in the text. */
  ghost predicate Leaks(text: string, secrets: set<string>)
  {
    exists s :: Secret(s, secrets) && Occurs(s, text)
  }

  lemma {:induction false} EmptyInput(secrets: set<string>)
    ensures Redacted([], secrets) == []
  {
  }

  lemma {:induction false} OccursAfter(needle: string, front: string, back: string, i: nat)
    requires At(front + back, i, needle) && i >= |front|
    ensures At(back, i - |front|, needle)
  {
    assert (front + back)[i..i + |needle|] == back[i - |front|..i - |front| + |needle|];
  }

  /** A secret alone is replaced by these ten characters. */
  lemma {:induction false} SecretReplaced(secret: string)
    requires secret != []
    ensures Redacted(secret, {secret}) == "[REDACTED]"
  {
    assert MARKER == "[REDACTED]";
    assert secret + [] == secret;
    CutsFront(secret, [], {secret});
    EmptyInput({secret});
  }

  // ---- where a secret can survive ----

  /** Laid over the marker so that it starts `d` characters behind the marker's start, or
      before it, the text overlaps the marker and agrees with it there. */
  predicate TouchesAt(s: string, d: int)
  {
    -|s| < d < |MARKER|
    && forall i | 0 <= i < |s| && 0 <= d + i < |MARKER| :: s[i] == MARKER[d + i]
  }

  ghost predicate Touches(s: string)
  {
    exists d :: TouchesAt(s, d)
  }

  /** No secret starts in `front`, when `secret` follows it. */
  ghost predicate Clear(front: string, secret: string, secrets: set<string>)
  {
    forall u, k: nat | Secret(u, secrets) && k < |front| :: !At(front + secret, k, u)
  }

  /** A secret read at the start of the output, but not of the input, runs from kept
      characters into the first marker. */
  lemma {:induction false} KeptRun(input: string, secrets: set<string>, s: string) returns (k: nat, t: string)
    requires s <= Redacted(input, secrets) && !(s <= input)
    ensures k < |s| && Secret(t, secrets) && TouchesAt(s, 0 - k)
    ensures k + |t| <= |input| && s[..k] == input[..k] && input[k..k + |t|] == t
    ensures forall p, u | 0 <= p < k && u in secrets :: !Matches(input[p..], u)
    decreases |s|
  {
    hide Segments, Redacted, IsLongest, Longest, TouchesAt;
    if input == [] { EmptyInput(secrets); }
    var first, rest := FirstSegment(input, secrets);
    if first.Cut? {
      k, t := 0, first.secret;
      CutIsSecret(first, input, secrets);
      StartsInMarker(s, Redacted(rest, secrets), 0);
    } else {
      assert s[0] == Redacted(input, secrets)[0];
      assert s[1..] <= Redacted(rest, secrets);
      assert s == [s[0]] + s[1..];
      var j;
      j, t := KeptRun(rest, secrets, s[1..]);
      k := j + 1;
      KeptRunLonger(input, secrets, s, j, t);
    }
  }

  lemma {:induction false} CutIsSecret(first: Segment, input: string, secrets: set<string>)
    requires first.Cut? && Fits(first, input, secrets)
    ensures Secret(first.secret, secrets) && first.secret <= input
  {
  }

  lemma {:induction false} KeptRunLonger(input: string, secrets: set<string>, s: string, j: nat, t: string)
    requires input != [] && s != [] && s[0] == input[0] && j < |s| - 1 && TouchesAt(s[1..], 0 - j)
    requires j + |t| <= |input| - 1 && s[1..][..j] == input[1..][..j] && input[1..][j..j + |t|] == t
    requires forall u | u in secrets :: !Matches(input, u)
    requires forall p, u | 0 <= p < j && u in secrets :: !Matches(input[1..][p..], u)
    ensures TouchesAt(s, 0 - (j + 1)) && s[..j + 1] == input[..j + 1] && input[j + 1..j + 1 + |t|] == t
    ensures forall p, u | 0 <= p < j + 1 && u in secrets :: !Matches(input[p..], u)
  {
    forall i | 0 <= i < |s| && 0 <= i - (j + 1) < |MARKER| ensures s[i] == MARKER[i - (j + 1)] {
      assert s[1..][i - 1] == s[i];
    }
    assert s[..j + 1] == [s[0]] + s[1..][..j] && input[..j + 1] == [input[0]] + input[1..][..j];
    forall p, u | 0 <= p < j + 1 && u in secrets ensures !Matches(input[p..], u) {
      if p == 0 { assert input[0..] == input; } else { assert input[1..][p - 1..] == input[p..]; }
    }
  }

  /** Whatever the secrets look like: one that can be read in the output touches a marker
      there, and if it starts before the first marker it touches, it starts with characters
      that were kept in front of some secret. */
  lemma {:induction false} LeakTouches(input: string, secrets: set<string>, s: string, i: nat)
    returns (d: int, t: string)
    requires Secret(s, secrets) && At(Redacted(input, secrets), i, s)
    ensures TouchesAt(s, d) && Secret(t, secrets)
    ensures d < 0 ==> Clear(s[..-d], t, secrets)
    decreases |input|
  {
    hide Segments, Redacted, TouchesAt, Clear, IsLongest, Longest;
    if input == [] { EmptyInput(secrets); }
    var first, rest := FirstSegment(input, secrets);
    var front, back := RenderOf(first), Redacted(rest, secrets);
    if i >= |front| {
      OccursAfter(s, front, back, i);
      d, t := LeakTouches(rest, secrets, s, i - |front|);
    } else if first.Cut? {
      CutIsSecret(first, input, secrets);
      d, t := i, first.secret;
      StartsInMarker(s, back, i);
    } else {
      assert s == Redacted(input, secrets)[..|s|];
      assert !Matches(input, s);
      var k: int;
      k, t := KeptRun(input, secrets, s);
      d := -k;
      KeptIsClear(input, secrets, k, t);
    }
  }

  lemma {:induction false} StartsInMarker(s: string, back: string, i: nat)
    requires i < |MARKER| && s != [] && At(MARKER + back, i, s)
    ensures TouchesAt(s, i)
  {
    forall m | 0 <= m < |s| && i + m < |MARKER| ensures s[m] == MARKER[i + m] {
      assert s[m] == (MARKER + back)[i..i + |s|][m];
    }
  }

  lemma {:induction false} KeptIsClear(input: string, secrets: set<string>, k: nat, t: string)
    requires k + |t| <= |input| && input[k..k + |t|] == t
    requires forall p, u | 0 <= p < k && u in secrets :: !Matches(input[p..], u)
    ensures Clear(input[..k], t, secrets)
  {
    var front := input[..k];
    assert front + t == input[..k + |t|];
    forall u, p: nat | Secret(u, secrets) && p < k ensures !At(front + t, p, u) {
      assert !Matches(input[p..], u);
      assert p + |u| <= k + |t| ==> input[..k + |t|][p..p + |u|] == input[p..][..|u|];
    }
  }

  lemma {:induction false} SourceOfFirst(segments: seq<Segment>)
    requires segments != []
    ensures Source(segments[..0]) == []
    ensures forall k | 0 < k <= |segments| ::
              Source(segments[..k]) == SourceOf(segments[0]) + Source(segments[1..][..k - 1])
  {
    forall k | 0 < k <= |segments|
      ensures Source(segments[..k]) == SourceOf(segments[0]) + Source(segments[1..][..k - 1])
    {
      assert segments[..k][1..] == segments[1..][..k - 1];
    }
  }

  /** Every occurrence of a secret in the input meets a part that is cut out,
      whatever the secrets look like. */
  lemma {:induction false} EveryOccurrenceIsHit(input: string, secrets: set<string>, s: string, p: nat)
    returns (k: nat)
    requires Secret(s, secrets) && At(input, p, s)
    ensures var segments := Segments(input, secrets);
            && k < |segments| && segments[k].Cut?
            && var start := |Source(segments[..k])|;
               start < p + |s| && p < start + |segments[k].secret|
    decreases |input|
  {
    hide Segments, Longest, IsLongest, Redacted, Source;
    var first, rest := FirstSegment(input, secrets);
    var segments := Segments(input, secrets);
    var width := |SourceOf(first)|;
    SourceOfFirst(segments);
    if p < width {
      k := 0;
      if p == 0 {
        assert s == input[..|s|];
        assert Matches(input, s);
      }
    } else {
      assert rest[p - width..p - width + |s|] == input[p..p + |s|];
      var j := EveryOccurrenceIsHit(rest, secrets, s, p - width);
      k := j + 1;
      assert segments[k] == segments[1..][j];
    }
  }

  lemma {:induction false} LeakFurtherOn(front: string, back: string, secrets: set<string>)
    requires Leaks(back, secrets)
    ensures Leaks(front + back, secrets)
  {
    var s :| Secret(s, secrets) && Occurs(s, back);
    var i: nat :| At(back, i, s);
    AtFurther(s, front, back, i);
  }

  /** A text in which no secret occurs is left alone. */
  lemma {:induction false} NothingToRedact(input: string, secrets: set<string>)
    requires !Leaks(input, secrets)
    ensures Redacted(input, secrets) == input
    decreases |input|
  {
    if input != [] {
      hide Segments;
      var first, rest := FirstSegment(input, secrets);
      assert first.Cut? ==> At(input, 0, first.secret);
      assert first.Cut? ==> Secret(first.secret, secrets) && Occurs(first.secret, input);
      if Leaks(rest, secrets) { LeakFurtherOn(SourceOf(first), rest, secrets); }
      NothingToRedact(rest, secrets);
    }
  }

  lemma {:induction false} AtStart(front: string, back: string)
    ensures At(front + back, 0, front)
  {
  }

  lemma {:induction false} AtFurther(needle: string, front: string, back: string, i: nat)
    requires At(back, i, needle)
    ensures At(front + back, |front| + i, needle)
  {
    assert (front + back)[|front| + i..|front| + i + |needle|] == back[i..i + |needle|];
  }

  lemma {:induction false} CutShowsMarker(segments: seq<Segment>, k: nat) returns (i: nat)
    requires k < |segments| && segments[k].Cut?
    ensures At(Render(segments), i, MARKER)
  {
    var front, back := RenderOf(segments[0]), Render(segments[1..]);
    assert Render(segments) == front + back;
    if k == 0 {
      i := 0;
      AtStart(front, back);
    } else {
      hide RenderOf, At;
      var j := CutShowsMarker(segments[1..], k - 1);
      hide Render;
      i := |front| + j;
      AtFurther(MARKER, front, back, j);
    }
  }

  /** Every secret that touches the marker lies wholly inside it. */
  ghost predicate Predictable(secrets: set<string>)
  {
    forall s, d | Secret(s, secrets) && TouchesAt(s, d) :: 0 <= d && d + |s| <= |MARKER|
  }

  /** Exactly when secrets of a predictable list survive in redacted text: some secret is a
      part of the marker, and some secret had to be redacted. */
  lemma {:induction false} LeaksExactly(input: string, secrets: set<string>)
    requires Predictable(secrets)
    ensures Leaks(Redacted(input, secrets), secrets) <==> Leaks(MARKER, secrets) && Leaks(input, secrets)
  {
    hide Segments, Redacted;
    var output := Redacted(input, secrets);
    if Leaks(output, secrets) {
      var s :| Secret(s, secrets) && Occurs(s, output);
      var i: nat :| At(output, i, s);
      var d, t := LeakTouches(input, secrets, s, i);
      TouchesInside(s, d);
      if !Leaks(input, secrets) { NothingToRedact(input, secrets); }
    }
    if Leaks(MARKER, secrets) && Leaks(input, secrets) {
      var s :| Secret(s, secrets) && Occurs(s, MARKER);
      RedactingSomethingShows(input, secrets, s);
    }
  }

  lemma {:induction false} TouchesInside(s: string, d: int)
    requires TouchesAt(s, d) && 0 <= d && d + |s| <= |MARKER|
    ensures At(MARKER, d, s)
  {
    assert forall i | 0 <= i < |s| :: s[i] == MARKER[d..d + |s|][i];
  }

  lemma {:induction false} RedactingSomethingShows(input: string, secrets: set<string>, s: string)
    requires Leaks(input, secrets) && Occurs(s, MARKER)
    ensures Occurs(s, Redacted(input, secrets))
  {
    hide Segments;
    var t :| Secret(t, secrets) && Occurs(t, input);
    var p: nat :| At(input, p, t);
    var k := EveryOccurrenceIsHit(input, secrets, t, p);
    var i := CutShowsMarker(Segments(input, secrets), k);
    var j: nat :| At(MARKER, j, s);
    OccursWithin(s, MARKER, Redacted(input, secrets), i, j);
  }

  /** Where no secret touches the marker the result shows none, anywhere, and redacting it
      again changes nothing. */
  lemma {:induction false} UntouchedIsClean(input: string, secrets: set<string>)
    requires forall s | Secret(s, secrets) :: !Touches(s)
    ensures !Leaks(Redacted(input, secrets), secrets)
    ensures Redacted(Redacted(input, secrets), secrets) == Redacted(input, secrets)
  {
    hide Segments, Redacted, TouchesAt;
    var output := Redacted(input, secrets);
    if Leaks(output, secrets) {
      var s :| Secret(s, secrets) && Occurs(s, output);
      SurvivorTouches(input, secrets, s);
    }
    NothingToRedact(output, secrets);
  }

  lemma {:induction false} SurvivorTouches(input: string, secrets: set<string>, s: string)
    requires Secret(s, secrets) && Occurs(s, Redacted(input, secrets))
    ensures Touches(s)
  {
    hide Redacted, TouchesAt;
    var i: nat :| At(Redacted(input, secrets), i, s);
    var d, t := LeakTouches(input, secrets, s, i);
    assert TouchesAt(s, d);
  }

  /** A bracket-free text touches the marker only inside its word. */
  lemma {:induction false} BracketFreeTouches(s: string, d: int)
    requires BracketFree(s) && TouchesAt(s, d)
    ensures 1 <= d && d + |s| <= 1 + |WORD| && At(WORD, d - 1, s)
  {
    if d <= 0 || d + |s| > 9 { HitsBracket(s, d); }
    assert forall i | 0 <= i < |s| :: WORD[d - 1 + i] == MARKER[d + i] == s[i];
    assert s == WORD[d - 1..d - 1 + |s|];
  }

  lemma {:induction false} HitsBracket(s: string, d: int)
    requires TouchesAt(s, d) && (d <= 0 || d + |s| > 9)
    ensures !BracketFree(s)
  {
    assert MARKER[0] == '[' && MARKER[9] == ']' && |MARKER| == 10;
    if d <= 0 { assert s[0 - d] == MARKER[0]; } else { assert s[9 - d] == MARKER[9]; }
  }

  /** Lists without brackets are predictable, and part of the marker is then part of its word. */
  lemma {:induction false} BracketFreeIsPredictable(secrets: set<string>)
    requires forall s | s in secrets :: BracketFree(s)
    ensures Predictable(secrets)
    ensures Leaks(MARKER, secrets) <==> Leaks(WORD, secrets)
  {
    hide TouchesAt;
    forall s, d | Secret(s, secrets) && TouchesAt(s, d) ensures 0 <= d && d + |s| <= |MARKER| {
      BracketFreeTouches(s, d);
    }
    if Leaks(MARKER, secrets) {
      var s :| Secret(s, secrets) && Occurs(s, MARKER);
      var d: nat :| At(MARKER, d, s);
      assert MARKER == MARKER + [];
      StartsInMarker(s, [], d);
      BracketFreeTouches(s, d);
    }
    if Leaks(WORD, secrets) {
      var s :| Secret(s, secrets) && Occurs(s, WORD);
      var j: nat :| At(WORD, j, s);
      assert At(MARKER, 1, WORD);
      OccursWithin(s, WORD, MARKER, 1, j);
    }
  }

  /** Brackets alone do no harm: this secret has one and never touches the marker. */
  lemma {:induction false} BracketsCanBeSafe()
    ensures !Touches("a[b")
  {
    var s := "a[b";
    assert forall c | c in MARKER :: c != 'a';
    forall d | -|s| < d < |MARKER| ensures !TouchesAt(s, d) {
      if d >= 0 {
        assert MARKER[d] in MARKER && s[0] != MARKER[d + 0];
      } else {
        assert s[2] != MARKER[d + 2];
      }
    }
  }

  // ---- what leaks, leaks in a short part of the input ----

  lemma {:induction false} SourceAppend(front: seq<Segment>, back: seq<Segment>)
    ensures Source(front + back) == Source(front) + Source(back)
  {
    if front == [] {
      assert front + back == back;
    } else {
      assert (front + back)[1..] == front[1..] + back;
      SourceAppend(front[1..], back);
    }
  }

  lemma {:induction false} RenderAppend(front: seq<Segment>, back: seq<Segment>)
    ensures Render(front + back) == Render(front) + Render(back)
  {
    if front == [] {
      assert front + back == back;
    } else {
      assert (front + back)[1..] == front[1..] + back;
      RenderAppend(front[1..], back);
    }
  }

  /** What fits in front of a text fits in front of any part of it that still holds it. */
  lemma {:induction false} FitsShorter(segment: Segment, front: string, back: string, secrets: set<string>)
    requires Fits(segment, front + back, secrets) && SourceOf(segment) <= front
    ensures Fits(segment, front, secrets)
  {
    forall s | s in secrets && Matches(front, s) ensures Matches(front + back, s) {
      assert (front + back)[..|s|] == front[..|s|];
    }
  }

  /** Cut at the boundaries of its segments, a text keeps its segmentation. */
  lemma {:induction false} WindowSegments(input: string, secrets: set<string>, i: nat, j: nat)
    requires i <= j <= |Segments(input, secrets)|
    ensures var window := Segments(input, secrets)[i..j];
            Segments(Source(window), secrets) == window && Redacted(Source(window), secrets) == Render(window)
  {
    hide Segments, Fits, Redacted;
    SegmentsFit(input, secrets);
    var segments := Segments(input, secrets);
    var window := segments[i..j];
    forall k | 0 <= k < |window| ensures Fits(window[k], Source(window[k..]), secrets) {
      assert window[k] == segments[i + k] && segments[i + k..] == window[k..] + segments[j..];
      SourceAppend(window[k..], segments[j..]);
      FitsShorter(window[k], Source(window[k..]), Source(segments[j..]), secrets);
    }
    SegmentationUnique(Source(window), secrets, window);
    assert Redacted(Source(window), secrets) == Render(window) by { IsRendered(Source(window), secrets); }
  }

  lemma {:induction false} IsRendered(input: string, secrets: set<string>)
    ensures Redacted(input, secrets) == Render(Segments(input, secrets))
  {
  }

  /** A text that starts in the first segment is spelled by as many as it has characters. */
  lemma {:induction false} SpelledByFew(segments: seq<Segment>, p: nat, s: string) returns (n: nat)
    requires s != [] && segments != [] && p < |RenderOf(segments[0])| && At(Render(segments), p, s)
    ensures n <= |s| && n <= |segments| && At(Render(segments[..n]), p, s)
    decreases |segments|
  {
    var first, rest := RenderOf(segments[0]), Render(segments[1..]);
    assert Render(segments) == first + rest;
    if p + |s| <= |first| {
      n := 1;
      assert segments[..1][1..] == [] && first + [] == first;
      assert Render(segments[..1]) == first;
      assert first[p..p + |s|] == (first + rest)[p..p + |s|];
    } else {
      var done := |first| - p;
      var left := s[done..];
      assert rest[..|left|] == (first + rest)[p..p + |s|][done..];
      assert rest != [] && segments[1..] != [];
      var m := SpelledByFew(segments[1..], 0, left);
      n := m + 1;
      assert segments[..n][0] == segments[0] && segments[..n][1..] == segments[1..][..m];
      assert Render(segments[..n]) == first + Render(segments[1..][..m]);
      hide Render;
      SplitOccurrence(first, Render(segments[1..][..m]), rest, p, s, done);
    }
  }

  lemma {:induction false} SplitOccurrence(first: string, part: string, rest: string, p: nat, s: string, done: nat)
    requires done <= |s| && p + done == |first| && At(first + rest, p, s) && At(part, 0, s[done..])
    ensures At(first + part, p, s)
  {
    forall i | 0 <= i < |s| ensures (first + part)[p + i] == s[i] {
      assert s[i] == (first + rest)[p..p + |s|][i];
      if i >= done { assert part[i - done] == part[0..|s| - done][i - done] == s[done..][i - done]; }
    }
  }

  /** The text is shown by at most so many segments as it has characters. */
  lemma {:induction false} ShownByFew(segments: seq<Segment>, p: nat, s: string) returns (i: nat, j: nat)
    requires At(Render(segments), p, s) && s != []
    ensures i <= j <= |segments| && j - i <= |s| && Occurs(s, Render(segments[i..j]))
    decreases |segments|
  {
    var first, rest := RenderOf(segments[0]), Render(segments[1..]);
    assert Render(segments) == first + rest;
    if p < |first| {
      i := 0;
      j := SpelledByFew(segments, p, s);
      assert segments[i..j] == segments[..j];
    } else {
      hide Render;
      OccursAfter(s, first, rest, p);
      i, j := ShownByFew(segments[1..], p - |first|, s);
      assert segments[1..][i..j] == segments[i + 1..j + 1];
      i, j := i + 1, j + 1;
    }
  }

  /** Redacting the part of the input from segment `i` up to segment `j` shows the text. */
  ghost predicate ShownIn(input: string, secrets: set<string>, s: string, i: nat, j: nat)
  {
    i <= j <= |Segments(input, secrets)| && Occurs(s, Redacted(Source(Segments(input, secrets)[i..j]), secrets))
  }

  /** For any list: a secret can be read in the result exactly when it can be read in what
      becomes of a part of the input of at most as many segments as the secret has
      characters. */
  lemma {:induction false} LeakIsLocal(input: string, secrets: set<string>, s: string)
    requires Secret(s, secrets)
    ensures Occurs(s, Redacted(input, secrets))
            <==> exists i: nat, j: nat | j <= i + |s| :: ShownIn(input, secrets, s, i, j)
  {
    hide ShownIn, Redacted, Occurs;
    if Occurs(s, Redacted(input, secrets)) { var i, j := ShownSomewhere(input, secrets, s); }
    if i: nat, j: nat :| j <= i + |s| && ShownIn(input, secrets, s, i, j) { ShownInWhole(input, secrets, s, i, j); }
  }

  lemma {:induction false} ShownSomewhere(input: string, secrets: set<string>, s: string) returns (i: nat, j: nat)
    requires Secret(s, secrets) && Occurs(s, Redacted(input, secrets))
    ensures j <= i + |s| && ShownIn(input, secrets, s, i, j)
  {
    IsRendered(input, secrets);
    hide Segments, Redacted;
    var segments := Segments(input, secrets);
    var p: nat :| At(Render(segments), p, s);
    hide Occurs, At;
    i, j := ShownByFew(segments, p, s);
    WindowSegments(input, secrets, i, j);
  }

  lemma {:induction false} ShownInWhole(input: string, secrets: set<string>, s: string, i: nat, j: nat)
    requires ShownIn(input, secrets, s, i, j)
    ensures Occurs(s, Redacted(input, secrets))
  {
    IsRendered(input, secrets);
    hide Segments, Redacted, Occurs;
    var segments := Segments(input, secrets);
    WindowSegments(input, secrets, i, j);
    var window := segments[i..j];
    assert segments == segments[..i] + (window + segments[j..]);
    RenderAppend(segments[..i], window + segments[j..]);
    RenderAppend(window, segments[j..]);
    hide Render;
    OccursBefore(s, Render(window), Render(segments[j..]));
    OccursFurther(s, Render(segments[..i]), Render(window) + Render(segments[j..]));
  }

  lemma {:induction false} OccursBefore(s: string, front: string, back: string)
    requires Occurs(s, front)
    ensures Occurs(s, front + back)
  {
    var i: nat :| At(front, i, s);
    assert (front + back)[i..i + |s|] == front[i..i + |s|];
    assert At(front + back, i, s);
  }

  /** Segments are no longer than the longest secret. */
  lemma {:induction false} SourceBound(segments: seq<Segment>, longest: nat)
    requires longest >= 1 && forall k | 0 <= k < |segments| :: |SourceOf(segments[k])| <= longest
    ensures |Source(segments)| <= |segments| * longest
  {
    if segments != [] {
      assert forall k | 0 <= k < |segments[1..]| :: segments[1..][k] == segments[k + 1];
      SourceBound(segments[1..], longest);
      assert |segments| * longest == |segments[1..]| * longest + longest;
    }
  }

  lemma {:induction false} SegmentBound(input: string, secrets: set<string>, longest: nat, k: nat)
    requires longest >= 1 && forall s | s in secrets :: |s| <= longest
    requires k < |Segments(input, secrets)|
    ensures |SourceOf(Segments(input, secrets)[k])| <= longest
  {
    SegmentsFit(input, secrets);
    hide Segments;
    assert Fits(Segments(input, secrets)[k], Source(Segments(input, secrets)[k..]), secrets);
  }

  /** No text shows a secret of the list once redacted. */
  ghost predicate SafeForTexts(secrets: set<string>)
  {
    forall input :: !Leaks(Redacted(input, secrets), secrets)
  }

  /** No text up to a length does. */
  ghost predicate SafeUpTo(secrets: set<string>, length: nat)
  {
    forall input | |input| <= length :: !Leaks(Redacted(input, secrets), secrets)
  }

  /** Any list is safe for all texts exactly when it is for those no longer than the square
      of the length of its longest secret. */
  lemma {:induction false} SafeExactly(secrets: set<string>, longest: nat)
    requires forall s | s in secrets :: |s| <= longest
    ensures SafeForTexts(secrets) <==> SafeUpTo(secrets, longest * longest)
  {
    hide Redacted;
    if !SafeForTexts(secrets) {
      var input :| Leaks(Redacted(input, secrets), secrets);
      var short := ShortLeak(input, secrets, longest);
    }
  }

  lemma {:induction false} ShortLeak(input: string, secrets: set<string>, longest: nat) returns (short: string)
    requires forall s | s in secrets :: |s| <= longest
    requires Leaks(Redacted(input, secrets), secrets)
    ensures |short| <= longest * longest && Leaks(Redacted(short, secrets), secrets)
  {
    hide Redacted, Segments, Source;
    var s :| Secret(s, secrets) && Occurs(s, Redacted(input, secrets));
    LeakIsLocal(input, secrets, s);
    var i: nat, j: nat :| j <= i + |s| && ShownIn(input, secrets, s, i, j);
    var segments := Segments(input, secrets);
    var window := segments[i..j];
    short := Source(window);
    forall k | 0 <= k < |window| ensures |SourceOf(window[k])| <= longest {
      SegmentBound(input, secrets, longest, i + k);
    }
    SourceBound(window, longest);
    Product(|window|, |s|, longest);
  }

  lemma {:induction false} Product(n: nat, m: nat, longest: nat)
    requires n <= m <= longest
    ensures n * longest <= longest * longest
  {
  }

  // ---- which lists are safe for every input ----

  /** The marker stands inside the secret, with more of it on either side. */
  predicate Surrounds(s: string)
  {
    exists i | 0 < i < |s| - |MARKER| :: At(s, i, MARKER)
  }

  /** No other secret is a part of this one. */
  ghost predicate Minimal(s: string, secrets: set<string>)
  {
    forall u | Secret(u, secrets) && Occurs(u, s) :: u == s
  }

  /** Laid over the marker at `d`, a secret can be spelled: it starts inside the marker, or
      what it has in front of the marker is kept in front of some secret. */
  ghost predicate ExposedAt(s: string, d: int, secrets: set<string>)
  {
    && Secret(s, secrets) && Minimal(s, secrets) && TouchesAt(s, d)
    && (d < 0 ==> exists t :: Secret(t, secrets) && Clear(s[..-d], t, secrets))
  }

  ghost predicate Exposed(secrets: set<string>)
  {
    exists s, d :: ExposedAt(s, d, secrets)
  }

  lemma {:induction false} MinimalPart(s: string, secrets: set<string>) returns (m: string)
    requires Secret(s, secrets)
    ensures Secret(m, secrets) && Minimal(m, secrets) && Occurs(m, s)
    decreases |s|
  {
    if Minimal(s, secrets) {
      m := s;
      assert At(s, 0, s);
    } else {
      var u :| Secret(u, secrets) && Occurs(u, s) && u != s;
      var j: nat :| At(s, j, u);
      assert |u| == |s| ==> u == s;
      m := MinimalPart(u, secrets);
      var i: nat :| At(u, i, m);
      OccursWithin(m, u, s, j, i);
    }
  }

  /** For any list at all: what leaks for some input is exposed. */
  lemma {:induction false} LeakIsExposed(input: string, secrets: set<string>)
    requires Leaks(Redacted(input, secrets), secrets)
    ensures Exposed(secrets)
  {
    hide Redacted, TouchesAt, Clear, Minimal;
    var output := Redacted(input, secrets);
    var s :| Secret(s, secrets) && Occurs(s, output);
    var i: nat :| At(output, i, s);
    var m := MinimalPart(s, secrets);
    var j: nat :| At(s, j, m);
    OccursWithin(m, s, output, i, j);
    var d, t := LeakTouches(input, secrets, m, i + j);
    assert ExposedAt(m, d, secrets);
  }

  /** Of secrets that start the same text none is longer than the longest of the list. */
  lemma {:induction false} LongestSecret(secrets: set<string>) returns (t: string)
    requires exists s :: Secret(s, secrets)
    ensures Secret(t, secrets) && forall u | u in secrets :: |u| <= |t|
    decreases |secrets|
  {
    var s :| Secret(s, secrets);
    var others := secrets - {s};
    if exists u :: Secret(u, others) {
      var best := LongestSecret(others);
      t := if |best| < |s| then s else best;
      assert forall u | u in secrets :: u == s || u in others;
    } else {
      t := s;
      forall u | u in secrets ensures |u| <= |t| {
        assert u != s ==> u in others && !Secret(u, others);
      }
    }
  }

  /** A text in which no secret starts is kept in front of what follows it. */
  lemma {:induction false} KeepsFront(front: string, back: string, secrets: set<string>)
    requires forall p, u | 0 <= p < |front| && u in secrets :: !Matches((front + back)[p..], u)
    ensures Redacted(front + back, secrets) == front + Redacted(back, secrets)
    decreases |front|
  {
    hide Segments, Redacted, IsLongest;
    if front == [] {
      assert front + back == back;
    } else {
      var text := front + back;
      assert text[0..] == text;
      var first, rest := FirstSegment(text, secrets);
      assert first == Kept(text[0]) by {
        if Longest(text, secrets).Some? { LongestIsPrefix(text, secrets); LongestIsMatch(text, secrets); }
      }
      assert rest == front[1..] + back;
      forall p, u | 0 <= p < |front[1..]| && u in secrets ensures !Matches((front[1..] + back)[p..], u) {
        assert (front[1..] + back)[p..] == text[p + 1..];
      }
      KeepsFront(front[1..], back, secrets);
    }
  }

  lemma {:induction false} LongestIsMatch(text: string, secrets: set<string>)
    requires Longest(text, secrets).Some?
    ensures Longest(text, secrets).value in secrets && Matches(text, Longest(text, secrets).value)
  {
  }

  /** A secret in front of `back`, with no longer one in its place, becomes a marker. */
  lemma {:induction false} CutsFront(t: string, back: string, secrets: set<string>)
    requires Secret(t, secrets)
    requires forall u | u in secrets && Matches(t + back, u) :: |u| <= |t|
    ensures Redacted(t + back, secrets) == MARKER + Redacted(back, secrets)
  {
    hide Segments, Redacted, Longest;
    assert t <= t + back;
    LongestUnique(t + back, secrets, t);
    var first, rest := FirstSegment(t + back, secrets);
  }

  /** What is exposed leaks for some input, unless it surrounds the marker. */
  lemma {:induction false} ExposedLeaks(secrets: set<string>, s: string, d: int) returns (input: string)
    requires ExposedAt(s, d, secrets) && !Surrounds(s)
    ensures Leaks(Redacted(input, secrets), secrets)
  {
    hide Redacted, Minimal, Clear, Surrounds;
    if d < 0 {
      input := ExposedInFront(secrets, s, d);
    } else {
      input := ExposedBehind(secrets, s, d);
    }
  }

  lemma {:induction false} ExposedInFront(secrets: set<string>, s: string, d: int) returns (input: string)
    requires ExposedAt(s, d, secrets) && !Surrounds(s) && d < 0
    ensures Leaks(Redacted(input, secrets), secrets)
  {
    hide Redacted, Minimal;
    var front := s[..-d];
    var t :| Secret(t, secrets) && Clear(front, t, secrets);
    input := front + t;
    forall p, u | 0 <= p < |front| && u in secrets ensures !Matches((front + t)[p..], u) {
      assert u != [] ==> !At(front + t, p, u);
      assert u <= (front + t)[p..] ==> (front + t)[p..p + |u|] == u;
    }
    KeepsFront(front, t, secrets);
    assert t + [] == t;
    CutsFront(t, [], secrets);
    EmptyInput(secrets);
    assert MARKER + [] == MARKER;
    assert Redacted(input, secrets) == front + MARKER;
    hide Clear;
    EndsInMarker(s, d);
    assert At(Redacted(input, secrets), 0, s);
    assert Occurs(s, Redacted(input, secrets));
  }

  lemma {:induction false} EndsInMarker(s: string, d: int)
    requires TouchesAt(s, d) && d < 0 && !Surrounds(s)
    ensures At(s[..-d] + MARKER, 0, s)
  {
    if d + |s| > |MARKER| {
      assert s[-d..-d + |MARKER|] == MARKER;
      assert At(s, -d, MARKER);
    }
    var text := s[..-d] + MARKER;
    forall i | 0 <= i < |s| ensures s[i] == text[i] {
      if i >= -d { assert s[i] == MARKER[d + i]; }
    }
  }

  lemma {:induction false} ExposedBehind(secrets: set<string>, s: string, d: int) returns (input: string)
    requires ExposedAt(s, d, secrets) && d >= 0
    ensures Leaks(Redacted(input, secrets), secrets)
  {
    hide Redacted, Clear;
    var t := LongestSecret(secrets);
    var n := if d + |s| <= |MARKER| then |s| else |MARKER| - d;
    var back := s[n..];
    input := t + back;
    CutsFront(t, back, secrets);
    forall p, u | 0 <= p < |back| && u in secrets ensures !Matches((back + [])[p..], u) {
      assert back + [] == back;
      if Matches(back[p..], u) { OccursInTail(s, n, p, u); }
    }
    KeepsFront(back, [], secrets);
    EmptyInput(secrets);
    assert back + [] == back;
    assert Redacted(input, secrets) == MARKER + back;
    hide Minimal;
    forall i | 0 <= i < |s| ensures s[i] == (MARKER + back)[d + i] {
      assert i < n ==> s[i] == MARKER[d + i];
    }
    assert (MARKER + back)[d..d + |s|] == s;
    assert At(Redacted(input, secrets), d, s);
    assert Occurs(s, Redacted(input, secrets));
  }

  lemma {:induction false} OccursInTail(s: string, n: nat, p: nat, u: string)
    requires n + p <= |s| && u <= s[n..][p..]
    ensures Occurs(u, s)
  {
    assert s[n..][p..][..|u|] == s[n + p..n + p + |u|];
    assert At(s, n + p, u);
  }

  /** Unless a secret surrounds the marker, a list is safe exactly when nothing in it is
      exposed; and where nothing is exposed it is safe in any case. */
  lemma {:induction false} ExposedExactly(secrets: set<string>)
    ensures !Exposed(secrets) ==> SafeForTexts(secrets)
    ensures (forall s | s in secrets :: !Surrounds(s)) ==> (!Exposed(secrets) <==> SafeForTexts(secrets))
  {
    hide Redacted, ExposedAt, Surrounds;
    forall input | Leaks(Redacted(input, secrets), secrets) ensures Exposed(secrets) {
      LeakIsExposed(input, secrets);
    }
    if Exposed(secrets) && forall s | s in secrets :: !Surrounds(s) {
      var s, d :| ExposedAt(s, d, secrets);
      assert s in secrets by { ExposedIsSecret(s, d, secrets); }
      var input := ExposedLeaks(secrets, s, d);
    }
  }

  lemma {:induction false} ExposedIsSecret(s: string, d: int, secrets: set<string>)
    requires ExposedAt(s, d, secrets)
    ensures s in secrets
  {
  }

  lemma {:induction false} OccursWithin(needle: string, part: string, text: string, i: nat, j: nat)
    requires At(text, i, part) && At(part, j, needle)
    ensures At(text, i + j, needle)
  {
    forall k | 0 <= k < |needle| ensures text[i + j + k] == needle[k] {
      assert needle[k] == part[j..j + |needle|][k] == part[j + k];
      assert part[j + k] == text[i..i + |part|][j + k];
    }
  }

  function Cuts(segments: seq<Segment>): (n: nat)
  {
    if segments == [] then 0 else (if segments[0].Cut? then 1 else 0) + Cuts(segments[1..])
  }

  lemma {:induction false} CutCounted(segments: seq<Segment>, k: nat)
    requires k < |segments| && segments[k].Cut?
    ensures Cuts(segments) >= 1
  {
    if k > 0 { CutCounted(segments[1..], k - 1); }
  }

  lemma {:induction false} OccursFurther(s: string, front: string, back: string)
    requires Occurs(s, back)
    ensures Occurs(s, front + back)
  {
    var i: nat :| At(back, i, s);
    AtFurther(s, front, back, i);
  }

  /** Where all secrets that occur are shorter than the marker, a text grows with every cut. */
  lemma {:induction false} GrowsByCuts(input: string, secrets: set<string>)
    requires forall s | Secret(s, secrets) && Occurs(s, input) :: |s| < |MARKER|
    ensures |Redacted(input, secrets)| >= |input| + Cuts(Segments(input, secrets))
    decreases |input|
  {
    if input != [] {
      hide Segments, IsLongest, Longest, Occurs;
      var first, rest := FirstSegment(input, secrets);
      forall s | Secret(s, secrets) && Occurs(s, rest) ensures |s| < |MARKER| {
        OccursFurther(s, SourceOf(first), rest);
      }
      GrowsByCuts(rest, secrets);
      if first.Cut? {
        CutIsSecret(first, input, secrets);
        PrefixOccurs(first.secret, input);
      }
    }
  }

  lemma {:induction false} PrefixOccurs(s: string, text: string)
    requires s <= text
    ensures Occurs(s, text)
  {
    assert At(text, 0, s);
  }

  /** Where the marker is itself a secret, and the list predictable, markers are cut out and
      put back. */
  lemma {:induction false} MarkersStay(input: string, secrets: set<string>)
    requires Predictable(secrets) && MARKER in secrets
    ensures Redacted(Redacted(input, secrets), secrets) == Redacted(input, secrets)
    decreases |input|
  {
    hide Segments, Redacted, IsLongest, Longest, TouchesAt;
    EmptyInput(secrets);
    if input != [] {
      var first, rest := FirstSegment(input, secrets);
      var back := Redacted(rest, secrets);
      MarkersStay(rest, secrets);
      if first.Kept? {
        var front := [first.c];
        forall p, u | 0 <= p < |front| && u in secrets ensures !Matches((front + back)[p..], u) {
          assert (front + back)[0..] == Redacted(input, secrets);
          if Matches(Redacted(input, secrets), u) { var d := StraddlesFirst(input, secrets, u); }
        }
        KeepsFront(front, back, secrets);
      } else {
        forall u | u in secrets && Matches(MARKER + back, u) ensures |u| <= |MARKER| {
          assert At(MARKER + back, 0, u);
          StartsInMarker(u, back, 0);
        }
        CutsFront(MARKER, back, secrets);
      }
    }
  }

  /** A secret at the start of the output, but none at the start of the input, straddles the
      start of a marker. */
  lemma {:induction false} StraddlesFirst(input: string, secrets: set<string>, s: string) returns (d: int)
    requires s in secrets && Matches(Redacted(input, secrets), s)
    requires forall u | u in secrets :: !Matches(input, u)
    ensures d < 0 && TouchesAt(s, d)
  {
    hide Segments, Redacted, IsLongest, Longest, TouchesAt;
    assert !Matches(input, s);
    var k: int;
    var t;
    k, t := KeptRun(input, secrets, s);
    assert k == 0 ==> t <= input;
    assert !Matches(input, t);
    d := -k;
  }

  /** Exactly when redacting a second time changes nothing, for a predictable list: nothing
      survives, or the marker itself is a secret. */
  lemma {:induction false} IdempotentExactly(input: string, secrets: set<string>)
    requires Predictable(secrets)
    ensures var once := Redacted(input, secrets);
            Redacted(once, secrets) == once
            <==> !(Leaks(MARKER, secrets) && Leaks(input, secrets)) || MARKER in secrets
  {
    hide Segments, Redacted;
    var once := Redacted(input, secrets);
    LeaksExactly(input, secrets);
    if MARKER in secrets {
      MarkersStay(input, secrets);
    } else if Leaks(once, secrets) {
      var s :| Secret(s, secrets) && Occurs(s, once);
      var p: nat :| At(once, p, s);
      var k := EveryOccurrenceIsHit(once, secrets, s, p);
      CutCounted(Segments(once, secrets), k);
      forall u | Secret(u, secrets) && Occurs(u, once) ensures |u| < |MARKER| {
        var i: nat :| At(once, i, u);
        var d, t := LeakTouches(input, secrets, u, i);
        TouchesInside(u, d);
        assert |u| == |MARKER| ==> u == MARKER;
      }
      GrowsByCuts(once, secrets);
    } else {
      NothingToRedact(once, secrets);
    }
  }

  /** Brackets in a secret void the guarantee: here the secret `[R` is cut out and
      the marker put in its place spells it again. */
  lemma {:induction false} BracketSecretLeaks()
    ensures Leaks(Redacted("[R", {"[R"}), {"[R"}) && !Leaks(WORD, {"[R"})
  {
    var secrets := {"[R"};
    assert Secret("[R", secrets) && At("[R", 0, "[R");
    var k := EveryOccurrenceIsHit("[R", secrets, "[R", 0);
    var i := CutShowsMarker(Segments("[R", secrets), k);
    var output := Redacted("[R", secrets);
    assert output[i..i + 2] == output[i..i + |MARKER|][..2];
    assert At(output, i, "[R");
    forall s, j: nat | Secret(s, secrets) ensures !At(WORD, j, s) {
      assert j + |s| <= |WORD| ==> WORD[j..j + |s|][0] == WORD[j];
    }
  }
}
