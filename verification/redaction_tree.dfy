/** Redaction lifted to whole JSON trees: every string and every member name. */
module RedactionTree {
  import opened Json
  import opened Redaction

  /** Members stored one after another, a later one replacing an earlier one of the
      same name. */
  function Stored<V>(names: seq<string>, values: seq<V>): (members: map<string, V>)
    requires |names| == |values|
  {
    if names == [] then map[]
    else
      var n := |names| - 1;
      Stored(names[..n], values[..n])[names[n] := values[n]]
  }

  /** Position `i` is the last one that carries `name`. */
  predicate LastNamed(names: seq<string>, name: string, i: nat)
  {
    i < |names| && names[i] == name && forall j | i < j < |names| :: names[j] != name
  }

  lemma {:induction false} LastOneWins<V>(names: seq<string>, values: seq<V>)
    requires |names| == |values|
    ensures forall name :: name in Stored(names, values) <==> name in names
    ensures forall name | name in names ::
              exists i: nat :: LastNamed(names, name, i) && Stored(names, values)[name] == values[i]
  {
    if names != [] {
      var n := |names| - 1;
      var front := names[..n];
      LastOneWins(front, values[..n]);
      assert names == front + [names[n]];
      forall name | name in names
        ensures exists i: nat :: LastNamed(names, name, i) && Stored(names, values)[name] == values[i]
      {
        if names[n] == name {
          assert LastNamed(names, name, n);
        } else {
          var i: nat :| LastNamed(front, name, i) && Stored(front, values[..n])[name] == values[..n][i];
          assert forall j | i < j < n :: front[j] == names[j];
          assert LastNamed(names, name, i);
        }
      }
    }
  }

  ghost function RedactedNames(keys: seq<string>, secrets: set<string>): (names: seq<string>)
  {
    seq(|keys|, i requires 0 <= i < |keys| => Redacted(keys[i], secrets))
  }

  ghost function RedactedJson(value: Json, secrets: set<string>): (redacted: Json)
    decreases value
  {
    match value
    case Str(s) => Str(Redacted(s, secrets))
    case Arr(items) => Arr(seq(|items|, i requires 0 <= i < |items| => RedactedJson(items[i], secrets)))
    case Obj(members) =>
      var keys := SortedKeys(members.Keys);
      assert forall k | k in keys :: k in members.Keys;
      Obj(Stored(RedactedNames(keys, secrets),
                 seq(|keys|, i requires 0 <= i < |keys| => RedactedJson(members[keys[i]], secrets))))
    case _ => value
  }

  // ---- the algorithm ----

  method RedactJsonStrings(value: Json, sensitive: seq<string>) returns (redacted: Json)
    ensures redacted == RedactedJson(value, Values(sensitive))
    decreases value, 1
  {
    hide Values, Redacted;
    if value.Str? {
      var text := RedactSensitiveValues(value.text, sensitive);
      return Str(text);
    }
    if value.Arr? {
      redacted := RedactElements(value, sensitive);
      return;
    }
    if !value.Obj? {
      return value;
    }
    redacted := RebuildObject(value, sensitive);
  }

  method RedactElements(value: Json, sensitive: seq<string>) returns (redacted: Json)
    requires value.Arr?
    ensures redacted == RedactedJson(value, Values(sensitive))
    decreases value, 0
  {
    hide Values, Redacted;
    var items := [];
    for i := 0 to |value.items|
      invariant |items| == i
      invariant forall j | 0 <= j < i :: items[j] == RedactedJson(value.items[j], Values(sensitive))
    {
      var item := RedactJsonStrings(value.items[i], sensitive);
      items := items + [item];
    }
    redacted := Arr(items);
  }

  method RebuildObject(value: Json, sensitive: seq<string>) returns (redacted: Json)
    requires value.Obj?
    ensures redacted == RedactedJson(value, Values(sensitive))
    decreases value, 0
  {
    hide Values, Redacted, Ascending;
    var keys := SortedKeys(value.members.Keys);
    assert forall i | 0 <= i < |keys| :: keys[i] in value.members.Keys;
    ghost var names := RedactedNames(keys, Values(sensitive));
    ghost var values := seq(|keys|, i requires 0 <= i < |keys| =>
                                      RedactedJson(value.members[keys[i]], Values(sensitive)));
    assert RedactedJson(value, Values(sensitive)) == Obj(Stored(names, values));
    assert forall i | 0 <= i < |keys| :: names[i] == Redacted(keys[i], Values(sensitive));
    hide RedactedJson, RedactedNames, Stored;
    var members: map<string, Json> := map[];
    assert members == Stored(names[..0], values[..0]) by { StoreNone(names, values); }
    for i := 0 to |keys|
      invariant members == Stored(names[..i], values[..i])
    {
      var member := RedactJsonStrings(value.members[keys[i]], sensitive);
      var name := RedactSensitiveValues(keys[i], sensitive);
      StoreNext(names, values, i);
      members := members[name := member];
    }
    assert names[..|keys|] == names && values[..|keys|] == values;
    redacted := Obj(members);
  }

  lemma {:induction false} StoreNone<V>(names: seq<string>, values: seq<V>)
    requires |names| == |values|
    ensures Stored(names[..0], values[..0]) == map[]
  {
  }

  lemma {:induction false} StoreNext<V>(names: seq<string>, values: seq<V>, i: nat)
    requires i < |names| == |values|
    ensures Stored(names[..i + 1], values[..i + 1]) == Stored(names[..i], values[..i])[names[i] := values[i]]
  {
    assert names[..i + 1][..i] == names[..i] && values[..i + 1][..i] == values[..i];
  }

  // ---- what the tree looks like afterwards ----

  /** Kinds stay, strings are redacted, arrays element by element, and numbers, flags and null
      stay what they are. */
  lemma {:induction false} KindsStay(value: Json, secrets: set<string>)
    ensures var redacted := RedactedJson(value, secrets);
            match value
            case Str(text) => redacted == Str(Redacted(text, secrets))
            case Arr(items) =>
              && redacted.Arr? && |redacted.items| == |items|
              && forall i | 0 <= i < |items| :: redacted.items[i] == RedactedJson(items[i], secrets)
            case Obj(_) => redacted.Obj?
            case _ => redacted == value
  {
    hide Redacted;
  }

  /** The names of a redacted object are exactly the redacted names, and when several
      collapse into one the member that came last in name order is kept. */
  lemma {:induction false} ObjectRedaction(members: map<string, Json>, secrets: set<string>)
    ensures var redacted := RedactedJson(Obj(members), secrets);
            var keys := SortedKeys(members.Keys);
            var names := RedactedNames(keys, secrets);
            && redacted.Obj?
            && (forall name :: name in redacted.members <==> name in names)
            && forall name | name in redacted.members ::
                 exists i: nat :: LastNamed(names, name, i) && keys[i] in members
                   && redacted.members[name] == RedactedJson(members[keys[i]], secrets)
  {
    hide Redacted, Ascending;
    var keys := SortedKeys(members.Keys);
    var names := RedactedNames(keys, secrets);
    assert forall i | 0 <= i < |keys| :: keys[i] in members.Keys;
    var values := seq(|keys|, i requires 0 <= i < |keys| => RedactedJson(members[keys[i]], secrets));
    LastOneWins(names, values);
    assert RedactedJson(Obj(members), secrets) == Obj(Stored(names, values));
    forall name | name in names
      ensures exists i: nat :: LastNamed(names, name, i) && keys[i] in members
                && Stored(names, values)[name] == RedactedJson(members[keys[i]], secrets)
    {
      var i: nat :| LastNamed(names, name, i) && Stored(names, values)[name] == values[i];
      assert values[i] == RedactedJson(members[keys[i]], secrets);
    }
  }

  /** Some string value or member name, at any depth, shows a secret. */
  ghost predicate LeaksIn(value: Json, secrets: set<string>)
  {
    match value
    case Str(s) => Leaks(s, secrets)
    case Arr(items) => exists i | 0 <= i < |items| :: LeaksIn(items[i], secrets)
    case Obj(members) => exists k | k in members :: Leaks(k, secrets) || LeaksIn(members[k], secrets)
    case _ => false
  }

  lemma {:induction false} CleanNamesStay(names: seq<string>, secrets: set<string>)
    requires forall i | 0 <= i < |names| :: !Leaks(names[i], secrets)
    ensures RedactedNames(names, secrets) == names
  {
    hide Redacted;
    forall i | 0 <= i < |names| ensures RedactedNames(names, secrets)[i] == names[i] {
      NothingToRedact(names[i], secrets);
    }
  }

  lemma {:induction false} CleanMember(members: map<string, Json>, secrets: set<string>, k: string)
    requires forall k | k in members :: !Leaks(k, secrets)
    ensures var redacted := RedactedJson(Obj(members), secrets);
            && redacted.Obj? && (k in redacted.members <==> k in members)
            && (k in members ==> redacted.members[k] == RedactedJson(members[k], secrets))
  {
    hide Redacted, Ascending;
    var keys := SortedKeys(members.Keys);
    var names := RedactedNames(keys, secrets);
    assert forall i | 0 <= i < |keys| :: keys[i] in members.Keys;
    CleanNamesStay(keys, secrets);
    ObjectRedaction(members, secrets);
    hide RedactedNames, RedactedJson;
    var redacted := RedactedJson(Obj(members), secrets).members;
    assert k in keys <==> k in members.Keys;
    if k in members {
      var i: nat :| LastNamed(names, k, i) && keys[i] in members
                    && redacted[k] == RedactedJson(members[keys[i]], secrets);
    }
  }

  /** When no member name shows a secret the names stay and each value is redacted in place. */
  lemma {:induction false} CleanNames(members: map<string, Json>, secrets: set<string>)
    requires forall k | k in members :: !Leaks(k, secrets)
    ensures RedactedJson(Obj(members), secrets) == Obj(map k | k in members :: RedactedJson(members[k], secrets))
  {
    CleanMember(members, secrets, "");
    hide RedactedJson;
    var redacted := RedactedJson(Obj(members), secrets).members;
    forall k
      ensures k in redacted <==> k in members
      ensures k in members ==> redacted[k] == RedactedJson(members[k], secrets)
    {
      CleanMember(members, secrets, k);
    }
  }

  /** A tree that shows no secret is returned unchanged. */
  lemma {:induction false} CleanTreeUnchanged(value: Json, secrets: set<string>)
    requires !LeaksIn(value, secrets)
    ensures RedactedJson(value, secrets) == value
    decreases value
  {
    hide Redacted, Leaks, Ascending;
    match value
    case Str(s) =>
      NothingToRedact(s, secrets);
    case Arr(items) =>
      forall i | 0 <= i < |items| ensures RedactedJson(items[i], secrets) == items[i] {
        CleanTreeUnchanged(items[i], secrets);
      }
    case Obj(members) =>
      forall k | k in members ensures !Leaks(k, secrets) && !LeaksIn(members[k], secrets) {
      }
      CleanNames(members, secrets);
      hide Stored, LeaksIn, RedactedJson;
      forall k | k in members ensures RedactedJson(members[k], secrets) == members[k] {
        CleanTreeUnchanged(members[k], secrets);
      }
      assert (map k | k in members :: RedactedJson(members[k], secrets)) == members;
    case _ =>
  }

  /** Exactly when a redacted tree still shows a secret of a predictable list, at any depth,
      in a value or in a name. */
  lemma {:induction false} TreeLeaksExactly(value: Json, secrets: set<string>)
    requires Predictable(secrets)
    ensures LeaksIn(RedactedJson(value, secrets), secrets) <==> Leaks(MARKER, secrets) && LeaksIn(value, secrets)
    decreases value
  {
    match value
    case Str(s) =>
      LeaksExactly(s, secrets);
    case Arr(items) =>
      hide Redacted;
      var redacted := RedactedJson(value, secrets);
      forall i | 0 <= i < |items|
        ensures LeaksIn(redacted.items[i], secrets) <==> Leaks(MARKER, secrets) && LeaksIn(items[i], secrets)
      {
        TreeLeaksExactly(items[i], secrets);
      }
    case Obj(members) =>
      forall k | k in members
        ensures Leaks(Redacted(k, secrets), secrets) <==> Leaks(MARKER, secrets) && Leaks(k, secrets)
        ensures LeaksIn(RedactedJson(members[k], secrets), secrets)
                <==> Leaks(MARKER, secrets) && LeaksIn(members[k], secrets)
      {
        LeaksExactly(k, secrets);
        TreeLeaksExactly(members[k], secrets);
      }
      ObjectLeaksExactly(members, secrets);
    case _ =>
  }

  /** The two facts that relate an object's members to their redacted forms. */
  ghost predicate MembersLeakExactly(members: map<string, Json>, secrets: set<string>)
  {
    forall k | k in members ::
      && (Leaks(Redacted(k, secrets), secrets) <==> Leaks(MARKER, secrets) && Leaks(k, secrets))
      && (LeaksIn(RedactedJson(members[k], secrets), secrets)
          <==> Leaks(MARKER, secrets) && LeaksIn(members[k], secrets))
  }

  lemma {:induction false} ObjectLeaksExactly(members: map<string, Json>, secrets: set<string>)
    requires MembersLeakExactly(members, secrets)
    ensures LeaksIn(RedactedJson(Obj(members), secrets), secrets)
            <==> Leaks(MARKER, secrets) && LeaksIn(Obj(members), secrets)
  {
    hide Redacted, Leaks, RedactedJson, RedactedNames, Stored;
    if LeaksIn(RedactedJson(Obj(members), secrets), secrets) {
      RedactedObjectLeaks(members, secrets);
    }
    if Leaks(MARKER, secrets) && LeaksIn(Obj(members), secrets) {
      if k :| k in members && Leaks(k, secrets) {
        NameIsStored(members, secrets, k);
      } else {
        CleanNames(members, secrets);
      }
    }
  }

  lemma {:induction false} NameIsStored(members: map<string, Json>, secrets: set<string>, k: string)
    requires k in members
    ensures RedactedJson(Obj(members), secrets).Obj?
    ensures Redacted(k, secrets) in RedactedJson(Obj(members), secrets).members
  {
    ObjectRedaction(members, secrets);
    hide Redacted, RedactedJson, Stored, Ascending;
    var keys := SortedKeys(members.Keys);
    assert k in members.Keys;
    var i :| 0 <= i < |keys| && keys[i] == k;
    assert RedactedNames(keys, secrets)[i] == Redacted(k, secrets);
  }

  /** Where a member of a redacted object comes from. */
  lemma {:induction false} Origin(members: map<string, Json>, secrets: set<string>, name: string) returns (k: string)
    requires RedactedJson(Obj(members), secrets).Obj? && name in RedactedJson(Obj(members), secrets).members
    ensures k in members && Redacted(k, secrets) == name
    ensures RedactedJson(Obj(members), secrets).members[name] == RedactedJson(members[k], secrets)
  {
    ObjectRedaction(members, secrets);
    hide Redacted, RedactedJson, Stored, Ascending;
    var keys := SortedKeys(members.Keys);
    var names := RedactedNames(keys, secrets);
    var i: nat :| LastNamed(names, name, i) && keys[i] in members
                  && RedactedJson(Obj(members), secrets).members[name] == RedactedJson(members[keys[i]], secrets);
    k := keys[i];
  }

  lemma {:induction false} RedactedIsObject(members: map<string, Json>, secrets: set<string>)
    ensures RedactedJson(Obj(members), secrets).Obj?
  {
    ObjectRedaction(members, secrets);
  }

  lemma {:induction false} RedactedObjectLeaks(members: map<string, Json>, secrets: set<string>)
    requires MembersLeakExactly(members, secrets)
    requires LeaksIn(RedactedJson(Obj(members), secrets), secrets)
    ensures Leaks(MARKER, secrets) && LeaksIn(Obj(members), secrets)
  {
    RedactedIsObject(members, secrets);
    hide Redacted, Leaks, RedactedJson, Stored, RedactedNames, LastNamed;
    var redacted := RedactedJson(Obj(members), secrets);
    var name :| name in redacted.members && (Leaks(name, secrets) || LeaksIn(redacted.members[name], secrets));
    var k := Origin(members, secrets, name);
  }

  /** Where no secret touches the marker, a redacted tree shows none at any depth, and
      redacting it again changes nothing. */
  lemma {:induction false} UntouchedTreeIsClean(value: Json, secrets: set<string>)
    requires forall s | Secret(s, secrets) :: !Touches(s)
    ensures !LeaksIn(RedactedJson(value, secrets), secrets)
    ensures RedactedJson(RedactedJson(value, secrets), secrets) == RedactedJson(value, secrets)
  {
    hide LeaksIn, RedactedJson, Leaks, Redacted;
    forall input ensures !Leaks(Redacted(input, secrets), secrets) { UntouchedIsClean(input, secrets); }
    SafeTree(value, secrets);
    CleanTreeUnchanged(RedactedJson(value, secrets), secrets);
  }

  lemma {:induction false} SafeTree(value: Json, secrets: set<string>)
    requires forall input :: !Leaks(Redacted(input, secrets), secrets)
    ensures !LeaksIn(RedactedJson(value, secrets), secrets)
    decreases value
  {
    match value
    case Str(s) =>
    case Arr(items) =>
      hide Redacted, Leaks;
      forall i | 0 <= i < |items| ensures !LeaksIn(RedactedJson(items[i], secrets), secrets) {
        SafeTree(items[i], secrets);
      }
    case Obj(members) =>
      forall k | k in members ensures !LeaksIn(RedactedJson(members[k], secrets), secrets) {
        SafeTree(members[k], secrets);
      }
      SafeObject(members, secrets);
    case _ =>
  }

  lemma {:induction false} SafeObject(members: map<string, Json>, secrets: set<string>)
    requires forall input :: !Leaks(Redacted(input, secrets), secrets)
    requires forall k | k in members :: !LeaksIn(RedactedJson(members[k], secrets), secrets)
    ensures !LeaksIn(RedactedJson(Obj(members), secrets), secrets)
  {
    RedactedIsObject(members, secrets);
    hide Redacted, Leaks, RedactedJson, Stored, RedactedNames;
    var redacted := RedactedJson(Obj(members), secrets);
    forall name | name in redacted.members
      ensures !Leaks(name, secrets) && !LeaksIn(redacted.members[name], secrets)
    {
      var k := Origin(members, secrets, name);
    }
  }

  /** No tree shows a secret of the list once redacted. */
  ghost predicate SafeForTrees(secrets: set<string>)
  {
    forall value :: !LeaksIn(RedactedJson(value, secrets), secrets)
  }

  lemma {:induction false} TextAsTree(input: string, secrets: set<string>)
    ensures LeaksIn(RedactedJson(Str(input), secrets), secrets) <==> Leaks(Redacted(input, secrets), secrets)
  {
    hide Redacted, Leaks;
  }

  /** A list is safe for every tree exactly when it is safe for every text. */
  lemma {:induction false} SafeForTreesExactly(secrets: set<string>)
    ensures SafeForTrees(secrets) <==> SafeForTexts(secrets)
  {
    hide Redacted, Leaks, LeaksIn, RedactedJson;
    if SafeForTrees(secrets) {
      forall input ensures !Leaks(Redacted(input, secrets), secrets) { TextAsTree(input, secrets); }
    }
    if SafeForTexts(secrets) {
      forall value ensures !LeaksIn(RedactedJson(value, secrets), secrets) { SafeTree(value, secrets); }
    }
  }
}
