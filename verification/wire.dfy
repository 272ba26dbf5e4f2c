/** What the adapters share. */
module Wire {
  import opened Json
  import opened Types
  import Base64

  /** The array of items of a request being built. */
  class ItemList {
    var items: seq<Json>

    constructor ()
      ensures items == []
    {
      items := [];
    }

    method Push(item: Json)
      modifies this
      ensures items == old(items) + [item]
    {
      items := items + [item];
    }
  }

  datatype Arguments = Arguments(value: Json, valid: bool)

  /** Tool arguments are read by `parse`; text that is no JSON gives an empty object, marked
      invalid. */
  function ParsedArguments(raw: string, parse: string -> Option<Json>): (arguments: Arguments)
  {
    match parse(raw)
    case None => Arguments(Obj(map[]), false)
    case Some(value) => Arguments(value, true)
  }

  function DataUrl(mediaType: string, bytes: seq<Base64.byte>): (url: string)
  {
    "data:" + (if mediaType == [] then "application/octet-stream" else mediaType)
    + ";base64," + Base64.Encoded(bytes)
  }

  /** Where a response came from: the run that asked and how many messages it sent. */
  datatype Origin = Origin(run: string, messages: nat)

  // ---- one by one, up to the first failure ----

  function All<S, T>(items: seq<S>, one: S -> Result<T, Failure>): (all: Result<seq<T>, Failure>)
    ensures all.Ok? ==> |all.value| == |items| && forall i | 0 <= i < |items| :: one(items[i]) == Ok(all.value[i])
  {
    if items == [] then Ok([])
    else
      var n := |items| - 1;
      match All(items[..n], one)
      case Err(e) => Err(e)
      case Ok(front) =>
        match one(items[n])
        case Err(e) => Err(e)
        case Ok(last) => Ok(front + [last])
  }

  lemma {:induction false} FirstBad<S, T>(items: seq<S>, one: S -> Result<T, Failure>, n: nat, e: Failure)
    requires n <= |items| && All(items[..n], one) == Err(e)
    ensures All(items, one) == Err(e)
    decreases |items| - n
  {
    if n < |items| {
      assert items[..n + 1][..n] == items[..n];
      FirstBad(items, one, n + 1, e);
    } else {
      assert items[..n] == items;
    }
  }

  lemma {:induction false} AllExact<S, T>(items: seq<S>, one: S -> Result<T, Failure>)
    ensures All(items, one).Ok? <==> forall i | 0 <= i < |items| :: one(items[i]).Ok?
  {
    if items != [] {
      var n := |items| - 1;
      AllExact(items[..n], one);
      assert forall i | 0 <= i < n :: items[..n][i] == items[i];
    }
  }

  /** The failure of a conversion is that of the first item that cannot be converted. */
  lemma {:induction false} AllFails<S, T>(items: seq<S>, one: S -> Result<T, Failure>) returns (i: nat)
    requires All(items, one).Err?
    ensures i < |items| && one(items[i]) == Err(All(items, one).error)
    ensures forall j | 0 <= j < i :: one(items[j]).Ok?
  {
    var n := |items| - 1;
    if All(items[..n], one).Err? {
      i := AllFails(items[..n], one);
      assert forall j | 0 <= j <= i :: items[..n][j] == items[j];
    } else {
      i := n;
      AllExact(items[..n], one);
      assert forall j | 0 <= j < n :: items[..n][j] == items[j];
    }
  }

  method ConvertAll<S, T>(items: seq<S>, one: S -> Result<T, Failure>) returns (all: Result<seq<T>, Failure>)
    ensures all == All(items, one)
  {
    var converted: seq<T> := [];
    for i := 0 to |items|
      invariant All(items[..i], one) == Ok(converted)
    {
      assert items[..i + 1][..i] == items[..i];
      var next := one(items[i]);
      if next.Err? {
        FirstBad(items, one, i + 1, next.error);
        return Err(next.error);
      }
      converted := converted + [next.value];
    }
    assert items[..|items|] == items;
    all := Ok(converted);
  }
}
