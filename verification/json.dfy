/** JSON values as the library keeps them: an object is a finite map whose
    members are visited in the byte order of their names. */
module Json {

  datatype Option<+T> = None | Some(value: T)

  datatype Result<+T, +E> = Ok(value: T) | Err(error: E)

  datatype Json =
    | Null
    | Bool(flag: bool)
    | Int(number: int)
    | Float(amount: real)
    | Str(text: string)
    | Arr(items: seq<Json>)
    | Obj(members: map<string, Json>)

  /** Lookup that finds nothing in a value that is not an object. */
  function Find(value: Json, key: string): (found: Option<Json>)
  {
    if value.Obj? && key in value.members then Some(value.members[key]) else None
  }

  /** The string stored under `key`, or the empty string when there is none. */
  function StringField(value: Json, key: string): (text: string)
  {
    match Find(value, key)
    case Some(Str(s)) => s
    case _ => ""
  }

  predicate Missing(value: Json, key: string) { Find(value, key).None? }

  predicate HasString(value: Json, key: string)
  {
    Find(value, key).Some? && Find(value, key).value.Str?
  }

  predicate StringOrMissing(value: Json, key: string)
  {
    Missing(value, key) || Find(value, key).value.Str?
  }

  // ---- equality of values, as the library compares them ----

  const WORDS := 0x1_0000_0000_0000_0000
  const MANTISSA := 0x20_0000_0000_0000

  /** A nonnegative integer as a floating number keeps it: the nearest multiple of a power
      of two that leaves 53 bits, of two equally near ones the even. */
  function RoundedTo(n: nat, unit: nat): (rounded: nat)
    requires 0 < unit
    ensures n < MANTISSA && unit == 1 ==> rounded == n
    decreases n - unit
  {
    if n < MANTISSA * unit then
      ToEven(n / unit, n % unit, unit)
    else
      RoundedTo(n, 2 * unit)
  }

  function ToEven(low: nat, rest: nat, unit: nat): (rounded: nat)
  {
    if 2 * rest < unit || (2 * rest == unit && low % 2 == 0) then low * unit else (low + 1) * unit
  }

  function Rounded(n: int): (rounded: int)
  {
    if n < 0 then 0 - RoundedTo(0 - n, 1) else RoundedTo(n, 1)
  }

  /** Value equality. Integers are compared as words, of which one may be signed and the
      other not, and with a floating number only after conversion to one. */
  predicate Equal(a: Json, b: Json)
    decreases a
  {
    match (a, b)
    case (Int(x), Int(y)) => (x - y) % WORDS == 0
    case (Int(x), Float(y)) => Rounded(x) as real == y
    case (Float(x), Int(y)) => x == Rounded(y) as real
    case (Arr(xs), Arr(ys)) =>
      |xs| == |ys| && forall i | 0 <= i < |xs| :: Equal(xs[i], ys[i])
    case (Obj(m), Obj(n)) =>
      m.Keys == n.Keys && forall k | k in m :: Equal(m[k], n[k])
    case (_, _) => a == b
  }

  /** No numbers in the value, at any depth. */
  predicate NumberFree(value: Json)
  {
    match value
    case Int(_) => false
    case Float(_) => false
    case Arr(items) => forall i | 0 <= i < |items| :: NumberFree(items[i])
    case Obj(members) => forall k | k in members :: NumberFree(members[k])
    case _ => true
  }

  /** Numbers apart, values are equal exactly when they are the same. */
  lemma {:induction false} SameWithoutNumbers(a: Json, b: Json)
    requires NumberFree(a)
    ensures Equal(a, b) <==> a == b
    decreases a
  {
    if a.Arr? && b.Arr? && |a.items| == |b.items| {
      forall i | 0 <= i < |a.items| ensures Equal(a.items[i], b.items[i]) <==> a.items[i] == b.items[i] {
        SameWithoutNumbers(a.items[i], b.items[i]);
      }
    } else if a.Obj? && b.Obj? && a.members.Keys == b.members.Keys {
      forall k | k in a.members ensures Equal(a.members[k], b.members[k]) <==> a.members[k] == b.members[k] {
        SameWithoutNumbers(a.members[k], b.members[k]);
      }
      if forall k | k in a.members :: a.members[k] == b.members[k] { assert a.members == b.members; }
    }
  }

  // ---- when that is equality of amounts ----

  predicate PowerOfTwo(n: nat)
  {
    n == 1 || (n > 1 && n % 2 == 0 && PowerOfTwo(n / 2))
  }

  /** The least power of two that leaves 53 bits of a number. */
  function Unit(n: nat, from: nat := 1): (unit: nat)
    requires PowerOfTwo(from)
    ensures PowerOfTwo(unit) && n < MANTISSA * unit
    ensures unit == from || n >= MANTISSA * (unit / 2)
    decreases n - from
  {
    if n < MANTISSA * from then from else Unit(n, 2 * from)
  }

  lemma {:induction false} MultiplesNear(low: int, rest: int, unit: int)
    requires 0 <= rest < unit
    ensures low * unit == low * unit + rest <==> rest == 0
    ensures (low + 1) * unit != low * unit + rest
  {
    assert (low + 1) * unit == low * unit + unit;
  }

  lemma {:induction false} AtUnit(n: nat, unit: nat) returns (low: nat, rest: nat)
    requires 0 < unit && n < MANTISSA * unit
    ensures n == low * unit + rest && rest < unit && (rest == 0 <==> n % unit == 0)
    ensures RoundedTo(n, unit) == ToEven(low, rest, unit)
  {
    low, rest := n / unit, n % unit;
    hide ToEven;
  }

  lemma {:induction false} RoundedIsExact(n: nat, from: nat)
    requires PowerOfTwo(from)
    ensures RoundedTo(n, from) == n <==> n % Unit(n, from) == 0
    decreases n - from
  {
    if n < MANTISSA * from {
      hide PowerOfTwo;
      assert Unit(n, from) == from;
      var low, rest := AtUnit(n, from);
      hide RoundedTo, Unit;
      MultiplesNear(low, rest, from);
    } else {
      assert RoundedTo(n, from) == RoundedTo(n, 2 * from);
      hide RoundedTo;
      RoundedIsExact(n, 2 * from);
    }
  }

  /** A multiple of the unit at most half of it away, and an even one if just half. */
  ghost predicate Nearest(n: nat, unit: nat, rounded: int)
  {
    exists k: int :: rounded == k * unit && Nearer(unit, rounded - n, k)
  }

  predicate Nearer(unit: nat, off: int, k: int)
  {
    -(unit as int) <= 2 * off <= unit && (2 * off == unit || 2 * off == -(unit as int) ==> k % 2 == 0)
  }

  lemma {:induction false} NearerMultiple(n: nat, unit: nat, low: nat, rest: nat)
    requires n == low * unit + rest && rest < unit && (unit == 1 || unit % 2 == 0)
    ensures Nearest(n, unit, ToEven(low, rest, unit))
  {
    assert (low + 1) * unit == low * unit + unit;
    if 2 * rest < unit || (2 * rest == unit && low % 2 == 0) {
      assert Nearer(unit, low * unit - n, low);
    } else {
      assert Nearer(unit, (low + 1) * unit - n, low + 1);
    }
  }

  lemma {:induction false} NearestAtUnit(n: nat, unit: nat)
    requires 0 < unit && n < MANTISSA * unit && (unit == 1 || unit % 2 == 0)
    ensures Nearest(n, unit, RoundedTo(n, unit))
  {
    var low, rest := AtUnit(n, unit);
    hide RoundedTo, Nearest, ToEven;
    NearerMultiple(n, unit, low, rest);
  }

  lemma {:induction false} Doubled(n: nat, from: nat)
    requires PowerOfTwo(from)
    ensures PowerOfTwo(2 * from) && (from == 1 || from % 2 == 0)
    ensures n >= MANTISSA * from ==> Unit(n, from) == Unit(n, 2 * from) && RoundedTo(n, from) == RoundedTo(n, 2 * from)
    ensures n < MANTISSA * from ==> Unit(n, from) == from
  {
    assert 2 * from / 2 == from;
  }

  lemma {:induction false} RoundedNearest(n: nat, from: nat)
    requires PowerOfTwo(from)
    ensures Nearest(n, Unit(n, from), RoundedTo(n, from))
    decreases n - from
  {
    Doubled(n, from);
    hide Nearest, PowerOfTwo, Unit, RoundedTo;
    if n < MANTISSA * from {
      NearestAtUnit(n, from);
    } else {
      RoundedNearest(n, 2 * from);
    }
  }

  /** As a floating number an integer becomes the nearest multiple of its unit, halfway between
      two the even one, and it keeps its sign. */
  lemma {:induction false} RoundedExactly(n: nat)
    ensures Nearest(n, Unit(n), Rounded(n)) && Rounded(0 - n) == 0 - Rounded(n)
  {
    hide Nearest, Unit;
    RoundedNearest(n, 1);
  }

  /** An integer equals a floating number exactly when the amounts are the same, for just the
      integers whose bits behind the first 53 are zero. */
  lemma {:induction false} FloatEqualExactly(x: int)
    ensures var n := if x < 0 then 0 - x else x;
            (forall amount: real :: Equal(Int(x), Float(amount)) <==> x as real == amount) <==> n % Unit(n) == 0
    ensures forall amount: real :: Equal(Int(x), Float(amount)) <==> Equal(Float(amount), Int(x))
  {
    RoundedIsExact(if x < 0 then 0 - x else x, 1);
    var rounded := Rounded(x);
    assert Equal(Int(x), Float(rounded as real));
  }

  /** What an integer is kept in: a signed or an unsigned word. */
  predicate InWord(x: int)
  {
    -(WORDS / 2) <= x < WORDS
  }

  /** Two integers are equal exactly when their amounts are, for just those that both kinds of
      word can hold. */
  lemma {:induction false} WordEqualExactly(x: int)
    requires InWord(x)
    ensures (forall y | InWord(y) :: Equal(Int(x), Int(y)) <==> x == y) <==> 0 <= x < WORDS / 2
    ensures forall y :: Equal(Int(x), Int(y)) <==> Equal(Int(y), Int(x))
  {
    forall y ensures Equal(Int(x), Int(y)) <==> Equal(Int(y), Int(x)) {
      SameRemainder(x, y);
    }
    if 0 <= x < WORDS / 2 {
      forall y | InWord(y) ensures Equal(Int(x), Int(y)) <==> x == y { SameRemainder(x, y); }
    } else {
      var y := if x < 0 then x + WORDS else x - WORDS;
      assert InWord(y) && Equal(Int(x), Int(y)) && x != y;
    }
  }

  lemma {:induction false} SameRemainder(x: int, y: int)
    ensures (x - y) % WORDS == 0 <==> (y - x) % WORDS == 0
    ensures -WORDS < x - y < WORDS && (x - y) % WORDS == 0 ==> x == y
  {
  }

  // ---- the order in which the members of an object are visited ----

  predicate Before(a: string, b: string)
  {
    if b == [] then false
    else if a == [] then true
    else a[0] < b[0] || (a[0] == b[0] && Before(a[1..], b[1..]))
  }

  lemma {:induction false} BeforeTotal(a: string, b: string)
    ensures Before(a, b) || a == b || Before(b, a)
    ensures !(Before(a, b) && Before(b, a))
    ensures !Before(a, a)
  {
    if a != [] {
      BeforeTotal(a[1..], a[1..]);
      if b != [] {
        BeforeTotal(a[1..], b[1..]);
        assert a == [a[0]] + a[1..] && b == [b[0]] + b[1..];
      }
    }
  }

  lemma {:induction false} BeforeTransitive(a: string, b: string, c: string)
    requires Before(a, b) && Before(b, c)
    ensures Before(a, c)
  {
    if a != [] && a[0] == b[0] == c[0] {
      BeforeTransitive(a[1..], b[1..], c[1..]);
    }
  }

  predicate Least(k: string, keys: set<string>)
  {
    k in keys && forall other | other in keys && other != k :: Before(k, other)
  }

  lemma {:induction false} LeastExists(keys: set<string>)
    requires keys != {}
    ensures exists k :: Least(k, keys)
    decreases |keys|
  {
    var x :| x in keys;
    if keys == {x} {
      assert Least(x, keys);
    } else {
      var rest := keys - {x};
      assert keys == {x} + rest;
      LeastExists(rest);
      var y :| Least(y, rest);
      BeforeTotal(x, y);
      if Before(y, x) {
        assert Least(y, keys);
      } else {
        forall other | other in keys && other != x ensures Before(x, other) {
          if other != y { BeforeTransitive(x, y, other); }
        }
        assert Least(x, keys);
      }
    }
  }

  lemma {:induction false} LeastUnique(a: string, b: string, keys: set<string>)
    requires Least(a, keys) && Least(b, keys)
    ensures a == b
  {
    BeforeTotal(a, b);
  }

  predicate Ascending(keys: seq<string>)
  {
    forall i, j | 0 <= i < j < |keys| :: Before(keys[i], keys[j])
  }

  /** The member names of an object in visiting order. */
  function SortedKeys(keys: set<string>): (sorted: seq<string>)
    ensures forall k :: k in sorted <==> k in keys
    ensures Ascending(sorted)
    decreases |keys|
  {
    if keys == {} then []
    else
      LeastExists(keys);
      assert forall a, b | Least(a, keys) && Least(b, keys) :: a == b by {
        forall a, b | Least(a, keys) && Least(b, keys) ensures a == b {
          LeastUnique(a, b, keys);
        }
      }
      var k :| Least(k, keys);
      [k] + SortedKeys(keys - {k})
  }
}
