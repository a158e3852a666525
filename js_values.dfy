/** JSON values as `response.json()` hands them to the components, and the
    pieces of JavaScript object semantics the components rely on: falsiness,
    `Object.keys(v)` and the property read `v[k]`. */
module JsValues {

  datatype Option<+T> = None | Some(value: T)

  /** A parsed JSON value. Numbers are integers (floating point is not
      modelled). An object keeps its members in the order of the JSON text,
      repeated keys included; `Keys` and `Get` give them JavaScript's meaning. */
  datatype Json =
    | Null
    | Bool(b: bool)
    | Num(n: int)
    | Str(s: string)
    | Arr(items: seq<Json>)
    | Obj(members: seq<(string, Json)>)

  /** JavaScript falsiness of a JSON value (NaN and -0 do not arise here). */
  predicate Falsy(v: Json) {
    v == Null || v == Bool(false) || v == Num(0) || v == Str("")
  }

  // ---------------------------------------------------------------------
  // Array index keys: the canonical decimal spelling of a natural number.

  function Digit(d: nat): char
    requires d < 10
  {
    ('0' as int + d) as char
  }

  function DigitValue(c: char): nat {
    if '0' <= c <= '9' then c as int - '0' as int else 0
  }

  /** The property key of array index `n` ("0", "1", ..., "10", ...). */
  function Decimal(n: nat): (s: string)
    ensures |s| >= 1
    ensures forall i :: 0 <= i < |s| ==> '0' <= s[i] <= '9'
    ensures s[0] == '0' ==> n == 0
    decreases n
  {
    if n < 10 then [Digit(n)] else Decimal(n / 10) + [Digit(n % 10)]
  }

  /** Reads a string of decimal digits back as a number. */
  function DecimalValue(s: string): nat {
    if s == [] then 0 else DecimalValue(s[..|s| - 1]) * 10 + DigitValue(s[|s| - 1])
  }

  lemma {:induction false} DecimalRoundTrip(n: nat)
    ensures DecimalValue(Decimal(n)) == n
    decreases n
  {
    if n >= 10 {
      DecimalRoundTrip(n / 10);
      var s := Decimal(n / 10) + [Digit(n % 10)];
      assert s[..|s| - 1] == Decimal(n / 10);
    }
  }

  /** Distinct indices have distinct keys. */
  lemma DecimalInjective(m: nat, n: nat)
    ensures Decimal(m) == Decimal(n) ==> m == n
  {
    DecimalRoundTrip(m);
    DecimalRoundTrip(n);
  }

  /** The keys of the first `n` indices, in order. */
  function IndexKeys(n: nat): (ks: seq<string>)
    ensures |ks| == n
    ensures forall i :: 0 <= i < n ==> ks[i] == Decimal(i)
    ensures forall i, j :: 0 <= i < j < n ==> ks[i] != ks[j]
  {
    forall i, j | 0 <= i < j < n ensures Decimal(i) != Decimal(j) {
      DecimalInjective(i, j);
    }
    seq(n, i requires 0 <= i => Decimal(i))
  }

  /** The index below `n` whose key is `k`, if there is one. */
  function IndexOf(k: string, n: nat): (r: Option<nat>)
    ensures r.Some? ==> r.value < n && Decimal(r.value) == k
    ensures r.None? ==> forall i :: 0 <= i < n ==> Decimal(i) != k
  {
    if n == 0 then None
    else if Decimal(n - 1) == k then Some(n - 1)
    else IndexOf(k, n - 1)
  }

  lemma IndexOfDecimal(i: nat, n: nat)
    requires i < n
    ensures IndexOf(Decimal(i), n) == Some(i)
  {
    var r := IndexOf(Decimal(i), n);
    DecimalInjective(r.value, i);
  }

  // ---------------------------------------------------------------------
  // Objects built by JSON.parse: a repeated key keeps the position of its
  // first occurrence and the value of its last one.

  /** Some member has key `k`. */
  predicate HasKey(members: seq<(string, Json)>, k: string) {
    exists i :: 0 <= i < |members| && members[i].0 == k
  }

  /** Member `m` is the last one with key `k`: the one whose value the object keeps. */
  predicate IsLastWithKey(members: seq<(string, Json)>, m: int, k: string) {
    0 <= m < |members| && members[m].0 == k &&
    forall p :: m < p < |members| ==> members[p].0 != k
  }

  /** Member `m` is the first one with key `k`: the one whose position the
      key keeps. */
  predicate IsFirstWithKey(members: seq<(string, Json)>, m: int, k: string) {
    0 <= m < |members| && members[m].0 == k &&
    forall p :: 0 <= p < m ==> members[p].0 != k
  }

  /** A key that occurs has a first occurrence. */
  lemma {:induction false} FirstWithKeyExists(members: seq<(string, Json)>, k: string)
    requires HasKey(members, k)
    ensures exists m :: IsFirstWithKey(members, m, k)
  {
    if members[0].0 == k {
      assert IsFirstWithKey(members, 0, k);
    } else {
      var i :| 0 <= i < |members| && members[i].0 == k;
      assert members[1..][i - 1].0 == k;
      FirstWithKeyExists(members[1..], k);
      var m :| IsFirstWithKey(members[1..], m, k);
      assert IsFirstWithKey(members, m + 1, k);
    }
  }

  /** The position of the first member with key `k`. */
  ghost function FirstPos(members: seq<(string, Json)>, k: string): (p: nat)
    requires HasKey(members, k)
    ensures p < |members| && members[p].0 == k
    ensures forall j :: 0 <= j < p ==> members[j].0 != k
  {
    FirstWithKeyExists(members, k);
    var m :| IsFirstWithKey(members, m, k);
    m
  }

  /** Appending members does not move a key's first position. */
  lemma FirstPosPrefix(members: seq<(string, Json)>, n: nat, k: string)
    requires n <= |members| && HasKey(members[..n], k)
    ensures HasKey(members, k) && FirstPos(members[..n], k) == FirstPos(members, k)
  {
    var p := FirstPos(members[..n], k);
    assert members[p].0 == k;
    var q := FirstPos(members, k);
    if q < p {
      assert members[..n][q].0 == k;
    }
  }

  /** The own keys of an object with these members, in `Object.keys` order:
      every key once, ordered by the position of its first occurrence. */
  function OwnKeys(members: seq<(string, Json)>): (ks: seq<string>)
    ensures forall i, j :: 0 <= i < j < |ks| ==> ks[i] != ks[j]
    ensures forall k :: k in ks <==> HasKey(members, k)
    ensures forall i, j :: 0 <= i < j < |ks| ==> FirstPos(members, ks[i]) < FirstPos(members, ks[j])
  {
    if members == [] then []
    else
      var ks := OwnKeys(members[..|members| - 1]);
      assert KeysInOrder(members[..|members| - 1], ks);
      OwnKeysStep(members, ks);
      var k := members[|members| - 1].0;
      if k in ks then ks else ks + [k]
  }

  /** The facts `OwnKeys` promises of `ks` for these members. */
  ghost predicate KeysInOrder(members: seq<(string, Json)>, ks: seq<string>) {
    (forall i, j :: 0 <= i < j < |ks| ==> ks[i] != ks[j]) &&
    (forall k :: k in ks <==> HasKey(members, k)) &&
    (forall i :: 0 <= i < |ks| ==> HasKey(members, ks[i])) &&
    (forall i, j :: 0 <= i < j < |ks| ==> FirstPos(members, ks[i]) < FirstPos(members, ks[j]))
  }

  /** One step of `OwnKeys`: the keys of all members but the last, with the
      last member's key added when it is new, are the keys of all members. */
  lemma OwnKeysStep(members: seq<(string, Json)>, ks: seq<string>)
    requires members != []
    requires KeysInOrder(members[..|members| - 1], ks)
    ensures members[|members| - 1].0 in ks ==> KeysInOrder(members, ks)
    ensures members[|members| - 1].0 !in ks ==> KeysInOrder(members, ks + [members[|members| - 1].0])
  {
    var init := members[..|members| - 1];
    var k := members[|members| - 1].0;
    forall key ensures HasKey(members, key) <==> HasKey(init, key) || key == k {
      HasKeySnoc(members, key);
    }
    forall key | key in ks ensures HasKey(members, key) && FirstPos(init, key) == FirstPos(members, key) {
      FirstPosPrefix(members, |init|, key);
    }
    if k !in ks {
      OwnKeysNewKey(members, ks);
    }
  }

  /** The step of `OwnKeys` that adds a new key: it goes last. */
  lemma OwnKeysNewKey(members: seq<(string, Json)>, ks: seq<string>)
    requires members != []
    requires KeysInOrder(members[..|members| - 1], ks)
    requires members[|members| - 1].0 !in ks
    requires forall key :: key in ks ==>
               HasKey(members, key) && FirstPos(members[..|members| - 1], key) == FirstPos(members, key)
    requires forall key :: HasKey(members, key) <==> HasKey(members[..|members| - 1], key) || key == members[|members| - 1].0
    ensures KeysInOrder(members, ks + [members[|members| - 1].0])
  {
    var init := members[..|members| - 1];
    var k := members[|members| - 1].0;
    NewKeyLast(members);
    SnocDistinct(ks, k);
    assert forall i :: 0 <= i < |ks| ==> FirstPos(members, ks[i]) < |members| - 1 by {
      forall i | 0 <= i < |ks| ensures FirstPos(members, ks[i]) < |members| - 1 {
        assert FirstPos(init, ks[i]) < |init|;
      }
    }
    NewKeyOrder(members, ks, k);
    forall key ensures key in ks + [k] <==> HasKey(members, key) {
      assert key in ks + [k] <==> key in ks || key == k;
    }
  }

  /** Appending a new string keeps a sequence free of repetitions. */
  lemma SnocDistinct(ks: seq<string>, k: string)
    requires forall i, j :: 0 <= i < j < |ks| ==> ks[i] != ks[j]
    requires k !in ks
    ensures forall i, j :: 0 <= i < j < |ks + [k]| ==> (ks + [k])[i] != (ks + [k])[j]
  {
    var r := ks + [k];
    forall i, j | 0 <= i < j < |r| ensures r[i] != r[j] {
      assert r[i] == ks[i];
      if j == |ks| {
        assert r[i] in ks;
      } else {
        assert r[j] == ks[j];
      }
    }
  }

  /** A key whose first position is after those of all keys in `ks` can be
      appended to `ks` without breaking the first-position order. */
  lemma NewKeyOrder(members: seq<(string, Json)>, ks: seq<string>, k: string)
    requires forall i :: 0 <= i < |ks| ==> HasKey(members, ks[i])
    requires forall i, j :: 0 <= i < j < |ks| ==> FirstPos(members, ks[i]) < FirstPos(members, ks[j])
    requires forall i :: 0 <= i < |ks| ==> FirstPos(members, ks[i]) < |members| - 1
    requires HasKey(members, k) && FirstPos(members, k) == |members| - 1
    ensures forall i :: 0 <= i < |ks + [k]| ==> HasKey(members, (ks + [k])[i])
    ensures forall i, j :: 0 <= i < j < |ks + [k]| ==> FirstPos(members, (ks + [k])[i]) < FirstPos(members, (ks + [k])[j])
  {
    var r := ks + [k];
    forall i | 0 <= i < |r| ensures HasKey(members, r[i]) {
      if i < |ks| {
        assert r[i] == ks[i];
      }
    }
    forall i, j | 0 <= i < j < |r| ensures FirstPos(members, r[i]) < FirstPos(members, r[j]) {
      assert r[i] == ks[i];
      if j < |ks| {
        assert r[j] == ks[j];
      }
    }
  }

  /** A key that first occurs in the last member has its first position
      there. */
  lemma NewKeyLast(members: seq<(string, Json)>)
    requires members != []
    requires !HasKey(members[..|members| - 1], members[|members| - 1].0)
    ensures HasKey(members, members[|members| - 1].0)
    ensures FirstPos(members, members[|members| - 1].0) == |members| - 1
  {
    var k := members[|members| - 1].0;
    assert members[|members| - 1].0 == k;
  }

  /** The keys of a list of members are those of all but its last member,
      and the last member's key. */
  lemma HasKeySnoc(members: seq<(string, Json)>, key: string)
    requires members != []
    ensures HasKey(members, key) <==> HasKey(members[..|members| - 1], key) || key == members[|members| - 1].0
  {
    var init := members[..|members| - 1];
    if HasKey(members, key) && key != members[|members| - 1].0 {
      var i :| 0 <= i < |members| && members[i].0 == key;
      assert init[i].0 == key;
    }
    if HasKey(init, key) {
      var i :| 0 <= i < |init| && init[i].0 == key;
      assert members[i].0 == key;
    }
    assert members[|members| - 1].0 == members[|members| - 1].0;
  }

  /** The value an object with these members holds under `k`. */
  function LastValue(members: seq<(string, Json)>, k: string): (r: Option<Json>)
    ensures r.None? <==> !HasKey(members, k)
    ensures r.Some? ==> exists m :: IsLastWithKey(members, m, k) && members[m].1 == r.value
  {
    if members == [] then None
    else
      var init := members[..|members| - 1];
      var last := members[|members| - 1];
      assert forall i :: 0 <= i < |init| ==> init[i] == members[i];
      if last.0 == k then
        assert IsLastWithKey(members, |members| - 1, k);
        Some(last.1)
      else
        var r := LastValue(init, k);
        HasKeySnoc(members, k);
        assert r.Some? ==> exists m :: IsLastWithKey(members, m, k) && members[m].1 == r.value by {
          if r.Some? {
            var m :| IsLastWithKey(init, m, k) && init[m].1 == r.value;
            LastWithKeySnoc(members, m, k);
          }
        }
        r
  }

  /** The last member with a key stays the last one when a member with
      another key is appended. */
  lemma LastWithKeySnoc(members: seq<(string, Json)>, m: int, k: string)
    requires members != [] && members[|members| - 1].0 != k
    requires IsLastWithKey(members[..|members| - 1], m, k)
    ensures IsLastWithKey(members, m, k)
  {
    var init := members[..|members| - 1];
    forall p | m < p < |members| ensures members[p].0 != k {
      if p < |init| {
        assert members[p] == init[p];
      }
    }
  }

  // ---------------------------------------------------------------------
  // Object.keys and property reads.

  /** `Object.keys(v)`; JavaScript throws for null, so it is excluded. */
  function Keys(v: Json): (ks: seq<string>)
    requires !v.Null?
    ensures forall i, j :: 0 <= i < j < |ks| ==> ks[i] != ks[j]
    ensures v.Obj? ==> forall k :: k in ks <==> HasKey(v.members, k)
    ensures v.Obj? ==> forall i, j :: 0 <= i < j < |ks| ==> FirstPos(v.members, ks[i]) < FirstPos(v.members, ks[j])
    ensures v.Arr? ==> ks == IndexKeys(|v.items|)
    ensures v.Str? ==> ks == IndexKeys(|v.s|)
    ensures v.Bool? || v.Num? ==> ks == []
  {
    match v
    case Bool(_) => []
    case Num(_) => []
    case Str(s) => IndexKeys(|s|)
    case Arr(items) => IndexKeys(|items|)
    case Obj(members) => OwnKeys(members)
  }

  /** What a property read `v[k]` gives. */
  datatype Read = Undefined | Defined(value: Json) | TypeError

  /** The property read `v[k]` on a JSON value. Properties inherited from a
      prototype are not modelled: a key that is not an own property, an index
      or "length" reads as undefined. */
  function Get(v: Json, k: string): (r: Read)
    ensures r.TypeError? <==> v.Null?
    ensures !v.Null? && k in Keys(v) ==> r.Defined?
    ensures v.Obj? ==> (r.Defined? <==> k in Keys(v))
    ensures v.Obj? && r.Defined? ==> (k, r.value) in v.members
  {
    match v
    case Null => TypeError
    case Bool(_) => Undefined
    case Num(_) => Undefined
    case Str(s) =>
      if k == "length" then Defined(Num(|s|))
      else (match IndexOf(k, |s|)
            case Some(i) => Defined(Str([s[i]]))
            case None => Undefined)
    case Arr(items) =>
      if k == "length" then Defined(Num(|items|))
      else (match IndexOf(k, |items|)
            case Some(i) => Defined(items[i])
            case None => Undefined)
    case Obj(members) =>
      match LastValue(members, k)
      case Some(x) => Defined(x)
      case None => Undefined
  }

  /** Reading an array at the key of one of its indices gives that element. */
  lemma GetIndex(items: seq<Json>, i: nat)
    requires i < |items|
    ensures Get(Arr(items), Decimal(i)) == Defined(items[i])
  {
    IndexOfDecimal(i, |items|);
    assert Decimal(i) != "length" by {
      assert Decimal(i)[0] != 'l';
    }
  }

  /** Reading an object at one of its keys gives the value of the key's last
      occurrence among the members. */
  lemma GetMember(members: seq<(string, Json)>, i: nat)
    requires i < |members|
    requires forall j :: i < j < |members| ==> members[j].0 != members[i].0
    ensures Get(Obj(members), members[i].0) == Defined(members[i].1)
  {
    var r := LastValue(members, members[i].0);
    var p :| IsLastWithKey(members, p, members[i].0) && members[p].1 == r.value;
    assert p == i;
  }
}
