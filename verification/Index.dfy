/** The id-to-name index: key-ordered traversal, decimal rendering of unknown ids and the
    reconciliation of a stored index with the ids the sensor reports. */
module Index {
  import opened Vocabulary

  type Names = map<U32, string>

  // ---- Key order, as QMap iterates ----

  lemma {:induction false} LeastExists(s: set<U32>) returns (least: U32)
    requires s != {}
    ensures least in s && forall j :: j in s ==> least <= j
    decreases |s|
  {
    least :| least in s;
    var rest := s - {least};
    assert forall j :: j in s ==> j == least || j in rest;
    if rest != {} {
      var other := LeastExists(rest);
      least := if least <= other then least else other;
    }
  }

  function LeastKey(s: set<U32>): (k: U32)
    requires s != {}
    ensures k in s && forall j :: j in s ==> k <= j
  {
    assert exists k :: k in s && forall j :: j in s ==> k <= j by { var l := LeastExists(s); }
    var k :| k in s && forall j :: j in s ==> k <= j;
    k
  }

  function OrderedKeys(s: set<U32>): (ks: seq<U32>)
    ensures forall k :: k in ks <==> k in s
    ensures forall i, j :: 0 <= i < j < |ks| ==> ks[i] < ks[j]
    decreases |s|
  {
    if s == {} then [] else
      var k := LeastKey(s);
      [k] + OrderedKeys(s - {k})
  }

  /** QMap::values(): the names in ascending order of id. */
  function OrderedValues(m: Names): seq<string>
    decreases |m|
  {
    if m == map[] then [] else
      var k := LeastKey(m.Keys);
      [m[k]] + OrderedValues(m - {k})
  }

  /** The ids that carry the name. */
  function KeysNamed(m: Names, name: string): set<U32> {
    set k | k in m && m[k] == name
  }

  /** The least id that carries the name, or 0. */
  function KeyOf(m: Names, name: string): U32 {
    var ks := KeysNamed(m, name);
    if ks == {} then 0 else LeastKey(ks)
  }

  lemma {:induction false} ValuesHead(m: Names, l: U32)
    requires m != map[] && l == LeastKey(m.Keys)
    ensures multiset(OrderedValues(m)) == multiset{m[l]} + multiset(OrderedValues(m - {l}))
  {
    assert OrderedValues(m) == [m[l]] + OrderedValues(m - {l});
  }

  /** Any entry can be taken out of the traversal first. */
  lemma {:induction false} ValuesPull(m: Names, k: U32)
    requires k in m
    ensures multiset(OrderedValues(m)) == multiset{m[k]} + multiset(OrderedValues(m - {k}))
    decreases |m|
  {
    var l := LeastKey(m.Keys);
    ValuesHead(m, l);
    if k != l {
      var tail, without := m - {l}, m - {k};
      var both := tail - {k};
      assert without - {l} == both;
      ValuesPull(tail, k);
      assert l in without && LeastKey(without.Keys) == l;
      ValuesHead(without, l);
      Exchange(m[l], m[k], multiset(OrderedValues(m)), multiset(OrderedValues(tail)),
               multiset(OrderedValues(without)), multiset(OrderedValues(both)));
    }
  }

  lemma {:induction false} Exchange(x: string, y: string, all: multiset<string>, tail: multiset<string>,
                                    without: multiset<string>, both: multiset<string>)
    requires all == multiset{x} + tail && tail == multiset{y} + both && without == multiset{x} + both
    ensures all == multiset{y} + without
  {
  }

  lemma {:induction false} ValuesAreValues(m: Names)
    ensures forall n :: n in OrderedValues(m) <==> n in m.Values
    decreases |m|
  {
    if m != map[] {
      var k := LeastKey(m.Keys);
      var rest := m - {k};
      ValuesAreValues(rest);
      forall n ensures n in OrderedValues(m) <==> n in m.Values {
        if n in m.Values {
          var j :| j in m && m[j] == n;
          assert j != k ==> j in rest && rest[j] == n;
        }
        if n in rest.Values {
          var j :| j in rest && rest[j] == n;
          assert j in m && m[j] == n;
        }
      }
    }
  }

  /** The names of these ids, in their order. */
  predicate NamesOf(m: Names, ids: seq<U32>, names: seq<string>) {
    && |names| == |ids|
    && forall i :: 0 <= i < |ids| ==> ids[i] in m && names[i] == m[ids[i]]
  }

  lemma {:induction false} OneMoreName(m: Names, k: U32, ids: seq<U32>, names: seq<string>)
    requires k in m && NamesOf(m - {k}, ids, names)
    ensures NamesOf(m, [k] + ids, [m[k]] + names)
  {
  }

  /** The traversal follows the ascending keys. */
  lemma {:induction false} ValuesInKeyOrder(m: Names)
    ensures NamesOf(m, OrderedKeys(m.Keys), OrderedValues(m))
    decreases |m|
  {
    if m != map[] {
      var k := LeastKey(m.Keys);
      assert (m - {k}).Keys == m.Keys - {k};
      ValuesInKeyOrder(m - {k});
      OneMoreName(m, k, OrderedKeys(m.Keys - {k}), OrderedValues(m - {k}));
      KeysHead(m.Keys);
    }
  }

  lemma {:induction false} KeysHead(s: set<U32>)
    requires s != {}
    ensures OrderedKeys(s) == [LeastKey(s)] + OrderedKeys(s - {LeastKey(s)})
  {
  }

  // ---- Decimal rendering ----

  function Digit(d: nat): char
    requires d < 10
  {
    ['0', '1', '2', '3', '4', '5', '6', '7', '8', '9'][d]
  }

  function Decimal(n: nat): (s: string)
    ensures |s| >= 1 && (|s| == 1 <==> n < 10)
  {
    if n < 10 then [Digit(n)] else Decimal(n / 10) + [Digit(n % 10)]
  }

  lemma {:induction false} DecimalInjective(a: nat, b: nat)
    requires Decimal(a) == Decimal(b)
    ensures a == b
    decreases a
  {
    assert Decimal(a)[|Decimal(a)| - 1] == Decimal(b)[|Decimal(b)| - 1];
    assert a % 10 == b % 10;
    if a >= 10 {
      assert Decimal(a)[..|Decimal(a)| - 1] == Decimal(a / 10);
      assert Decimal(b)[..|Decimal(b)| - 1] == Decimal(b / 10);
      DecimalInjective(a / 10, b / 10);
    }
  }

  /** The number that a string of decimal digits reads as. */
  function Value(s: string): int {
    if s == [] then 0 else 10 * Value(s[..|s| - 1]) + (s[|s| - 1] as int - '0' as int)
  }

  predicate Decimals(s: string) {
    forall i :: 0 <= i < |s| ==> '0' <= s[i] <= '9'
  }

  /** The rendering reads as the number, in decimal digits and without leading zeros. */
  lemma {:induction false} DecimalReads(n: nat)
    ensures var s := Decimal(n);
      Value(s) == n && Decimals(s) && (n > 0 ==> s[0] != '0')
  {
    var s := Decimal(n);
    DigitReads(n % 10);
    if n < 10 {
      assert s[..0] == [] && Value(s[..0]) == 0;
    } else {
      DecimalReads(n / 10);
      assert s[..|s| - 1] == Decimal(n / 10);
    }
  }

  lemma {:induction false} DigitReads(d: nat)
    requires d < 10
    ensures '0' <= Digit(d) <= '9' && Digit(d) as int - '0' as int == d
  {
  }

  /** The name given to a template that the index does not know. */
  function UnknownName(k: U32): string {
    "Unknown " + Decimal(k)
  }

  /** A made-up name is "Unknown ", followed by the id in decimal digits without leading zeros. */
  lemma {:induction false} UnknownNameReads(k: U32)
    ensures var name := UnknownName(k);
      && |name| > 8 && name[..8] == "Unknown "
      && Decimals(name[8..]) && Value(name[8..]) == k && (|name| > 9 ==> name[8] != '0')
  {
    DecimalReads(k);
    assert UnknownName(k)[8..] == Decimal(k);
  }

  lemma {:induction false} UnknownInjective(a: U32, b: U32)
    requires UnknownName(a) == UnknownName(b)
    ensures a == b
  {
    assert UnknownName(a)[8..] == Decimal(a);
    assert UnknownName(b)[8..] == Decimal(b);
    DecimalInjective(a, b);
  }

  // ---- Reconciliation ----

  function SetOf(ids: seq<U32>): (s: set<U32>)
  {
    set k | k in ids
  }

  /** The index that loading leaves: exactly the reported ids, with their stored names. */
  function Reconcile(stored: Names, ids: seq<U32>): (m: Names)
    ensures m.Keys == SetOf(ids)
  {
    map k | k in ids :: if k in stored then stored[k] else UnknownName(k)
  }

  /** The reported part of an index. */
  function Reported(m: Names, ids: seq<U32>): Names {
    map k | k in m && k in ids :: m[k]
  }

  /** The index when only these keys have been looked at. */
  function Dropping(m: Names, ids: seq<U32>, seen: seq<U32>): Names {
    map k | k in m && (k in ids || k !in seen) :: m[k]
  }

  lemma {:induction false} DroppingStep(m: Names, ids: seq<U32>, keys: seq<U32>, i: nat)
    requires i < |keys|
    ensures Dropping(m, ids, keys[..i + 1])
         == if keys[i] in ids then Dropping(m, ids, keys[..i]) else Dropping(m, ids, keys[..i]) - {keys[i]}
  {
    assert keys[..i + 1] == keys[..i] + [keys[i]];
  }

  /** An index with made-up names for the ids it does not know. */
  function WithUnknown(m: Names, ids: seq<U32>): Names {
    map k | k in m.Keys + SetOf(ids) :: if k in m then m[k] else UnknownName(k)
  }

  lemma {:induction false} WithUnknownStep(m: Names, ids: seq<U32>, i: nat)
    requires i < |ids|
    ensures WithUnknown(m, ids[..i + 1])
         == if ids[i] in m then WithUnknown(m, ids[..i])
            else WithUnknown(m, ids[..i])[ids[i] := UnknownName(ids[i])]
  {
    assert ids[..i + 1] == ids[..i] + [ids[i]];
  }

  /** Dropping the unreported and then adding the unknown is the reconciliation. */
  lemma {:induction false} ReconcileInTwo(stored: Names, ids: seq<U32>)
    ensures WithUnknown(Reported(stored, ids), ids) == Reconcile(stored, ids)
  {
    assert Reported(stored, ids).Keys + SetOf(ids) == SetOf(ids);
  }

  /** Loading again what was just saved, over the same report, changes nothing. */
  lemma {:induction false} ReconcileIdempotent(stored: Names, ids: seq<U32>)
    ensures Reconcile(Reconcile(stored, ids), ids) == Reconcile(stored, ids)
  {
  }
}
