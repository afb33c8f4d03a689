/** A loosely typed product record: the JavaScript object built by the CSV
    parser or received from a JSON source, as its list of key/value pairs in
    insertion order. `Entries` reorders that list the way `Object.entries`
    enumerates it (array-index keys first, in ascending numeric order, then
    the other keys in insertion order), which is the order the name heuristic
    of the normalizer walks. */
module Records {
  import opened Wrappers
  import opened Seqs

  /** The values a record field can hold. `Composite` stands for arrays and
      nested objects, which the catalog never looks into. */
  datatype Value = Str(s: string) | Num(x: real) | Bool(b: bool) | Null | Composite

  /** JavaScript truthiness (NaN is not modelled). */
  predicate Truthy(v: Value) {
    match v
    case Str(s) => s != []
    case Num(x) => x != 0.0
    case Bool(b) => b
    case Null => false
    case Composite => true
  }

  datatype Field = Field(key: string, value: Value)

  type Record = seq<Field>

  function Keys(r: Record): set<string> {
    if r == [] then {} else {r[0].key} + Keys(r[1..])
  }

  predicate UniqueKeys(r: Record) {
    r == [] || (r[0].key !in Keys(r[1..]) && UniqueKeys(r[1..]))
  }

  /** `product[key]`; `None` is `undefined`. */
  function Get(r: Record, key: string): (o: Option<Value>)
    ensures o.Some? <==> key in Keys(r)
  {
    if r == [] then None
    else if r[0].key == key then Some(r[0].value)
    else Get(r[1..], key)
  }

  /** `product[key] = v`: an existing key keeps its position and takes the new
      value, a new key is appended. */
  function Put(r: Record, key: string, v: Value): (r': Record)
    ensures Keys(r') == Keys(r) + {key}
    ensures Get(r', key) == Some(v)
    ensures forall k :: k != key ==> Get(r', k) == Get(r, k)
    ensures UniqueKeys(r) ==> UniqueKeys(r')
    ensures key !in Keys(r) ==> r' == r + [Field(key, v)]
    ensures key in Keys(r) ==> |r'| == |r|
  {
    if r == [] then [Field(key, v)]
    else if r[0].key == key then [Field(key, v)] + r[1..]
    else [r[0]] + Put(r[1..], key, v)
  }

  /** Every value stored in the record satisfies `p`. */
  predicate AllValues(r: Record, p: Value -> bool) {
    forall i :: 0 <= i < |r| ==> p(r[i].value)
  }

  lemma {:induction false} PutAllValues(r: Record, key: string, v: Value, p: Value -> bool)
    requires AllValues(r, p) && p(v)
    ensures AllValues(Put(r, key, v), p)
  {
    if r != [] && r[0].key != key {
      PutAllValues(r[1..], key, v, p);
    }
  }

  lemma {:induction false} GetAllValues(r: Record, key: string, p: Value -> bool)
    requires AllValues(r, p) && key in Keys(r)
    ensures p(Get(r, key).value)
  {
    if r[0].key != key {
      GetAllValues(r[1..], key, p);
    }
  }

  predicate TruthyAt(r: Record, key: string) {
    Get(r, key).Some? && Truthy(Get(r, key).value)
  }

  /** `r[k0] || r[k1] || ... || default`. */
  function FirstTruthy(r: Record, keys: seq<string>, default: Value): (v: Value)
    ensures (forall i :: 0 <= i < |keys| ==> !TruthyAt(r, keys[i])) ==> v == default
    ensures Truthy(default) ==> Truthy(v)
    decreases |keys|
  {
    if keys == [] then default
    else if TruthyAt(r, keys[0]) then Get(r, keys[0]).value
    else FirstTruthy(r, keys[1..], default)
  }

  /** The value is that of the first key whose value is truthy. */
  lemma {:induction false} FirstTruthyIs(r: Record, keys: seq<string>, default: Value, k: nat)
    requires k < |keys| && TruthyAt(r, keys[k])
    requires forall j :: 0 <= j < k ==> !TruthyAt(r, keys[j])
    ensures FirstTruthy(r, keys, default) == Get(r, keys[k]).value
    decreases k
  {
    if k > 0 {
      FirstTruthyIs(r, keys[1..], default, k - 1);
    }
  }

  // ---------------------------------------------------------------------
  // Enumeration order of own keys
  // ---------------------------------------------------------------------

  predicate IsDigit(c: char) {
    '0' <= c <= '9'
  }

  /** The number a string of decimal digits denotes. */
  function DecimalValue(k: string): nat
    decreases |k|
  {
    if k == [] then 0
    else
      var d := k[|k| - 1];
      DecimalValue(k[..|k| - 1]) * 10 + (if IsDigit(d) then d as int - '0' as int else 0)
  }

  /** An array index in the sense of ECMAScript: the canonical decimal form
      (no sign, no leading zero) of an integer from 0 to 2^32 - 2. */
  predicate IsArrayIndex(k: string) {
    && k != []
    && (forall i :: 0 <= i < |k| ==> IsDigit(k[i]))
    && (k[0] == '0' ==> k == "0")
    && DecimalValue(k) < 0xFFFF_FFFF
  }

  predicate IsIndexField(f: Field) {
    IsArrayIndex(f.key)
  }

  predicate NotIndexField(f: Field) {
    !IsArrayIndex(f.key)
  }

  /** The numeric value that orders array-index keys. */
  function Rank(f: Field): nat {
    DecimalValue(f.key)
  }

  predicate IndexOrdered(s: seq<Field>) {
    forall i, j :: 0 <= i < j < |s| ==> Rank(s[i]) <= Rank(s[j])
  }

  /** Inserts `f` before the first field whose key is not numerically smaller. */
  function InsertByIndex(f: Field, s: seq<Field>): (r: seq<Field>)
    ensures multiset(r) == multiset(s) + multiset{f}
    decreases |s|
  {
    if s == [] then [f]
    else if Rank(f) <= Rank(s[0]) then [f] + s
    else
      assert s == [s[0]] + s[1..];
      [s[0]] + InsertByIndex(f, s[1..])
  }

  /** Prepending a field no larger than any other keeps a list ordered. */
  lemma ConsOrdered(a: Field, rest: seq<Field>)
    requires IndexOrdered(rest)
    requires forall x :: x in rest ==> Rank(a) <= Rank(x)
    ensures IndexOrdered([a] + rest)
  {
    var r := [a] + rest;
    forall i, j | 0 <= i < j < |r| ensures Rank(r[i]) <= Rank(r[j]) {
      assert r[j] == rest[j - 1];
      if i > 0 {
        assert r[i] == rest[i - 1];
      }
    }
  }

  /** Every field of an insertion is the inserted one or one of the list. */
  lemma InsertMembers(f: Field, s: seq<Field>, y: Field)
    requires y in InsertByIndex(f, s)
    ensures y == f || y in s
  {
    assert y in multiset(InsertByIndex(f, s));
  }

  /** Insertion keeps a numerically ordered list ordered. */
  lemma {:induction false} InsertOrdered(f: Field, s: seq<Field>)
    requires IndexOrdered(s)
    ensures IndexOrdered(InsertByIndex(f, s))
    decreases |s|
  {
    if s == [] {
    } else if Rank(f) <= Rank(s[0]) {
      forall x | x in s ensures Rank(f) <= Rank(x) {
        var k :| 0 <= k < |s| && s[k] == x;
        if k > 0 {
          assert Rank(s[0]) <= Rank(s[k]);
        }
      }
      ConsOrdered(f, s);
    } else {
      var t := s[1..];
      assert IndexOrdered(t) by {
        forall i, j | 0 <= i < j < |t| ensures Rank(t[i]) <= Rank(t[j]) {
          assert t[i] == s[i + 1] && t[j] == s[j + 1];
        }
      }
      InsertOrdered(f, t);
      var rest := InsertByIndex(f, t);
      forall y | y in rest ensures Rank(s[0]) <= Rank(y) {
        InsertMembers(f, t, y);
        if y != f {
          var k :| 0 <= k < |t| && t[k] == y;
          assert s[k + 1] == y;
        }
      }
      ConsOrdered(s[0], rest);
    }
  }

  /** Sorts fields by the numeric value of their keys, keeping the relative
      order of equal values. */
  function SortByIndex(s: seq<Field>): (r: seq<Field>)
    ensures multiset(r) == multiset(s)
    decreases |s|
  {
    if s == [] then []
    else
      assert s == [s[0]] + s[1..];
      InsertByIndex(s[0], SortByIndex(s[1..]))
  }

  lemma {:induction false} SortOrdered(s: seq<Field>)
    ensures IndexOrdered(SortByIndex(s))
    decreases |s|
  {
    if s != [] {
      SortOrdered(s[1..]);
      InsertOrdered(s[0], SortByIndex(s[1..]));
    }
  }

  /** The fields in the order `Object.entries` lists them. */
  function Entries(r: Record): seq<Field> {
    SortByIndex(Keep(r, IsIndexField)) + Keep(r, NotIndexField)
  }

  /** How many fields of `r` have an array-index key. */
  function IndexCount(r: Record): nat {
    |Keep(r, IsIndexField)|
  }

  /** Sorting keeps the fields and their number. */
  lemma SortMembers(s: seq<Field>)
    ensures |SortByIndex(s)| == |s|
    ensures forall x :: x in SortByIndex(s) <==> x in s
  {
    var t := SortByIndex(s);
    assert |t| == |multiset(t)| == |multiset(s)| == |s|;
    forall x ensures x in t <==> x in s {
      assert x in t <==> x in multiset(t);
      assert x in s <==> x in multiset(s);
    }
  }

  /** `Object.entries` lists every field of the record exactly once. */
  lemma EntriesPermutation(r: Record)
    ensures multiset(Entries(r)) == multiset(r)
    ensures |Entries(r)| == |r|
    ensures forall f :: f in Entries(r) <==> f in r
  {
    var e := Entries(r);
    KeepPartition(r, IsIndexField, NotIndexField);
    assert multiset(e) == multiset(r);
    assert |e| == |multiset(e)| == |multiset(r)| == |r|;
    forall f ensures f in e <==> f in r {
      assert f in e <==> f in multiset(e);
      assert f in r <==> f in multiset(r);
    }
  }

  lemma EntriesHead(r: Record)
    ensures IndexCount(r) <= |Entries(r)|
    ensures forall i :: 0 <= i < IndexCount(r) ==> IsIndexField(Entries(r)[i])
    ensures Entries(r)[..IndexCount(r)] == SortByIndex(Keep(r, IsIndexField))
  {
    var idx := Keep(r, IsIndexField);
    var sorted := SortByIndex(idx);
    SortMembers(idx);
    KeepFacts(r, IsIndexField);
    var e := Entries(r);
    forall i | 0 <= i < |sorted| ensures IsIndexField(e[i]) {
      assert e[i] == sorted[i];
      assert sorted[i] in idx;
    }
    assert e[..|sorted|] == sorted;
  }

  lemma EntriesTail(r: Record)
    ensures IndexCount(r) <= |Entries(r)|
    ensures forall i :: IndexCount(r) <= i < |Entries(r)| ==> NotIndexField(Entries(r)[i])
    ensures Entries(r)[IndexCount(r)..] == Keep(r, NotIndexField)
  {
    var sorted := SortByIndex(Keep(r, IsIndexField));
    var rest := Keep(r, NotIndexField);
    SortMembers(Keep(r, IsIndexField));
    var e := Entries(r);
    forall i | |sorted| <= i < |e| ensures NotIndexField(e[i]) {
      assert e[i] == rest[i - |sorted|];
    }
    assert e[|sorted|..] == rest;
  }

  /** The array-index keys come first, in ascending numeric order; the other
      keys follow in insertion order. */
  lemma EntriesOrder(r: Record)
    ensures IndexCount(r) <= |Entries(r)|
    ensures forall i :: 0 <= i < IndexCount(r) ==> IsArrayIndex(Entries(r)[i].key)
    ensures forall i :: IndexCount(r) <= i < |Entries(r)| ==> !IsArrayIndex(Entries(r)[i].key)
    ensures IndexOrdered(Entries(r)[..IndexCount(r)])
    ensures Entries(r)[IndexCount(r)..] == Keep(r, NotIndexField)
    ensures IsSubsequence(Entries(r)[IndexCount(r)..], r)
  {
    EntriesHead(r);
    EntriesTail(r);
    SortOrdered(Keep(r, IsIndexField));
    KeepFacts(r, NotIndexField);
  }

  /** In a list ordered by key value, the first match has the smallest key
      value of all matches. */
  lemma {:induction false} FirstWhereLeast(s: seq<Field>, p: Field -> bool)
    requires IndexOrdered(s)
    requires FirstWhere(s, p).Some?
    ensures forall x :: x in s && p(x) ==> Rank(FirstWhere(s, p).value) <= Rank(x)
    decreases |s|
  {
    if p(s[0]) {
      forall x | x in s && p(x) ensures Rank(s[0]) <= Rank(x) {
        var k :| 0 <= k < |s| && s[k] == x;
      }
    } else {
      var t := s[1..];
      assert IndexOrdered(t) by {
        forall i, j | 0 <= i < j < |t| ensures Rank(t[i]) <= Rank(t[j]) {
          assert t[i] == s[i + 1] && t[j] == s[j + 1];
        }
      }
      FirstWhereLeast(t, p);
      forall x | x in s && p(x) ensures x in t {
        var k :| 0 <= k < |s| && s[k] == x;
        assert k > 0;
        assert t[k - 1] == x;
      }
    }
  }

  /** Every field with an array-index key is among the first `IndexCount(r)`
      entries. */
  lemma IndexFieldsInHead(r: Record)
    ensures IndexCount(r) <= |Entries(r)|
    ensures forall x :: x in r && IsIndexField(x) ==> x in Entries(r)[..IndexCount(r)]
  {
    EntriesPermutation(r);
    EntriesTail(r);
    var e := Entries(r);
    var n := IndexCount(r);
    forall x | x in r && IsIndexField(x) ensures x in e[..n] {
      assert x in e;
      var k :| 0 <= k < |e| && e[k] == x;
      assert e[..n][k] == x;
    }
  }

  lemma EntriesFindExists(r: Record, p: Field -> bool)
    ensures FirstWhere(Entries(r), p).None? <==> forall i :: 0 <= i < |r| ==> !p(r[i])
  {
    EntriesPermutation(r);
    var e := Entries(r);
    if FirstWhere(e, p).None? {
      forall i | 0 <= i < |r| ensures !p(r[i]) {
        assert r[i] in e;
        var k :| 0 <= k < |e| && e[k] == r[i];
      }
    } else {
      var f := FirstWhere(e, p).value;
      assert f in r;
      var j :| 0 <= j < |r| && r[j] == f;
    }
  }

  /** Within a list of array-index fields ordered by key value. */
  lemma OrderedFind(head: seq<Field>, x: Field, p: Field -> bool)
    requires IndexOrdered(head)
    requires forall k :: 0 <= k < |head| ==> IsIndexField(head[k])
    requires x in head && p(x)
    ensures FirstWhere(head, p).Some?
    ensures IsIndexField(FirstWhere(head, p).value)
    ensures forall y :: y in head && p(y) ==> Rank(FirstWhere(head, p).value) <= Rank(y)
  {
    var m :| 0 <= m < |head| && head[m] == x;
    var f := FirstWhere(head, p);
    assert f.Some? by {
      assert p(head[m]);
    }
    var k :| 0 <= k < |head| && head[k] == f.value;
    FirstWhereLeast(head, p);
  }

  /** The array-index part of the entries: ordered, made of array-index
      fields, and holding every such field of the record. */
  lemma EntriesHeadFacts(r: Record)
    ensures IndexCount(r) <= |Entries(r)|
    ensures IndexOrdered(Entries(r)[..IndexCount(r)])
    ensures forall k :: 0 <= k < IndexCount(r) ==> IsIndexField(Entries(r)[..IndexCount(r)][k])
    ensures forall x :: x in r && IsIndexField(x) ==> x in Entries(r)[..IndexCount(r)]
  {
    IndexFieldsInHead(r);
    EntriesHead(r);
    SortOrdered(Keep(r, IsIndexField));
  }

  /** A match in the leading part of a list is found there. */
  lemma PrefixFind(e: seq<Field>, n: nat, p: Field -> bool)
    requires n <= |e|
    requires FirstWhere(e[..n], p).Some?
    ensures FirstWhere(e, p) == FirstWhere(e[..n], p)
  {
    assert e == e[..n] + e[n..];
    FirstWhereAppend(e[..n], e[n..], p);
  }

  lemma EntriesFindIndex(r: Record, p: Field -> bool, i: nat)
    requires i < |r| && IsIndexField(r[i]) && p(r[i])
    ensures FirstWhere(Entries(r), p).Some?
    ensures IsIndexField(FirstWhere(Entries(r), p).value)
    ensures forall j :: 0 <= j < |r| && IsIndexField(r[j]) && p(r[j]) ==>
              Rank(FirstWhere(Entries(r), p).value) <= Rank(r[j])
  {
    EntriesHeadFacts(r);
    var head := Entries(r)[..IndexCount(r)];
    assert r[i] in r;
    OrderedFind(head, r[i], p);
    PrefixFind(Entries(r), IndexCount(r), p);
    forall j | 0 <= j < |r| && IsIndexField(r[j]) && p(r[j])
      ensures Rank(FirstWhere(head, p).value) <= Rank(r[j])
    {
      assert r[j] in r;
    }
  }

  lemma EntriesFindInsertion(r: Record, p: Field -> bool)
    requires forall i :: 0 <= i < |r| && IsIndexField(r[i]) ==> !p(r[i])
    ensures FirstWhere(Entries(r), p) == FirstWhere(r, p)
  {
    EntriesPermutation(r);
    EntriesHead(r);
    EntriesTail(r);
    var e := Entries(r);
    var n := IndexCount(r);
    var head := e[..n];
    assert e == head + e[n..];
    FirstWhereAppend(head, e[n..], p);
    assert FirstWhere(head, p).None? by {
      forall k | 0 <= k < |head| ensures !p(head[k]) {
        assert head[k] in r;
        var j :| 0 <= j < |r| && r[j] == head[k];
      }
    }
    assert forall x :: x in r && !NotIndexField(x) ==> !p(x) by {
      forall x | x in r && !NotIndexField(x) ensures !p(x) {
        var j :| 0 <= j < |r| && r[j] == x;
      }
    }
    FirstWhereSkips(r, NotIndexField, p);
  }

  /** The first entry of `Object.entries(r)` that satisfies `p`: there is one
      exactly when some field satisfies `p`; when a field with an array-index
      key does, it is such a field, and of those the one with the smallest
      key value; when none does, it is the first match in insertion order. */
  lemma EntriesFind(r: Record, p: Field -> bool)
    ensures FirstWhere(Entries(r), p).None? <==> forall i :: 0 <= i < |r| ==> !p(r[i])
    ensures (exists i :: 0 <= i < |r| && IsIndexField(r[i]) && p(r[i])) ==>
              && FirstWhere(Entries(r), p).Some?
              && IsIndexField(FirstWhere(Entries(r), p).value)
              && forall j :: 0 <= j < |r| && IsIndexField(r[j]) && p(r[j]) ==>
                   Rank(FirstWhere(Entries(r), p).value) <= Rank(r[j])
    ensures (forall i :: 0 <= i < |r| && IsIndexField(r[i]) ==> !p(r[i])) ==>
              FirstWhere(Entries(r), p) == FirstWhere(r, p)
  {
    EntriesFindExists(r, p);
    if i :| 0 <= i < |r| && IsIndexField(r[i]) && p(r[i]) {
      EntriesFindIndex(r, p, i);
    } else {
      EntriesFindInsertion(r, p);
    }
  }
}
