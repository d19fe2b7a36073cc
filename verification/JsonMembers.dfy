/** The members of an object (src/json/jsoncpp.cpp): what assigning to names one after the other leaves in the map. */
module JsonMembers {
  import opened Bytes
  import opened Json
  import opened JsonReader
  import opened JsonText
  import opened JsonRoundTrip

  // ---- strcmp is a total order -------------------------------------------------------------------

  lemma {:induction false} KeyLessTotal(a: bytes, b: bytes)
    ensures a == b || KeyLess(a, b) || KeyLess(b, a)
  {
    if a != [] && b != [] && a[0] == b[0] {
      KeyLessTotal(a[1..], b[1..]);
      if a[1..] == b[1..] { assert a == [a[0]] + a[1..] == [b[0]] + b[1..] == b; }
    }
  }

  // ---- one assignment ----------------------------------------------------------------------------

  lemma SortedTail(m: Member, ms: seq<Member>, all: seq<Member>)
    requires all == [m] + ms
    ensures SortedKeys(all) <==> SortedKeys(ms) && forall x :: x in ms ==> KeyLess(m.key, x.key)
  {
    assert all[1..] == ms;
    if SortedKeys(all) {
      forall x | x in ms ensures KeyLess(m.key, x.key) {
        var i :| 0 <= i < |ms| && ms[i] == x;
        assert all[0] == m && all[i + 1] == x;
      }
      forall i, j | 0 <= i < j < |ms| ensures KeyLess(ms[i].key, ms[j].key) {
        assert all[i + 1] == ms[i] && all[j + 1] == ms[j];
      }
    }
  }

  lemma Split(ms: seq<Member>)
    requires ms != []
    ensures ms == [ms[0]] + ms[1..]
    ensures forall x :: x in ms <==> x == ms[0] || x in ms[1..]
  {
    assert ms == [ms[0]] + ms[1..];
  }

  /** A name in front of the first one is not a name of the map. */
  lemma InsertFirst(ms: seq<Member>, key: bytes, v: Value)
    requires SortedKeys(ms) && (ms == [] || KeyLess(key, ms[0].key))
    ensures SortedKeys([Member(key, v)] + ms)
    ensures forall x :: x in ms ==> x.key != key
  {
    forall x | x in ms ensures KeyLess(key, x.key) && x.key != key {
      var i :| 0 <= i < |ms| && ms[i] == x;
      if i > 0 { KeyLessTrans(key, ms[0].key, x.key); }
      KeyLessIrreflexive(key, x.key);
    }
    SortedTail(Member(key, v), ms, [Member(key, v)] + ms);
  }

  /** The first member keeps its name and gets another value. */
  lemma InsertHere(ms: seq<Member>, key: bytes, v: Value)
    requires SortedKeys(ms) && ms != [] && ms[0].key == key
    ensures SortedKeys([Member(key, v)] + ms[1..])
    ensures forall x :: x in ms[1..] ==> x.key != key
  {
    Split(ms);
    SortedTail(ms[0], ms[1..], ms);
    forall x | x in ms[1..] ensures x.key != key { KeyLessIrreflexive(key, x.key); }
    SortedTail(Member(key, v), ms[1..], [Member(key, v)] + ms[1..]);
  }

  ghost predicate Assigned(before: seq<Member>, key: bytes, v: Value, after: seq<Member>) {
    && SortedKeys(after)
    && forall x :: x in after <==> (if x.key == key then x.value == v else x in before)
  }

  /** Assigning to a name keeps the order of the names and changes the value of that name only. */
  lemma {:induction false} InsertAssigns(ms: seq<Member>, key: bytes, v: Value)
    requires SortedKeys(ms)
    ensures Assigned(ms, key, v, Insert(ms, key, v))
    decreases |ms|, 0
  {
    if ms == [] || KeyLess(key, ms[0].key) {
      InsertFirst(ms, key, v);
      Split([Member(key, v)] + ms);
    } else if ms[0].key == key {
      InsertHere(ms, key, v);
      Split(ms);
      Split([Member(key, v)] + ms[1..]);
    } else {
      InsertBehind(ms[0], ms[1..], key, v, ms);
    }
  }

  lemma InsertBehind(m: Member, rest: seq<Member>, key: bytes, v: Value, ms: seq<Member>)
    requires ms == [m] + rest && SortedKeys(ms) && m.key != key && !KeyLess(key, m.key)
    ensures Assigned(ms, key, v, [m] + Insert(rest, key, v))
    decreases |rest|, 1
  {
    Split(ms);
    SortedTail(m, rest, ms);
    KeyLessTotal(m.key, key);
    assert KeyLess(m.key, key);
    InsertAssigns(rest, key, v);
    var after := Insert(rest, key, v);
    SortedTail(m, after, [m] + after);
    Split([m] + after);
  }

  // ---- all assignments ---------------------------------------------------------------------------

  /** currentValue()[name] = value for one member of the text after the other. */
  function InsertAll(ms: seq<Member>, names: seq<bytes>, values: seq<Value>): seq<Member>
    requires |names| == |values|
    decreases |names|
  {
    if names == [] then ms else InsertAll(Insert(ms, names[0], values[0]), names[1..], values[1..])
  }

  ghost predicate Held(ms: seq<Member>, names: seq<bytes>, values: seq<Value>, k: bytes, v: Value)
    requires |names| == |values|
  {
    IsLast(names, values, k, v) || (k !in names && Member(k, v) in ms)
  }

  /** The last occurrence of a name: in the rest, or else in front. */
  lemma IsLastSplits(names: seq<bytes>, values: seq<Value>, k: bytes, v: Value)
    requires |names| == |values| > 0
    ensures IsLast(names, values, k, v) <==>
            (IsLast(names[1..], values[1..], k, v) || (names[0] == k && values[0] == v && k !in names[1..]))
  {
    var ns, vs := names[1..], values[1..];
    if IsLast(names, values, k, v) {
      var i :| 0 <= i < |names| && names[i] == k && values[i] == v && k !in names[i + 1..];
      if i > 0 {
        assert ns[i - 1] == k && vs[i - 1] == v && ns[i - 1 + 1..] == names[i + 1..];
      }
    }
    if IsLast(ns, vs, k, v) {
      var i :| 0 <= i < |ns| && ns[i] == k && vs[i] == v && k !in ns[i + 1..];
      assert names[i + 1] == k && values[i + 1] == v && names[i + 1 + 1..] == ns[i + 1..];
    }
  }

  lemma HeldStep(ms: seq<Member>, after: seq<Member>, names: seq<bytes>, values: seq<Value>, k: bytes, v: Value)
    requires |names| == |values| > 0 && Assigned(ms, names[0], values[0], after)
    ensures Held(after, names[1..], values[1..], k, v) <==> Held(ms, names, values, k, v)
  {
    IsLastSplits(names, values, k, v);
    assert names == [names[0]] + names[1..];
    assert k in names <==> k == names[0] || k in names[1..];
    assert Member(k, v) in after <==> (if k == names[0] then v == values[0] else Member(k, v) in ms);
    LastIsListed(names[1..], values[1..], k, v);
  }

  lemma LastIsListed(names: seq<bytes>, values: seq<Value>, k: bytes, v: Value)
    requires |names| == |values|
    ensures IsLast(names, values, k, v) ==> k in names
  {
  }

  /** The map is in order, and a name in it has the value of its last occurrence, or else the one it had before. */
  lemma {:induction false} InsertAllHolds(ms: seq<Member>, names: seq<bytes>, values: seq<Value>)
    requires |names| == |values| && SortedKeys(ms)
    ensures SortedKeys(InsertAll(ms, names, values))
    ensures forall k, v :: Member(k, v) in InsertAll(ms, names, values) <==> Held(ms, names, values, k, v)
    decreases |names|
  {
    if names == [] {
      forall k, v ensures Held(ms, names, values, k, v) <==> Member(k, v) in ms { }
    } else {
      var after := Insert(ms, names[0], values[0]);
      InsertAssigns(ms, names[0], values[0]);
      InsertAllHolds(after, names[1..], values[1..]);
      forall k, v ensures Held(after, names[1..], values[1..], k, v) <==> Held(ms, names, values, k, v) {
        HeldStep(ms, after, names, values, k, v);
      }
    }
  }

  // ---- a map is known by its members -------------------------------------------------------------

  lemma FirstIsIn(s: seq<Member>)
    ensures s == [] || s[0] in s
  {
  }

  lemma FirstIsLeast(a: seq<Member>, b: seq<Member>)
    requires SortedKeys(a) && SortedKeys(b) && a != [] && b != []
    requires a[0] in b && b[0] in a
    ensures a[0] == b[0]
  {
    var i :| 0 <= i < |b| && b[i] == a[0];
    var j :| 0 <= j < |a| && a[j] == b[0];
    if i > 0 && j > 0 { KeyLessIrreflexive(b[0].key, a[0].key); }
  }

  lemma {:induction false} SortedUnique(a: seq<Member>, b: seq<Member>)
    requires SortedKeys(a) && SortedKeys(b) && forall x :: x in a <==> x in b
    ensures a == b
    decreases |a|
  {
    if a == [] {
      FirstIsIn(b);
    } else {
      assert a[0] in b && b != [] && b[0] in a;
      FirstIsLeast(a, b);
      Split(a);
      Split(b);
      SortedTail(a[0], a[1..], a);
      SortedTail(b[0], b[1..], b);
      forall x ensures x in a[1..] <==> x in b[1..] { SameRest(a[0], a[1..], b[1..], x); }
      SortedUnique(a[1..], b[1..]);
    }
  }

  lemma SameRest(m: Member, a: seq<Member>, b: seq<Member>, x: Member)
    requires forall y :: y in a ==> KeyLess(m.key, y.key)
    requires forall y :: y in b ==> KeyLess(m.key, y.key)
    requires (x == m || x in a) <==> (x == m || x in b)
    ensures x in a <==> x in b
  {
    if x == m {
      if x in a { KeyLessIrreflexive(m.key, x.key); }
      if x in b { KeyLessIrreflexive(m.key, x.key); }
    }
  }

  /** The members of a text, inserted into an empty map in the order of the text, are those it denotes. */
  lemma InsertAllIs(names: seq<bytes>, values: seq<Value>, ms: seq<Member>)
    requires |names| == |values| && SortedKeys(ms) && LastWins(names, values, ms)
    ensures InsertAll([], names, values) == ms
  {
    var all := InsertAll([], names, values);
    InsertAllHolds([], names, values);
    forall x ensures x in all <==> x in ms {
      assert x == Member(x.key, x.value);
      assert Held([], names, values, x.key, x.value) <==> IsLast(names, values, x.key, x.value);
    }
    SortedUnique(all, ms);
  }
}
