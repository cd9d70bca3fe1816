/** Parsed JSON values, with objects that behave like Python dicts:
    members keep insertion order and assigning an existing key replaces
    its value in place. */
module Json {
  import opened Results

  datatype Json =
    | JNull
    | JBool(b: bool)
    | JInt(i: int)
    | JStr(s: string)
    | JArr(items: seq<Json>)
    | JObj(members: seq<Member>)

  datatype Member = Member(key: string, value: Json)

  /** The keys of a dict, as a set. */
  function Keys(d: seq<Member>): set<string>
  {
    set i | 0 <= i < |d| :: d[i].key
  }

  /** Python dicts never hold a key twice. */
  predicate UniqueKeys(d: seq<Member>)
  {
    forall i, j :: 0 <= i < j < |d| ==> d[i].key != d[j].key
  }

  /** `d.get(k)`: the value stored under `k`, if any. */
  function Get(d: seq<Member>, k: string): (r: Option<Json>)
    ensures r.Some? <==> k in Keys(d)
  {
    if d == [] then None
    else if d[0].key == k then Some(d[0].value)
    else
      assert Keys(d) == {d[0].key} + Keys(d[1..]);
      Get(d[1..], k)
  }

  /** In a dict without repeated keys, each member is what its key looks up. */
  lemma {:induction false} GetAt(d: seq<Member>, i: nat)
    requires UniqueKeys(d) && i < |d|
    ensures Get(d, d[i].key) == Some(d[i].value)
  {
    if i > 0 {
      GetAt(d[1..], i - 1);
    }
  }

  /** `d[m.key] = m.value`: replaces the value of an existing key where it
      stands, or appends a new key at the end. */
  function Put(d: seq<Member>, m: Member): (r: seq<Member>)
    ensures Keys(r) == Keys(d) + {m.key}
    ensures forall k :: Get(r, k) == if k == m.key then Some(m.value) else Get(d, k)
    ensures |r| == if m.key in Keys(d) then |d| else |d| + 1
    ensures UniqueKeys(d) ==> UniqueKeys(r)
    ensures forall x :: x in r ==> x in d || x == m
  {
    if d == [] then
      KeysCons(m, []);
      [m]
    else if d[0].key == m.key then
      KeysCons(d[0], d[1..]);
      KeysCons(m, d[1..]);
      assert d == [d[0]] + d[1..];
      [m] + d[1..]
    else
      var rest := Put(d[1..], m);
      KeysCons(d[0], d[1..]);
      KeysCons(d[0], rest);
      assert d == [d[0]] + d[1..];
      [d[0]] + rest
  }

  /** The value that the LAST member with key `k` carries: the one a dict
      built from these pairs keeps. */
  function Last(ms: seq<Member>, k: string): Option<Json>
  {
    if ms == [] then None
    else if ms[|ms| - 1].key == k then Some(ms[|ms| - 1].value)
    else Last(ms[..|ms| - 1], k)
  }

  /** `dict(ms)` / a dict comprehension over `ms`: pairs are assigned in
      order, so a later pair overwrites an earlier one with the same key. */
  function Build(ms: seq<Member>): (r: seq<Member>)
    ensures Keys(r) == Keys(ms)
    ensures UniqueKeys(r)
    ensures |r| <= |ms|
    ensures forall k :: Get(r, k) == Last(ms, k)
    ensures forall x :: x in r ==> x in ms
  {
    if ms == [] then []
    else
      var init := ms[..|ms| - 1];
      assert ms == init + [ms[|ms| - 1]];
      assert Keys(ms) == Keys(init) + {ms[|ms| - 1].key};
      Put(Build(init), ms[|ms| - 1])
  }

  /** A dict whose keys are already unique is rebuilt unchanged. */
  lemma {:induction false} BuildUnique(ms: seq<Member>)
    requires UniqueKeys(ms)
    ensures Build(ms) == ms
  {
    if ms != [] {
      var init := ms[..|ms| - 1];
      var m := ms[|ms| - 1];
      assert UniqueKeys(init);
      BuildUnique(init);
      forall i | 0 <= i < |init| ensures init[i].key != m.key {
        assert ms[i].key != ms[|ms| - 1].key;
      }
      PutFresh(init, m);
      assert init + [m] == ms;
    }
  }

  lemma KeysCons(m: Member, d: seq<Member>)
    ensures Keys([m] + d) == {m.key} + Keys(d)
  {
    var l := [m] + d;
    forall k | k in Keys(l) ensures k in {m.key} + Keys(d) {
      var i :| 0 <= i < |l| && l[i].key == k;
      if i > 0 { assert d[i - 1].key == k; }
    }
    forall k | k in Keys(d) ensures k in Keys(l) {
      var i :| 0 <= i < |d| && d[i].key == k;
      assert l[i + 1].key == k;
    }
    assert l[0].key == m.key;
  }

  /** Assigning a key that is not present appends it. */
  lemma {:induction false} PutFresh(d: seq<Member>, m: Member)
    requires m.key !in Keys(d)
    ensures Put(d, m) == d + [m]
  {
    if d != [] {
      assert Keys(d) == {d[0].key} + Keys(d[1..]);
      PutFresh(d[1..], m);
      assert [d[0]] + (d[1..] + [m]) == d + [m];
    }
  }
}
