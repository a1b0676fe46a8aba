/** The System.Text.Json node tree the translator builds: an object is an
    ordered sequence of members whose keys are unique, and assigning through
    the indexer (`obj[key] = value`) replaces the member in place when the key
    is present and appends it otherwise. */
module JsonTree {
  import opened Wrappers

  datatype Node =
    | JNull
    | JBool(b: bool)
    | JNumber(n: real)
    | JString(s: string)
    | JArray(items: seq<Node>)
    | JObject(members: seq<Member>)

  datatype Member = Member(key: string, value: Node)

  /** The keys of an object, in member order. */
  function Keys(ms: seq<Member>): (ks: seq<string>)
    ensures |ks| == |ms|
    ensures forall k :: 0 <= k < |ms| ==> ks[k] == ms[k].key
  {
    seq(|ms|, k requires 0 <= k < |ms| => ms[k].key)
  }

  /** No key occurs twice. */
  predicate DistinctKeys(ms: seq<Member>)
  {
    forall i, j :: 0 <= i < j < |ms| ==> ms[i].key != ms[j].key
  }

  /** No member has key `key`. */
  predicate Absent(ms: seq<Member>, key: string)
  {
    forall k :: 0 <= k < |ms| ==> ms[k].key != key
  }

  /** The indexer read `obj[key]`: the value stored under `key`, if any. */
  function Get(ms: seq<Member>, key: string): (r: Option<Node>)
    ensures r.None? <==> Absent(ms, key)
    decreases |ms|
  {
    if ms == [] then None
    else if ms[0].key == key then Some(ms[0].value)
    else Get(ms[1..], key)
  }

  /** The position of the member with key `key`. */
  function IndexOf(ms: seq<Member>, key: string): (i: nat)
    requires !Absent(ms, key)
    ensures i < |ms| && ms[i].key == key
    ensures forall j :: 0 <= j < i ==> ms[j].key != key
    decreases |ms|
  {
    if ms[0].key == key then 0 else 1 + IndexOf(ms[1..], key)
  }

  /** The indexer read finds the first member with the key. */
  lemma {:induction false} GetFirst(ms: seq<Member>, key: string, i: nat)
    requires i < |ms| && ms[i].key == key
    requires forall j :: 0 <= j < i ==> ms[j].key != key
    ensures Get(ms, key) == Some(ms[i].value)
    decreases i
  {
    if i > 0 {
      GetFirst(ms[1..], key, i - 1);
    }
  }

  /** In an object with unique keys, the member at position `k` is what the
      indexer returns for its key. */
  lemma GetAt(ms: seq<Member>, k: nat)
    requires DistinctKeys(ms) && k < |ms|
    ensures Get(ms, ms[k].key) == Some(ms[k].value)
  {
    GetFirst(ms, ms[k].key, k);
  }

  /** Reading from an object extended by one member: an earlier member with
      the key takes precedence. */
  lemma {:induction false} GetSnoc(ms: seq<Member>, m: Member, key: string)
    ensures Get(ms + [m], key)
         == if Get(ms, key).Some? then Get(ms, key) else if m.key == key then Some(m.value) else None
    decreases |ms|
  {
    if ms == [] {
      assert [] + [m] == [m];
    } else {
      assert (ms + [m])[1..] == ms[1..] + [m];
      GetSnoc(ms[1..], m, key);
    }
  }

  /** The indexer write `obj[key] = value`: a new key is appended, an existing
      one is replaced where it stands. */
  function Put(ms: seq<Member>, key: string, value: Node): (r: seq<Member>)
    decreases |ms|
  {
    if ms == [] then [Member(key, value)]
    else if ms[0].key == key then [Member(key, value)] + ms[1..]
    else [ms[0]] + Put(ms[1..], key, value)
  }

  /** Assignment appends a new key at the end and replaces an existing one
      where it stands. */
  lemma {:induction false} PutShape(ms: seq<Member>, key: string, value: Node)
    ensures Absent(ms, key) ==> Put(ms, key, value) == ms + [Member(key, value)]
    ensures !Absent(ms, key) ==> Put(ms, key, value) == ms[IndexOf(ms, key) := Member(key, value)]
    decreases |ms|
  {
    if ms != [] && ms[0].key != key {
      PutShape(ms[1..], key, value);
      assert Absent(ms, key) == Absent(ms[1..], key);
      if Absent(ms, key) {
        assert [ms[0]] + (ms[1..] + [Member(key, value)]) == ms + [Member(key, value)];
      } else {
        assert IndexOf(ms, key) == 1 + IndexOf(ms[1..], key);
        assert [ms[0]] + ms[1..][IndexOf(ms[1..], key) := Member(key, value)] == ms[IndexOf(ms, key) := Member(key, value)];
      }
    }
  }

  /** After `obj[key] = value` the indexer reads `value` back under `key` and
      every other key reads as before. */
  lemma {:induction false} PutGet(ms: seq<Member>, key: string, value: Node, other: string)
    ensures Get(Put(ms, key, value), key) == Some(value)
    ensures other != key ==> Get(Put(ms, key, value), other) == Get(ms, other)
  {
    var r := Put(ms, key, value);
    PutShape(ms, key, value);
    if Absent(ms, key) {
      GetFirst(r, key, |ms|);
      if other != key {
        GetAppendOther(ms, Member(key, value), other);
      }
    } else {
      var i := IndexOf(ms, key);
      GetFirst(r, key, i);
      if other != key {
        GetReplaceOther(ms, i, Member(key, value), other);
      }
    }
  }

  lemma {:induction false} GetAppendOther(ms: seq<Member>, m: Member, other: string)
    requires m.key != other
    ensures Get(ms + [m], other) == Get(ms, other)
    decreases |ms|
  {
    if ms != [] {
      assert (ms + [m])[1..] == ms[1..] + [m];
      GetAppendOther(ms[1..], m, other);
    }
  }

  lemma {:induction false} GetReplaceOther(ms: seq<Member>, i: nat, m: Member, other: string)
    requires i < |ms| && ms[i].key != other && m.key != other
    ensures Get(ms[i := m], other) == Get(ms, other)
    decreases i
  {
    if i > 0 {
      assert ms[i := m][1..] == ms[1..][i - 1 := m];
      GetReplaceOther(ms[1..], i - 1, m, other);
    }
  }

  /** An existing key keeps its position, and nothing else moves. */
  lemma PutExistingKeepsKeys(ms: seq<Member>, key: string, value: Node)
    requires !Absent(ms, key)
    ensures Keys(Put(ms, key, value)) == Keys(ms)
  {
    PutShape(ms, key, value);
  }

  /** Assignment keeps the keys of an object unique. */
  lemma PutDistinct(ms: seq<Member>, key: string, value: Node)
    requires DistinctKeys(ms)
    ensures DistinctKeys(Put(ms, key, value))
  {
    PutShape(ms, key, value);
  }

  /** The value of `key` in node `n` when `n` is an object. */
  function Field(n: Node, key: string): Option<Node>
  {
    if n.JObject? then Get(n.members, key) else None
  }

  /** Whether object `n` has a member `key`. */
  predicate HasField(n: Node, key: string)
  {
    Field(n, key).Some?
  }

  /** Assigning the members of `pairs` one after the other, as the object-shape
      loops do. */
  function PutAll(pairs: seq<Member>): (r: seq<Member>)
    decreases |pairs|
  {
    if pairs == [] then []
    else
      var last := pairs[|pairs| - 1];
      Put(PutAll(pairs[..|pairs| - 1]), last.key, last.value)
  }

  /** One more assignment. */
  lemma PutAllSnoc(done: seq<Member>, key: string, value: Node)
    ensures PutAll(done + [Member(key, value)]) == Put(PutAll(done), key, value)
  {
    assert (done + [Member(key, value)])[..|done|] == done;
  }

  /** Appending a member whose key is outside the keys used so far keeps the
      keys unique. */
  lemma AppendFresh(ms: seq<Member>, m: Member, keys: set<string>)
    requires DistinctKeys(ms)
    requires forall k :: 0 <= k < |ms| ==> ms[k].key in keys
    requires m.key !in keys
    ensures DistinctKeys(ms + [m])
    ensures forall k :: 0 <= k < |ms + [m]| ==> (ms + [m])[k].key in keys + {m.key}
  {
  }

  /** The keys of the built object are exactly the keys assigned. */
  lemma {:induction false} PutAllKeys(pairs: seq<Member>)
    ensures forall key :: key in Keys(PutAll(pairs)) <==> key in Keys(pairs)
    decreases |pairs|
  {
    if pairs != [] {
      var init, last := pairs[..|pairs| - 1], pairs[|pairs| - 1];
      PutAllKeys(init);
      assert Keys(pairs) == Keys(init) + [last.key];
      var acc := PutAll(init);
      if Absent(acc, last.key) {
        PutShape(acc, last.key, last.value);
        assert Keys(PutAll(pairs)) == Keys(acc) + [last.key];
      } else {
        PutExistingKeepsKeys(acc, last.key, last.value);
      }
    }
  }

  /** A key assigned more than once holds the value of its last assignment. */
  lemma {:induction false} PutAllLastWins(pairs: seq<Member>, k: nat)
    requires k < |pairs|
    requires forall j :: k < j < |pairs| ==> pairs[j].key != pairs[k].key
    ensures Get(PutAll(pairs), pairs[k].key) == Some(pairs[k].value)
    decreases |pairs|
  {
    var init, last := pairs[..|pairs| - 1], pairs[|pairs| - 1];
    PutGet(PutAll(init), last.key, last.value, pairs[k].key);
    if k < |pairs| - 1 {
      PutAllLastWins(init, k);
    }
  }

  /** With unique keys nothing is overwritten: the object holds the pairs in
      assignment order. */
  lemma {:induction false} PutAllDistinct(pairs: seq<Member>)
    requires DistinctKeys(pairs)
    ensures PutAll(pairs) == pairs
    decreases |pairs|
  {
    if pairs != [] {
      var init, last := pairs[..|pairs| - 1], pairs[|pairs| - 1];
      assert DistinctKeys(init);
      PutAllDistinct(init);
      assert Absent(init, last.key);
      PutShape(init, last.key, last.value);
      assert init + [last] == pairs;
    }
  }
}
