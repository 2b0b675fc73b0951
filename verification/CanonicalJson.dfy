/**
 The two offer comparisons. The server walks both values (`deepEqual`); the facilitator
 sorts every object by key and compares the printed text (`canonicalJson`). They decide
 the same relation exactly when the key comparator tells different keys apart.
 */
module CanonicalJson {
  import opened Json
  import opened Wrappers

  // ----- the server: deepEqual -----

  function Get(members: seq<Member>, key: JsString): Option<Json> {
    if members == [] then None
    else if members[0].key == key then Some(members[0].value)
    else Get(members[1..], key)
  }

  /** What `deepEqual` decides: same items in order, same members in any order. */
  predicate DeepEqual(a: Json, b: Json)
    decreases a
  {
    match a
    case JArray(items) =>
      && b.JArray?
      && |items| == |b.items|
      && forall i | 0 <= i < |items| :: DeepEqual(items[i], b.items[i])
    case JObject(members) =>
      && b.JObject?
      && |members| == |b.members|
      && forall i | 0 <= i < |members| ::
           var other := Get(b.members, members[i].key);
           other.Some? && DeepEqual(members[i].value, other.value)
    case _ => a == b
  }

  /** The server's loop over indices and keys, returning at the first difference. */
  method DeepEqualLoop(a: Json, b: Json) returns (equal: bool)
    ensures equal == DeepEqual(a, b)
    decreases a
  {
    if a.JArray? && b.JArray? {
      if |a.items| != |b.items| {
        return false;
      }
      for i := 0 to |a.items|
        invariant forall j | 0 <= j < i :: DeepEqual(a.items[j], b.items[j])
      {
        var same := DeepEqualLoop(a.items[i], b.items[i]);
        if !same {
          return false;
        }
      }
      return true;
    }
    if a.JObject? && b.JObject? {
      if |a.members| != |b.members| {
        return false;
      }
      for i := 0 to |a.members|
        invariant forall j | 0 <= j < i ::
          Get(b.members, a.members[j].key).Some?
          && DeepEqual(a.members[j].value, Get(b.members, a.members[j].key).value)
      {
        var other := Get(b.members, a.members[i].key);
        if other.None? {
          return false;
        }
        var same := DeepEqualLoop(a.members[i].value, other.value);
        if !same {
          return false;
        }
      }
      return true;
    }
    return a == b;
  }

  // ----- the facilitator: canonicalJson -----

  /** `le(a, b)` stands for `a.localeCompare(b) <= 0`. */
  type KeyOrder = (JsString, JsString) -> bool

  ghost predicate TotalPreorder(le: KeyOrder) {
    && (forall a, b :: le(a, b) || le(b, a))
    && (forall a, b, c :: le(a, b) && le(b, c) ==> le(a, c))
  }

  ghost predicate Antisymmetric(le: KeyOrder) {
    forall a, b :: le(a, b) && le(b, a) ==> a == b
  }

  function InsertMember(le: KeyOrder, m: Member, sorted: seq<Member>): seq<Member> {
    if sorted == [] || le(m.key, sorted[0].key) then [m] + sorted
    else [sorted[0]] + InsertMember(le, m, sorted[1..])
  }

  /** A stable sort by key, as `Array.prototype.sort` is. */
  function SortMembers(le: KeyOrder, members: seq<Member>): (sorted: seq<Member>)
    ensures multiset(sorted) == multiset(members)
  {
    if members == [] then []
    else
      var rest := SortMembers(le, members[1..]);
      InsertIsPermutation(le, members[0], rest);
      assert members == [members[0]] + members[1..];
      InsertMember(le, members[0], rest)
  }

  lemma {:induction false} InsertIsPermutation(le: KeyOrder, m: Member, sorted: seq<Member>)
    ensures multiset(InsertMember(le, m, sorted)) == multiset([m] + sorted)
  {
    if !(sorted == [] || le(m.key, sorted[0].key)) {
      InsertIsPermutation(le, m, sorted[1..]);
      assert sorted == [sorted[0]] + sorted[1..];
    }
  }

  ghost predicate Ordered(le: KeyOrder, members: seq<Member>) {
    forall i, j | 0 <= i < j < |members| :: le(members[i].key, members[j].key)
  }

  lemma {:induction false} InsertOrders(le: KeyOrder, m: Member, sorted: seq<Member>)
    requires TotalPreorder(le) && Ordered(le, sorted)
    ensures Ordered(le, InsertMember(le, m, sorted))
  {
    if sorted != [] && !le(m.key, sorted[0].key) {
      var rest := InsertMember(le, m, sorted[1..]);
      InsertOrders(le, m, sorted[1..]);
      InsertIsPermutation(le, m, sorted[1..]);
      forall j | 0 <= j < |rest| ensures le(sorted[0].key, rest[j].key) {
        assert rest[j] in multiset(rest);
        assert rest[j] in [m] + sorted[1..];
      }
    }
  }

  /** Whatever the comparator, the keys come out in its order, ties included. */
  lemma {:induction false} SortOrders(le: KeyOrder, members: seq<Member>)
    requires TotalPreorder(le)
    ensures Ordered(le, SortMembers(le, members))
  {
    if members != [] {
      SortOrders(le, members[1..]);
      InsertOrders(le, members[0], SortMembers(le, members[1..]));
    }
  }

  function SortJson(le: KeyOrder, v: Json): Json
    decreases v, 0
  {
    match v
    case JArray(items) => JArray(SortItems(le, items))
    case JObject(members) =>
      var sorted := SortMembers(le, members);
      SortKeeps(le, members);
      JObject(SortValues(le, v, sorted))
    case _ => v
  }

  function SortItems(le: KeyOrder, items: seq<Json>): (r: seq<Json>)
    ensures |r| == |items|
    decreases items, 1
  {
    if items == [] then [] else [SortJson(le, items[0])] + SortItems(le, items[1..])
  }

  /** The values of the already sorted entries of object `v`, each sorted in turn. */
  function SortValues(le: KeyOrder, v: Json, sorted: seq<Member>): (r: seq<Member>)
    requires v.JObject? && forall m | m in sorted :: m in v.members
    ensures |r| == |sorted|
    decreases v, 0, |sorted|
  {
    if sorted == [] then []
    else
      var m := sorted[0];
      assert m in v.members;
      [Member(m.key, SortJson(le, m.value))] + SortValues(le, v, sorted[1..])
  }

  function Canonical(le: KeyOrder, v: Json): JsString {
    Print(SortJson(le, v))
  }

  lemma SortKeeps(le: KeyOrder, members: seq<Member>)
    ensures forall m :: m in SortMembers(le, members) <==> m in members
    ensures |SortMembers(le, members)| == |members|
  {
    var sorted := SortMembers(le, members);
    assert forall m :: m in sorted <==> m in multiset(sorted);
    assert forall m :: m in members <==> m in multiset(members);
    assert |multiset(sorted)| == |sorted| && |multiset(members)| == |members|;
  }

  lemma {:induction false} SortItemsAt(le: KeyOrder, items: seq<Json>, i: nat)
    requires i < |items|
    ensures SortItems(le, items)[i] == SortJson(le, items[i])
  {
    if i > 0 {
      SortItemsAt(le, items[1..], i - 1);
    }
  }

  lemma {:induction false} SortValuesAt(le: KeyOrder, v: Json, sorted: seq<Member>, i: nat)
    requires v.JObject? && (forall m | m in sorted :: m in v.members) && i < |sorted|
    ensures SortValues(le, v, sorted)[i] == Member(sorted[i].key, SortJson(le, sorted[i].value))
  {
    if i > 0 {
      SortValuesAt(le, v, sorted[1..], i - 1);
    }
  }

  // ----- members as a set -----

  lemma {:induction false} GetFinds(members: seq<Member>, key: JsString)
    ensures match Get(members, key)
      case Some(value) => Member(key, value) in members
      case None => forall m | m in members :: m.key != key
  {
    if members != [] && members[0].key != key {
      GetFinds(members[1..], key);
      assert members == [members[0]] + members[1..];
    }
  }

  lemma GetUnique(members: seq<Member>, m: Member)
    requires UniqueKeys(members) && m in members
    ensures Get(members, m.key) == Some(m.value)
  {
    GetFinds(members, m.key);
    var found := Member(m.key, Get(members, m.key).value);
    var i :| 0 <= i < |members| && members[i] == m;
    var j :| 0 <= j < |members| && members[j] == found;
    SameIndex(members, i, j);
  }

  lemma SameIndex(members: seq<Member>, i: nat, j: nat)
    requires UniqueKeys(members) && i < |members| && j < |members| && members[i].key == members[j].key
    ensures i == j
  {
  }

  ghost function Keys(members: seq<Member>): set<JsString> {
    set m | m in members :: m.key
  }

  lemma UniqueTail(members: seq<Member>)
    requires UniqueKeys(members) && members != []
    ensures UniqueKeys(members[1..])
    ensures members[0].key !in Keys(members[1..])
    ensures Keys(members) == {members[0].key} + Keys(members[1..])
  {
    assert members == [members[0]] + members[1..];
    forall m | m in members[1..] ensures m.key != members[0].key {
      var i :| 0 <= i < |members[1..]| && members[1..][i] == m;
      assert members[i + 1] == m;
    }
  }

  lemma {:induction false} KeyCount(members: seq<Member>)
    requires UniqueKeys(members)
    ensures |Keys(members)| == |members|
  {
    if members != [] {
      UniqueTail(members);
      KeyCount(members[1..]);
    }
  }

  lemma SubsetOfSameSize<T>(a: set<T>, b: set<T>)
    requires a <= b && |a| == |b|
    ensures a == b
  {
    assert b == a + (b - a);
  }

  /** The printed members of object `v`: its own, with sorted values. */
  ghost function SortedMembers(le: KeyOrder, v: Json): seq<Member>
    requires v.JObject?
  {
    SortJson(le, v).members
  }

  lemma SortedMembersAre(le: KeyOrder, v: Json)
    requires v.JObject?
    ensures |SortedMembers(le, v)| == |v.members|
    ensures forall m | m in v.members :: Member(m.key, SortJson(le, m.value)) in SortedMembers(le, v)
    ensures forall w | w in SortedMembers(le, v) ::
      exists m :: m in v.members && w == Member(m.key, SortJson(le, m.value))
  {
    SortKeeps(le, v.members);
    var sorted := SortMembers(le, v.members);
    var r := SortedMembers(le, v);
    forall m | m in v.members ensures Member(m.key, SortJson(le, m.value)) in r {
      assert m in sorted;
      var i :| 0 <= i < |sorted| && sorted[i] == m;
      SortValuesAt(le, v, sorted, i);
      assert r[i] in r;
    }
    forall w | w in r ensures exists m :: m in v.members && w == Member(m.key, SortJson(le, m.value)) {
      var i :| 0 <= i < |r| && r[i] == w;
      SortValuesAt(le, v, sorted, i);
      assert sorted[i] in sorted;
    }
  }

  // ----- equal text implies deep equality, for any comparator -----

  lemma {:induction false} SameSortedDeepEqual(le: KeyOrder, a: Json, b: Json)
    requires WellFormed(a) && WellFormed(b) && SortJson(le, a) == SortJson(le, b)
    ensures DeepEqual(a, b)
    decreases a
  {
    match a
    case JArray(items) =>
      forall i | 0 <= i < |items| ensures DeepEqual(items[i], b.items[i]) {
        SortItemsAt(le, items, i);
        SortItemsAt(le, b.items, i);
        SameSortedDeepEqual(le, items[i], b.items[i]);
      }
    case JObject(members) =>
      SortedMembersAre(le, a);
      SortedMembersAre(le, b);
      forall i | 0 <= i < |members|
        ensures Get(b.members, members[i].key).Some?
        ensures DeepEqual(members[i].value, Get(b.members, members[i].key).value)
      {
        var m := members[i];
        assert m in members;
        assert Member(m.key, SortJson(le, m.value)) in SortedMembers(le, b);
        var n :| n in b.members && Member(m.key, SortJson(le, m.value)) == Member(n.key, SortJson(le, n.value));
        GetUnique(b.members, n);
        SameSortedDeepEqual(le, m.value, n.value);
      }
    case _ =>
  }

  /** Whatever the comparator, the facilitator never accepts an offer that the server's rule 3 rejects. */
  lemma CanonicalImpliesDeepEqual(le: KeyOrder, a: Json, b: Json)
    requires WellFormed(a) && WellFormed(b) && Canonical(le, a) == Canonical(le, b)
    ensures DeepEqual(a, b)
  {
    PrintInjective(SortJson(le, a), SortJson(le, b));
    SameSortedDeepEqual(le, a, b);
  }

  // ----- deep equality implies equal text, for an antisymmetric comparator -----

  ghost predicate Sorted(le: KeyOrder, members: seq<Member>) {
    forall i, j | 0 <= i < j < |members| :: le(members[i].key, members[j].key)
  }

  lemma InsertedFrom(le: KeyOrder, m: Member, sorted: seq<Member>, j: nat)
    requires j < |InsertMember(le, m, sorted)|
    ensures InsertMember(le, m, sorted)[j] == m || InsertMember(le, m, sorted)[j] in sorted
  {
    var r := InsertMember(le, m, sorted);
    InsertIsPermutation(le, m, sorted);
    assert r[j] in multiset(r);
    assert r[j] in [m] + sorted;
  }

  lemma {:induction false} InsertSorted(le: KeyOrder, m: Member, sorted: seq<Member>)
    requires TotalPreorder(le) && Sorted(le, sorted)
    ensures Sorted(le, InsertMember(le, m, sorted))
  {
    if sorted != [] && !le(m.key, sorted[0].key) {
      var rest := sorted[1..];
      assert forall i, j | 0 <= i < j < |rest| :: rest[i] == sorted[i + 1] && rest[j] == sorted[j + 1];
      InsertSorted(le, m, rest);
      forall j | 0 <= j < |InsertMember(le, m, rest)| ensures le(sorted[0].key, InsertMember(le, m, rest)[j].key) {
        InsertedFrom(le, m, rest, j);
      }
    } else if sorted != [] {
      forall j | 0 <= j < |sorted| ensures le(m.key, sorted[j].key) {
      }
    }
  }

  lemma {:induction false} SortSorts(le: KeyOrder, members: seq<Member>)
    requires TotalPreorder(le)
    ensures Sorted(le, SortMembers(le, members))
  {
    if members != [] {
      SortSorts(le, members[1..]);
      InsertSorted(le, members[0], SortMembers(le, members[1..]));
    }
  }

  /** Sorting leaves no choice: same members, distinct keys, one order. */
  lemma {:induction false} SortedOnce(le: KeyOrder, a: seq<Member>, b: seq<Member>)
    requires Antisymmetric(le) && |a| == |b|
    requires Sorted(le, a) && Sorted(le, b) && UniqueKeys(a) && UniqueKeys(b)
    requires forall m :: m in a <==> m in b
    ensures a == b
  {
    if a != [] {
      SameHead(le, a, b);
      TailMembers(a, b);
      SortedOnce(le, a[1..], b[1..]);
    }
  }

  lemma SameHead(le: KeyOrder, a: seq<Member>, b: seq<Member>)
    requires Antisymmetric(le) && a != [] && b != []
    requires Sorted(le, a) && Sorted(le, b) && UniqueKeys(a)
    requires forall m :: m in a <==> m in b
    ensures a[0] == b[0]
  {
    SortedFirst(le, a, b[0]);
    SortedFirst(le, b, a[0]);
    GetUnique(a, a[0]);
    GetUnique(a, b[0]);
  }

  lemma SortedFirst(le: KeyOrder, a: seq<Member>, m: Member)
    requires Sorted(le, a) && m in a
    ensures m == a[0] || le(a[0].key, m.key)
  {
    var j :| 0 <= j < |a| && a[j] == m;
  }

  lemma TailMembers(a: seq<Member>, b: seq<Member>)
    requires a != [] && b != [] && a[0] == b[0] && UniqueKeys(a) && UniqueKeys(b)
    requires forall m :: m in a <==> m in b
    ensures forall m :: m in a[1..] <==> m in b[1..]
  {
    TailWithout(a);
    TailWithout(b);
  }

  lemma TailWithout(a: seq<Member>)
    requires a != [] && UniqueKeys(a)
    ensures forall m :: m in a[1..] <==> m in a && m != a[0]
  {
    UniqueTail(a);
    assert a == [a[0]] + a[1..];
    assert a[0] !in a[1..] by {
      assert a[0].key !in Keys(a[1..]);
    }
  }

  lemma SortedMembersUnique(le: KeyOrder, v: Json)
    requires v.JObject? && UniqueKeys(v.members) && TotalPreorder(le)
    ensures UniqueKeys(SortedMembers(le, v)) && Sorted(le, SortedMembers(le, v))
  {
    var sorted := SortMembers(le, v.members);
    var r := SortedMembers(le, v);
    SortKeeps(le, v.members);
    SortSorts(le, v.members);
    forall i | 0 <= i < |r| ensures r[i].key == sorted[i].key {
      SortValuesAt(le, v, sorted, i);
    }
    PermutationUnique(v.members, sorted);
  }

  lemma PermutationUnique(members: seq<Member>, sorted: seq<Member>)
    requires UniqueKeys(members) && |sorted| == |members| && forall m :: m in sorted <==> m in members
    ensures UniqueKeys(sorted)
  {
    KeyCount(members);
    assert Keys(sorted) == Keys(members);
    CountUnique(sorted);
  }

  lemma {:induction false} CountUnique(members: seq<Member>)
    ensures |Keys(members)| <= |members|
    ensures |Keys(members)| == |members| ==> UniqueKeys(members)
  {
    if members != [] {
      var rest := members[1..];
      assert members == [members[0]] + rest;
      CountUnique(rest);
      assert Keys(members) == {members[0].key} + Keys(rest);
      if |Keys(members)| == |members| {
        HeadAndTailUnique(members);
      }
    }
  }

  lemma HeadAndTailUnique(members: seq<Member>)
    requires members != [] && members[0].key !in Keys(members[1..]) && UniqueKeys(members[1..])
    ensures UniqueKeys(members)
  {
    var rest := members[1..];
    forall i, j | 0 <= i < j < |members| ensures members[i].key != members[j].key {
      assert members[j] == rest[j - 1] && rest[j - 1] in rest;
      if i > 0 {
        assert members[i] == rest[i - 1];
      }
    }
  }

  lemma {:induction false} DeepEqualSameSorted(le: KeyOrder, a: Json, b: Json)
    requires TotalPreorder(le) && Antisymmetric(le)
    requires WellFormed(a) && WellFormed(b) && DeepEqual(a, b)
    ensures SortJson(le, a) == SortJson(le, b)
    decreases a
  {
    match a
    case JArray(items) =>
      forall i | 0 <= i < |items| ensures SortItems(le, items)[i] == SortItems(le, b.items)[i] {
        SortItemsAt(le, items, i);
        SortItemsAt(le, b.items, i);
        DeepEqualSameSorted(le, items[i], b.items[i]);
      }
    case JObject(members) =>
      forall i | 0 <= i < |members|
        ensures SortJson(le, members[i].value) == SortJson(le, Get(b.members, members[i].key).value)
      {
        GetFinds(b.members, members[i].key);
        var n := Member(members[i].key, Get(b.members, members[i].key).value);
        assert n in b.members && WellFormed(n.value);
        DeepEqualSameSorted(le, members[i].value, n.value);
      }
      SameMembers(le, a, b);
      SortedMembersUnique(le, a);
      SortedMembersUnique(le, b);
      assert |SortedMembers(le, a)| == |SortedMembers(le, b)| by {
        SortedMembersAre(le, a);
        SortedMembersAre(le, b);
      }
      SortedOnce(le, SortedMembers(le, a), SortedMembers(le, b));
    case _ =>
  }

  lemma SameMembers(le: KeyOrder, a: Json, b: Json)
    requires a.JObject? && b.JObject? && UniqueKeys(a.members) && UniqueKeys(b.members)
    requires |a.members| == |b.members|
    requires forall i | 0 <= i < |a.members| ::
      var other := Get(b.members, a.members[i].key);
      other.Some? && SortJson(le, a.members[i].value) == SortJson(le, other.value)
    ensures forall w :: w in SortedMembers(le, a) <==> w in SortedMembers(le, b)
  {
    SortedMembersAre(le, a);
    SortedMembersAre(le, b);
    forall w | w in SortedMembers(le, a) ensures w in SortedMembers(le, b) {
      var m :| m in a.members && w == Member(m.key, SortJson(le, m.value));
      GetFinds(b.members, m.key);
    }
    SameKeys(a.members, b.members);
    forall w | w in SortedMembers(le, b) ensures w in SortedMembers(le, a) {
      var n :| n in b.members && w == Member(n.key, SortJson(le, n.value));
      assert n.key in Keys(a.members);
      var m :| m in a.members && m.key == n.key;
      GetUnique(b.members, n);
    }
  }

  lemma SameKeys(a: seq<Member>, b: seq<Member>)
    requires UniqueKeys(a) && UniqueKeys(b) && |a| == |b|
    requires forall i | 0 <= i < |a| :: Get(b, a[i].key).Some?
    ensures Keys(a) == Keys(b)
  {
    forall m | m in a ensures m.key in Keys(b) {
      GetFinds(b, m.key);
      var i :| 0 <= i < |a| && a[i] == m;
      assert Member(m.key, Get(b, m.key).value) in b;
    }
    KeyCount(a);
    KeyCount(b);
    SubsetOfSameSize(Keys(a), Keys(b));
  }

  // ----- the two checks agree -----

  ghost predicate Agree(le: KeyOrder) {
    forall a, b | WellFormed(a) && WellFormed(b) :: DeepEqual(a, b) <==> Canonical(le, a) == Canonical(le, b)
  }

  lemma ChecksAgreeOnTotalOrder(le: KeyOrder, a: Json, b: Json)
    requires TotalPreorder(le) && Antisymmetric(le) && WellFormed(a) && WellFormed(b)
    ensures DeepEqual(a, b) <==> Canonical(le, a) == Canonical(le, b)
  {
    if DeepEqual(a, b) {
      DeepEqualSameSorted(le, a, b);
    }
    if Canonical(le, a) == Canonical(le, b) {
      CanonicalImpliesDeepEqual(le, a, b);
    }
  }

  function Pair(k: JsString, l: JsString): Json {
    JObject([Member(k, JNull), Member(l, JNull)])
  }

  lemma PairEqual(k: JsString, l: JsString)
    requires k != l
    ensures WellFormed(Pair(k, l)) && DeepEqual(Pair(k, l), Pair(l, k))
  {
    var b := Pair(l, k);
    assert Get(b.members, l) == Some(JNull);
    assert b.members[1..] == [Member(k, JNull)];
    assert Get(b.members, k) == Some(JNull);
  }

  /** A tied pair keeps its insertion order. */
  lemma PairSorted(le: KeyOrder, k: JsString, l: JsString)
    requires le(k, l)
    ensures |SortedMembers(le, Pair(k, l))| == 2 && SortedMembers(le, Pair(k, l))[0].key == k
  {
    var m, n := Member(k, JNull), Member(l, JNull);
    assert [m, n][1..] == [n] && [n][1..] == [];
    assert SortMembers(le, [n]) == [n];
    assert SortMembers(le, [m, n]) == [m, n];
    SortKeeps(le, [m, n]);
    SortValuesAt(le, Pair(k, l), [m, n], 0);
  }

  /** Two keys the comparator calls equal keep their insertion order, and the texts differ. */
  lemma TiedKeysDisagree(le: KeyOrder, k: JsString, l: JsString)
    requires le(k, l) && le(l, k) && k != l
    ensures WellFormed(Pair(k, l)) && WellFormed(Pair(l, k))
    ensures DeepEqual(Pair(k, l), Pair(l, k)) && Canonical(le, Pair(k, l)) != Canonical(le, Pair(l, k))
  {
    PairEqual(k, l);
    PairEqual(l, k);
    PairSorted(le, k, l);
    PairSorted(le, l, k);
    var a, b := SortJson(le, Pair(k, l)), SortJson(le, Pair(l, k));
    assert a.members[0] != b.members[0];
    if Print(a) == Print(b) {
      PrintInjective(a, b);
      assert false;
    }
  }

  /**
   The exact condition. For any comparator that is a total preorder, as `localeCompare` is,
   the two checks decide the same relation on all JSON values if and only if no two
   different keys compare as equal.
   */
  lemma ChecksAgreeIff(le: KeyOrder)
    requires TotalPreorder(le)
    ensures Agree(le) <==> Antisymmetric(le)
  {
    if Antisymmetric(le) {
      forall a, b | WellFormed(a) && WellFormed(b)
        ensures DeepEqual(a, b) <==> Canonical(le, a) == Canonical(le, b)
      {
        ChecksAgreeOnTotalOrder(le, a, b);
      }
    } else {
      var k, l :| le(k, l) && le(l, k) && k != l;
      TiedKeysDisagree(le, k, l);
    }
  }

  lemma {:induction false} DeepEqualReflexive(v: Json)
    requires WellFormed(v)
    ensures DeepEqual(v, v)
  {
    match v
    case JArray(items) =>
      forall i | 0 <= i < |items| ensures DeepEqual(items[i], items[i]) {
        DeepEqualReflexive(items[i]);
      }
    case JObject(members) =>
      forall i | 0 <= i < |members|
        ensures Get(members, members[i].key) == Some(members[i].value) && DeepEqual(members[i].value, members[i].value)
      {
        assert members[i] in members;
        GetUnique(members, members[i]);
        DeepEqualReflexive(members[i].value);
      }
    case _ =>
  }
}
