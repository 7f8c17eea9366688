/**
 * The orders in which the list operations return rows: patients by id,
 * newest (largest id) first, and medications by name ascending. A table is an
 * id-keyed map; its listing is built by walking the ids from 1 up to a bound.
 */
module Listing {
  import opened Records

  /** The ids in `m` between 1 and `hi`. */
  function KeysUpTo<V>(m: map<int, V>, hi: int): set<int> {
    set k | k in m && 1 <= k <= hi
  }

  /** Raising the bound by one adds at most the one new id. */
  lemma KeysUpToStep<V>(m: map<int, V>, hi: int)
    requires hi >= 1
    ensures hi !in KeysUpTo(m, hi - 1)
    ensures KeysUpTo(m, hi) == KeysUpTo(m, hi - 1) + (if hi in m then {hi} else {})
    ensures |KeysUpTo(m, hi)| == |KeysUpTo(m, hi - 1)| + (if hi in m then 1 else 0)
  {
    assert KeysUpTo(m, hi) == KeysUpTo(m, hi - 1) + (if hi in m then {hi} else {});
  }

  /** Once the bound covers every id, the listing's ids are all the table's keys. */
  lemma KeysUpToAll<V>(m: map<int, V>, hi: int)
    requires forall k :: k in m ==> 1 <= k <= hi
    ensures KeysUpTo(m, hi) == m.Keys
    ensures |KeysUpTo(m, hi)| == |m|
  {
    assert KeysUpTo(m, hi) == m.Keys;
  }

  // ------------------------------------------------------------- patients

  /** Every stored patient carries the id it is stored under. */
  predicate PatientsKeyed(m: map<int, Patient>) {
    forall k :: k in m ==> m[k].id == k
  }

  /** The patients with ids 1..`hi`, ordered by id descending (`order: { id: 'DESC' }`). */
  function NewestFirst(m: map<int, Patient>, hi: int): seq<Patient>
    decreases hi
  {
    if hi < 1 then []
    else if hi in m then [m[hi]] + NewestFirst(m, hi - 1)
    else NewestFirst(m, hi - 1)
  }

  predicate IdsDescending(s: seq<Patient>) {
    forall i, j :: 0 <= i < j < |s| ==> s[i].id > s[j].id
  }

  /** The patient listing has strictly decreasing ids. */
  lemma {:induction false} NewestFirstDescending(m: map<int, Patient>, hi: int)
    requires PatientsKeyed(m)
    ensures IdsDescending(NewestFirst(m, hi))
    decreases hi
  {
    if hi >= 1 {
      NewestFirstDescending(m, hi - 1);
      NewestFirstMembers(m, hi - 1);
      var rest := NewestFirst(m, hi - 1);
      if hi in m {
        var r := NewestFirst(m, hi);
        assert r == [m[hi]] + rest;
        forall i, j | 0 <= i < j < |r| ensures r[i].id > r[j].id {
          assert r[j] == rest[j - 1] && rest[j - 1] in rest;
          assert r[j].id <= hi - 1;
          if i == 0 {
            assert r[0] == m[hi] && m[hi].id == hi;
          } else {
            assert r[i] == rest[i - 1];
          }
        }
      }
    }
  }

  /** The patient listing holds exactly the stored patients with ids 1..`hi`. */
  lemma {:induction false} NewestFirstMembers(m: map<int, Patient>, hi: int)
    requires PatientsKeyed(m)
    ensures forall x :: x in NewestFirst(m, hi) <==> 1 <= x.id <= hi && x.id in m && m[x.id] == x
    decreases hi
  {
    if hi >= 1 {
      NewestFirstMembers(m, hi - 1);
    }
  }

  /** The patient listing holds each of them once: its length is their number. */
  lemma {:induction false} NewestFirstLength(m: map<int, Patient>, hi: int)
    ensures |NewestFirst(m, hi)| == |KeysUpTo(m, hi)|
    decreases hi
  {
    if hi < 1 {
      assert KeysUpTo(m, hi) == {};
    } else {
      KeysUpToStep(m, hi);
      NewestFirstLength(m, hi - 1);
    }
  }

  // ------------------------------------------------------------- name order

  /**
   * Strict lexicographic order on names, character by character (code point
   * order, as SQLite's default BINARY collation compares UTF-8 text); a proper
   * prefix comes first.
   */
  predicate NameBefore(a: string, b: string)
    decreases |a|
  {
    if a == [] then b != []
    else b != [] && (a[0] < b[0] || (a[0] == b[0] && NameBefore(a[1..], b[1..])))
  }

  lemma {:induction false} NameBeforeIrreflexive(a: string)
    ensures !NameBefore(a, a)
    decreases |a|
  {
    if a != [] {
      NameBeforeIrreflexive(a[1..]);
    }
  }

  lemma {:induction false} NameBeforeTransitive(a: string, b: string, c: string)
    requires NameBefore(a, b) && NameBefore(b, c)
    ensures NameBefore(a, c)
    decreases |a|
  {
    if a != [] && a[0] == b[0] && b[0] == c[0] {
      NameBeforeTransitive(a[1..], b[1..], c[1..]);
    }
  }

  /** Two different names are always ordered one way or the other. */
  lemma {:induction false} NameBeforeTotal(a: string, b: string)
    requires a != b
    ensures NameBefore(a, b) || NameBefore(b, a)
    decreases |a|
  {
    if a != [] && b != [] && a[0] == b[0] {
      assert a == [a[0]] + a[1..] && b == [b[0]] + b[1..];
      NameBeforeTotal(a[1..], b[1..]);
    }
  }

  lemma NameBeforeAsymmetric(a: string, b: string)
    requires NameBefore(a, b)
    ensures !NameBefore(b, a)
  {
    if NameBefore(b, a) {
      NameBeforeTransitive(a, b, a);
      NameBeforeIrreflexive(a);
    }
  }

  /**
   * Medication order: by name ascending; rows with equal names, which SQL
   * leaves in no particular order, are taken by id.
   */
  predicate Precedes(x: Medication, y: Medication) {
    NameBefore(x.name, y.name) || (x.name == y.name && x.id < y.id)
  }

  lemma PrecedesTransitive(x: Medication, y: Medication, z: Medication)
    requires Precedes(x, y) && Precedes(y, z)
    ensures Precedes(x, z)
  {
    if NameBefore(x.name, y.name) && NameBefore(y.name, z.name) {
      NameBeforeTransitive(x.name, y.name, z.name);
    }
  }

  lemma PrecedesAsymmetric(x: Medication, y: Medication)
    requires Precedes(x, y)
    ensures !Precedes(y, x)
  {
    if NameBefore(x.name, y.name) {
      NameBeforeAsymmetric(x.name, y.name);
    } else {
      NameBeforeIrreflexive(x.name);
    }
  }

  /** Medications with different ids are always ordered. */
  lemma PrecedesTotal(x: Medication, y: Medication)
    requires x.id != y.id
    ensures Precedes(x, y) || Precedes(y, x)
  {
    if x.name != y.name {
      NameBeforeTotal(x.name, y.name);
    }
  }

  ghost predicate SortedByName(s: seq<Medication>) {
    forall i, j :: 0 <= i < j < |s| ==> Precedes(s[i], s[j])
  }

  // ------------------------------------------------------------- medications

  /** Every stored medication carries the id it is stored under. */
  predicate MedicationsKeyed(m: map<int, Medication>) {
    forall k :: k in m ==> m[k].id == k
  }

  /** Places `x` before the first row it precedes. */
  function InsertByName(x: Medication, s: seq<Medication>): seq<Medication> {
    if s == [] then [x]
    else if Precedes(x, s[0]) then [x] + s
    else [s[0]] + InsertByName(x, s[1..])
  }

  /** Inserting a medication with a new id into a sorted listing keeps it sorted. */
  lemma {:induction false} InsertByNameSorted(x: Medication, s: seq<Medication>)
    requires SortedByName(s)
    requires forall i :: 0 <= i < |s| ==> s[i].id != x.id
    ensures SortedByName(InsertByName(x, s))
  {
    if s == [] {
    } else if Precedes(x, s[0]) {
      var r := [x] + s;
      forall i, j | 0 <= i < j < |r| ensures Precedes(r[i], r[j]) {
        if i == 0 {
          if j > 1 {
            PrecedesTransitive(x, s[0], s[j - 1]);
          }
        } else {
          assert r[i] == s[i - 1] && r[j] == s[j - 1];
        }
      }
    } else {
      PrecedesTotal(x, s[0]);
      var tail := s[1..];
      InsertByNameSorted(x, tail);
      InsertByNameElements(x, tail);
      var t := InsertByName(x, tail);
      var r := [s[0]] + t;
      forall i, j | 0 <= i < j < |r| ensures Precedes(r[i], r[j]) {
        if i == 0 {
          assert r[j] == t[j - 1] && t[j - 1] in t;
          if r[j] != x {
            var k :| 0 <= k < |tail| && tail[k] == r[j];
            assert s[k + 1] == r[j];
          }
        } else {
          assert r[i] == t[i - 1] && r[j] == t[j - 1];
        }
      }
    }
  }

  /**
   * The medications with ids 1..`hi` in medication order: `InsertByName`
   * applied to each stored row in turn.
   */
  function ByName(m: map<int, Medication>, hi: int): seq<Medication>
    decreases hi
  {
    if hi < 1 then []
    else if hi in m then InsertByName(m[hi], ByName(m, hi - 1))
    else ByName(m, hi - 1)
  }

  /** Inserting adds exactly the one row. */
  lemma {:induction false} InsertByNameElements(x: Medication, s: seq<Medication>)
    ensures |InsertByName(x, s)| == |s| + 1
    ensures forall y :: y in InsertByName(x, s) <==> y == x || y in s
  {
    if s != [] && !Precedes(x, s[0]) {
      InsertByNameElements(x, s[1..]);
      assert s == [s[0]] + s[1..];
    }
  }

  /** The medication listing holds exactly the stored medications with ids 1..`hi`. */
  lemma {:induction false} ByNameMembers(m: map<int, Medication>, hi: int)
    requires MedicationsKeyed(m)
    ensures forall x :: x in ByName(m, hi) <==> 1 <= x.id <= hi && x.id in m && m[x.id] == x
    decreases hi
  {
    if hi >= 1 {
      ByNameMembers(m, hi - 1);
      if hi in m {
        InsertByNameElements(m[hi], ByName(m, hi - 1));
      }
    }
  }

  /** The medication listing holds each of them once: its length is their number. */
  lemma {:induction false} ByNameLength(m: map<int, Medication>, hi: int)
    ensures |ByName(m, hi)| == |KeysUpTo(m, hi)|
    decreases hi
  {
    if hi < 1 {
      assert KeysUpTo(m, hi) == {};
    } else {
      KeysUpToStep(m, hi);
      ByNameLength(m, hi - 1);
      if hi in m {
        InsertByNameElements(m[hi], ByName(m, hi - 1));
      }
    }
  }

  /** The medication listing is sorted by name, ties by id. */
  lemma {:induction false} ByNameSorted(m: map<int, Medication>, hi: int)
    requires MedicationsKeyed(m)
    ensures SortedByName(ByName(m, hi))
    decreases hi
  {
    if hi >= 1 {
      ByNameSorted(m, hi - 1);
      var rest := ByName(m, hi - 1);
      if hi in m {
        ByNameMembers(m, hi - 1);
        forall i | 0 <= i < |rest| ensures rest[i].id != m[hi].id {
          assert rest[i] in rest;
        }
        InsertByNameSorted(m[hi], rest);
      }
    }
  }

  /** The head of a sorted listing precedes every other row in it. */
  lemma SortedHeadFirst(s: seq<Medication>, x: Medication)
    requires SortedByName(s) && s != [] && x in s && x != s[0]
    ensures Precedes(s[0], x)
  {
    var k :| 0 <= k < |s| && s[k] == x;
  }

  /** Two sorted listings of the same medications start with the same row. */
  lemma SortedHeadsAgree(a: seq<Medication>, b: seq<Medication>)
    requires SortedByName(a) && SortedByName(b)
    requires multiset(a) == multiset(b) && a != [] && b != []
    ensures a[0] == b[0]
  {
    assert a[0] in multiset(b) && b[0] in multiset(a);
    if a[0] != b[0] {
      SortedHeadFirst(a, b[0]);
      SortedHeadFirst(b, a[0]);
      PrecedesAsymmetric(a[0], b[0]);
      assert false;
    }
  }

  /**
   * Name order leaves no freedom: two sorted listings of the same medications
   * are the same sequence.
   */
  lemma {:induction false} SortedByNameUnique(a: seq<Medication>, b: seq<Medication>)
    requires SortedByName(a) && SortedByName(b)
    requires multiset(a) == multiset(b)
    ensures a == b
    decreases |a|
  {
    assert |a| == |multiset(a)| == |multiset(b)| == |b|;
    if a != [] {
      SortedHeadsAgree(a, b);
      assert a == [a[0]] + a[1..] && b == [b[0]] + b[1..];
      assert multiset(a[1..]) == multiset(a) - multiset{a[0]};
      assert multiset(b[1..]) == multiset(b) - multiset{b[0]};
      SortedByNameUnique(a[1..], b[1..]);
    }
  }
}
