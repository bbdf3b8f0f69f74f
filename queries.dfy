/** The LINQ operators the store and the handler use: `OrderBy(x => x.Version)` on
    event records, `Select(x => x.EventData)`, `Distinct()` on ids and
    `Max()` on event versions. */
module Queries {
  import opened Core
  import opened Events

  predicate RecordsAscending(s: seq<EventModel>) {
    forall i, j :: 0 <= i < j < |s| ==> s[i].version <= s[j].version
  }

  predicate EventsAscending(s: seq<Event>) {
    forall i, j :: 0 <= i < j < |s| ==> s[i].version <= s[j].version
  }

  /** `Select(x => x.EventData)`. */
  function EventDatas(s: seq<EventModel>): (r: seq<Event>)
    ensures |r| == |s| && forall i :: 0 <= i < |s| ==> r[i] == s[i].eventData
  {
    if s == [] then [] else [s[0].eventData] + EventDatas(s[1..])
  }

  lemma EventDatasAppend(a: seq<EventModel>, b: seq<EventModel>)
    ensures EventDatas(a + b) == EventDatas(a) + EventDatas(b)
  {
    var l, r := EventDatas(a + b), EventDatas(a) + EventDatas(b);
    assert |l| == |r|;
    forall i | 0 <= i < |l| ensures l[i] == r[i] {
      if i >= |a| {
        assert (a + b)[i] == b[i - |a|];
      }
    }
  }

  /** Insert `x` before the first record of `s` whose version is equal or higher. */
  function InsertByVersion(x: EventModel, s: seq<EventModel>): (r: seq<EventModel>)
    ensures |r| == |s| + 1
    ensures r[0] == x || (s != [] && r[0] == s[0])
  {
    if s == [] || x.version <= s[0].version then [x] + s
    else [s[0]] + InsertByVersion(x, s[1..])
  }

  /** Inserting adds exactly the one record. */
  lemma {:induction false} InsertAddsOne(x: EventModel, s: seq<EventModel>)
    ensures multiset(InsertByVersion(x, s)) == multiset(s) + multiset{x}
  {
    if s != [] && x.version > s[0].version {
      InsertAddsOne(x, s[1..]);
      assert s == [s[0]] + s[1..];
    }
  }

  /** Inserting into an ascending list keeps it ascending. */
  lemma {:induction false} InsertKeepsAscending(x: EventModel, s: seq<EventModel>)
    requires RecordsAscending(s)
    ensures RecordsAscending(InsertByVersion(x, s))
  {
    if s != [] && x.version > s[0].version {
      InsertKeepsAscending(x, s[1..]);
      InsertAddsOne(x, s[1..]);
      var r := InsertByVersion(x, s[1..]);
      forall k | 0 <= k < |r| ensures s[0].version <= r[k].version {
        assert r[k] in multiset(s[1..]) + multiset{x};
        if r[k] != x {
          var m :| 0 <= m < |s[1..]| && s[1..][m] == r[k];
        }
      }
    }
  }

  /** `OrderBy(x => x.Version)`: a stable sort; the earlier of two records with the same
      version stays first. */
  function SortByVersion(s: seq<EventModel>): (r: seq<EventModel>)
    ensures |r| == |s|
  {
    if s == [] then [] else InsertByVersion(s[0], SortByVersion(s[1..]))
  }

  /** The sort's result is in ascending version order and a permutation of its input. */
  lemma {:induction false} SortByVersionSorts(s: seq<EventModel>)
    ensures RecordsAscending(SortByVersion(s))
    ensures multiset(SortByVersion(s)) == multiset(s)
  {
    if s != [] {
      SortByVersionSorts(s[1..]);
      InsertKeepsAscending(s[0], SortByVersion(s[1..]));
      InsertAddsOne(s[0], SortByVersion(s[1..]));
      assert s == [s[0]] + s[1..];
    }
  }

  /** The records of one version, in the order they appear. */
  function WithVersion(s: seq<EventModel>, v: int): seq<EventModel> {
    if s == [] then []
    else (if s[0].version == v then [s[0]] else []) + WithVersion(s[1..], v)
  }

  /** Inserting places the new record ahead of every record with its version. */
  lemma {:induction false} InsertIsStable(x: EventModel, s: seq<EventModel>, v: int)
    ensures WithVersion(InsertByVersion(x, s), v) == (if x.version == v then [x] else []) + WithVersion(s, v)
  {
    if s == [] || x.version <= s[0].version {
      assert ([x] + s)[1..] == s;
    } else {
      InsertIsStable(x, s[1..], v);
      assert ([s[0]] + InsertByVersion(x, s[1..]))[1..] == InsertByVersion(x, s[1..]);
    }
  }

  /** The sort is stable: for every version, the records carrying it come out in the
      order they went in. */
  lemma {:induction false} SortByVersionStable(s: seq<EventModel>, v: int)
    ensures WithVersion(SortByVersion(s), v) == WithVersion(s, v)
  {
    if s != [] {
      SortByVersionStable(s[1..], v);
      InsertIsStable(s[0], SortByVersion(s[1..]), v);
    }
  }

  lemma {:induction false} InsertKeepsPayloads(x: EventModel, s: seq<EventModel>)
    ensures multiset(EventDatas(InsertByVersion(x, s))) == multiset(EventDatas(s)) + multiset{x.eventData}
  {
    if s == [] || x.version <= s[0].version {
      assert ([x] + s)[1..] == s;
    } else {
      var rest := InsertByVersion(x, s[1..]);
      InsertKeepsPayloads(x, s[1..]);
      assert ([s[0]] + rest)[1..] == rest;
    }
  }

  /** Sorting only reorders: the selected payloads are a permutation of the stream's. */
  lemma {:induction false} SortKeepsPayloads(s: seq<EventModel>)
    ensures multiset(EventDatas(SortByVersion(s))) == multiset(EventDatas(s))
  {
    if s != [] {
      SortKeepsPayloads(s[1..]);
      InsertKeepsPayloads(s[0], SortByVersion(s[1..]));
    }
  }

  /** A stream already in version order comes back unchanged. */
  lemma {:induction false} SortAscendingIsIdentity(s: seq<EventModel>)
    requires RecordsAscending(s)
    ensures SortByVersion(s) == s
  {
    if s != [] {
      SortAscendingIsIdentity(s[1..]);
      assert s == [s[0]] + s[1..];
    }
  }

  predicate NoDuplicates(s: seq<Guid>) {
    forall i, j :: 0 <= i < j < |s| ==> s[i] != s[j]
  }

  /** `Distinct()`: the first occurrence of every element, in order of appearance. */
  function Distinct(s: seq<Guid>): (r: seq<Guid>)
    ensures NoDuplicates(r)
    ensures forall x :: x in r <==> x in s
    ensures |r| <= |s|
  {
    if s == [] then []
    else
      var front := Distinct(s[..|s| - 1]);
      var last := s[|s| - 1];
      assert s == s[..|s| - 1] + [last];
      if last in front then front else front + [last]
  }

  /** The position of the first occurrence of `x` in `s`. */
  function FirstIndex(s: seq<Guid>, x: Guid): (k: nat)
    requires x in s
    ensures k < |s| && s[k] == x
    ensures forall i :: 0 <= i < k ==> s[i] != x
  {
    if s[0] == x then 0 else 1 + FirstIndex(s[1..], x)
  }

  /** `Distinct()` keeps the order of first appearance: of two ids it returns, the one
      met first in the input comes first. */
  lemma {:induction false} DistinctKeepsFirstOrder(s: seq<Guid>)
    ensures forall i, j :: 0 <= i < j < |Distinct(s)| ==>
      FirstIndex(s, Distinct(s)[i]) < FirstIndex(s, Distinct(s)[j])
  {
    if s != [] {
      var n := |s| - 1;
      var prefix := s[..n];
      var front := Distinct(prefix);
      DistinctKeepsFirstOrder(prefix);
      assert s == prefix + [s[n]];
      forall x | x in prefix ensures FirstIndex(s, x) == FirstIndex(prefix, x) {
        var k, m := FirstIndex(s, x), FirstIndex(prefix, x);
        assert s[m] == x;
        assert k <= m;
        assert prefix[k] == x;
      }
      if s[n] !in front {
        assert forall i :: 0 <= i < n ==> s[i] == prefix[i] && s[i] != s[n];
        assert FirstIndex(s, s[n]) == n;
      }
    }
  }

  /** A list without duplicates is its own `Distinct()`. */
  lemma {:induction false} DistinctOfDistinct(s: seq<Guid>)
    requires NoDuplicates(s)
    ensures Distinct(s) == s
  {
    if s != [] {
      DistinctOfDistinct(s[..|s| - 1]);
      assert s == s[..|s| - 1] + [s[|s| - 1]];
    }
  }

  /** `Select(x => x.Version).Max()` on a non-empty list. */
  function MaxVersion(s: seq<Event>): int
    requires s != []
  {
    if |s| == 1 then s[0].version
    else
      var rest := MaxVersion(s[1..]);
      if s[0].version >= rest then s[0].version else rest
  }

  /** The maximum is the version of some event and no event has a higher one. */
  lemma {:induction false} MaxVersionIsMax(s: seq<Event>)
    requires s != []
    ensures exists i :: 0 <= i < |s| && s[i].version == MaxVersion(s)
    ensures forall i :: 0 <= i < |s| ==> s[i].version <= MaxVersion(s)
  {
    if |s| > 1 {
      MaxVersionIsMax(s[1..]);
      assert forall i :: 1 <= i < |s| ==> s[i] == s[1..][i - 1];
      if s[0].version < MaxVersion(s[1..]) {
        var k :| 0 <= k < |s[1..]| && s[1..][k].version == MaxVersion(s[1..]);
        assert s[k + 1].version == MaxVersion(s);
      } else {
        assert s[0].version == MaxVersion(s);
      }
    } else {
      assert s[0].version == MaxVersion(s);
    }
  }

  /** On an ascending list the maximum is the last version. */
  lemma MaxOfAscending(s: seq<Event>)
    requires s != [] && EventsAscending(s)
    ensures MaxVersion(s) == s[|s| - 1].version
  {
    MaxVersionIsMax(s);
  }
}
