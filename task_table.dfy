/**
 * The Tasks table as the controller sees it: a map from primary key to
 * record, read back by a full scan in key order and filtered by the three
 * `Where` predicates the controller uses.
 */
module TaskTable {
  import opened TaskEntities

  /**
   * Every record is stored under its own id, and every id lies in
   * [1, nextId): the identity column starts at 1 and counts up by 1.
   */
  predicate WellKeyed(m: map<int, TaskRecord>, nextId: int)
  {
    1 <= nextId && forall k :: k in m ==> 1 <= k < nextId && m[k].id == k
  }

  /** The records stored under the keys lo, lo + 1, ..., hi - 1, in key order. */
  function Scan(m: map<int, TaskRecord>, lo: int, hi: int): seq<TaskRecord>
    decreases hi - lo
  {
    if lo >= hi then []
    else (if lo in m then [m[lo]] else []) + Scan(m, lo + 1, hi)
  }

  /** Strictly ascending ids: in particular no record is listed twice. */
  predicate IdsAscending(s: seq<TaskRecord>)
  {
    forall i, j :: 0 <= i < j < |s| ==> s[i].id < s[j].id
  }

  /** A scan lists exactly the records stored under keys in [lo, hi). */
  lemma {:induction false} ScanMember(m: map<int, TaskRecord>, lo: int, hi: int, t: TaskRecord)
    ensures t in Scan(m, lo, hi) <==> exists k :: lo <= k < hi && k in m && m[k] == t
    decreases hi - lo
  {
    if lo < hi {
      ScanMember(m, lo + 1, hi, t);
      var head := if lo in m then [m[lo]] else [];
      assert Scan(m, lo, hi) == head + Scan(m, lo + 1, hi);
      if exists k :: lo <= k < hi && k in m && m[k] == t {
        var k :| lo <= k < hi && k in m && m[k] == t;
        if k == lo {
          assert t in head;
        }
      }
    }
  }

  /** Two ascending runs, the first entirely below the second, join into one. */
  lemma AppendAscending(a: seq<TaskRecord>, b: seq<TaskRecord>)
    requires IdsAscending(a) && IdsAscending(b)
    requires forall x, y :: x in a && y in b ==> x.id < y.id
    ensures IdsAscending(a + b)
  {
  }

  /** When every record carries its key as id, a scan lists ids in ascending order. */
  lemma {:induction false} ScanAscending(m: map<int, TaskRecord>, lo: int, hi: int)
    requires forall k :: k in m ==> m[k].id == k
    ensures IdsAscending(Scan(m, lo, hi))
    ensures forall t :: t in Scan(m, lo, hi) ==> lo <= t.id < hi
    decreases hi - lo
  {
    if lo < hi {
      ScanAscending(m, lo + 1, hi);
      var head := if lo in m then [m[lo]] else [];
      var tail := Scan(m, lo + 1, hi);
      assert Scan(m, lo, hi) == head + tail;
      assert forall t :: t in head ==> t.id == lo;
      AppendAscending(head, tail);
    }
  }

  /**
   * The full scan of a well-keyed table (`ToList()`): every stored record
   * exactly once, ascending by id.
   */
  lemma FullScan(m: map<int, TaskRecord>, nextId: int)
    requires WellKeyed(m, nextId)
    ensures IdsAscending(Scan(m, 1, nextId))
    ensures forall t :: t in Scan(m, 1, nextId) <==> t in m.Values
  {
    ScanAscending(m, 1, nextId);
    forall t
      ensures t in Scan(m, 1, nextId) <==> t in m.Values
    {
      ScanMember(m, 1, nextId, t);
      if t in m.Values {
        var k :| k in m && m[k] == t;
        assert 1 <= k < nextId;
      }
    }
  }

  /** `s` begins with `sub`. */
  predicate IsPrefix(sub: string, s: string)
  {
    |sub| <= |s| && s[..|sub|] == sub
  }

  /** Substring containment, as in `string.Contains`: some suffix of `s` begins with `sub`. */
  predicate Contains(s: string, sub: string)
  {
    exists i :: 0 <= i <= |s| && IsPrefix(sub, s[i..])
  }

  /** The empty string occurs in every string. */
  lemma ContainsEmpty(s: string)
    ensures Contains(s, "")
  {
    assert IsPrefix("", s[0..]);
  }

  /** The three `Where` predicates of the controller's searches. */
  datatype Criterion =
    | TitleContains(title: string)
    | DateEquals(date: Date)
    | StatusEquals(status: Status)

  predicate Matches(t: TaskRecord, c: Criterion)
  {
    match c
    case TitleContains(title) => Contains(t.title, title)
    case DateEquals(date) => t.date == date
    case StatusEquals(status) => t.status == status
  }

  /**
   * `Where(...).ToList()`: the records of `s` that satisfy `c`, in the
   * order of `s`.
   */
  function Where(s: seq<TaskRecord>, c: Criterion): (r: seq<TaskRecord>)
    ensures forall t :: t in r <==> t in s && Matches(t, c)
    ensures IdsAscending(s) ==> IdsAscending(r)
  {
    if s == [] then []
    else
      var head := if Matches(s[0], c) then [s[0]] else [];
      var rest := Where(s[1..], c);
      assert IdsAscending(s) ==> forall x, y :: x in head && y in rest ==> x.id < y.id by {
        if IdsAscending(s) {
          forall x, y | x in head && y in rest
            ensures x.id < y.id
          {
            var j :| 0 <= j < |s[1..]| && s[1..][j] == y;
            assert s[j + 1] == y;
          }
        }
      }
      if IdsAscending(s) then AppendAscending(head, rest); head + rest
      else head + rest
  }

  /** A criterion every record satisfies filters nothing out. */
  lemma {:induction false} WhereAll(s: seq<TaskRecord>, c: Criterion)
    requires forall t :: t in s ==> Matches(t, c)
    ensures Where(s, c) == s
  {
    if s != [] {
      WhereAll(s[1..], c);
      assert s == [s[0]] + s[1..];
    }
  }
}
