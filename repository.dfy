/**
 * EmployeeRepository: the employee table as the service sees it. Rows are keyed by
 * id; `order` is the order findAll returns them in (insertion order); `nextId` is
 * the identity counter; `calls` records the repository calls made, in order.
 */
module Repository {
  import opened Wrappers
  import opened Entity
  import opened Exceptions

  /** A repository call, as issued by the service. */
  datatype RepositoryCall =
    | FindById(id: int)
    | ExistsById(id: int)
    | Save(entityId: Option<int>)
    | DeleteById(id: int)

  ghost predicate Distinct(s: seq<int>) {
    forall i, j | 0 <= i < j < |s| :: s[i] != s[j]
  }

  /** `s` without `x`, in the same order. */
  function Without(s: seq<int>, x: int): (r: seq<int>)
    ensures forall y :: y in r <==> y in s && y != x
    ensures x !in s ==> r == s
  {
    if s == [] then []
    else if s[0] == x then Without(s[1..], x)
    else [s[0]] + Without(s[1..], x)
  }

  /** Removing an element from a list without repeats leaves a list without repeats. */
  lemma {:induction false} WithoutKeepsDistinct(s: seq<int>, x: int)
    requires Distinct(s)
    ensures Distinct(Without(s, x))
  {
    if s != [] {
      assert Distinct(s[1..]) by {
        assert forall i | 0 <= i < |s[1..]| :: s[1..][i] == s[i + 1];
      }
      WithoutKeepsDistinct(s[1..], x);
      if s[0] != x {
        assert s[0] !in s[1..] by {
          assert forall i | 0 <= i < |s[1..]| :: s[1..][i] == s[i + 1];
        }
      }
    }
  }

  /** In a list without repeats, the element at `k` occurs neither before nor after `k`. */
  lemma DistinctAt(s: seq<int>, k: nat)
    requires Distinct(s) && k < |s|
    ensures s[k] !in s[..k] && s[k] !in s[k + 1..]
  {
    var before, after := s[..k], s[k + 1..];
    forall i | 0 <= i < |before| ensures before[i] != s[k] {
      assert before[i] == s[i];
    }
    forall i | 0 <= i < |after| ensures after[i] != s[k] {
      assert after[i] == s[k + 1 + i];
    }
  }

  /** Removing `x` from a list holding it at one position only cuts out that position. */
  lemma {:induction false} WithoutSplice(before: seq<int>, x: int, after: seq<int>)
    requires x !in before && x !in after
    ensures Without(before + [x] + after, x) == before + after
  {
    var s := before + [x] + after;
    if before == [] {
      assert s[0] == x && s[1..] == after;
    } else {
      assert s[0] == before[0] && s[1..] == before[1..] + [x] + after;
      WithoutSplice(before[1..], x, after);
      assert [before[0]] + (before[1..] + after) == before + after;
    }
  }

  /** A list is its prefix, its element at `k` and its suffix. */
  lemma SplitAt(s: seq<int>, k: nat)
    requires k < |s|
    ensures s == s[..k] + [s[k]] + s[k + 1..]
  {
  }

  /** In a list without repeats, removing `x` cuts out its one position and keeps the rest in order. */
  lemma WithoutCutsPosition(s: seq<int>, k: nat)
    requires Distinct(s) && k < |s|
    ensures Without(s, s[k]) == s[..k] + s[k + 1..]
  {
    DistinctAt(s, k);
    SplitAt(s, k);
    WithoutSplice(s[..k], s[k], s[k + 1..]);
  }

  /** `after` is `before` with the one position holding `x` cut out, the rest in order. */
  ghost predicate CutOut(before: seq<int>, after: seq<int>, x: int) {
    exists k | 0 <= k < |before| && before[k] == x :: after == before[..k] + before[k + 1..]
  }

  lemma WithoutCutsOut(s: seq<int>, x: int)
    requires Distinct(s) && x in s
    ensures CutOut(s, Without(s, x), x)
  {
    var k :| 0 <= k < |s| && s[k] == x;
    WithoutCutsPosition(s, k);
  }

  /** A list without repeats has as many elements as its set. */
  lemma {:induction false} DistinctCardinality(s: seq<int>)
    requires Distinct(s)
    ensures |set x | x in s| == |s|
  {
    if s != [] {
      var init := s[..|s| - 1];
      DistinctCardinality(init);
      assert (set x | x in s) == (set x | x in init) + {s[|s| - 1]};
      assert s[|s| - 1] !in (set x | x in init);
    }
  }

  class EmployeeRepository {
    var rows: map<int, EmployeeRecord>
    var order: seq<int>
    var nextId: int
    ghost var calls: seq<RepositoryCall>

    ghost predicate Valid()
      reads this
    {
      && 1 <= nextId
      && (forall k | k in rows :: rows[k].id == Some(k) && k < nextId)
      && (forall i | 0 <= i < |order| :: order[i] in rows)
      && (forall k | k in rows :: k in order)
      && Distinct(order)
      && (forall k | k in rows :: rows[k].email.Some?)
      && (forall k1, k2 | k1 in rows && k2 in rows && k1 != k2 :: rows[k1].email != rows[k2].email)
    }

    /** An empty table whose first generated id is 1. */
    constructor ()
      ensures Valid()
      ensures rows == map[] && order == [] && nextId == 1 && calls == []
    {
      rows, order, nextId := map[], [], 1;
      calls := [];
    }

    /** The rows in findAll order. */
    function FindAll(): (r: seq<EmployeeRecord>)
      requires Valid()
      reads this
      ensures |r| == |order| == |rows|
      ensures forall i | 0 <= i < |r| :: r[i] == rows[order[i]] && r[i].id == Some(order[i])
    {
      DistinctCardinality(order);
      assert rows.Keys == set x | x in order by {
        forall k | k in rows ensures k in order { }
        forall i | 0 <= i < |order| ensures order[i] in rows { }
      }
      seq(|order|, i requires 0 <= i < |order| && order[i] in rows reads this => rows[order[i]])
    }

    /** A save of `e` breaks a column constraint: a null email (nullable = false) or an email another row already holds (unique = true). */
    predicate Rejects(e: EmployeeRecord)
      reads this
    {
      e.email.None? || exists k | k in rows :: rows[k].email == e.email && Some(k) != e.id
    }

    /** findById: a fresh entity object holding the row, or null. */
    method FindById(id: int) returns (e: Option<Employee>)
      modifies this`calls
      ensures calls == old(calls) + [RepositoryCall.FindById(id)]
      ensures e.Some? <==> id in rows
      ensures e.Some? ==> fresh(e.value) && e.value.Value() == rows[id]
    {
      calls := calls + [RepositoryCall.FindById(id)];
      if id in rows {
        var employee := new Employee(rows[id]);
        e := Some(employee);
      } else {
        e := None;
      }
    }

    /** existsById. */
    method ExistsById(id: int) returns (b: bool)
      modifies this`calls
      ensures calls == old(calls) + [RepositoryCall.ExistsById(id)]
      ensures b <==> id in rows
    {
      calls := calls + [RepositoryCall.ExistsById(id)];
      b := id in rows;
    }

    /**
     * save: an entity without id is inserted under the next generated id; an entity
     * with an id replaces that row. A constraint violation changes nothing.
     */
    method Save(e: EmployeeRecord) returns (r: Result<EmployeeRecord, ServiceException>)
      requires Valid()
      requires e.id.Some? ==> e.id.value in rows
      modifies this
      ensures Valid()
      ensures calls == old(calls) + [RepositoryCall.Save(e.id)]
      ensures r.Failure? <==> old(Rejects(e))
      ensures r.Failure? ==> r.error == DataIntegrityViolation
      ensures r.Failure? ==> rows == old(rows) && order == old(order) && nextId == old(nextId)
      ensures r.Success? && e.id.None? ==>
        && r.value == e.(id := Some(old(nextId)))
        && rows == old(rows)[old(nextId) := r.value]
        && order == old(order) + [old(nextId)]
        && nextId == old(nextId) + 1
      ensures r.Success? && e.id.Some? ==>
        && r.value == e
        && rows == old(rows)[e.id.value := e]
        && order == old(order) && nextId == old(nextId)
    {
      calls := calls + [RepositoryCall.Save(e.id)];
      if Rejects(e) {
        r := Failure(DataIntegrityViolation);
      } else if e.id.None? {
        var saved := e.(id := Some(nextId));
        rows := rows[nextId := saved];
        order := order + [nextId];
        nextId := nextId + 1;
        r := Success(saved);
      } else {
        rows := rows[e.id.value := e];
        r := Success(e);
      }
    }

    /** deleteById: the row with that id is gone; every other row stays, in the same order. */
    method DeleteById(id: int)
      requires Valid()
      modifies this
      ensures Valid()
      ensures calls == old(calls) + [RepositoryCall.DeleteById(id)]
      ensures rows == old(rows) - {id}
      ensures order == Without(old(order), id)
      ensures id in old(rows) ==> CutOut(old(order), order, id)
      ensures nextId == old(nextId)
    {
      calls := calls + [RepositoryCall.DeleteById(id)];
      WithoutKeepsDistinct(order, id);
      if id in rows {
        WithoutCutsOut(order, id);
      }
      rows := rows - {id};
      order := Without(order, id);
      assert forall i | 0 <= i < |order| :: order[i] in order;
    }
  }
}
