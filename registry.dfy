/** The run registry's read side over the `runs` table: list newest first,
    latest by id, and lookup by id. */
module Registry {
  import opened Common
  import opened RunModel
  import Sorting

  /** The ids of the stored runs. */
  function RunIds(runs: seq<Run>): set<int>
  {
    set i | 0 <= i < |runs| :: runs[i].id
  }

  lemma RunIdsAppend(runs: seq<Run>, r: Run)
    ensures RunIds(runs + [r]) == RunIds(runs) + {r.id}
  {
    var all := runs + [r];
    assert all[|runs|] == r;
    forall x | x in RunIds(runs)
      ensures x in RunIds(all)
    {
      var i :| 0 <= i < |runs| && runs[i].id == x;
      assert all[i] == runs[i];
    }
  }

  /** Ids come from an auto-increment sequence, so runs are kept in strictly
      ascending id order. */
  ghost predicate IdsAscending(runs: seq<Run>)
  {
    forall i, j :: 0 <= i < j < |runs| ==> runs[i].id < runs[j].id
  }

  /** A run whose id is above every stored id keeps the ids ascending. */
  lemma AppendAscending(runs: seq<Run>, r: Run)
    requires IdsAscending(runs) && forall x | x in runs :: x.id < r.id
    ensures IdsAscending(runs + [r])
  {
    forall i, j | 0 <= i < j < |runs + [r]|
      ensures (runs + [r])[i].id < (runs + [r])[j].id
    {
      assert (runs + [r])[i] == runs[i];
      if j < |runs| {
        assert (runs + [r])[j] == runs[j];
      }
    }
  }

  function NegatedId(r: Run): int
  {
    -r.id
  }

  /** `SELECT runs ORDER BY id DESC`, with no cap. */
  function ListRuns(runs: seq<Run>): (r: seq<Run>)
    ensures multiset(r) == multiset(runs)
    ensures forall i, j :: 0 <= i < j < |r| ==> r[i].id >= r[j].id
  {
    var sorted := Sorting.SortBy(runs, NegatedId);
    assert forall i, j :: 0 <= i < j < |sorted| ==> NegatedId(sorted[i]) <= NegatedId(sorted[j]);
    sorted
  }

  /** Listing returns every run exactly once, newest first: with the
      registry's unique ids the order is strictly descending. */
  lemma {:induction false} ListRunsStrictlyDescending(runs: seq<Run>)
    requires IdsAscending(runs)
    ensures forall i, j :: 0 <= i < j < |ListRuns(runs)| ==> ListRuns(runs)[i].id > ListRuns(runs)[j].id
  {
    var r := ListRuns(runs);
    forall i, j | 0 <= i < j < |r|
      ensures r[i].id > r[j].id
    {
      assert r[i] in multiset(runs) && r[j] in multiset(runs);
      var a :| 0 <= a < |runs| && runs[a] == r[i];
      var b :| 0 <= b < |runs| && runs[b] == r[j];
      assert runs[a].id == runs[b].id ==> a == b;
      CountOfUniqueRun(runs, a);
      DistinctPositions(r, i, j);
    }
  }

  /** A value that occurs at most once in a sequence cannot sit at two
      positions. */
  lemma DistinctPositions<T>(s: seq<T>, i: nat, j: nat)
    requires i < j < |s|
    requires multiset(s)[s[i]] <= 1
    ensures s[i] != s[j]
  {
    assert s == s[..j] + [s[j]] + s[j+1..];
    assert s[i] in s[..j];
    assert multiset(s)[s[i]] == multiset(s[..j])[s[i]] + multiset([s[j]])[s[i]] + multiset(s[j+1..])[s[i]];
  }

  /** In a registry with unique ids each stored run occurs once. */
  lemma {:induction false} CountOfUniqueRun(runs: seq<Run>, a: nat)
    requires IdsAscending(runs)
    requires a < |runs|
    ensures multiset(runs)[runs[a]] == 1
  {
    if |runs| == 1 {
      assert runs == [runs[0]];
    } else {
      var init := runs[..|runs| - 1];
      var last := runs[|runs| - 1];
      assert runs == init + [last];
      if a == |runs| - 1 {
        assert last !in init by {
          assert forall k :: 0 <= k < |init| ==> init[k].id < last.id;
        }
      } else {
        CountOfUniqueRun(init, a);
        assert runs[a] == init[a];
        assert last != runs[a];
      }
    }
  }

  /** `get_latest_run`: the first row of the id-descending listing, or
      "No runs found". */
  function LatestRun(runs: seq<Run>): (r: Result<Run>)
    ensures r.Failure? <==> runs == []
    ensures r.Failure? ==> r.error == NotFound("No runs found")
    ensures r.Success? ==> r.value in runs && forall i :: 0 <= i < |runs| ==> runs[i].id <= r.value.id
  {
    var listed := ListRuns(runs);
    if listed == [] then
      Failure(NotFound("No runs found"))
    else
      assert listed[0] in multiset(runs);
      assert forall i :: 0 <= i < |runs| ==> runs[i] in multiset(listed);
      Success(listed[0])
  }

  /** A run appended with an id above every existing one is the latest. */
  lemma {:induction false} LatestRunAfterAppend(runs: seq<Run>, r: Run)
    requires forall x | x in runs :: x.id < r.id
    ensures LatestRun(runs + [r]) == Success(r)
  {
    var all := runs + [r];
    var l := LatestRun(all).value;
    assert all[|runs|] == r;
    assert r.id <= l.id;
    assert l in runs || l == r;
  }

  /** `get_run`: the run with the given id, or "Run not found". */
  function GetRun(runs: seq<Run>, id: int): (r: Result<Run>)
    ensures r.Success? <==> id in RunIds(runs)
    ensures r.Success? ==> r.value in runs && r.value.id == id
    ensures r.Failure? ==> r.error == NotFound(RunNotFound)
  {
    if runs == [] then Failure(NotFound(RunNotFound))
    else if runs[0].id == id then Success(runs[0])
    else
      assert runs == [runs[0]] + runs[1..];
      assert RunIds(runs) == {runs[0].id} + RunIds(runs[1..]);
      GetRun(runs[1..], id)
  }

  /** The runs that survive deleting run `id`, in table order. */
  function DropRun(runs: seq<Run>, id: int): (r: seq<Run>)
    ensures forall x | x in r :: x in runs && x.id != id
    ensures forall x | x in runs && x.id != id :: x in r
    ensures IdsAscending(runs) ==> IdsAscending(r)
  {
    if runs == [] then []
    else
      var rest := DropRun(runs[1..], id);
      assert runs == [runs[0]] + runs[1..];
      assert IdsAscending(runs) ==> IdsAscending(rest) && forall y | y in rest :: runs[0].id < y.id by {
        if IdsAscending(runs) {
          TailAscending(runs);
        }
      }
      if runs[0].id == id then rest
      else
        assert IdsAscending(runs) ==> IdsAscending([runs[0]] + rest) by {
          if IdsAscending(runs) {
            PrependAscending(runs[0], rest);
          }
        }
        [runs[0]] + rest
  }

  /** The tail of an ascending sequence is ascending and above its head. */
  lemma TailAscending(runs: seq<Run>)
    requires IdsAscending(runs) && runs != []
    ensures IdsAscending(runs[1..]) && forall y | y in runs[1..] :: runs[0].id < y.id
  {
    forall y | y in runs[1..]
      ensures runs[0].id < y.id
    {
      var k :| 0 <= k < |runs[1..]| && runs[1..][k] == y;
      assert runs[k + 1] == y;
    }
  }

  /** A run whose id is below every id of an ascending sequence can go in
      front of it. */
  lemma PrependAscending(x: Run, rest: seq<Run>)
    requires IdsAscending(rest) && forall y | y in rest :: x.id < y.id
    ensures IdsAscending([x] + rest)
  {
    forall i, j | 0 <= i < j < |[x] + rest|
      ensures ([x] + rest)[i].id < ([x] + rest)[j].id
    {
      assert ([x] + rest)[j] == rest[j - 1];
      if i > 0 {
        assert ([x] + rest)[i] == rest[i - 1];
      }
    }
  }

  /** Deleting a run removes exactly its id from the registry's ids. */
  lemma RunIdsDrop(runs: seq<Run>, id: int)
    ensures RunIds(DropRun(runs, id)) == RunIds(runs) - {id}
  {
    var r := DropRun(runs, id);
    forall x | x in RunIds(runs) && x != id
      ensures x in RunIds(r)
    {
      var k :| 0 <= k < |runs| && runs[k].id == x;
      assert runs[k] in r;
    }
  }
}
