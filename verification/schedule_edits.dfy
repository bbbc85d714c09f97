/** The schedule and cost helpers of the cheapest-insertion heuristic, as
    their unit tests pin them down: replace one entry, keep the rest. */
module ScheduleEdits {
  import opened Base

  /** `modifySchedule(schedule, route, i)`: the schedule with vehicle `i`'s
      route replaced; an index outside the schedule is an
      IllegalArgumentException. */
  function ModifySchedule<T>(schedule: seq<seq<T>>, route: seq<T>, i: int): (r: Result<seq<seq<T>>>)
    ensures r.Failure? <==> i < 0 || i >= |schedule|
    ensures r.Failure? ==> r.error == IllegalArgument
    ensures r.Success? ==> |r.value| == |schedule| && r.value[i] == route
    ensures r.Success? ==> forall j :: 0 <= j < |schedule| && j != i ==> r.value[j] == schedule[j]
  {
    if i < 0 || i >= |schedule| then Failure(IllegalArgument)
    else Success(schedule[..i] + [route] + schedule[i + 1..])
  }

  /** `modifyCosts(costs, value, i)`: the list with element `i` replaced. */
  function ModifyCosts<T>(costs: seq<T>, value: T, i: nat): (r: seq<T>)
    requires i < |costs|
    ensures |r| == |costs| && r[i] == value
    ensures forall j :: 0 <= j < |costs| && j != i ==> r[j] == costs[j]
  {
    costs[..i] + [value] + costs[i + 1..]
  }

  /** Putting back the route that was there restores the schedule, and a
      second replacement of the same entry overrides the first. */
  lemma ModifyScheduleUndo<T>(schedule: seq<seq<T>>, r1: seq<T>, r2: seq<T>, i: int)
    requires 0 <= i < |schedule|
    ensures ModifySchedule(ModifySchedule(schedule, r1, i).value, schedule[i], i) == Success(schedule)
    ensures ModifySchedule(ModifySchedule(schedule, r1, i).value, r2, i) == ModifySchedule(schedule, r2, i)
  {
    var once := ModifySchedule(schedule, r1, i).value;
    assert ModifySchedule(once, schedule[i], i).value == schedule;
    assert ModifySchedule(once, r2, i).value == ModifySchedule(schedule, r2, i).value;
  }

  /** The same for costs. */
  lemma ModifyCostsUndo<T>(costs: seq<T>, v1: T, v2: T, i: nat)
    requires i < |costs|
    ensures ModifyCosts(ModifyCosts(costs, v1, i), costs[i], i) == costs
    ensures ModifyCosts(ModifyCosts(costs, v1, i), v2, i) == ModifyCosts(costs, v2, i)
  {
  }

  /** The unit tests' cases: on a two-route schedule, entries 0 and 1 can be
      replaced, entries 2 and -1 are rejected; element 2 of a four-element
      cost list can be replaced. */
  lemma TestedCases(a: seq<char>, b: seq<char>, c: seq<char>)
    ensures ModifySchedule([a, b], c, 0) == Success([c, b])
    ensures ModifySchedule([a, b], c, 1) == Success([a, c])
    ensures ModifySchedule([a, b], c, 2) == Failure(IllegalArgument)
    ensures ModifySchedule([a, b], c, -1) == Failure(IllegalArgument)
    ensures ModifyCosts([1, 2, 3, 4], 8, 2) == [1, 2, 8, 4]
  {
    assert ModifySchedule([a, b], c, 0).value == [c, b];
    assert ModifySchedule([a, b], c, 1).value == [a, c];
    assert ModifyCosts([1, 2, 3, 4], 8, 2) == [1, 2, 8, 4];
  }
}
