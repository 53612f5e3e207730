/** The Progress page: the whole curriculum flattened in traversal order, each
    problem tagged with whether it is completed, and one statistics record per
    difficulty tier. */
module Progress {
  import opened Curriculum

  /** The tiers, in the order the page lists them. */
  const Levels: seq<string> := ["Easy", "Medium", "Hard"]

  /** A problem together with whether its id is in `progress`. */
  datatype TaggedProblem = TaggedProblem(problem: Problem, completed: bool)

  /** One entry of `difficultyCounts`; `problems` holds the names of the solved problems. */
  datatype LevelStats = LevelStats(level: string, total: nat, solved: nat, percentage: nat, problems: seq<string>)

  /** Each problem, in order, tagged completed exactly when its id occurs in `progress`. */
  function Tag(problems: seq<Problem>, progress: seq<Id>): (r: seq<TaggedProblem>)
    ensures |r| == |problems|
    ensures forall i :: 0 <= i < |r| ==>
      r[i].problem == problems[i] && r[i].completed == (problems[i].id in progress)
  {
    if problems == [] then []
    else
      var n := |problems|;
      Tag(problems[..n - 1], progress) + [TaggedProblem(problems[n - 1], problems[n - 1].id in progress)]
  }

  /** Every problem of the curriculum in topic, subtopic, problem order, tagged. */
  function AllProblems(topics: seq<Topic>, progress: seq<Id>): (r: seq<TaggedProblem>)
    ensures |r| == |FlattenTopics(topics)|
    ensures forall i :: 0 <= i < |r| ==>
      r[i].problem == FlattenTopics(topics)[i] && r[i].completed == (r[i].problem.id in progress)
  {
    Tag(FlattenTopics(topics), progress)
  }

  predicate OfLevel(t: TaggedProblem, level: string)
  {
    t.problem.level == level
  }

  predicate SolvedAt(t: TaggedProblem, level: string)
  {
    t.problem.level == level && t.completed
  }

  /** The number of problems of a tier. */
  function Total(all: seq<TaggedProblem>, level: string): (r: nat)
    ensures r <= |all|
  {
    if all == [] then 0
    else
      var n := |all|;
      Total(all[..n - 1], level) + (if OfLevel(all[n - 1], level) then 1 else 0)
  }

  /** The number of completed problems of a tier: never more than the tier's total. */
  function Solved(all: seq<TaggedProblem>, level: string): (r: nat)
    ensures r <= Total(all, level)
  {
    if all == [] then 0
    else
      var n := |all|;
      Solved(all[..n - 1], level) + (if SolvedAt(all[n - 1], level) then 1 else 0)
  }

  /** The names of the completed problems of a tier, in order: exactly as many
      as the tier's solved count. */
  function SolvedNames(all: seq<TaggedProblem>, level: string): (r: seq<string>)
    ensures |r| == Solved(all, level)
  {
    if all == [] then []
    else
      var n := |all|;
      SolvedNames(all[..n - 1], level) + (if SolvedAt(all[n - 1], level) then [all[n - 1].problem.name] else [])
  }

  /** The positions in `all` of the problems of a tier: strictly increasing, each
      one of that tier, and none of them missing. */
  ghost function LevelPositions(all: seq<TaggedProblem>, level: string): (r: seq<nat>)
    ensures forall k :: 0 <= k < |r| ==> r[k] < |all| && OfLevel(all[r[k]], level)
    ensures forall j, k :: 0 <= j < k < |r| ==> r[j] < r[k]
    ensures forall i :: 0 <= i < |all| && OfLevel(all[i], level) ==> i in r
  {
    if all == [] then []
    else
      var n := |all|;
      var rest := LevelPositions(all[..n - 1], level);
      assert forall i :: 0 <= i < n - 1 ==> all[..n - 1][i] == all[i];
      rest + (if OfLevel(all[n - 1], level) then [n - 1] else [])
  }

  /** The positions in `all` of the solved problems of a tier: strictly increasing,
      each one solved and of that tier, and none of them missing. */
  ghost function SolvedPositions(all: seq<TaggedProblem>, level: string): (r: seq<nat>)
    ensures forall k :: 0 <= k < |r| ==> r[k] < |all| && SolvedAt(all[r[k]], level)
    ensures forall j, k :: 0 <= j < k < |r| ==> r[j] < r[k]
    ensures forall i :: 0 <= i < |all| && SolvedAt(all[i], level) ==> i in r
  {
    if all == [] then []
    else
      var n := |all|;
      var rest := SolvedPositions(all[..n - 1], level);
      assert forall i :: 0 <= i < n - 1 ==> all[..n - 1][i] == all[i];
      rest + (if SolvedAt(all[n - 1], level) then [n - 1] else [])
  }

  /** A tier's total and solved count are the numbers of its problems and of its
      completed problems: as many as the positions that hold them. */
  lemma {:induction false} CountsArePositions(all: seq<TaggedProblem>, level: string)
    ensures Total(all, level) == |LevelPositions(all, level)|
    ensures Solved(all, level) == |SolvedPositions(all, level)|
  {
    if all != [] {
      CountsArePositions(all[..|all| - 1], level);
    }
  }

  /** The names listed for a tier are those of its solved problems, in traversal order. */
  lemma {:induction false} SolvedNamesInOrder(all: seq<TaggedProblem>, level: string)
    ensures |SolvedNames(all, level)| == |SolvedPositions(all, level)|
    ensures forall k :: 0 <= k < |SolvedNames(all, level)| ==>
      SolvedNames(all, level)[k] == all[SolvedPositions(all, level)[k]].problem.name
  {
    if all != [] {
      var n := |all|;
      var prefix := all[..n - 1];
      SolvedNamesInOrder(prefix, level);
      var names, positions := SolvedNames(all, level), SolvedPositions(all, level);
      var names', positions' := SolvedNames(prefix, level), SolvedPositions(prefix, level);
      assert names[..|names'|] == names' && positions[..|positions'|] == positions';
      forall k | 0 <= k < |names|
        ensures names[k] == all[positions[k]].problem.name
      {
        if k < |names'| {
          assert names[k] == names'[k] && positions[k] == positions'[k];
          assert prefix[positions'[k]] == all[positions'[k]];
        }
      }
    }
  }

  /** The share of solved problems as a whole percent, rounded to the nearest
      with halves rounded up, and 0 for an empty tier; computed in integers. */
  function Percentage(solved: nat, total: nat): (r: nat)
    ensures total == 0 ==> r == 0
    ensures total > 0 ==> 2 * total * r <= 200 * solved + total < 2 * total * (r + 1)
    ensures solved <= total ==> r <= 100
    ensures solved == 0 ==> r == 0
  {
    if total == 0 then 0
    else
      var r := (200 * solved + total) / (2 * total);
      DivBounds(200 * solved + total, 2 * total);
      AtMostHundred(solved, total, r);
      r
  }

  /** Euclidean division brackets its dividend. */
  lemma DivBounds(a: nat, b: nat)
    requires b > 0
    ensures b * (a / b) <= a < b * (a / b + 1)
  {
  }

  /** A rounded share of at most the whole is at most 100 percent. */
  lemma AtMostHundred(solved: nat, total: nat, r: nat)
    requires total > 0 && 2 * total * r <= 200 * solved + total
    ensures solved <= total ==> r <= 100
  {
  }

  /** The record computed for one tier. */
  function Stats(all: seq<TaggedProblem>, level: string): (r: LevelStats)
    ensures r.level == level && r.solved <= r.total && r.percentage <= 100
    ensures |r.problems| == r.solved
    ensures r.total == 0 ==> r.percentage == 0
  {
    var total := Total(all, level);
    var solved := Solved(all, level);
    LevelStats(level, total, solved, Percentage(solved, total), SolvedNames(all, level))
  }

  /** The statistics of the page: one record per tier, Easy, Medium, Hard in that order. */
  function DifficultyCounts(topics: seq<Topic>, progress: seq<Id>): (r: seq<LevelStats>)
    ensures |r| == |Levels| == 3
    ensures forall i :: 0 <= i < |r| ==>
      r[i].level == Levels[i] && r[i].solved <= r[i].total && r[i].percentage <= 100
      && |r[i].problems| == r[i].solved
      && (r[i].total == 0 ==> r[i].percentage == 0)
  {
    var all := AllProblems(topics, progress);
    [Stats(all, "Easy"), Stats(all, "Medium"), Stats(all, "Hard")]
  }

  /** Entry `i` of `difficultyCounts` is the record of tier `Levels[i]`. */
  lemma StatsAt(topics: seq<Topic>, progress: seq<Id>, i: nat)
    requires i < 3
    ensures DifficultyCounts(topics, progress)[i] == Stats(AllProblems(topics, progress), Levels[i])
  {
  }

  /** Problems whose level is none of the tiers are counted in no tier: the three
      totals add up to at most the number of problems, and to exactly that number
      when every problem has one of the three levels. */
  lemma {:induction false} TiersAtMostAll(all: seq<TaggedProblem>)
    ensures Total(all, "Easy") + Total(all, "Medium") + Total(all, "Hard") <= |all|
    ensures (forall i :: 0 <= i < |all| ==> all[i].problem.level in Levels)
      ==> Total(all, "Easy") + Total(all, "Medium") + Total(all, "Hard") == |all|
  {
    if all != [] {
      var n := |all|;
      TiersAtMostAll(all[..n - 1]);
      assert forall i :: 0 <= i < n - 1 ==> all[..n - 1][i] == all[i];
    }
  }

  /** A problem whose level is none of the tiers, wherever it stands, changes no
      tier's record: not its total, its solved count, its percentage or its names. */
  lemma UnknownLevelCountsNowhere(before: seq<TaggedProblem>, p: TaggedProblem, after: seq<TaggedProblem>, i: nat)
    requires i < 3 && p.problem.level !in Levels
    ensures Stats(before + [p] + after, Levels[i]) == Stats(before + after, Levels[i])
  {
    var level := Levels[i];
    FiltersAppend(before + [p], after, level);
    FiltersAppend(before, [p], level);
    FiltersAppend(before, after, level);
    assert [p][..0] == [];
  }

  /** No problem is tagged completed, so no tier has anything solved. */
  lemma {:induction false} NothingCompletedNothingSolved(all: seq<TaggedProblem>, level: string)
    requires forall i :: 0 <= i < |all| ==> !all[i].completed
    ensures Solved(all, level) == 0
  {
    if all != [] {
      var n := |all|;
      NothingCompletedNothingSolved(all[..n - 1], level);
    }
  }

  /** With an empty `progress` every tier reports 0 solved, 0 percent and no names. */
  lemma EmptyProgressSolvesNothing(topics: seq<Topic>)
    ensures forall i :: 0 <= i < 3 ==>
      DifficultyCounts(topics, [])[i].solved == 0
      && DifficultyCounts(topics, [])[i].percentage == 0
      && DifficultyCounts(topics, [])[i].problems == []
  {
    var all := AllProblems(topics, []);
    forall i | 0 <= i < 3
      ensures DifficultyCounts(topics, [])[i].solved == 0
      ensures DifficultyCounts(topics, [])[i].percentage == 0
      ensures DifficultyCounts(topics, [])[i].problems == []
    {
      StatsAt(topics, [], i);
      NothingCompletedNothingSolved(all, Levels[i]);
    }
  }

  /** The statistics depend only on which curriculum ids `progress` holds: two
      lists that agree on every problem of the curriculum, whatever other ids
      they hold and wherever, give the same records. */
  lemma StaleIdsIgnored(topics: seq<Topic>, progress: seq<Id>, progress': seq<Id>)
    requires forall p :: p in FlattenTopics(topics) ==> (p.id in progress <==> p.id in progress')
    ensures DifficultyCounts(topics, progress) == DifficultyCounts(topics, progress')
  {
    var flat := FlattenTopics(topics);
    forall i | 0 <= i < |flat|
      ensures (flat[i].id in progress) == (flat[i].id in progress')
    {
      assert flat[i] in flat;
    }
    assert AllProblems(topics, progress) == AllProblems(topics, progress');
  }

  /** Tagging works problem by problem, so it commutes with concatenation. */
  lemma TagAppend(a: seq<Problem>, b: seq<Problem>, progress: seq<Id>)
    ensures Tag(a + b, progress) == Tag(a, progress) + Tag(b, progress)
  {
    assert forall i :: 0 <= i < |a| ==> (a + b)[i] == a[i];
    assert forall i :: |a| <= i < |a| + |b| ==> (a + b)[i] == b[i - |a|];
  }

  /** Each per-tier filter splits over a concatenation, in order. */
  lemma {:induction false} FiltersAppend(a: seq<TaggedProblem>, b: seq<TaggedProblem>, level: string)
    ensures Total(a + b, level) == Total(a, level) + Total(b, level)
    ensures Solved(a + b, level) == Solved(a, level) + Solved(b, level)
    ensures SolvedNames(a + b, level) == SolvedNames(a, level) + SolvedNames(b, level)
  {
    if b == [] {
      assert a + b == a;
    } else {
      var n := |b|;
      assert (a + b)[..|a + b| - 1] == a + b[..n - 1];
      assert (a + b)[|a + b| - 1] == b[n - 1];
      FiltersAppend(a, b[..n - 1], level);
    }
  }

  /** Adding topics after the existing ones adds their problems to every tier's
      counts and lists their solved names after the existing ones. */
  lemma CurriculumOrder(first: seq<Topic>, second: seq<Topic>, progress: seq<Id>, i: nat)
    requires i < 3
    ensures DifficultyCounts(first + second, progress)[i].total
            == DifficultyCounts(first, progress)[i].total + DifficultyCounts(second, progress)[i].total
    ensures DifficultyCounts(first + second, progress)[i].solved
            == DifficultyCounts(first, progress)[i].solved + DifficultyCounts(second, progress)[i].solved
    ensures DifficultyCounts(first + second, progress)[i].problems
            == DifficultyCounts(first, progress)[i].problems + DifficultyCounts(second, progress)[i].problems
  {
    FlattenTopicsAppend(first, second);
    TagAppend(FlattenTopics(first), FlattenTopics(second), progress);
    var a, b := AllProblems(first, progress), AllProblems(second, progress);
    assert AllProblems(first + second, progress) == a + b;
    var level := Levels[i];
    FiltersAppend(a, b, level);
    StatsAt(first + second, progress, i);
    StatsAt(first, progress, i);
    StatsAt(second, progress, i);
  }
}
