/** A worked example tying both pages together: one topic "Arrays" with one
    subtopic "Basics" holding an Easy and a Medium problem, the Easy one solved. */
module Scenarios {
  import opened Curriculum
  import opened Topics
  import opened Progress

  function TwoSum(): Problem { Problem("p1", "Two Sum", "Easy") }
  function ThreeSum(): Problem { Problem("p2", "3Sum", "Medium") }
  function Arrays(): Topic { Topic("t1", "Arrays", [Subtopic("s1", "Basics", [TwoSum(), ThreeSum()])]) }

  /** With only "Two Sum" solved the topic is in progress and the tiers read
      Easy 1/1 (100%, ["Two Sum"]), Medium 0/1 (0%), Hard 0/0 (0%). */
  lemma ArraysStatistics()
    ensures GetTopicStatus(Arrays(), ["p1"]) == InProgress
    ensures DifficultyCounts([Arrays()], ["p1"]) == [
      LevelStats("Easy", 1, 1, 100, ["Two Sum"]),
      LevelStats("Medium", 1, 0, 0, []),
      LevelStats("Hard", 0, 0, 0, [])]
  {
    assert ThreeSum() in Arrays().subtopics[0].problems;
    var flat := FlattenTopics([Arrays()]);
    assert flat == [TwoSum(), ThreeSum()];
    var all := AllProblems([Arrays()], ["p1"]);
    assert all == [TaggedProblem(TwoSum(), true), TaggedProblem(ThreeSum(), false)];
    assert all[..1] == [TaggedProblem(TwoSum(), true)];
    assert Stats(all, "Easy") == LevelStats("Easy", 1, 1, 100, ["Two Sum"]);
  }

  /** Checking "3Sum" with the request acknowledged appends its id and the topic
      becomes completed. */
  lemma ArraysCompletedAfterToggle()
    ensures Toggled(["p1"], "p2", Acknowledged) == ["p1", "p2"]
    ensures GetTopicStatus(Arrays(), Toggled(["p1"], "p2", Acknowledged)) == Completed
  {
    assert "p2" != "p1";
  }
}
