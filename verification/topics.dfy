/** The Topics page: whether a problem is completed, the status shown next to
    each topic, and the checkbox toggle that persists a change remotely before
    updating the local `progress` list. */
module Topics {
  import opened Curriculum

  datatype Status = Completed | InProgress

  /** What the awaited `markComplete` / `markUncomplete` request came back with.
      The request itself is remote; only its outcome matters here. */
  datatype RemoteOutcome = Acknowledged | Rejected

  /** The one remote request a toggle issues. */
  datatype RemoteCall = MarkComplete(problemId: Id) | MarkUncomplete(problemId: Id)

  /** A problem is completed when some entry of the `progress` list is its id. */
  function IsCompleted(progress: seq<Id>, problemId: Id): (r: bool)
    ensures r <==> exists i :: 0 <= i < |progress| && progress[i] == problemId
  {
    problemId in progress
  }

  /** How many of the given problems are completed. */
  function CountCompleted(problems: seq<Problem>, progress: seq<Id>): (r: nat)
    ensures r <= |problems|
    ensures r == |problems| <==> forall p :: p in problems ==> IsCompleted(progress, p.id)
  {
    if problems == [] then 0
    else
      var rest := CountCompleted(problems[1..], progress);
      assert forall p :: p in problems <==> p == problems[0] || p in problems[1..];
      (if IsCompleted(progress, problems[0].id) then 1 else 0) + rest
  }

  /** The status shown for a topic: "Completed" exactly when every problem of every subtopic
      of the topic is in `progress`; a topic without problems is vacuously completed. */
  function GetTopicStatus(topic: Topic, progress: seq<Id>): (r: Status)
    ensures r == Completed <==>
      forall s, p :: s in topic.subtopics && p in s.problems ==> IsCompleted(progress, p.id)
  {
    var allProblems := FlattenSubtopics(topic.subtopics);
    if CountCompleted(allProblems, progress) == |allProblems| then Completed else InProgress
  }

  /** The completed count the status compares never exceeds the number of problems. */
  lemma CompletedCountBounded(topic: Topic, progress: seq<Id>)
    ensures CountCompleted(FlattenSubtopics(topic.subtopics), progress)
            <= |FlattenSubtopics(topic.subtopics)|
  {
  }

  /** A topic whose subtopics hold no problems shows "Completed", whatever `progress` is. */
  lemma EmptyTopicIsCompleted(topic: Topic, progress: seq<Id>)
    requires forall s :: s in topic.subtopics ==> s.problems == []
    ensures GetTopicStatus(topic, progress) == Completed
  {
  }

  /** The list with the id filtered out: every copy of the id goes, every other
      entry keeps its multiplicity. */
  function Without(progress: seq<Id>, problemId: Id): (r: seq<Id>)
    ensures !IsCompleted(r, problemId)
    ensures multiset(r) == multiset(progress)[problemId := 0]
  {
    if progress == [] then []
    else
      var rest := Without(progress[1..], problemId);
      assert progress == [progress[0]] + progress[1..];
      (if progress[0] == problemId then [] else [progress[0]]) + rest
  }

  /** The filter keeps relative order: filtering a concatenation filters each part in place. */
  lemma {:induction false} WithoutAppend(a: seq<Id>, b: seq<Id>, problemId: Id)
    ensures Without(a + b, problemId) == Without(a, problemId) + Without(b, problemId)
  {
    if a == [] {
      assert a + b == b;
    } else {
      assert (a + b)[1..] == a[1..] + b;
      WithoutAppend(a[1..], b, problemId);
    }
  }

  /** Filtering out an id the list does not hold gives the list back unchanged. */
  lemma {:induction false} WithoutAbsent(progress: seq<Id>, problemId: Id)
    requires !IsCompleted(progress, problemId)
    ensures Without(progress, problemId) == progress
  {
    if progress != [] {
      assert progress[0] != problemId;
      WithoutAbsent(progress[1..], problemId);
      assert progress == [progress[0]] + progress[1..];
    }
  }

  /** The `progress` list after a toggle of the problem whose remote request
      ended with `outcome`: a rejected request leaves it untouched, because the
      failure is caught before the list is replaced. */
  function Toggled(progress: seq<Id>, problemId: Id, outcome: RemoteOutcome): (r: seq<Id>)
    ensures outcome == Rejected ==> r == progress
    ensures outcome == Acknowledged ==>
      (IsCompleted(r, problemId) <==> !IsCompleted(progress, problemId))
    ensures outcome == Acknowledged ==>
      multiset(r) == if IsCompleted(progress, problemId) then multiset(progress)[problemId := 0]
                     else multiset(progress) + multiset{problemId}
  {
    if outcome == Rejected then progress
    else if IsCompleted(progress, problemId) then Without(progress, problemId)
    else progress + [problemId]
  }

  /** Unchecking a completed problem removes every occurrence of its id and
      keeps the other entries, in their order. */
  lemma ToggleRemovesEveryCopy(progress: seq<Id>, problemId: Id)
    requires IsCompleted(progress, problemId)
    ensures Toggled(progress, problemId, Acknowledged) == Without(progress, problemId)
    ensures !IsCompleted(Toggled(progress, problemId, Acknowledged), problemId)
    ensures multiset(Toggled(progress, problemId, Acknowledged)) == multiset(progress)[problemId := 0]
  {
  }

  /** Checking a problem that is not completed appends its id, which then counts as completed. */
  lemma ToggleAppends(progress: seq<Id>, problemId: Id)
    requires !IsCompleted(progress, problemId)
    ensures Toggled(progress, problemId, Acknowledged) == progress + [problemId]
    ensures IsCompleted(Toggled(progress, problemId, Acknowledged), problemId)
  {
  }

  /** A toggle never changes whether any other problem is completed. */
  lemma ToggleKeepsOthers(progress: seq<Id>, problemId: Id, outcome: RemoteOutcome, other: Id)
    requires other != problemId
    ensures IsCompleted(Toggled(progress, problemId, outcome), other) == IsCompleted(progress, other)
  {
    if outcome == Acknowledged && IsCompleted(progress, problemId) {
      assert multiset(Without(progress, problemId))[other] == multiset(progress)[other];
    }
  }

  /** Checking and then unchecking a problem that was not completed, both
      acknowledged, gives back exactly the original list. */
  lemma ToggleTwiceRestores(progress: seq<Id>, problemId: Id)
    requires !IsCompleted(progress, problemId)
    ensures Toggled(Toggled(progress, problemId, Acknowledged), problemId, Acknowledged) == progress
  {
    WithoutAppend(progress, [problemId], problemId);
    WithoutAbsent(progress, problemId);
    assert Without([problemId], problemId) == [];
  }

  /** The Topics page state the toggle touches: the loaded curriculum and the
      `progress` list of completed problem ids, as loaded (duplicates included). */
  class TopicsPage {
    var topics: seq<Topic>
    var progress: seq<Id>

    /** The page once both fetches have succeeded. */
    constructor (topics: seq<Topic>, progress: seq<Id>)
      ensures this.topics == topics && this.progress == progress
    {
      this.topics := topics;
      this.progress := progress;
    }

    /** The checkbox toggle: issue exactly one remote request, chosen by the current
        membership, and replace `progress` only once it is acknowledged. */
    method ToggleProblem(problemId: Id, outcome: RemoteOutcome) returns (call: RemoteCall)
      modifies this`progress
      ensures call == if IsCompleted(old(progress), problemId) then MarkUncomplete(problemId)
                      else MarkComplete(problemId)
      ensures progress == Toggled(old(progress), problemId, outcome)
      ensures outcome == Rejected ==> progress == old(progress)
      ensures outcome == Acknowledged ==>
        IsCompleted(progress, problemId) == !IsCompleted(old(progress), problemId)
    {
      if IsCompleted(progress, problemId) {
        call := MarkUncomplete(problemId);
      } else {
        call := MarkComplete(problemId);
      }
      progress := Toggled(progress, problemId, outcome);
    }
  }
}
