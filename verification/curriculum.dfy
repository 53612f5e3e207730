/** The curriculum as the backend delivers it: topics, each holding subtopics,
    each holding problems. Both pages walk this tree, so it is defined once here. */
module Curriculum {

  /** A document identifier (`_id`), compared by string equality. */
  type Id = string

  /** `level` is kept as the raw string the backend sends: the pages compare it
      against "Easy", "Medium" and "Hard", and any other value is simply not a tier. */
  datatype Problem = Problem(id: Id, name: string, level: string)

  datatype Subtopic = Subtopic(id: Id, title: string, problems: seq<Problem>)

  datatype Topic = Topic(id: Id, title: string, subtopics: seq<Subtopic>)

  /** The problems of every subtopic, one subtopic after another, in order. */
  function FlattenSubtopics(subs: seq<Subtopic>): (r: seq<Problem>)
    ensures forall p :: p in r <==> exists s :: s in subs && p in s.problems
  {
    if subs == [] then []
    else
      var rest := FlattenSubtopics(subs[1..]);
      assert forall s :: s in subs <==> s == subs[0] || s in subs[1..];
      subs[0].problems + rest
  }

  /** The problems of the whole curriculum, one topic after another, each topic's
      subtopics flattened in order. */
  function FlattenTopics(topics: seq<Topic>): (r: seq<Problem>)
    ensures forall p :: p in r <==> exists t :: t in topics && p in FlattenSubtopics(t.subtopics)
  {
    if topics == [] then []
    else
      var rest := FlattenTopics(topics[1..]);
      assert forall t :: t in topics <==> t == topics[0] || t in topics[1..];
      FlattenSubtopics(topics[0].subtopics) + rest
  }

  /** Flattening subtopics visits them in order: the problems of a prefix come first. */
  lemma {:induction false} FlattenSubtopicsAppend(a: seq<Subtopic>, b: seq<Subtopic>)
    ensures FlattenSubtopics(a + b) == FlattenSubtopics(a) + FlattenSubtopics(b)
  {
    if a == [] {
      assert a + b == b;
    } else {
      assert (a + b)[1..] == a[1..] + b;
      FlattenSubtopicsAppend(a[1..], b);
    }
  }

  /** Flattening the curriculum visits topics in order: topic order, then subtopic
      order (FlattenSubtopicsAppend), then problem order. */
  lemma {:induction false} FlattenTopicsAppend(a: seq<Topic>, b: seq<Topic>)
    ensures FlattenTopics(a + b) == FlattenTopics(a) + FlattenTopics(b)
  {
    if a == [] {
      assert a + b == b;
    } else {
      assert (a + b)[1..] == a[1..] + b;
      FlattenTopicsAppend(a[1..], b);
    }
  }
}
