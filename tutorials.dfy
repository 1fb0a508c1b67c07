/**
 * The tutorial server of src/go-graphql/main_tutorial.go: `populate` builds
 * a fixed list once, and the `tutorial` and `list` resolvers only read it.
 */
module Tutorials {
  import opened Wrappers
  import opened GraphQLValues
  import Search

  datatype Comment = Comment(body: string)
  datatype Author = Author(name: string, tutorials: seq<int>)
  datatype Tutorial = Tutorial(id: int, title: string, author: Author, comments: seq<Comment>)

  /** The fixture `populate` returns: tutorials 1 then 2. */
  function Populate(): (tutorials: seq<Tutorial>)
    ensures |tutorials| == 2
    ensures Ids(tutorials) == [1, 2]
  {
    var author := Author("John Will", [1, 2]);
    var tutorial := Tutorial(1, "Go GraphQL tutorial", author, [Comment("First comment")]);
    var tutorial2 := Tutorial(2, "Go GraphQL tutorial - part2", author, [Comment("First comment - part 2")]);
    [] + [tutorial] + [tutorial2]
  }

  /** The ids of a list of tutorials, in order. */
  function Ids(tutorials: seq<Tutorial>): (ids: seq<int>)
    ensures |ids| == |tutorials|
    ensures forall i :: 0 <= i < |tutorials| ==> ids[i] == tutorials[i].id
  {
    if tutorials == [] then [] else [tutorials[0].id] + Ids(tutorials[1..])
  }

  /** The key the `tutorial` resolver compares with its `id` argument. */
  function TutorialId(t: Tutorial): int {
    t.id
  }

  /** The `tutorial` resolver over the list captured from `populate`. */
  method ResolveTutorial(tutorials: seq<Tutorial>, args: Args) returns (r: Option<Tutorial>)
    ensures r == FindById(tutorials, TutorialId, args)
  {
    var id := IntArg(args, "id");
    if id.Some? {
      var i := 0;
      while i < |tutorials|
        invariant 0 <= i <= |tutorials|
        invariant forall j :: 0 <= j < i ==> tutorials[j].id != id.value
      {
        if tutorials[i].id == id.value {
          return Some(tutorials[i]);
        }
        i := i + 1;
      }
    }
    return None;
  }

  /** The `list` resolver: the captured list, as it is. */
  method ListTutorials(tutorials: seq<Tutorial>) returns (all: seq<Tutorial>)
    ensures all == tutorials
  {
    all := tutorials;
  }

  // ---------------------------------------------------------------------
  // Properties of the fixture and the resolvers

  /**
   * Each populated tutorial has one comment and is by "John Will", whose
   * Tutorials list is exactly the ids `populate` produces.
   */
  lemma PopulateShape()
    ensures forall t :: t in Populate() ==>
      && t.author.name == "John Will"
      && t.author.tutorials == Ids(Populate())
      && |t.comments| == 1
  {
    var ts := Populate();
    assert Ids(ts) == [1, 2];
  }

  /** The ids `populate` produces are distinct, so each id names one tutorial. */
  lemma PopulateIdsDistinct()
    ensures forall i, j :: 0 <= i < j < |Populate()| ==> Populate()[i].id != Populate()[j].id
  {
  }

  /** The query main sends, `tutorial(id: 2)`, finds part 2. */
  lemma Part2Lookup()
    ensures var r := FindById(Populate(), TutorialId, map["id" := IntVal(2)]);
      r.Some? && r.value.title == "Go GraphQL tutorial - part2"
      && r.value.comments == [Comment("First comment - part 2")]
  {
    var ts := Populate();
    assert ts[0].id != 2 && ts[1].id == 2;
    assert Search.IndexOf(ts, TutorialId, 2) == Some(1);
  }
}
