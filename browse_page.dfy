/** The in-memory voting of the browse page in src/pages/BrowsePage.tsx.

    The component's three state variables (`projects`, `userTokens`,
    `votedIdeas`) are the fields of `BrowsePage`, and `handleVote` is a
    method that updates them. The projects come from a bundled JSON file
    that is not part of this model, so the constructor takes them as a
    parameter. */
module BrowsePage {

  const INITIAL_TOKENS := 30

  datatype Project = Project(
    id: int,
    title: string,
    description: string,
    creator: string,
    createdAt: string,
    imageUrl: string,
    votes: int,
    commentCount: int)

  /** `prev.map(p => p.id === projectId ? { ...p, votes: p.votes + 1 } : p)`. */
  function WithVote(ps: seq<Project>, projectId: int): (r: seq<Project>)
    ensures |r| == |ps|
    ensures forall i :: 0 <= i < |ps| && ps[i].id != projectId ==> r[i] == ps[i]
    ensures forall i :: 0 <= i < |ps| && ps[i].id == projectId ==> r[i] == ps[i].(votes := ps[i].votes + 1)
  {
    seq(|ps|, i requires 0 <= i < |ps| => if ps[i].id == projectId then ps[i].(votes := ps[i].votes + 1) else ps[i])
  }

  /** The projects after the votes of `voted`, cast in order. */
  function AfterVotes(ps: seq<Project>, voted: seq<int>): seq<Project>
    decreases |voted|
  {
    if voted == [] then ps else WithVote(AfterVotes(ps, voted[..|voted| - 1]), voted[|voted| - 1])
  }

  /** The votes shown on all cards together. */
  function SumVotes(ps: seq<Project>): int
    decreases |ps|
  {
    if ps == [] then 0 else ps[0].votes + SumVotes(ps[1..])
  }

  /** How many cards carry the id `projectId`. */
  function Count(ps: seq<Project>, projectId: int): nat
    decreases |ps|
  {
    if ps == [] then 0 else (if ps[0].id == projectId then 1 else 0) + Count(ps[1..], projectId)
  }

  predicate Distinct(xs: seq<int>) {
    forall i, j :: 0 <= i < j < |xs| ==> xs[i] != xs[j]
  }

  /** A vote adds one to the total for every card that carries the id. */
  lemma {:induction false} SumVotesWithVote(ps: seq<Project>, projectId: int)
    ensures SumVotes(WithVote(ps, projectId)) == SumVotes(ps) + Count(ps, projectId)
    decreases |ps|
  {
    if ps != [] {
      SumVotesWithVote(ps[1..], projectId);
      assert WithVote(ps, projectId)[1..] == WithVote(ps[1..], projectId);
    }
  }

  /** A vote never changes which cards there are, nor their order. */
  lemma {:induction false} AfterVotesKeepsIds(ps: seq<Project>, voted: seq<int>)
    ensures |AfterVotes(ps, voted)| == |ps|
    ensures forall i :: 0 <= i < |ps| ==> AfterVotes(ps, voted)[i].id == ps[i].id
    decreases |voted|
  {
    if voted != [] {
      AfterVotesKeepsIds(ps, voted[..|voted| - 1]);
    }
  }

  class BrowsePage {
    var projects: seq<Project>
    var userTokens: int
    var votedIdeas: seq<int>
    /** The projects as loaded, before any vote. */
    ghost var loaded: seq<Project>

    /** Every token is either unspent or spent on a different project, and
        the cards show exactly the votes cast on this page. */
    ghost predicate Valid()
      reads this
    {
      && userTokens >= 0
      && userTokens + |votedIdeas| == INITIAL_TOKENS
      && Distinct(votedIdeas)
      && projects == AfterVotes(loaded, votedIdeas)
    }

    constructor (ideas: seq<Project>)
      ensures Valid()
      ensures projects == ideas && userTokens == INITIAL_TOKENS && votedIdeas == []
    {
      projects := ideas;
      userTokens := INITIAL_TOKENS;
      votedIdeas := [];
      loaded := ideas;
    }

    /** `handleVote`: one token for one project, at most once per project. */
    method HandleVote(projectId: int)
      requires Valid()
      modifies this
      ensures Valid()
      ensures loaded == old(loaded)
      ensures old(userTokens) > 0 && projectId !in old(votedIdeas) ==>
        && userTokens == old(userTokens) - 1
        && projects == WithVote(old(projects), projectId)
        && votedIdeas == old(votedIdeas) + [projectId]
        && SumVotes(projects) == SumVotes(old(projects)) + Count(old(projects), projectId)
      ensures !(old(userTokens) > 0 && projectId !in old(votedIdeas)) ==>
        userTokens == old(userTokens) && projects == old(projects) && votedIdeas == old(votedIdeas)
    {
      if userTokens > 0 && projectId !in votedIdeas {
        userTokens := userTokens - 1;
        SumVotesWithVote(projects, projectId);
        projects := WithVote(projects, projectId);
        votedIdeas := votedIdeas + [projectId];
        assert votedIdeas[..|votedIdeas| - 1] == old(votedIdeas);
      }
    }
  }
}
