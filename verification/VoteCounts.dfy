/** The vote count shown with a post: dao/redis/post_cache.go GetPostVoteCount and the end of
    logic/post.go GetPostById. */
module VoteCounts {
  import opened VoteModel
  import opened RedisStore
  import opened VoteDatabase
  import opened VotePipeline
  import opened PipelineTheorems
  import RedisRebuild

  datatype CountError = StateUnavailable | NotInitialized | StoreUnavailable

  /** ZCOUNT key 1 1. */
  function VotesUp(ks: Keyspace, post: int): nat {
    |UpVoters(ks, post)|
  }

  /** GetPostVoteCount: an unready or incomplete index is an error, never a count of 0. */
  method GetPostVoteCount(server: RedisServer, post: int) returns (r: Result<int, CountError>)
    modifies server`faults
    ensures r.Success? ==> RedisRebuild.Readable(server.keys) && post in ZSetAt(server.keys, PostTime)
    ensures r.Success? ==> r.value == VotesUp(server.keys, post)
    ensures r == Failure(StateUnavailable) ==> !RedisRebuild.Readable(server.keys)
    ensures r == Failure(NotInitialized) ==>
      RedisRebuild.Readable(server.keys) && post !in ZSetAt(server.keys, PostTime)
    ensures old(server.faults) == [] && RedisRebuild.Readable(server.keys) && TypeIs(server.keys, PostTime, ZSetKind) ==>
      (post !in ZSetAt(server.keys, PostTime) <==> r == Failure(NotInitialized))
    ensures old(server.faults) == [] && RedisRebuild.Readable(server.keys) && post in ZSetAt(server.keys, PostTime) ==>
      (TypeIs(server.keys, PostVoted(post), ZSetKind) ==> r.Success?)
  {
    var ok := server.Query();
    if !ok {
      return Failure(StoreUnavailable);
    }
    if !RedisRebuild.Readable(server.keys) {
      return Failure(StateUnavailable);
    }
    ok := server.Query();
    if !ok || !TypeIs(server.keys, PostTime, ZSetKind) {
      return Failure(StoreUnavailable);
    }
    if post !in ZSetAt(server.keys, PostTime) {
      return Failure(NotInitialized);
    }
    ok := server.Query();
    if !ok || !TypeIs(server.keys, PostVoted(post), ZSetKind) {
      return Failure(StoreUnavailable);
    }
    r := Success(VotesUp(server.keys, post));
  }

  /** The count GetPostById adds. In a reachable serving state in which the post's latest events
      have arrived it is the same whichever store answers. */
  method VoteNum(server: RedisServer, db: Database, post: int, ghost s: State) returns (r: Result<int, ()>)
    requires Reachable(s) && s.serving && s.redis == server.keys && s.tables == db.tables
    modifies server`faults, db`readFaults
    ensures r.Success? && (forall u :: LatestArrived(s, Pair(u, post))) ==> r.value == VotesUp(server.keys, post)
    ensures old(db.readFaults) == [] ==> r.Success?
    ensures old(server.faults) == [] && RedisRebuild.Readable(server.keys) && post in ZSetAt(server.keys, PostTime) ==>
      r == Success(VotesUp(server.keys, post))
  {
    KeysKeepTheirTypes(s, post, 0);
    var count := GetPostVoteCount(server, post);
    if count.Success? {
      return Success(count.value);
    }
    if forall u :: LatestArrived(s, Pair(u, post)) {
      UpVotesAgree(s, post);
    }
    r := db.CountPostUpVotes(post);
  }
}
