/** cmd/rebuild-redis: the maintenance command that follows the loss of a drained Redis. */
module RebuildCommand {
  import opened VoteModel
  import opened RedisStore
  import opened VoteDatabase
  import opened VotePipeline
  import opened PipelineTheorems
  import opened PipelineSteps
  import RecoveryTarget
  import RedisRebuild
  import Runs

  /** Whatever happens, the command moves the system along a run. Without faults it brings a
      system that lost its Redis at a drained point back to serving, however it was left,
      exactly if every active post has a positive community id; if not, it clears what is left
      and stops, marked as rebuilding. */
  method Run(server: RedisServer, db: Database, confirmed: bool, batchSize: int, ghost s: State)
    returns (done: bool, ghost r: State)
    requires Reachable(s) && !s.serving && s.redis == server.keys && s.tables == db.tables
    modifies server, db`readFaults
    ensures Reaches(s, r) && Reachable(r) && r.redis == server.keys && r.tables == db.tables
    ensures r.history == s.history && (done <==> r.serving)
    ensures !confirmed ==> !done && server.keys == old(server.keys)
    ensures confirmed && old(server.faults) == [] && old(db.readFaults) == [] ==>
      (done <==> CommunitiesPositive(db.tables))
    ensures done ==> confirmed && CommunitiesPositive(db.tables)
    ensures confirmed && old(server.faults) == [] && !CommunitiesPositive(db.tables) ==>
      RedisRebuild.Status(server.keys) == RecoveryTarget.REBUILDING
    ensures done ==> RecoveryTarget.Rebuilt(db.tables, old(server.keys), server.keys)
  {
    Runs.LeadsNowhere(Steps(), s);
    r := s;
    if !confirmed {
      return false, r;
    }
    LostIsEmptied(s);
    SnapshotsValidIff(s);
    var report := RedisRebuild.RebuildRedisFromMySQL(server, db, batchSize);
    RebuildingIsStep(s, server.keys);
    done := report.Success?;
    r := if done then Recovered(s, server.keys) else s.(redis := server.keys);
    StaysReachable(s, r);
  }

  lemma LostIsEmptied(s: State)
    requires Reachable(s) && !s.serving
    ensures Emptied(s.redis)
  {
    ReachableInv(s);
  }
}
