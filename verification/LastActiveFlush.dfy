/**
 * The batched write-back of last-active times (`_batch_flush_last_active`, services/scheduler.py):
 * one UPDATE with a CASE expression per chunk of 100 users, in one transaction.
 */
module LastActiveFlush {

  const CHUNK := 100

  datatype User = User(lastActive: int, online: bool)

  /** CASE WHEN tg_id = id1 THEN t1 WHEN tg_id = id2 THEN t2 ... ELSE last_active END */
  function CaseWhen(ids: seq<int>, times: map<int, int>, u: int, otherwise: int): int
    requires forall id :: id in ids ==> id in times
  {
    if ids == [] then otherwise
    else if u == ids[0] then times[ids[0]]
    else CaseWhen(ids[1..], times, u, otherwise)
  }

  /** The statement for one chunk; it touches the rows whose id is in the chunk. */
  function UpdateChunk(users: map<int, User>, ids: seq<int>, times: map<int, int>): map<int, User>
    requires forall id :: id in ids ==> id in times
  {
    map u | u in users ::
      if u in ids then User(CaseWhen(ids, times, u, users[u].lastActive), true) else users[u]
  }

  /** The intended effect: every reported user is online with the reported time, all others as before. */
  function Overridden(users: map<int, User>, times: map<int, int>): map<int, User> {
    map u | u in users :: if u in times then User(times[u], true) else users[u]
  }

  lemma {:induction false} CasePicksOwnTime(ids: seq<int>, times: map<int, int>, u: int, otherwise: int)
    requires forall id :: id in ids ==> id in times
    ensures CaseWhen(ids, times, u, otherwise) == if u in ids then times[u] else otherwise
  {
    if ids != [] {
      CasePicksOwnTime(ids[1..], times, u, otherwise);
    }
  }

  /** The times of the users flushed so far. */
  function Among(times: map<int, int>, ids: seq<int>): map<int, int> { map u | u in times && u in ids :: times[u] }

  lemma ChunkExtends(users: map<int, User>, done: seq<int>, chunk: seq<int>, times: map<int, int>)
    requires forall id :: id in chunk ==> id in times
    ensures UpdateChunk(Overridden(users, Among(times, done)), chunk, times) ==
            Overridden(users, Among(times, done + chunk))
  {
    var now := Overridden(users, Among(times, done));
    forall u | u in users
      ensures UpdateChunk(now, chunk, times)[u] == Overridden(users, Among(times, done + chunk))[u]
    {
      CasePicksOwnTime(chunk, times, u, now[u].lastActive);
    }
  }

  lemma AllAmong(times: map<int, int>, ids: seq<int>)
    requires forall u :: u in times <==> u in ids
    ensures Among(times, ids) == times
  {
    var all := Among(times, ids);
    assert forall u :: u in times ==> u in ids;
    assert forall u :: u in times ==> u in all && all[u] == times[u];
    assert forall u :: u in all ==> u in times;
  }

  class UserTable {
    var users: map<int, User>

    constructor (users: map<int, User>)
      ensures this.users == users
    {
      this.users := users;
    }

    /** `ids` lists the keys of `times`, in any order. */
    method FlushLastActive(ids: seq<int>, times: map<int, int>)
      requires forall u :: u in times <==> u in ids
      modifies this
      ensures users == Overridden(old(users), times)
    {
      var start := 0;
      assert users == Overridden(users, Among(times, []));
      while start < |ids|
        invariant 0 <= start
        invariant users == Overridden(old(users), Among(times, if start < |ids| then ids[..start] else ids))
      {
        var end := if start + CHUNK < |ids| then start + CHUNK else |ids|;
        var chunk := ids[start..end];
        ChunkExtends(old(users), ids[..start], chunk, times);
        assert ids[..start] + chunk == ids[..end];
        assert end == |ids| ==> ids[..end] == ids;
        users := UpdateChunk(users, chunk, times);
        start := start + CHUNK;
      }
      AllAmong(times, ids);
    }
  }
}
