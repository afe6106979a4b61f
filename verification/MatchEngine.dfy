/**
 * The matchmaking engine (services/matching_engine.py) with every operation atomic: per-user state
 * hashes, queue lists, and the batched scan that cleans the list it reads. What happens when
 * operations interleave is the subject of MatchClaims.
 */
module MatchEngine {
  import opened Text
  import opened Routing
  import opened Wrappers

  const BATCH_SIZE := 50
  const MAX_VALID_CHECKS := 100
  const MAX_SCAN := 1000

  datatype Status = Queuing | Matched | Chatting

  /** A `user:state:*` hash; a field that was never written reads back as its default. */
  datatype UserState = UserState(
    gender: string, target: string, province: string, interests: string,
    age: int, minAge: int, maxAge: int,
    queueKey: string, status: Status, matchedWith: Option<int>)

  const NO_STATE := UserState("", "", "", "", 0, 0, 99, "", Queuing, None)

  /** The arguments of a search; 0 stands for an age or bound that was not given. */
  datatype Request = Request(
    id: int, gender: string, target: string, province: string, vip: bool,
    age: int, minAge: int, maxAge: int, interests: string)
  {
    function MaxAge(): int { if maxAge == 0 then 99 else maxAge }
    function Key(): string { QueueKey(gender, target, province) }
  }

  datatype Store = Store(users: map<int, UserState>, queues: map<string, seq<int>>, blocks: set<(int, int)>)

  function Queue(s: Store, key: string): seq<int> { if key in s.queues then s.queues[key] else [] }

  function WithQueue(s: Store, key: string, queue: seq<int>): Store { s.(queues := s.queues[key := queue]) }

  predicate IsQueuing(s: Store, u: int) { u in s.users && s.users[u].status.Queuing? }

  predicate IsMatched(s: Store, u: int) { u in s.users && s.users[u].status.Matched? }

  /** LREM with count 0: every occurrence goes. */
  function Lrem(queue: seq<int>, u: int): seq<int> {
    if queue == [] then []
    else if queue[0] == u then Lrem(queue[1..], u)
    else [queue[0]] + Lrem(queue[1..], u)
  }

  /** LREM with count 1: the first occurrence goes. */
  function LremOne(queue: seq<int>, u: int): seq<int> {
    if queue == [] then []
    else if queue[0] == u then queue[1..]
    else [queue[0]] + LremOne(queue[1..], u)
  }

  // ---------------------------------------------------------------- the operations as functions

  function Removed(s: Store, u: int): Store {
    if u !in s.users then s
    else
      var key := s.users[u].queueKey;
      var s' := if key != "" then WithQueue(s, key, Lrem(Queue(s, key), u)) else s;
      s'.(users := s'.users - {u})
  }

  function QueuedState(req: Request): UserState {
    UserState(
      req.gender,
      if req.target == "" then "" else NormTarget(req.target),
      if req.province == "" then "" else NormProvince(req.province),
      req.interests, req.age, req.minAge, req.MaxAge(), req.Key(), Queuing, None)
  }

  function Enqueued(s: Store, req: Request): Store {
    var s' := Removed(s, req.id);
    WithQueue(s', req.Key(), [req.id] + Lrem(Queue(s', req.Key()), req.id))
      .(users := s'.users[req.id := QueuedState(req)])
  }

  /** The comma-separated interests, without empty entries. */
  function InterestSet(interests: string): set<string> {
    (set i | i in Split(interests, ',')) - {""}
  }

  /** The filters a live candidate has to pass. */
  predicate Compatible(s: Store, req: Request, candidate: int)
    requires candidate in s.users
  {
    var them := s.users[candidate];
    && req.minAge <= them.age <= req.MaxAge()
    && them.minAge <= req.age <= them.maxAge
    && (req.vip && InterestSet(req.interests) != {} && InterestSet(them.interests) != {} ==>
          InterestSet(req.interests) * InterestSet(them.interests) != {})
    && (req.id, candidate) !in s.blocks
    && (candidate, req.id) !in s.blocks
  }

  /** An entry the scan checks rather than cleans away. */
  predicate Live(s: Store, req: Request, u: int) { u != req.id && IsQueuing(s, u) }

  predicate Wanted(s: Store, req: Request, u: int) { Live(s, req, u) && Compatible(s, req, u) }

  /** `checks` counts the entries checked so far. */
  datatype Scan = Scan(found: Option<int>, queue: seq<int>, checks: nat)

  /** The inner loop: one batch read earlier, while stale entries are removed from the list itself. */
  function ScanBatch(s: Store, req: Request, batch: seq<int>, queue: seq<int>, checks: nat): (scan: Scan)
    ensures scan.found.Some? ==> Wanted(s, req, scan.found.value)
  {
    if batch == [] then Scan(None, queue, checks)
    else
      var u := batch[0];
      if !Live(s, req, u) then ScanBatch(s, req, batch[1..], Lrem(queue, u), checks)
      else if Compatible(s, req, u) then Scan(Some(u), queue, checks + 1)
      else ScanBatch(s, req, batch[1..], queue, checks + 1)
  }

  /** LRANGE from `offset`, one batch long. */
  function Batch(queue: seq<int>, offset: nat): seq<int> {
    if offset >= |queue| then []
    else if offset + BATCH_SIZE >= |queue| then queue[offset..]
    else queue[offset..offset + BATCH_SIZE]
  }

  /** The loop over offsets; `limit` is fixed before the first batch is read. */
  function ScanFrom(s: Store, req: Request, queue: seq<int>, limit: nat, offset: nat, checks: nat): (scan: Scan)
    ensures scan.found.Some? ==> Wanted(s, req, scan.found.value)
    decreases limit + BATCH_SIZE - offset
  {
    if offset >= limit || checks >= MAX_VALID_CHECKS || Batch(queue, offset) == [] then Scan(None, queue, checks)
    else
      var scan := ScanBatch(s, req, Batch(queue, offset), queue, checks);
      if scan.found.Some? then scan
      else ScanFrom(s, req, scan.queue, limit, offset + BATCH_SIZE, scan.checks)
  }

  function Limit(queue: seq<int>): nat { if |queue| < MAX_SCAN then |queue| else MAX_SCAN }

  function ScanQueue(s: Store, req: Request, key: string): Scan {
    ScanFrom(s, req, Queue(s, key), Limit(Queue(s, key)), 0, 0)
  }

  /** The transaction that pairs the caller with the candidate found in queue `key`. */
  function Paired(s: Store, req: Request, candidate: int, key: string): Store
    requires candidate in s.users
  {
    var mine := (if req.id in s.users then s.users[req.id] else NO_STATE)
      .(gender := req.gender, target := NormTarget(req.target), province := NormProvince(req.province),
        queueKey := req.Key(), status := Matched, matchedWith := Some(candidate));
    var s1 := s.(users := s.users[req.id := mine]);
    var s2 := s1.(users := s1.users[candidate := s1.users[candidate].(status := Matched, matchedWith := Some(req.id))]);
    var s3 := WithQueue(s2, key, LremOne(Queue(s2, key), candidate));
    WithQueue(s3, req.Key(), Lrem(Queue(s3, req.Key()), req.id))
  }

  function SearchKeys(s: Store, req: Request, keys: seq<string>): (Store, Option<int>)
    decreases |keys|
  {
    if keys == [] then (Enqueued(s, req), None)
    else
      var scan := ScanQueue(s, req, keys[0]);
      var s' := if Queue(s, keys[0]) == [] then s else WithQueue(s, keys[0], scan.queue);
      if scan.found.Some? then
        (Paired(s', req, scan.found.value, keys[0]), scan.found)
      else SearchKeys(s', req, keys[1..])
  }

  function Searched(s: Store, req: Request): (Store, Option<int>) {
    SearchKeys(s, req, TargetKeys(req.gender, req.target, req.province))
  }

  // ---------------------------------------------------------------- the operations as methods

  class Engine {
    var users: map<int, UserState>
    var queues: map<string, seq<int>>
    var blocks: set<(int, int)>

    constructor ()
      ensures Contents() == Store(map[], map[], {})
    {
      users, queues, blocks := map[], map[], {};
    }

    function Contents(): Store
      reads this
    {
      Store(users, queues, blocks)
    }

    method Cut(key: string, u: int)
      modifies this`queues
      ensures Contents() == WithQueue(old(Contents()), key, Lrem(Queue(old(Contents()), key), u))
    {
      queues := queues[key := Lrem(Queue(Contents(), key), u)];
    }

    method RemoveFromQueue(u: int) returns (removed: bool)
      modifies this
      ensures Contents() == Removed(old(Contents()), u)
      ensures removed == (u in old(users))
    {
      if u !in users {
        return false;
      }
      var key := users[u].queueKey;
      if key != "" {
        Cut(key, u);
      }
      users := users - {u};
      return true;
    }

    method AddToQueue(req: Request)
      modifies this
      ensures Contents() == Enqueued(old(Contents()), req)
    {
      var _ := RemoveFromQueue(req.id);
      var key := QueueKey(req.gender, req.target, req.province);
      Cut(key, req.id);
      users := users[req.id := QueuedState(req)];
      queues := queues[key := [req.id] + queues[key]];
    }

    method Claim(req: Request, candidate: int, key: string)
      requires candidate in users
      modifies this
      ensures Contents() == Paired(old(Contents()), req, candidate, key)
    {
      var mine := if req.id in users then users[req.id] else NO_STATE;
      users := users[req.id := mine.(
        gender := req.gender, target := NormTarget(req.target), province := NormProvince(req.province),
        queueKey := req.Key(), status := Matched, matchedWith := Some(candidate))];
      users := users[candidate := users[candidate].(status := Matched, matchedWith := Some(req.id))];
      queues := queues[key := LremOne(Queue(Contents(), key), candidate)];
      Cut(req.Key(), req.id);
    }

    /** The scan of one batch: either a candidate is found, or the stale entries are gone. */
    method CheckBatch(req: Request, key: string, batch: seq<int>, before: nat)
      returns (found: Option<int>, checks: nat)
      modifies this`queues
      ensures
        var scan := ScanBatch(old(Contents()), req, batch, Queue(old(Contents()), key), before);
        && found == scan.found && checks == scan.checks && Queue(Contents(), key) == scan.queue
      ensures WithQueue(Contents(), key, []) == WithQueue(old(Contents()), key, [])
      ensures key in old(queues) ==> key in queues
    {
      checks := before;
      var j := 0;
      while j < |batch|
        invariant 0 <= j <= |batch|
        invariant ScanBatch(old(Contents()), req, batch[j..], Queue(Contents(), key), checks) ==
                  ScanBatch(old(Contents()), req, batch, Queue(old(Contents()), key), before)
        invariant WithQueue(Contents(), key, []) == WithQueue(old(Contents()), key, [])
        invariant key in old(queues) ==> key in queues
      {
        var u := batch[j];
        assert batch[j..][1..] == batch[j + 1..];
        j := j + 1;
        if u == req.id {
          Cut(key, req.id);
          continue;
        }
        if u !in users || users[u].status != Queuing {
          Cut(key, u);
          continue;
        }
        checks := checks + 1;
        if Compatible(Contents(), req, u) {
          return Some(u), checks;
        }
      }
      found := None;
    }

    /** The scan of one non-empty queue. */
    method ScanKey(req: Request, key: string) returns (found: Option<int>, checks: nat)
      requires Queue(Contents(), key) != []
      modifies this`queues
      ensures
        var scan := ScanQueue(old(Contents()), req, key);
        && found == scan.found && checks == scan.checks
        && Contents() == WithQueue(old(Contents()), key, scan.queue)
    {
      ghost var s0 := Contents();
      var limit := Limit(Queue(Contents(), key));
      checks := 0;
      var offset := 0;
      while offset < limit
        invariant key in queues && WithQueue(Contents(), key, []) == WithQueue(s0, key, [])
        invariant ScanFrom(s0, req, Queue(Contents(), key), limit, offset, checks) == ScanQueue(s0, req, key)
        decreases limit + BATCH_SIZE - offset
      {
        if checks >= MAX_VALID_CHECKS {
          break;
        }
        var batch := Batch(Queue(Contents(), key), offset);
        if batch == [] {
          break;
        }
        SameScan(s0, Contents(), req, batch, Queue(Contents(), key), checks);
        found, checks := CheckBatch(req, key, batch, checks);
        if found.Some? {
          SameButQueue(Contents(), s0, key);
          return;
        }
        offset := offset + BATCH_SIZE;
      }
      found := None;
      SameButQueue(Contents(), s0, key);
    }

    method FindMatch(req: Request) returns (found: Option<int>)
      modifies this
      ensures (Contents(), found) == Searched(old(Contents()), req)
    {
      var keys := GetTargetQueueKeys(req.gender, req.target, req.province);
      var i := 0;
      while i < |keys|
        invariant 0 <= i <= |keys|
        invariant SearchKeys(Contents(), req, keys[i..]) == Searched(old(Contents()), req)
      {
        var key := keys[i];
        assert keys[i..][1..] == keys[i + 1..];
        i := i + 1;
        if Queue(Contents(), key) == [] {
          continue;
        }
        var checks;
        found, checks := ScanKey(req, key);
        if found.Some? {
          Claim(req, found.value, key);
          return;
        }
      }
      AddToQueue(req);
      found := None;
    }
  }

  lemma SameButQueue(s: Store, t: Store, key: string)
    requires key in s.queues && WithQueue(s, key, []) == WithQueue(t, key, [])
    ensures s == WithQueue(t, key, Queue(s, key))
  {
    var a, b := WithQueue(s, key, []), WithQueue(t, key, []);
    forall k | k in s.queues && k != key ensures k in t.queues && t.queues[k] == s.queues[k] {
      assert a.queues[k] == b.queues[k];
    }
    forall k | k in t.queues && k != key ensures k in s.queues {
      assert k in b.queues && k in a.queues;
    }
    assert s.queues == t.queues[key := s.queues[key]];
  }

  /** A scan reads users and blocks only. */
  lemma {:induction false} SameScan(s: Store, t: Store, req: Request, batch: seq<int>, queue: seq<int>, checks: nat)
    requires s.users == t.users && s.blocks == t.blocks
    ensures ScanBatch(s, req, batch, queue, checks) == ScanBatch(t, req, batch, queue, checks)
  {
    if batch != [] {
      SameScan(s, t, req, batch[1..], Lrem(queue, batch[0]), checks);
      SameScan(s, t, req, batch[1..], queue, checks + 1);
    }
  }
}
