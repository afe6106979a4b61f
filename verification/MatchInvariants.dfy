/** What every atomic operation of the matchmaking engine keeps, and whom a search pairs. */
module MatchInvariants {
  import opened Wrappers
  import opened Routing
  import opened MatchEngine
  import opened MatchScan

  // ---------------------------------------------------------------- counting list entries

  lemma {:induction false} LremOneCounts(queue: seq<int>, u: int)
    ensures multiset(LremOne(queue, u)) == multiset(queue) - multiset{u}
  {
    if queue != [] {
      assert queue == [queue[0]] + queue[1..];
      if queue[0] != u {
        LremOneCounts(queue[1..], u);
        assert multiset(LremOne(queue, u)) == multiset{queue[0]} + multiset(LremOne(queue[1..], u));
      }
    }
  }

  function Occurrences(s: Store, key: string, u: int): nat { multiset(Queue(s, key))[u] }

  /** Once in the list named by the user's state while the user is queuing, and nowhere else. */
  function Expected(s: Store, key: string, u: int): nat {
    if IsQueuing(s, u) && s.users[u].queueKey == key then 1 else 0
  }

  /** Queue lists and user states agree: a user is queuing exactly when listed, once, under their key. */
  ghost predicate IndexAgrees(s: Store) {
    forall u: int, key: string :: Occurrences(s, key, u) == Expected(s, key, u)
  }

  /** The queue key stands for the stored gender, wish and province. */
  function StoredKey(st: UserState): string {
    Key(if st.province == "" then "global" else st.province, NormGender(st.gender),
        if st.target == "" then "any" else st.target)
  }

  predicate Genuine(st: UserState) {
    && st.queueKey == StoredKey(st)
    && NormGender(st.gender) in {"male", "female"}
    && ':' !in st.province
  }

  ghost predicate AllGenuine(s: Store) { forall u :: IsQueuing(s, u) ==> Genuine(s.users[u]) }

  ghost predicate Mutual(s: Store) {
    forall u :: IsMatched(s, u) ==>
      && s.users[u].matchedWith.Some?
      && s.users[u].matchedWith.value != u
      && IsMatched(s, s.users[u].matchedWith.value)
      && s.users[s.users[u].matchedWith.value].matchedWith == Some(u)
  }

  ghost predicate Inv(s: Store) { IndexAgrees(s) && AllGenuine(s) && Mutual(s) }

  /** What the handlers pass: a known gender, and names that are not blank and hold no colon. */
  predicate WellFormed(req: Request) {
    && NormGender(req.gender) in {"male", "female"}
    && ':' !in NormTarget(req.target) && ':' !in NormProvince(req.province)
    && (req.target == "" || NormTarget(req.target) != "")
    && (req.province == "" || NormProvince(req.province) != "")
  }

  // ---------------------------------------------------------------- remove and enqueue

  lemma RemovedKeepsIndex(s: Store, u: int)
    requires IndexAgrees(s) && (IsQueuing(s, u) ==> s.users[u].queueKey != "")
    ensures IndexAgrees(Removed(s, u)) && u !in Removed(s, u).users
    ensures forall v :: v != u ==> (v in Removed(s, u).users <==> v in s.users)
    ensures forall v :: v in s.users && v != u ==> Removed(s, u).users[v] == s.users[v]
  {
    var t := Removed(s, u);
    forall v: int, key: string ensures Occurrences(t, key, v) == Expected(t, key, v) {
      assert Occurrences(s, key, v) == Expected(s, key, v);
      LremCounts(Queue(s, key), u);
    }
  }

  lemma EnqueuedKeepsIndex(s: Store, req: Request)
    requires IndexAgrees(s) && (IsQueuing(s, req.id) ==> s.users[req.id].queueKey != "")
    ensures IndexAgrees(Enqueued(s, req))
  {
    RemovedKeepsIndex(s, req.id);
    JoinKeepsIndex(Removed(s, req.id), Enqueued(s, req), req.id, QueuedState(req));
  }

  lemma JoinKeepsIndex(s: Store, t: Store, u: int, st: UserState)
    requires IndexAgrees(s) && u !in s.users && st.status.Queuing? && t.users == s.users[u := st]
    requires t.queues == s.queues[st.queueKey := [u] + Lrem(Queue(s, st.queueKey), u)]
    ensures IndexAgrees(t)
  {
    forall v: int, key: string ensures Occurrences(t, key, v) == Expected(t, key, v) {
      assert Occurrences(s, key, v) == Expected(s, key, v);
      JoinAt(s, t, u, st, key, v);
    }
  }

  lemma JoinAt(s: Store, t: Store, u: int, st: UserState, key: string, v: int)
    requires Occurrences(s, key, v) == Expected(s, key, v)
    requires u !in s.users && st.status.Queuing? && t.users == s.users[u := st]
    requires t.queues == s.queues[st.queueKey := [u] + Lrem(Queue(s, st.queueKey), u)]
    ensures Occurrences(t, key, v) == Expected(t, key, v)
  {
    JoinOccurrences(s, t, u, st.queueKey, key, v);
  }

  lemma JoinOccurrences(s: Store, t: Store, u: int, home: string, key: string, v: int)
    requires t.queues == s.queues[home := [u] + Lrem(Queue(s, home), u)]
    ensures Occurrences(t, key, v) == if key == home && v == u then 1 else Occurrences(s, key, v)
  {
    if key == home {
      JoinCounts(Queue(s, home), u, v);
      assert Queue(t, home) == [u] + Lrem(Queue(s, home), u);
    } else {
      assert Queue(t, key) == Queue(s, key);
    }
  }

  lemma JoinCounts(queue: seq<int>, u: int, v: int)
    ensures multiset([u] + Lrem(queue, u))[v] == if v == u then 1 else multiset(queue)[v]
  {
    LremCounts(queue, u);
  }

  // ---------------------------------------------------------------- pairing

  lemma PairedOccurrences(s: Store, req: Request, candidate: int, key: string, k: string, v: int)
    requires candidate in s.users
    ensures
      var one := if k == key then multiset(Queue(s, k)) - multiset{candidate} else multiset(Queue(s, k));
      Occurrences(Paired(s, req, candidate, key), k, v) == if k == req.Key() then one[req.id := 0][v] else one[v]
  {
    LremOneCounts(Queue(s, key), candidate);
    var middle := if k == key then LremOne(Queue(s, k), candidate) else Queue(s, k);
    LremCounts(middle, req.id);
  }

  /**
   * Pairing an idle caller with a queuing candidate keeps lists and states in agreement exactly when
   * the candidate was found in the queue it waits in.
   */
  lemma PairedKeepsIndexIff(s: Store, req: Request, candidate: int, key: string)
    requires IndexAgrees(s) && IsQueuing(s, candidate) && !IsQueuing(s, req.id)
    ensures IndexAgrees(Paired(s, req, candidate, key)) <==> key == s.users[candidate].queueKey
  {
    var t := Paired(s, req, candidate, key);
    if key == s.users[candidate].queueKey {
      forall v: int, k: string ensures Occurrences(t, k, v) == Expected(t, k, v) {
        assert Occurrences(s, k, v) == Expected(s, k, v);
        assert Occurrences(s, k, req.id) == Expected(s, k, req.id);
        PairedOccurrences(s, req, candidate, key, k, v);
      }
    } else {
      var k := s.users[candidate].queueKey;
      assert Occurrences(s, k, candidate) == Expected(s, k, candidate);
      PairedOccurrences(s, req, candidate, key, k, candidate);
      assert Occurrences(t, k, candidate) != Expected(t, k, candidate);
    }
  }

  /**
   * A candidate who rejoins in another queue after the scan has found them: the claim takes them out
   * of the wrong list and leaves them, matched, in the one they wait in.
   */
  lemma RejoinedCandidateStaysListed(s: Store, req: Request, rejoin: Request)
    requires IndexAgrees(s) && IsQueuing(s, rejoin.id) && s.users[rejoin.id].queueKey != ""
    requires rejoin.Key() != s.users[rejoin.id].queueKey
    requires req.id != rejoin.id && !IsQueuing(s, req.id)
    ensures
      var found := s.users[rejoin.id].queueKey;
      var t := Enqueued(s, rejoin);
      var r := Paired(t, req, rejoin.id, found);
      && IsQueuing(t, rejoin.id) && IndexAgrees(t)
      && IsMatched(r, rejoin.id) && Occurrences(r, rejoin.Key(), rejoin.id) == 1 && !IndexAgrees(r)
  {
    var found, t := s.users[rejoin.id].queueKey, Enqueued(s, rejoin);
    EnqueuedKeepsIndex(s, rejoin);
    assert Occurrences(t, rejoin.Key(), rejoin.id) == Expected(t, rejoin.Key(), rejoin.id);
    PairedOccurrences(t, req, rejoin.id, found, rejoin.Key(), rejoin.id);
    PairedKeepsIndexIff(t, req, rejoin.id, found);
  }

  lemma PairedKeepsMutual(s: Store, req: Request, candidate: int, key: string)
    requires Mutual(s) && IsQueuing(s, candidate) && req.id !in s.users
    ensures Mutual(Paired(s, req, candidate, key))
  {
    var t := Paired(s, req, candidate, key);
    forall u | IsMatched(t, u)
      ensures t.users[u].matchedWith.Some? && t.users[u].matchedWith.value != u
      ensures IsMatched(t, t.users[u].matchedWith.value)
      ensures t.users[t.users[u].matchedWith.value].matchedWith == Some(u)
    {
      if u != req.id && u != candidate {
        assert IsMatched(s, u) && IsMatched(s, s.users[u].matchedWith.value);
      }
    }
  }

  // ---------------------------------------------------------------- the search

  /** The reference search: the first queue, in key order, whose newest 100 entries hold a wanted one. */
  function FirstFound(s: Store, req: Request, keys: seq<string>): (found: Option<(int, string)>)
    ensures found.Some? ==> found.value.1 in keys && found.value.0 in Queue(s, found.value.1)
    ensures found.Some? ==> Wanted(s, req, found.value.0)
  {
    if keys == [] then None
    else
      var here := FirstWanted(s, req, Take(Queue(s, keys[0]), MAX_VALID_CHECKS));
      if here.Some? then Some((here.value, keys[0])) else FirstFound(s, req, keys[1..])
  }

  /** While lists and states agree there is nothing stale, except for a caller that is queued itself. */
  lemma NothingStale(s: Store, req: Request, key: string)
    requires IndexAgrees(s) && !IsQueuing(s, req.id)
    ensures AllLive(s, req, Queue(s, key))
  {
    var queue := Queue(s, key);
    forall i | 0 <= i < |queue| ensures Live(s, req, queue[i]) {
      assert queue[i] in multiset(queue);
      assert Occurrences(s, key, queue[i]) == Expected(s, key, queue[i]);
    }
  }

  lemma {:induction false} SearchKeysRefines(s: Store, req: Request, keys: seq<string>)
    requires IndexAgrees(s) && !IsQueuing(s, req.id)
    ensures
      var found := FirstFound(s, req, keys);
      SearchKeys(s, req, keys) ==
        if found.Some? then (Paired(s, req, found.value.0, found.value.1), Some(found.value.0))
        else (Enqueued(s, req), None)
  {
    if keys != [] {
      var key := keys[0];
      NothingStale(s, req, key);
      CleanScan(s, req, key);
      if Queue(s, key) != [] {
        assert s.queues[key := Queue(s, key)] == s.queues;
      }
      SearchKeysRefines(s, req, keys[1..]);
    }
  }

  /**
   * While lists and states agree, the batched scan is the reference search: the first wanted user
   * among the newest 100 of each queue in key order is paired with the caller; if there is none the
   * caller joins the queue.
   */
  lemma SearchRefinesReference(s: Store, req: Request)
    requires IndexAgrees(s) && !IsQueuing(s, req.id)
    ensures
      var found := FirstFound(s, req, TargetKeys(req.gender, req.target, req.province));
      Searched(s, req) ==
        if found.Some? then (Paired(s, req, found.value.0, found.value.1), Some(found.value.0))
        else (Enqueued(s, req), None)
  {
    SearchKeysRefines(s, req, TargetKeys(req.gender, req.target, req.province));
  }

  /** The two users accept each other's gender and age, share a province or one waits globally, and no block. */
  predicate AcceptEachOther(s: Store, req: Request, candidate: int)
    requires candidate in s.users
  {
    var them := s.users[candidate];
    && Accepts(NormTarget(req.target), NormGender(them.gender))
    && Accepts(if them.target == "" then "any" else them.target, NormGender(req.gender))
    && (them.province == "" || them.province == "global" || them.province == NormProvince(req.province))
    && req.minAge <= them.age <= req.MaxAge()
    && them.minAge <= req.age <= them.maxAge
    && (req.id, candidate) !in s.blocks && (candidate, req.id) !in s.blocks
  }

  /** Everybody a search pairs with the caller accepts the caller and is accepted. */
  lemma SearchPairsAcceptingUsers(s: Store, req: Request)
    requires Inv(s) && !IsQueuing(s, req.id) && WellFormed(req)
    requires Searched(s, req).1.Some?
    ensures
      var candidate := Searched(s, req).1.value;
      && candidate != req.id && IsQueuing(s, candidate)
      && AcceptEachOther(s, req, candidate)
      && var t := Searched(s, req).0;
      && IsMatched(t, req.id) && t.users[req.id].matchedWith == Some(candidate)
      && IsMatched(t, candidate) && t.users[candidate].matchedWith == Some(req.id)
  {
    var keys := TargetKeys(req.gender, req.target, req.province);
    SearchRefinesReference(s, req);
    var (candidate, key) := FirstFound(s, req, keys).value;
    assert candidate in multiset(Queue(s, key));
    assert Occurrences(s, key, candidate) == Expected(s, key, candidate);
    var them := s.users[candidate];
    assert Genuine(them) && key == StoredKey(them);
    var p := if them.province == "" then "global" else them.province;
    assert ':' !in "global";
    RoutingExact(req.gender, req.target, req.province, p, NormGender(them.gender),
                 if them.target == "" then "any" else them.target);
  }

  // ---------------------------------------------------------------- runs of atomic operations

  datatype Operation =
    | Search(req: Request)
    | Cancel(u: int)
    | EndMatch(u: int)                          // the states of both partners are deleted
    | Block(a: int, b: int)
    | Unblock(a: int, b: int)

  /** A search is made by an idle user; a cancel by a queuing one; a match is ended by a matched one. */
  predicate Enabled(s: Store, op: Operation) {
    match op
    case Search(req) => req.id !in s.users && WellFormed(req)
    case Cancel(u) => IsQueuing(s, u)
    case EndMatch(u) => IsMatched(s, u)
    case _ => true
  }

  function Ended(s: Store, u: int): Store {
    if IsMatched(s, u) && s.users[u].matchedWith.Some? then
      s.(users := s.users - {u, s.users[u].matchedWith.value})
    else s
  }

  function Apply(s: Store, op: Operation): Store {
    match op
    case Search(req) => Searched(s, req).0
    case Cancel(u) => Removed(s, u)
    case EndMatch(u) => Ended(s, u)
    case Block(a, b) => s.(blocks := s.blocks + {(a, b)})
    case Unblock(a, b) => s.(blocks := s.blocks - {(a, b)})
  }

  predicate Runs(s: Store, ops: seq<Operation>)
    decreases |ops|
  {
    ops == [] || (Enabled(s, ops[0]) && Runs(Apply(s, ops[0]), ops[1..]))
  }

  function Run(s: Store, ops: seq<Operation>): Store
    decreases |ops|
  {
    if ops == [] then s else Run(Apply(s, ops[0]), ops[1..])
  }

  lemma SearchKeepsInv(s: Store, req: Request)
    requires Inv(s) && req.id !in s.users && WellFormed(req)
    ensures Inv(Searched(s, req).0)
  {
    var keys := TargetKeys(req.gender, req.target, req.province);
    SearchRefinesReference(s, req);
    if FirstFound(s, req, keys).Some? {
      var (candidate, key) := FirstFound(s, req, keys).value;
      assert candidate in multiset(Queue(s, key));
      assert Occurrences(s, key, candidate) == Expected(s, key, candidate);
      PairedKeepsIndexIff(s, req, candidate, key);
      PairedKeepsMutual(s, req, candidate, key);
      assert AllGenuine(Paired(s, req, candidate, key));
    } else {
      EnqueuedKeepsIndex(s, req);
      EnqueuedIsGenuine(s, req);
    }
  }

  lemma EnqueuedIsGenuine(s: Store, req: Request)
    requires AllGenuine(s) && Mutual(s) && req.id !in s.users && WellFormed(req)
    ensures AllGenuine(Enqueued(s, req)) && Mutual(Enqueued(s, req))
  {
    var t := Enqueued(s, req);
    assert ':' !in "";
    assert Genuine(QueuedState(req));
    forall u | IsMatched(t, u)
      ensures t.users[u].matchedWith.Some? && t.users[u].matchedWith.value != u
      ensures IsMatched(t, t.users[u].matchedWith.value)
      ensures t.users[t.users[u].matchedWith.value].matchedWith == Some(u)
    {
      assert IsMatched(s, u) && IsMatched(s, s.users[u].matchedWith.value);
    }
  }

  lemma CancelKeepsInv(s: Store, u: int)
    requires Inv(s) && IsQueuing(s, u)
    ensures Inv(Removed(s, u))
  {
    assert Genuine(s.users[u]);
    RemovedKeepsIndex(s, u);
    var t := Removed(s, u);
    forall v | IsMatched(t, v)
      ensures t.users[v].matchedWith.Some? && t.users[v].matchedWith.value != v
      ensures IsMatched(t, t.users[v].matchedWith.value)
      ensures t.users[t.users[v].matchedWith.value].matchedWith == Some(v)
    {
      assert IsMatched(s, v) && IsMatched(s, s.users[v].matchedWith.value);
    }
  }

  lemma EndedKeepsInv(s: Store, u: int)
    requires Inv(s) && IsMatched(s, u)
    ensures Inv(Ended(s, u))
    ensures u !in Ended(s, u).users && s.users[u].matchedWith.value !in Ended(s, u).users
    ensures forall v :: v != u && Some(v) != s.users[u].matchedWith ==>
              (v in Ended(s, u).users <==> v in s.users) && (v in s.users ==> Ended(s, u).users[v] == s.users[v])
  {
    var t := Ended(s, u);
    forall v: int, key: string ensures Occurrences(t, key, v) == Expected(t, key, v) {
      assert Occurrences(s, key, v) == Expected(s, key, v);
    }
    forall v | IsMatched(t, v)
      ensures t.users[v].matchedWith.Some? && t.users[v].matchedWith.value != v
      ensures IsMatched(t, t.users[v].matchedWith.value)
      ensures t.users[t.users[v].matchedWith.value].matchedWith == Some(v)
    {
      assert IsMatched(s, v) && IsMatched(s, s.users[v].matchedWith.value);
    }
  }

  /** Deleting one state alone keeps matching mutual exactly when its user is not matched. */
  lemma DeletedKeepsMutualIff(s: Store, u: int)
    requires Mutual(s)
    ensures Mutual(s.(users := s.users - {u})) <==> !IsMatched(s, u)
  {
    var t := s.(users := s.users - {u});
    if IsMatched(s, u) {
      assert IsMatched(t, s.users[u].matchedWith.value);
    } else {
      forall v | IsMatched(t, v)
        ensures t.users[v].matchedWith.Some? && t.users[v].matchedWith.value != v
        ensures IsMatched(t, t.users[v].matchedWith.value)
        ensures t.users[t.users[v].matchedWith.value].matchedWith == Some(v)
      {
        assert IsMatched(s, v) && IsMatched(s, s.users[v].matchedWith.value);
      }
    }
  }

  lemma StepKeepsInv(s: Store, op: Operation)
    requires Inv(s) && Enabled(s, op)
    ensures Inv(Apply(s, op))
  {
    match op
    case Search(req) => SearchKeepsInv(s, req);
    case Cancel(u) => CancelKeepsInv(s, u);
    case EndMatch(u) => EndedKeepsInv(s, u);
    case _ => BlocksAreApart(s, Apply(s, op));
  }

  lemma {:induction false} RunKeepsInv(s: Store, ops: seq<Operation>)
    requires Inv(s) && Runs(s, ops)
    ensures Inv(Run(s, ops))
    decreases |ops|
  {
    if ops != [] {
      StepKeepsInv(s, ops[0]);
      RunKeepsInv(Apply(s, ops[0]), ops[1..]);
    }
  }

  lemma BlocksAreApart(s: Store, t: Store)
    requires Inv(s) && t.users == s.users && t.queues == s.queues
    ensures Inv(t)
  {
    forall u: int, key: string ensures Occurrences(t, key, u) == Expected(t, key, u) {
      assert Occurrences(s, key, u) == Expected(s, key, u);
    }
    forall u | IsMatched(t, u)
      ensures t.users[u].matchedWith.Some? && t.users[u].matchedWith.value != u
      ensures IsMatched(t, t.users[u].matchedWith.value)
      ensures t.users[t.users[u].matchedWith.value].matchedWith == Some(u)
    {
      assert IsMatched(s, u) && IsMatched(s, s.users[u].matchedWith.value);
    }
  }

  /**
   * From an empty engine, after any sequence of searches, cancels, ended matches, blocks and unblocks:
   * a user is queuing exactly when listed once, under the key of their own wishes, and nowhere else;
   * and every matched user is matched back by somebody else.
   */
  lemma EveryRunKeepsOrder(ops: seq<Operation>, u: int, key: string)
    requires Runs(Store(map[], map[], {}), ops)
    ensures
      var s := Run(Store(map[], map[], {}), ops);
      && Occurrences(s, key, u) == Expected(s, key, u)
      && (IsQueuing(s, u) ==> s.users[u].queueKey == StoredKey(s.users[u]))
      && (IsMatched(s, u) ==>
            && s.users[u].matchedWith.Some?
            && var p := s.users[u].matchedWith.value;
            p != u && IsMatched(s, p) && s.users[p].matchedWith == Some(u))
  {
    var s0 := Store(map[], map[], {});
    assert IndexAgrees(s0);
    RunKeepsInv(s0, ops);
  }

  // ---------------------------------------------------------------- runs in which states get lost

  /** An operation by anybody, or a user's state reaching its time to live while listed. */
  datatype Happening = Do(op: Operation) | StateExpires(u: int)

  function After(s: Store, happened: seq<Happening>): Store {
    if happened == [] then s
    else
      var before := After(s, happened[..|happened| - 1]);
      match happened[|happened| - 1]
      case Do(op) => Apply(before, op)
      case StateExpires(u) => before.(users := before.users - {u})
  }

  /** No list names a user twice. */
  ghost predicate SingleEntries(s: Store) { forall key, u :: Occurrences(s, key, u) <= 1 }

  lemma RemovedSingle(s: Store, u: int)
    requires SingleEntries(s)
    ensures SingleEntries(Removed(s, u))
  {
    forall key, v ensures Occurrences(Removed(s, u), key, v) <= 1 {
      assert Occurrences(s, key, v) <= 1;
      LremCounts(Queue(s, key), u);
    }
  }

  lemma EnqueuedSingle(s: Store, req: Request)
    requires SingleEntries(s)
    ensures SingleEntries(Enqueued(s, req))
  {
    var s' := Removed(s, req.id);
    RemovedSingle(s, req.id);
    forall key, v ensures Occurrences(Enqueued(s, req), key, v) <= 1 {
      assert Occurrences(s', key, v) <= 1;
      JoinOccurrences(s', Enqueued(s, req), req.id, req.Key(), key, v);
    }
  }

  lemma PairedSingle(s: Store, req: Request, candidate: int, key: string)
    requires SingleEntries(s) && candidate in s.users
    ensures SingleEntries(Paired(s, req, candidate, key))
  {
    forall k, v ensures Occurrences(Paired(s, req, candidate, key), k, v) <= 1 {
      assert Occurrences(s, k, v) <= 1;
      PairedOccurrences(s, req, candidate, key, k, v);
    }
  }

  lemma ScannedSingle(s: Store, req: Request, key: string)
    requires SingleEntries(s)
    ensures SingleEntries(WithQueue(s, key, ScanQueue(s, req, key).queue))
  {
    var t := WithQueue(s, key, ScanQueue(s, req, key).queue);
    forall k, v ensures Occurrences(t, k, v) <= 1 {
      assert Occurrences(s, k, v) <= 1;
      ScanKeepsLive(s, req, Queue(s, key), Limit(Queue(s, key)), 0, 0, v);
    }
  }

  lemma {:induction false} SearchKeysSingle(s: Store, req: Request, keys: seq<string>)
    requires SingleEntries(s)
    ensures SingleEntries(SearchKeys(s, req, keys).0)
    decreases |keys|
  {
    if keys == [] {
      EnqueuedSingle(s, req);
    } else {
      var scan := ScanQueue(s, req, keys[0]);
      var s' := if Queue(s, keys[0]) == [] then s else WithQueue(s, keys[0], scan.queue);
      ScannedSingle(s, req, keys[0]);
      if scan.found.Some? {
        PairedSingle(s', req, scan.found.value, keys[0]);
      } else {
        SearchKeysSingle(s', req, keys[1..]);
      }
    }
  }

  lemma {:induction false} AfterSingle(s: Store, happened: seq<Happening>)
    requires SingleEntries(s)
    ensures SingleEntries(After(s, happened))
  {
    if happened != [] {
      var before := After(s, happened[..|happened| - 1]);
      AfterSingle(s, happened[..|happened| - 1]);
      LastSingle(before, happened[|happened| - 1], After(s, happened));
    }
  }

  lemma LastSingle(s: Store, h: Happening, t: Store)
    requires SingleEntries(s)
    requires t == match h { case Do(op) => Apply(s, op) case StateExpires(u) => s.(users := s.users - {u}) }
    ensures SingleEntries(t)
  {
    match h
    case Do(Search(req)) => SearchKeysSingle(s, req, TargetKeys(req.gender, req.target, req.province));
    case Do(Cancel(u)) => RemovedSingle(s, u);
    case _ => SameLists(s, t);
  }

  lemma SameLists(s: Store, t: Store)
    requires SingleEntries(s) && t.queues == s.queues
    ensures SingleEntries(t)
  {
    forall key, u ensures Occurrences(t, key, u) <= 1 {
      assert Occurrences(s, key, u) <= 1;
    }
  }

  lemma SingleMeansDistinct(s: Store, key: string)
    requires SingleEntries(s)
    ensures NoDuplicates(Queue(s, key))
  {
    var queue := Queue(s, key);
    forall i, j | 0 <= i < j < |queue| ensures queue[i] != queue[j] {
      assert queue == queue[..j] + queue[j..];
      assert queue[i] in multiset(queue[..j]) && queue[j] in multiset(queue[j..]);
      assert Occurrences(s, key, queue[i]) <= 1;
    }
  }

  /**
   * In every state reached from an empty engine, whatever states have expired: the first wanted entry
   * of a queue, at position `k` of the newest 100, is what the scan finds exactly when it stands in
   * the first batch or is not stepped over after it.
   */
  lemma ReachedScanFindsIff(happened: seq<Happening>, req: Request, key: string, k: nat)
    requires
      var s := After(Store(map[], map[], {}), happened);
      && k < |Queue(s, key)| && k < MAX_VALID_CHECKS
      && NoneWanted(s, req, Queue(s, key)[..k]) && Wanted(s, req, Queue(s, key)[k])
    ensures
      var s := After(Store(map[], map[], {}), happened);
      ScanQueue(s, req, key).found == Some(Queue(s, key)[k]) <==>
        k < BATCH_SIZE || k >= BATCH_SIZE + Stale(s, req, Take(Queue(s, key), BATCH_SIZE))
  {
    var s0 := Store(map[], map[], {});
    var s := After(s0, happened);
    AfterSingle(s0, happened);
    SingleMeansDistinct(s, key);
    NewestFoundIff(s, req, key, k);
  }

  /** In the same states the scan finds the first wanted one of the entries it visits. */
  lemma ReachedScanFinds(happened: seq<Happening>, req: Request, key: string)
    ensures
      var s := After(Store(map[], map[], {}), happened);
      ScanQueue(s, req, key).found == FirstWanted(s, req, VisitedOf(s, req, Queue(s, key)))
  {
    var s0 := Store(map[], map[], {});
    AfterSingle(s0, happened);
    SingleMeansDistinct(After(s0, happened), key);
    ScanFindsFirstVisited(After(s0, happened), req, key);
  }
}
