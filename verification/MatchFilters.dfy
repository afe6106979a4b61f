/**
 * Whom a search finds, in terms of the request and of what users have stored (services/
 * matching_engine.py): age windows, interests and blocks spelled out, and the order of the lists.
 */
module MatchFilters {
  import opened Text
  import opened Wrappers
  import opened Routing
  import opened MatchEngine
  import opened MatchScan
  import opened MatchInvariants

  // ---------------------------------------------------------------- who fits whom

  predicate HasInterest(interests: string) { exists word :: word in Split(interests, ',') && word != "" }

  predicate ShareInterest(a: string, b: string) {
    exists word :: word in Split(a, ',') && word != "" && word in Split(b, ',')
  }

  /** The upper age bound; without one it is 99. */
  function Upper(maxAge: int): int { if maxAge == 0 then 99 else maxAge }

  /**
   * Each is in the other's age window, neither blocks the other, and a VIP caller with interests does
   * not meet somebody with interests but none in common.
   */
  predicate Fits(s: Store, req: Request, candidate: int) {
    && candidate in s.users
    && var them := s.users[candidate];
    && req.minAge <= them.age && them.age <= Upper(req.maxAge)
    && them.minAge <= req.age && req.age <= them.maxAge
    && (req.vip && HasInterest(req.interests) && HasInterest(them.interests) ==>
          ShareInterest(req.interests, them.interests))
    && (req.id, candidate) !in s.blocks && (candidate, req.id) !in s.blocks
  }

  lemma InterestsMean(a: string, b: string)
    ensures InterestSet(a) != {} <==> HasInterest(a)
    ensures InterestSet(a) * InterestSet(b) != {} <==> ShareInterest(a, b)
  {
    if HasInterest(a) {
      var word :| word in Split(a, ',') && word != "";
      assert word in InterestSet(a);
    }
    if ShareInterest(a, b) {
      var word :| word in Split(a, ',') && word != "" && word in Split(b, ',');
      assert word in InterestSet(a) * InterestSet(b);
    }
    if InterestSet(a) != {} {
      var word :| word in InterestSet(a);
      assert HasInterest(a);
    }
    if InterestSet(a) * InterestSet(b) != {} {
      var word :| word in InterestSet(a) * InterestSet(b);
      assert ShareInterest(a, b);
    }
  }

  lemma CompatibleMeans(s: Store, req: Request, candidate: int)
    requires candidate in s.users
    ensures Compatible(s, req, candidate) <==> Fits(s, req, candidate)
  {
    InterestsMean(req.interests, s.users[candidate].interests);
    InterestsMean(s.users[candidate].interests, req.interests);
  }

  // ---------------------------------------------------------------- the first one who fits

  /** The entry at position `i`, one of the newest 100 of a queue, fits. */
  predicate FitsAt(s: Store, req: Request, key: string, i: int) {
    0 <= i < |Queue(s, key)| && i < 100 && Fits(s, req, Queue(s, key)[i])
  }

  lemma {:induction false} FirstWantedIndex(s: Store, req: Request, queue: seq<int>) returns (i: nat)
    requires FirstWanted(s, req, queue).Some?
    ensures i < |queue| && FirstWanted(s, req, queue) == Some(queue[i]) && Wanted(s, req, queue[i])
    ensures forall j :: 0 <= j < i ==> !Wanted(s, req, queue[j])
  {
    if Wanted(s, req, queue[0]) {
      i := 0;
    } else {
      i := FirstWantedIndex(s, req, queue[1..]);
      assert forall j :: 1 <= j < i + 1 ==> queue[j] == queue[1..][j - 1];
      i := i + 1;
    }
  }

  lemma ListedFit(s: Store, req: Request, key: string, i: nat)
    requires IndexAgrees(s) && !IsQueuing(s, req.id) && i < |Queue(s, key)|
    ensures Wanted(s, req, Queue(s, key)[i]) <==> Fits(s, req, Queue(s, key)[i])
  {
    NothingStale(s, req, key);
    CompatibleMeans(s, req, Queue(s, key)[i]);
  }

  /** The first fit of one queue, or none at all. */
  lemma FirstInQueue(s: Store, req: Request, key: string) returns (i: nat)
    requires IndexAgrees(s) && !IsQueuing(s, req.id)
    ensures
      var found := FirstWanted(s, req, Take(Queue(s, key), MAX_VALID_CHECKS));
      if found.Some? then
        FitsAt(s, req, key, i) && found.value == Queue(s, key)[i] && forall j :: j < i ==> !FitsAt(s, req, key, j)
      else forall j :: !FitsAt(s, req, key, j)
  {
    var queue, top := Queue(s, key), Take(Queue(s, key), MAX_VALID_CHECKS);
    forall j | 0 <= j < |top| ensures Wanted(s, req, top[j]) <==> FitsAt(s, req, key, j) {
      ListedFit(s, req, key, j);
      assert top[j] == queue[j];
    }
    i := 0;
    if FirstWanted(s, req, top).Some? {
      i := FirstWantedIndex(s, req, top);
    } else {
      forall j ensures !FitsAt(s, req, key, j) {
        if 0 <= j < |top| {
          assert !Wanted(s, req, top[j]);
        }
      }
    }
  }

  /** Position `i` of queue `k` is the first one, in the order of the keys, that fits. */
  ghost predicate FirstFit(s: Store, req: Request, keys: seq<string>, k: int, i: int) {
    && 0 <= k < |keys| && FitsAt(s, req, keys[k], i)
    && (forall j :: j < i ==> !FitsAt(s, req, keys[k], j))
    && forall l, j :: 0 <= l < k ==> !FitsAt(s, req, keys[l], j)
  }

  lemma {:induction false} FirstFoundIsFirstFit(s: Store, req: Request, keys: seq<string>) returns (k: nat, i: nat)
    requires IndexAgrees(s) && !IsQueuing(s, req.id)
    ensures
      var found := FirstFound(s, req, keys);
      if found.Some? then FirstFit(s, req, keys, k, i) && found.value == (Queue(s, keys[k])[i], keys[k])
      else forall key, j :: key in keys ==> !FitsAt(s, req, key, j)
  {
    k, i := 0, 0;
    if keys != [] {
      i := FirstInQueue(s, req, keys[0]);
      if FirstWanted(s, req, Take(Queue(s, keys[0]), MAX_VALID_CHECKS)).None? {
        k, i := FirstFoundIsFirstFit(s, req, keys[1..]);
        if FirstFound(s, req, keys).Some? {
          LaterFit(s, req, keys, k, i);
          k := k + 1;
        }
      }
    }
  }

  lemma LaterFit(s: Store, req: Request, keys: seq<string>, k: nat, i: nat)
    requires keys != [] && FirstFit(s, req, keys[1..], k, i) && forall j :: !FitsAt(s, req, keys[0], j)
    ensures FirstFit(s, req, keys, k + 1, i)
  {
    forall l, j | 0 <= l < k + 1 ensures !FitsAt(s, req, keys[l], j) {
      if l > 0 {
        assert keys[l] == keys[1..][l - 1];
      }
    }
  }

  /**
   * While lists and states agree, a search pairs the caller with the first entry that fits, among the
   * newest 100 of each searched queue in the order of the keys; it finds nobody, and the caller waits,
   * exactly when no such entry fits.
   */
  lemma SearchFindsFirstFit(s: Store, req: Request) returns (k: nat, i: nat)
    requires IndexAgrees(s) && !IsQueuing(s, req.id)
    ensures
      var keys := TargetKeys(req.gender, req.target, req.province);
      var (t, found) := Searched(s, req);
      if found.Some? then
        && FirstFit(s, req, keys, k, i) && found.value == Queue(s, keys[k])[i]
        && IsMatched(t, req.id) && t.users[req.id].matchedWith == found
        && IsMatched(t, found.value) && t.users[found.value].matchedWith == Some(req.id)
      else
        && (forall key, j :: key in keys ==> !FitsAt(s, req, key, j))
        && IsQueuing(t, req.id) && t.users[req.id].queueKey == req.Key()
  {
    SearchRefinesReference(s, req);
    k, i := FirstFoundIsFirstFit(s, req, TargetKeys(req.gender, req.target, req.province));
  }

  // ---------------------------------------------------------------- joining and pairing

  /** Who joins is filtered by the values of the request. */
  lemma JoinedIsFilteredByOwnValues(s: Store, req: Request, caller: Request)
    ensures
      var t := Enqueued(s, req);
      && IsQueuing(t, req.id) && t.users[req.id].matchedWith.None?
      && t.users[req.id].queueKey == QueueKey(req.gender, req.target, req.province)
      && (Fits(t, caller, req.id) <==>
            && caller.minAge <= req.age && req.age <= Upper(caller.maxAge)
            && req.minAge <= caller.age && caller.age <= Upper(req.maxAge)
            && (caller.vip && HasInterest(caller.interests) && HasInterest(req.interests) ==>
                  ShareInterest(caller.interests, req.interests))
            && (caller.id, req.id) !in s.blocks && (req.id, caller.id) !in s.blocks)
  {
  }

  lemma LremNoMore(queue: seq<int>, u: int)
    ensures u !in Lrem(queue, u)
  {
    LremCounts(queue, u);
    assert u !in multiset(Lrem(queue, u));
  }

  /** Who joins heads the list; the others keep their order. */
  lemma JoinedIsFirst(s: Store, req: Request)
    requires NoDuplicates(Queue(s, req.Key()))
    ensures
      var before, after := Queue(s, req.Key()), Queue(Enqueued(s, req), req.Key());
      && (req.id !in before ==> after == [req.id] + before)
      && forall x, y :: before == x + ([req.id] + y) ==> after == [req.id] + (x + y)
  {
    var before, u := Queue(s, req.Key()), req.id;
    LremNoMore(before, u);
    LremAbsent(Lrem(before, u), u);
    assert Queue(Enqueued(s, req), req.Key()) == [u] + Lrem(before, u);
    if u !in before {
      LremAbsent(before, u);
    }
    forall x, y | before == x + ([u] + y) ensures Lrem(before, u) == x + y {
      DropOne(x, u, y);
    }
  }

  /** The last to join is the first to be found in that queue. */
  lemma JoinedIsFoundFirst(s: Store, req: Request, caller: Request)
    requires Fits(Enqueued(s, req), caller, req.id) && caller.id != req.id
    ensures ScanQueue(Enqueued(s, req), caller, req.Key()).found == Some(req.id)
  {
    var t := Enqueued(s, req);
    var queue := Queue(t, req.Key());
    CompatibleMeans(t, caller, req.id);
    assert queue[0] == req.id && Batch(queue, 0)[0] == req.id;
    BatchFinds(t, caller, Batch(queue, 0), queue, 0);
  }

  /**
   * The transaction writes the two users only: the caller's hash gets the key, gender and wishes of
   * the request, the candidate's keeps all but status and partner.
   */
  lemma PairedStates(s: Store, req: Request, candidate: int, key: string)
    requires candidate in s.users && candidate != req.id
    ensures
      var t := Paired(s, req, candidate, key);
      && t.users[candidate] == s.users[candidate].(status := Matched, matchedWith := Some(req.id))
      && t.users[req.id].status.Matched? && t.users[req.id].matchedWith == Some(candidate)
      && t.users[req.id].gender == req.gender && t.users[req.id].queueKey == req.Key()
      && t.users[req.id].target == NormTarget(req.target) && t.users[req.id].province == NormProvince(req.province)
      && (forall u :: u != candidate && u != req.id ==> (u in t.users <==> u in s.users))
      && (forall u :: u in s.users && u != candidate && u != req.id ==> t.users[u] == s.users[u])
      && t.blocks == s.blocks
  {
  }

  /** After A blocks B, or B blocks A, no search pairs the two. */
  lemma BlockedAreNotPaired(s: Store, a: int, b: int, req: Request)
    requires IndexAgrees(s) && !IsQueuing(s, req.id) && req.id in {a, b}
    ensures
      var t := MatchInvariants.Apply(s, Block(a, b));
      && Searched(t, req).1 != Some(if req.id == a then b else a)
      && forall x, y :: (x, y) != (a, b) ==> ((x, y) in t.blocks <==> (x, y) in s.blocks)
  {
    var t := MatchInvariants.Apply(s, Block(a, b));
    forall u: int, key: string ensures Occurrences(t, key, u) == Expected(t, key, u) {
      assert Occurrences(s, key, u) == Expected(s, key, u);
    }
    var k, i := SearchFindsFirstFit(t, req);
  }

  /** Once nobody blocks anybody of the two any more, they can be found again. */
  lemma UnblockedMayBePaired(s: Store, a: int, b: int)
    ensures
      var t := MatchInvariants.Apply(s, Unblock(a, b));
      && (a, b) !in t.blocks
      && (forall x, y :: (x, y) != (a, b) ==> ((x, y) in t.blocks <==> (x, y) in s.blocks))
      && t.users == s.users && t.queues == s.queues
  {
  }
}
