/** What the batched scan of a queue finds, with and without stale entries in the list. */
module MatchScan {
  import opened Wrappers
  import opened MatchEngine

  predicate AllLive(s: Store, req: Request, queue: seq<int>) {
    forall i :: 0 <= i < |queue| ==> Live(s, req, queue[i])
  }

  predicate NoneWanted(s: Store, req: Request, queue: seq<int>) {
    forall i :: 0 <= i < |queue| ==> !Wanted(s, req, queue[i])
  }

  predicate NoDuplicates(queue: seq<int>) {
    forall i, j :: 0 <= i < j < |queue| ==> queue[i] != queue[j]
  }

  /** The newest entry that is live and passes all filters. */
  function FirstWanted(s: Store, req: Request, queue: seq<int>): (found: Option<int>)
    ensures found.None? <==> NoneWanted(s, req, queue)
    ensures found.Some? ==> found.value in queue && Wanted(s, req, found.value)
  {
    if queue == [] then None
    else if Wanted(s, req, queue[0]) then Some(queue[0])
    else FirstWanted(s, req, queue[1..])
  }

  function Take(queue: seq<int>, n: nat): seq<int> { if |queue| < n then queue else queue[..n] }

  function Drop(queue: seq<int>, n: nat): seq<int> { if |queue| < n then [] else queue[n..] }

  /** The entries the scan does not clean away. */
  function LiveOf(s: Store, req: Request, queue: seq<int>): (live: seq<int>)
    ensures |live| <= |queue|
  {
    if queue == [] then []
    else (if Live(s, req, queue[0]) then [queue[0]] else []) + LiveOf(s, req, queue[1..])
  }

  function Stale(s: Store, req: Request, queue: seq<int>): nat { |queue| - |LiveOf(s, req, queue)| }

  lemma {:induction false} FirstWantedAppend(s: Store, req: Request, x: seq<int>, y: seq<int>)
    ensures FirstWanted(s, req, x + y) ==
      if FirstWanted(s, req, x).Some? then FirstWanted(s, req, x) else FirstWanted(s, req, y)
  {
    if x == [] {
      assert x + y == y;
    } else {
      assert (x + y)[1..] == x[1..] + y;
      FirstWantedAppend(s, req, x[1..], y);
    }
  }

  // ---------------------------------------------------------------- one batch

  /** The entries checked in a batch: the live ones up to the first wanted one. */
  function ChecksIn(s: Store, req: Request, batch: seq<int>): (n: nat)
    ensures n <= |batch|
    ensures NoneWanted(s, req, batch) ==> n == |LiveOf(s, req, batch)|
  {
    if batch == [] then 0
    else if !Live(s, req, batch[0]) then ChecksIn(s, req, batch[1..])
    else if Compatible(s, req, batch[0]) then 1
    else 1 + ChecksIn(s, req, batch[1..])
  }

  /** A batch finds its first wanted entry, stale entries or not, and checks the live ones before it. */
  lemma {:induction false} BatchFinds(s: Store, req: Request, batch: seq<int>, queue: seq<int>, checks: nat)
    ensures ScanBatch(s, req, batch, queue, checks).found == FirstWanted(s, req, batch)
    ensures ScanBatch(s, req, batch, queue, checks).checks == checks + ChecksIn(s, req, batch)
  {
    if batch != [] {
      BatchFinds(s, req, batch[1..], Lrem(queue, batch[0]), checks);
      BatchFinds(s, req, batch[1..], queue, checks + 1);
    }
  }

  lemma {:induction false} CleanBatch(s: Store, req: Request, batch: seq<int>, queue: seq<int>, checks: nat)
    requires AllLive(s, req, batch)
    ensures ScanBatch(s, req, batch, queue, checks).queue == queue
    ensures NoneWanted(s, req, batch) ==> ScanBatch(s, req, batch, queue, checks).checks == checks + |batch|
  {
    if batch != [] {
      CleanBatch(s, req, batch[1..], queue, checks + 1);
    }
  }

  lemma {:induction false} LremAbsent(queue: seq<int>, u: int)
    requires u !in queue
    ensures Lrem(queue, u) == queue
  {
    if queue != [] {
      LremAbsent(queue[1..], u);
    }
  }

  lemma {:induction false} LremAppend(x: seq<int>, y: seq<int>, u: int)
    ensures Lrem(x + y, u) == Lrem(x, u) + Lrem(y, u)
  {
    if x == [] {
      assert x + y == y;
    } else {
      assert (x + y)[1..] == x[1..] + y;
      LremAppend(x[1..], y, u);
    }
  }

  /** A batch without a hit takes exactly its stale entries out of the list. */
  lemma {:induction false} BatchCleans(s: Store, req: Request,
                                       before: seq<int>, batch: seq<int>, after: seq<int>, checks: nat)
    requires NoneWanted(s, req, batch) && NoDuplicates(before + batch + after)
    ensures ScanBatch(s, req, batch, before + batch + after, checks) ==
              Scan(None, before + LiveOf(s, req, batch) + after, checks + |LiveOf(s, req, batch)|)
    ensures NoDuplicates(before + LiveOf(s, req, batch) + after)
    decreases |batch|
  {
    if batch == [] {
      assert before + batch + after == before + LiveOf(s, req, batch) + after;
    } else {
      var u, rest := batch[0], batch[1..];
      var queue := before + batch + after;
      if Live(s, req, u) {
        assert before + [u] + rest + after == queue;
        BatchCleans(s, req, before + [u], rest, after, checks + 1);
        assert before + [u] + LiveOf(s, req, rest) + after == before + LiveOf(s, req, batch) + after;
      } else {
        assert queue == before + ([u] + (rest + after));
        DropOne(before, u, rest + after);
        assert before + (rest + after) == before + rest + after;
        BatchCleans(s, req, before, rest, after, checks);
      }
    }
  }

  lemma DropOne(x: seq<int>, u: int, y: seq<int>)
    requires NoDuplicates(x + ([u] + y))
    ensures Lrem(x + ([u] + y), u) == x + y && NoDuplicates(x + y)
  {
    OnlyOne(x, u, y);
    WithoutOne(x, u, y);
    LremAppend(x, [u] + y, u);
    LremAbsent(x, u);
    LremAbsent(y, u);
    assert ([u] + y)[1..] == y;
  }

  lemma OnlyOne(x: seq<int>, u: int, y: seq<int>)
    requires NoDuplicates(x + ([u] + y))
    ensures u !in x && u !in y
  {
    var q := x + ([u] + y);
    assert q[|x|] == u;
    assert forall i :: 0 <= i < |x| ==> q[i] == x[i];
    assert forall i :: 0 <= i < |y| ==> q[|x| + 1 + i] == y[i];
  }

  lemma WithoutOne(x: seq<int>, u: int, y: seq<int>)
    requires NoDuplicates(x + ([u] + y))
    ensures NoDuplicates(x + y)
  {
    var q, r := x + ([u] + y), x + y;
    forall i, j | 0 <= i < j < |r| ensures r[i] != r[j] {
      var i', j' := if i < |x| then i else i + 1, if j < |x| then j else j + 1;
      assert r[i] == q[i'] && r[j] == q[j'];
    }
  }

  lemma {:induction false} LremCounts(queue: seq<int>, u: int)
    ensures multiset(Lrem(queue, u)) == multiset(queue)[u := 0]
  {
    if queue != [] {
      assert queue == [queue[0]] + queue[1..];
      LremCounts(queue[1..], u);
    }
  }

  lemma {:induction false} BatchKeepsLive(s: Store, req: Request, batch: seq<int>, queue: seq<int>, checks: nat, u: int)
    ensures
      var kept := multiset(ScanBatch(s, req, batch, queue, checks).queue)[u];
      if Live(s, req, u) then kept == multiset(queue)[u] else kept in {0, multiset(queue)[u]}
  {
    if batch != [] {
      LremCounts(queue, batch[0]);
      BatchKeepsLive(s, req, batch[1..], Lrem(queue, batch[0]), checks, u);
      BatchKeepsLive(s, req, batch[1..], queue, checks + 1, u);
    }
  }

  // ---------------------------------------------------------------- the whole scan

  /** The scan takes out stale entries only, and each of them completely. */
  lemma {:induction false} ScanKeepsLive(s: Store, req: Request,
                                         queue: seq<int>, limit: nat, offset: nat, checks: nat, u: int)
    ensures
      var kept := multiset(ScanFrom(s, req, queue, limit, offset, checks).queue)[u];
      if Live(s, req, u) then kept == multiset(queue)[u] else kept in {0, multiset(queue)[u]}
    decreases limit + BATCH_SIZE - offset
  {
    if offset < limit && checks < MAX_VALID_CHECKS && Batch(queue, offset) != [] {
      var scan := ScanBatch(s, req, Batch(queue, offset), queue, checks);
      BatchKeepsLive(s, req, Batch(queue, offset), queue, checks, u);
      if scan.found.None? {
        ScanKeepsLive(s, req, scan.queue, limit, offset + BATCH_SIZE, scan.checks, u);
      }
    }
  }

  /** However many stale entries there are, a scan checks at most 149 entries. */
  lemma {:induction false} ChecksBounded(s: Store, req: Request, queue: seq<int>, limit: nat, offset: nat, checks: nat)
    requires checks <= MAX_VALID_CHECKS + BATCH_SIZE - 1
    ensures ScanFrom(s, req, queue, limit, offset, checks).checks <= MAX_VALID_CHECKS + BATCH_SIZE - 1
    decreases limit + BATCH_SIZE - offset
  {
    if offset < limit && checks < MAX_VALID_CHECKS && Batch(queue, offset) != [] {
      BatchFinds(s, req, Batch(queue, offset), queue, checks);
      var scan := ScanBatch(s, req, Batch(queue, offset), queue, checks);
      if scan.found.None? {
        ChecksBounded(s, req, scan.queue, limit, offset + BATCH_SIZE, scan.checks);
      }
    }
  }

  lemma ScanQueueChecks(s: Store, req: Request, key: string)
    ensures ScanQueue(s, req, key).checks <= 149
  {
    ChecksBounded(s, req, Queue(s, key), Limit(Queue(s, key)), 0, 0);
  }

  /** What follows a first batch without stale entries and without a hit. */
  lemma AfterCleanBatch(s: Store, req: Request, queue: seq<int>)
    requires |queue| > BATCH_SIZE && AllLive(s, req, queue[..BATCH_SIZE]) && NoneWanted(s, req, queue[..BATCH_SIZE])
    ensures ScanFrom(s, req, queue, Limit(queue), 0, 0) ==
            ScanFrom(s, req, queue, Limit(queue), BATCH_SIZE, BATCH_SIZE)
  {
    var b0 := queue[..BATCH_SIZE];
    assert Batch(queue, 0) == b0;
    BatchFinds(s, req, b0, queue, 0);
    CleanBatch(s, req, b0, queue, 0);
  }

  /**
   * Without stale entries among the newest 100 the scan is the search of these, leaves the list alone
   * and keeps to its bound of 100 checks.
   */
  lemma CleanScan(s: Store, req: Request, key: string)
    requires AllLive(s, req, Take(Queue(s, key), MAX_VALID_CHECKS))
    ensures ScanQueue(s, req, key).found == FirstWanted(s, req, Take(Queue(s, key), MAX_VALID_CHECKS))
    ensures ScanQueue(s, req, key).queue == Queue(s, key)
    ensures ScanQueue(s, req, key).checks <= MAX_VALID_CHECKS
  {
    var queue := Queue(s, key);
    if |queue| <= BATCH_SIZE {
      ShortCleanScan(s, req, queue);
    } else {
      var b0, b1 := queue[..BATCH_SIZE], Batch(queue, BATCH_SIZE);
      assert Batch(queue, 0) == b0;
      assert Take(queue, MAX_VALID_CHECKS) == b0 + b1;
      assert AllLive(s, req, b0) by {
        assert forall i :: 0 <= i < |b0| ==> b0[i] == Take(queue, MAX_VALID_CHECKS)[i];
      }
      BatchFinds(s, req, b0, queue, 0);
      CleanBatch(s, req, b0, queue, 0);
      FirstWantedAppend(s, req, b0, b1);
      if FirstWanted(s, req, b0).None? {
        AfterCleanBatch(s, req, queue);
        assert forall i :: 0 <= i < |b1| ==> b1[i] == Take(queue, MAX_VALID_CHECKS)[BATCH_SIZE + i];
        SecondCleanBatch(s, req, queue, b1);
      }
    }
  }

  lemma ShortCleanScan(s: Store, req: Request, queue: seq<int>)
    requires |queue| <= BATCH_SIZE && AllLive(s, req, queue)
    ensures
      var scan := ScanFrom(s, req, queue, Limit(queue), 0, 0);
      scan.found == FirstWanted(s, req, queue) && scan.queue == queue && scan.checks <= BATCH_SIZE
  {
    BatchFinds(s, req, queue, queue, 0);
    CleanBatch(s, req, queue, queue, 0);
    if queue != [] {
      assert Batch(queue, 0) == queue;
      var checks := ScanBatch(s, req, queue, queue, 0).checks;
      assert ScanFrom(s, req, queue, Limit(queue), 0 + BATCH_SIZE, checks) == Scan(None, queue, checks);
    }
  }

  lemma SecondCleanBatch(s: Store, req: Request, queue: seq<int>, b1: seq<int>)
    requires |queue| > BATCH_SIZE && b1 == Batch(queue, BATCH_SIZE) && AllLive(s, req, b1)
    ensures
      var scan := ScanFrom(s, req, queue, Limit(queue), BATCH_SIZE, BATCH_SIZE);
      scan.found == FirstWanted(s, req, b1) && scan.queue == queue && scan.checks <= MAX_VALID_CHECKS
  {
    BatchFinds(s, req, b1, queue, BATCH_SIZE);
    CleanBatch(s, req, b1, queue, BATCH_SIZE);
    if FirstWanted(s, req, b1).None? {
      var checks := BATCH_SIZE + |b1|;
      assert ScanBatch(s, req, b1, queue, BATCH_SIZE) == Scan(None, queue, checks);
      assert BATCH_SIZE + BATCH_SIZE >= Limit(queue) || checks >= MAX_VALID_CHECKS;
      assert ScanFrom(s, req, queue, Limit(queue), BATCH_SIZE + BATCH_SIZE, checks) == Scan(None, queue, checks);
    }
  }

  // ---------------------------------------------------------------- stale entries

  /** What is left for the next batch: removing stale entries moves the list under the offset. */
  function Next(s: Store, req: Request, rest: seq<int>): seq<int> {
    var batch := Take(rest, BATCH_SIZE);
    Drop(rest, |batch| + Stale(s, req, batch))
  }

  /**
   * The search by entries instead of offsets: batch by batch, and after each batch as many entries
   * are stepped over as it held stale ones.
   */
  function Stepping(s: Store, req: Request, rest: seq<int>, limit: nat, offset: nat, checks: nat): Stepped
    decreases limit + BATCH_SIZE - offset
  {
    if offset >= limit || checks >= MAX_VALID_CHECKS || rest == [] then Stepped(None, checks)
    else
      var batch := Take(rest, BATCH_SIZE);
      var here, now := FirstWanted(s, req, batch), checks + ChecksIn(s, req, batch);
      if here.Some? then Stepped(here, now)
      else Stepping(s, req, Next(s, req, rest), limit, offset + BATCH_SIZE, now)
  }

  datatype Stepped = Stepped(found: Option<int>, checks: nat)

  /** One batch without a hit, and where the next one starts. */
  lemma NextBatch(s: Store, req: Request, queue: seq<int>, offset: nat, checks: nat)
    requires offset < |queue| && NoDuplicates(queue) && NoneWanted(s, req, Batch(queue, offset))
    ensures
      var batch := Batch(queue, offset);
      var scan := ScanBatch(s, req, batch, queue, checks);
      && scan.checks == checks + |LiveOf(s, req, batch)|
      && NoDuplicates(scan.queue)
      && Drop(scan.queue, offset + BATCH_SIZE) == Next(s, req, Drop(queue, offset))
  {
    var batch := Batch(queue, offset);
    var before, after := queue[..offset], queue[offset + |batch|..];
    assert queue == before + batch + after;
    BatchCleans(s, req, before, batch, after, checks);
    NextAfter(s, req, before, batch, after);
    assert Drop(queue, offset) == batch + after;
  }

  lemma NextAfter(s: Store, req: Request, before: seq<int>, batch: seq<int>, after: seq<int>)
    requires |batch| <= BATCH_SIZE && (after == [] || |batch| == BATCH_SIZE)
    ensures Drop(before + LiveOf(s, req, batch) + after, |before| + BATCH_SIZE) == Next(s, req, batch + after)
  {
    assert Take(batch + after, BATCH_SIZE) == batch;
    DropShift(before, LiveOf(s, req, batch), batch, after);
  }

  lemma DropShift(before: seq<int>, live: seq<int>, batch: seq<int>, after: seq<int>)
    requires |live| <= |batch| <= BATCH_SIZE && (after == [] || |batch| == BATCH_SIZE)
    ensures Drop(before + live + after, |before| + BATCH_SIZE) == Drop(batch + after, |batch| + (|batch| - |live|))
  {
  }

  lemma ScanStep(s: Store, req: Request, queue: seq<int>, limit: nat, offset: nat, checks: nat, batch: seq<int>)
    requires offset < limit && checks < MAX_VALID_CHECKS && batch != [] && batch == Batch(queue, offset)
    ensures
      var scan := ScanBatch(s, req, batch, queue, checks);
      ScanFrom(s, req, queue, limit, offset, checks) ==
        if scan.found.Some? then scan
        else ScanFrom(s, req, scan.queue, limit, offset + BATCH_SIZE, scan.checks)
  {
  }

  /** One turn of the stepping search, over the same batch and by what the scan makes of it. */
  lemma SteppingStep(s: Store, req: Request, rest: seq<int>, limit: nat, offset: nat, checks: nat,
                     batch: seq<int>, queue: seq<int>)
    requires offset < limit && checks < MAX_VALID_CHECKS && rest != [] && batch == Take(rest, BATCH_SIZE)
    ensures
      var scan := ScanBatch(s, req, batch, queue, checks);
      Stepping(s, req, rest, limit, offset, checks) ==
        if scan.found.Some? then Stepped(scan.found, scan.checks)
        else Stepping(s, req, Next(s, req, rest), limit, offset + BATCH_SIZE, scan.checks)
  {
    BatchFinds(s, req, batch, queue, checks);
  }

  predicate SameResult(scan: Scan, stepped: Stepped) { scan.found == stepped.found && scan.checks == stepped.checks }

  lemma SameBatch(queue: seq<int>, offset: nat)
    requires offset < |queue|
    ensures Batch(queue, offset) == Take(Drop(queue, offset), BATCH_SIZE) != []
  {
  }

  /** One turn of both loops, given what the turns after it do. */
  lemma ScanTurn(s: Store, req: Request, queue: seq<int>, rest: seq<int>, batch: seq<int>,
                 limit: nat, offset: nat, checks: nat)
    requires offset < limit && checks < MAX_VALID_CHECKS
    requires batch != [] && batch == Batch(queue, offset) && batch == Take(rest, BATCH_SIZE)
    requires
      var scan := ScanBatch(s, req, batch, queue, checks);
      scan.found.None? ==>
        SameResult(ScanFrom(s, req, scan.queue, limit, offset + BATCH_SIZE, scan.checks),
                   Stepping(s, req, Next(s, req, rest), limit, offset + BATCH_SIZE, scan.checks))
    ensures SameResult(ScanFrom(s, req, queue, limit, offset, checks), Stepping(s, req, rest, limit, offset, checks))
  {
    ScanStep(s, req, queue, limit, offset, checks, batch);
    SteppingStep(s, req, rest, limit, offset, checks, batch, queue);
  }

  lemma BothEnd(s: Store, req: Request, queue: seq<int>, limit: nat, offset: nat, checks: nat)
    requires offset >= limit || checks >= MAX_VALID_CHECKS || offset >= |queue|
    ensures SameResult(ScanFrom(s, req, queue, limit, offset, checks),
                       Stepping(s, req, Drop(queue, offset), limit, offset, checks))
  {
  }

  /** The batched scan of a list is the stepping search, whatever is stale, up to the number of checks. */
  lemma {:induction false} ScanSteps(s: Store, req: Request, queue: seq<int>, limit: nat, offset: nat, checks: nat)
    requires NoDuplicates(queue)
    ensures SameResult(ScanFrom(s, req, queue, limit, offset, checks),
                       Stepping(s, req, Drop(queue, offset), limit, offset, checks))
    decreases limit + BATCH_SIZE - offset
  {
    if offset >= limit || checks >= MAX_VALID_CHECKS || offset >= |queue| {
      BothEnd(s, req, queue, limit, offset, checks);
    } else {
      var scan := ScanBatch(s, req, Batch(queue, offset), queue, checks);
      BatchFinds(s, req, Batch(queue, offset), queue, checks);
      if scan.found.None? {
        NextBatch(s, req, queue, offset, checks);
        ScanSteps(s, req, scan.queue, limit, offset + BATCH_SIZE, scan.checks);
      }
      SameBatch(queue, offset);
      ScanTurn(s, req, queue, Drop(queue, offset), Batch(queue, offset), limit, offset, checks);
    }
  }

  /** The entries looked at while none is wanted. */
  function Visited(s: Store, req: Request, rest: seq<int>, limit: nat, offset: nat, checks: nat): seq<int>
    decreases limit + BATCH_SIZE - offset
  {
    if offset >= limit || checks >= MAX_VALID_CHECKS || rest == [] then []
    else
      var batch := Take(rest, BATCH_SIZE);
      var live := checks + |LiveOf(s, req, batch)|;
      batch + Visited(s, req, Next(s, req, rest), limit, offset + BATCH_SIZE, live)
  }

  function VisitedOf(s: Store, req: Request, queue: seq<int>): seq<int> { Visited(s, req, queue, Limit(queue), 0, 0) }

  lemma VisitedStep(s: Store, req: Request, rest: seq<int>, limit: nat, offset: nat, checks: nat)
    requires offset < limit && checks < MAX_VALID_CHECKS && rest != []
    ensures
      var here := FirstWanted(s, req, Take(rest, BATCH_SIZE));
      var live := checks + |LiveOf(s, req, Take(rest, BATCH_SIZE))|;
      FirstWanted(s, req, Visited(s, req, rest, limit, offset, checks)) ==
        if here.Some? then here
        else FirstWanted(s, req, Visited(s, req, Next(s, req, rest), limit, offset + BATCH_SIZE, live))
  {
    var batch := Take(rest, BATCH_SIZE);
    var live := checks + |LiveOf(s, req, batch)|;
    FirstWantedAppend(s, req, batch, Visited(s, req, Next(s, req, rest), limit, offset + BATCH_SIZE, live));
  }

  /** The stepping search finds the first wanted entry of those it visits. */
  lemma {:induction false} SteppingFinds(s: Store, req: Request, rest: seq<int>, limit: nat, offset: nat, checks: nat)
    ensures Stepping(s, req, rest, limit, offset, checks).found ==
            FirstWanted(s, req, Visited(s, req, rest, limit, offset, checks))
    decreases limit + BATCH_SIZE - offset
  {
    if offset < limit && checks < MAX_VALID_CHECKS && rest != [] {
      VisitedStep(s, req, rest, limit, offset, checks);
      if FirstWanted(s, req, Take(rest, BATCH_SIZE)).None? {
        var live := checks + |LiveOf(s, req, Take(rest, BATCH_SIZE))|;
        SteppingFinds(s, req, Next(s, req, rest), limit, offset + BATCH_SIZE, live);
      }
    }
  }

  lemma StillWithin(rest: seq<int>, n: nat, m: nat, x: int)
    ensures x in Take(rest, n) || x in Drop(rest, m) ==> x in rest
  {
  }

  lemma {:induction false} VisitedWithin(s: Store, req: Request,
                                         rest: seq<int>, limit: nat, offset: nat, checks: nat, x: int)
    requires x in Visited(s, req, rest, limit, offset, checks)
    ensures x in rest
    decreases limit + BATCH_SIZE - offset
  {
    var batch := Take(rest, BATCH_SIZE);
    StillWithin(rest, BATCH_SIZE, |batch| + Stale(s, req, batch), x);
    if x !in batch {
      VisitedWithin(s, req, Next(s, req, rest), limit, offset + BATCH_SIZE, checks + |LiveOf(s, req, batch)|, x);
    }
  }

  lemma {:induction false} FirstWantedAt(s: Store, req: Request, queue: seq<int>, k: nat)
    requires k < |queue| && NoneWanted(s, req, queue[..k]) && Wanted(s, req, queue[k])
    ensures FirstWanted(s, req, queue) == Some(queue[k])
  {
    if k > 0 {
      assert queue[..k][0] == queue[0] && queue[1..][..k - 1] == queue[..k][1..];
      FirstWantedAt(s, req, queue[1..], k - 1);
    }
  }

  /**
   * Whatever is stale, the scan of a list without repetition finds the first wanted one of the entries
   * it visits.
   */
  lemma ScanFindsFirstVisited(s: Store, req: Request, key: string)
    requires NoDuplicates(Queue(s, key))
    ensures ScanQueue(s, req, key).found == FirstWanted(s, req, VisitedOf(s, req, Queue(s, key)))
  {
    var queue := Queue(s, key);
    assert Drop(queue, 0) == queue;
    ScanSteps(s, req, queue, Limit(queue), 0, 0);
    SteppingFinds(s, req, queue, Limit(queue), 0, 0);
  }

  /** What is left of the list after `b` batches without a hit. */
  function Rest(s: Store, req: Request, queue: seq<int>, b: nat): seq<int> {
    if b == 0 then queue else Next(s, req, Rest(s, req, queue, b - 1))
  }

  /** The stale entries in the first `b` batches. */
  function StaleIn(s: Store, req: Request, queue: seq<int>, b: nat): nat {
    if b == 0 then 0
    else StaleIn(s, req, queue, b - 1) + Stale(s, req, Take(Rest(s, req, queue, b - 1), BATCH_SIZE))
  }

  /** Batch `b` starts at position 50 * b plus the number of stale entries in the batches before it. */
  lemma {:induction false} BatchStarts(s: Store, req: Request, queue: seq<int>, b: nat)
    ensures Rest(s, req, queue, b) == Drop(queue, BATCH_SIZE * b + StaleIn(s, req, queue, b))
  {
    if b > 0 {
      BatchStarts(s, req, queue, b - 1);
      NextStart(s, req, queue, Rest(s, req, queue, b - 1), BATCH_SIZE * (b - 1) + StaleIn(s, req, queue, b - 1));
    }
  }

  lemma NextStart(s: Store, req: Request, queue: seq<int>, rest: seq<int>, start: nat)
    requires rest == Drop(queue, start)
    ensures Next(s, req, rest) == Drop(queue, start + BATCH_SIZE + Stale(s, req, Take(rest, BATCH_SIZE)))
  {
    DropMore(queue, start, Stale(s, req, Take(rest, BATCH_SIZE)));
  }

  lemma DropMore(queue: seq<int>, start: nat, stale: nat)
    ensures
      var rest := Drop(queue, start);
      Drop(rest, |Take(rest, BATCH_SIZE)| + stale) == Drop(queue, start + BATCH_SIZE + stale)
  {
  }

  /** The next batch finds a wanted entry among its own if nothing before it is wanted. */
  lemma FoundInBatch(s: Store, req: Request, queue: seq<int>, start: nat, k: nat, limit: nat, offset: nat, checks: nat)
    requires start <= k < |queue| && k < start + BATCH_SIZE && offset < limit && checks < MAX_VALID_CHECKS
    requires NoneWanted(s, req, queue[..k]) && Wanted(s, req, queue[k])
    ensures Stepping(s, req, queue[start..], limit, offset, checks).found == Some(queue[k])
  {
    var batch := Take(queue[start..], BATCH_SIZE);
    assert batch[k - start] == queue[k];
    assert batch[..k - start] == queue[..k][start..];
    FirstWantedAt(s, req, batch, k - start);
  }

  /**
   * When the scan meets the reference search of the newest 100 entries: the wanted entry at position
   * `k` is found exactly when it stands in the first batch, or beyond the entries stepped over after
   * it, of which there are as many as the first batch held stale ones.
   */
  lemma NewestFoundIff(s: Store, req: Request, key: string, k: nat)
    requires NoDuplicates(Queue(s, key)) && k < |Queue(s, key)| && k < MAX_VALID_CHECKS
    requires NoneWanted(s, req, Queue(s, key)[..k]) && Wanted(s, req, Queue(s, key)[k])
    ensures ScanQueue(s, req, key).found == Some(Queue(s, key)[k]) <==>
            k < BATCH_SIZE || k >= BATCH_SIZE + Stale(s, req, Take(Queue(s, key), BATCH_SIZE))
  {
    var queue := Queue(s, key);
    ScanSteps(s, req, queue, Limit(queue), 0, 0);
    assert Drop(queue, 0) == queue == queue[0..];
    if k < BATCH_SIZE {
      FoundInBatch(s, req, queue, 0, k, Limit(queue), 0, 0);
    } else {
      BeyondFirst(s, req, queue, k);
    }
  }

  /** The search goes on after a first batch without a hit. */
  lemma SecondStep(s: Store, req: Request, queue: seq<int>)
    requires |queue| > BATCH_SIZE && NoneWanted(s, req, Take(queue, BATCH_SIZE))
    ensures Stepping(s, req, queue, Limit(queue), 0, 0) ==
            Stepping(s, req, Next(s, req, queue), Limit(queue), BATCH_SIZE, |LiveOf(s, req, Take(queue, BATCH_SIZE))|)
  {
  }

  lemma SteppedOver(s: Store, req: Request, queue: seq<int>, start: nat, k: nat,
                    limit: nat, offset: nat, checks: nat)
    requires NoDuplicates(queue) && k < |queue| && k < start
    ensures Stepping(s, req, Drop(queue, start), limit, offset, checks).found != Some(queue[k])
  {
    var next := Drop(queue, start);
    SteppingFinds(s, req, next, limit, offset, checks);
    if queue[k] in Visited(s, req, next, limit, offset, checks) {
      VisitedWithin(s, req, next, limit, offset, checks, queue[k]);
      assert false;
    }
  }

  lemma BeyondFirst(s: Store, req: Request, queue: seq<int>, k: nat)
    requires NoDuplicates(queue) && BATCH_SIZE <= k < |queue| && k < MAX_VALID_CHECKS
    requires NoneWanted(s, req, queue[..k]) && Wanted(s, req, queue[k])
    ensures Stepping(s, req, queue, Limit(queue), 0, 0).found == Some(queue[k]) <==>
            k >= BATCH_SIZE + Stale(s, req, Take(queue, BATCH_SIZE))
  {
    var first := Take(queue, BATCH_SIZE);
    var start, live := BATCH_SIZE + Stale(s, req, first), |LiveOf(s, req, first)|;
    assert first == queue[..k][..BATCH_SIZE];
    SecondStep(s, req, queue);
    if k >= start {
      FoundInBatch(s, req, queue, start, k, Limit(queue), BATCH_SIZE, live);
    } else {
      SteppedOver(s, req, queue, start, k, Limit(queue), BATCH_SIZE, live);
    }
  }

  /**
   * When nobody among the newest 100 is wanted, the reference search finds nobody; the scan agrees
   * exactly when none of the entries it visits is wanted. It visits no other ones unless there is a
   * stale entry among the first two batches.
   */
  lemma NobodyFoundIff(s: Store, req: Request, key: string)
    requires NoDuplicates(Queue(s, key)) && NoneWanted(s, req, Take(Queue(s, key), MAX_VALID_CHECKS))
    ensures ScanQueue(s, req, key).found.None? <==> NoneWanted(s, req, VisitedOf(s, req, Queue(s, key)))
    ensures AllLive(s, req, Take(Queue(s, key), MAX_VALID_CHECKS)) ==> ScanQueue(s, req, key).found.None?
  {
    ScanFindsFirstVisited(s, req, key);
    if AllLive(s, req, Take(Queue(s, key), MAX_VALID_CHECKS)) {
      CleanScan(s, req, key);
    }
  }

  // ---------------------------------------------------------------- more than 100 checks

  /** The entries from `from` to `to` are live but not wanted. */
  predicate Unwanted(s: Store, req: Request, queue: seq<int>, from: nat, to: nat)
    requires to <= |queue|
  {
    forall i :: from <= i < to ==> Live(s, req, queue[i]) && !Compatible(s, req, queue[i])
  }

  lemma {:induction false} AllUnwanted(s: Store, req: Request, batch: seq<int>)
    requires Unwanted(s, req, batch, 0, |batch|)
    ensures ChecksIn(s, req, batch) == |LiveOf(s, req, batch)| == |batch| && NoneWanted(s, req, batch)
  {
    if batch != [] {
      AllUnwanted(s, req, batch[1..]);
    }
  }

  lemma UnwantedStep(s: Store, req: Request, rest: seq<int>, limit: nat, offset: nat, checks: nat)
    requires |rest| >= BATCH_SIZE && Unwanted(s, req, rest, 0, BATCH_SIZE)
    requires offset < limit && checks < MAX_VALID_CHECKS
    ensures Stepping(s, req, rest, limit, offset, checks) ==
            Stepping(s, req, rest[BATCH_SIZE..], limit, offset + BATCH_SIZE, checks + BATCH_SIZE)
  {
    var batch := Take(rest, BATCH_SIZE);
    assert forall i :: 0 <= i < |batch| ==> batch[i] == rest[i];
    AllUnwanted(s, req, batch);
  }

  /** One stale entry at the head of the list is enough to exceed the bound of 100 by the most possible. */
  lemma OneStaleEntry(s: Store, req: Request, key: string)
    requires NoDuplicates(Queue(s, key)) && |Queue(s, key)| >= 151
    requires !Live(s, req, Queue(s, key)[0]) && Unwanted(s, req, Queue(s, key), 1, 151)
    ensures ScanQueue(s, req, key).checks == 149
  {
    var queue := Queue(s, key);
    var limit, first := Limit(queue), Take(queue, BATCH_SIZE);
    ScanSteps(s, req, queue, limit, 0, 0);
    assert Drop(queue, 0) == queue;
    assert forall i :: 0 <= i < 49 ==> first[1..][i] == queue[i + 1];
    AllUnwanted(s, req, first[1..]);
    SecondStep(s, req, queue);
    assert Next(s, req, queue) == queue[51..];
    UnwantedFrom(s, req, queue, 51);
    UnwantedStep(s, req, queue[51..], limit, 50, 49);
    assert queue[51..][50..] == queue[101..];
    UnwantedFrom(s, req, queue, 101);
    UnwantedStep(s, req, queue[101..], limit, 100, 99);
  }

  lemma UnwantedFrom(s: Store, req: Request, queue: seq<int>, start: nat)
    requires start + BATCH_SIZE <= |queue| && Unwanted(s, req, queue, start, start + BATCH_SIZE)
    ensures Unwanted(s, req, queue[start..], 0, BATCH_SIZE)
  {
    assert forall i :: 0 <= i < BATCH_SIZE ==> queue[start..][i] == queue[start + i];
  }

  /** Such a list: 150 users too old for the caller, after one whose state has expired. */
  function Line(req: Request): seq<int> { seq(151, i => req.id + 1 + i) }

  function Crowd(req: Request): Store {
    Store(map u | u in Line(req) && u != req.id + 1 :: NO_STATE.(age := 80), map["q" := Line(req)], {})
  }

  lemma CrowdUnwanted(req: Request)
    requires req.MaxAge() < 80
    ensures NoDuplicates(Line(req)) && |Line(req)| == 151 && Queue(Crowd(req), "q") == Line(req)
    ensures !Live(Crowd(req), req, Line(req)[0]) && Unwanted(Crowd(req), req, Line(req), 1, 151)
  {
    var line := Line(req);
    forall i | 1 <= i < 151 ensures Live(Crowd(req), req, line[i]) && !Compatible(Crowd(req), req, line[i]) {
      assert line[i] in line && line[i] == req.id + 1 + i;
    }
  }

  lemma BoundIsReached(req: Request)
    requires req.MaxAge() < 80
    ensures ScanQueue(Crowd(req), req, "q").checks == 149
  {
    CrowdUnwanted(req);
    OneStaleEntry(Crowd(req), req, "q");
  }

  // ---------------------------------------------------------------- at most 1000 entries

  lemma {:induction false} VisitedAtMost(s: Store, req: Request, rest: seq<int>, limit: nat, offset: nat, checks: nat)
    requires limit <= 1000 && offset <= 1000 && offset % 50 == 0
    ensures |Visited(s, req, rest, limit, offset, checks)| <= 1000 - offset
    decreases limit + BATCH_SIZE - offset
  {
    if offset < limit && checks < MAX_VALID_CHECKS && rest != [] {
      var live := checks + |LiveOf(s, req, Take(rest, BATCH_SIZE))|;
      VisitedAtMost(s, req, Next(s, req, rest), limit, offset + BATCH_SIZE, live);
    }
  }

  predicate NoneLive(s: Store, req: Request, queue: seq<int>) {
    forall i :: 0 <= i < |queue| ==> !Live(s, req, queue[i])
  }

  lemma {:induction false} AllStale(s: Store, req: Request, batch: seq<int>)
    requires NoneLive(s, req, batch)
    ensures LiveOf(s, req, batch) == []
  {
    if batch != [] {
      AllStale(s, req, batch[1..]);
    }
  }

  lemma {:induction false} VisitedStale(s: Store, req: Request, rest: seq<int>, offset: nat)
    requires NoneLive(s, req, rest) && offset <= 1000 && offset % 50 == 0 && |rest| >= 2 * (1000 - offset) - 50
    ensures |Visited(s, req, rest, 1000, offset, 0)| == 1000 - offset
    decreases 1000 - offset
  {
    if offset < 1000 {
      var batch := Take(rest, BATCH_SIZE);
      AllStale(s, req, batch);
      assert Next(s, req, rest) == Drop(rest, 100);
      VisitedStale(s, req, Drop(rest, 100), offset + BATCH_SIZE);
    }
  }

  /** A scan visits at most 1000 entries, and does so in a list that is stale all over. */
  lemma AtMostThousandVisited(s: Store, req: Request, key: string)
    ensures |VisitedOf(s, req, Queue(s, key))| <= 1000
    ensures NoneLive(s, req, Queue(s, key)) && |Queue(s, key)| >= 1950 ==> |VisitedOf(s, req, Queue(s, key))| == 1000
  {
    var queue := Queue(s, key);
    VisitedAtMost(s, req, queue, Limit(queue), 0, 0);
    if NoneLive(s, req, queue) && |queue| >= 1950 {
      VisitedStale(s, req, queue, 0);
    }
  }
}
