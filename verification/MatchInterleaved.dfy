/**
 * Searches whose scan and claim are two steps (services/matching_engine.py), with the queue lists:
 * between them other users search, cancel, block, and end matches. The re-checks and the transaction
 * are one step here; MatchClaims takes them apart.
 */
module MatchInterleaved {
  import opened Wrappers
  import opened Routing
  import opened MatchEngine
  import opened MatchScan
  import opened MatchInvariants

  /** A candidate the scan has found in the queue `key`. */
  datatype Found = Found(req: Request, candidate: int, key: string)

  datatype World = World(store: Store, found: map<int, Found>)

  datatype Move =
    | Perform(op: Operation)
    | Spot(f: Found)
    | Claim(c: int)
    | GiveUp(req: Request)                      // nobody found: the caller joins the queue

  /** A caller is idle and has one search in flight; a candidate is spotted in a queue of the search. */
  predicate Enabled(w: World, m: Move) {
    match m
    case Perform(op) => MatchInvariants.Enabled(w.store, op) && (op.Search? ==> op.req.id !in w.found)
    case Spot(f) =>
      && f.req.id !in w.store.users && f.req.id !in w.found && WellFormed(f.req)
      && f.key in TargetKeys(f.req.gender, f.req.target, f.req.province)
      && f.candidate in Queue(w.store, f.key) && Wanted(w.store, f.req, f.candidate)
    case Claim(c) => c in w.found
    case GiveUp(req) => req.id !in w.store.users && req.id !in w.found && WellFormed(req)
  }

  /** The re-checks: the candidate is queuing, wherever, and neither blocks the other. */
  predicate Passes(s: Store, f: Found) {
    && IsQueuing(s, f.candidate)
    && (f.req.id, f.candidate) !in s.blocks && (f.candidate, f.req.id) !in s.blocks
  }

  function Apply(w: World, m: Move): World
    requires Enabled(w, m)
  {
    match m
    case Perform(op) => w.(store := MatchInvariants.Apply(w.store, op))
    case Spot(f) => w.(found := w.found[f.req.id := f])
    case Claim(c) =>
      var f := w.found[c];
      World(if Passes(w.store, f) then Paired(w.store, f.req, f.candidate, f.key) else w.store, w.found - {c})
    case GiveUp(req) => w.(store := Enqueued(w.store, req))
  }

  predicate Runs(w: World, moves: seq<Move>)
    decreases |moves|
  {
    moves == [] || (Enabled(w, moves[0]) && Runs(Apply(w, moves[0]), moves[1..]))
  }

  function Run(w: World, moves: seq<Move>): World
    requires Runs(w, moves)
    decreases |moves|
  {
    if moves == [] then w else Run(Apply(w, moves[0]), moves[1..])
  }

  /** Callers in flight are idle, and never look for themselves. */
  predicate CallersIdle(w: World) {
    forall c :: c in w.found ==> c !in w.store.users && w.found[c].req.id == c != w.found[c].candidate &&
                                 WellFormed(w.found[c].req)
  }

  /** The claim takes the candidate out of the queue they wait in, or is not made. */
  predicate InPlace(w: World, m: Move)
    requires Enabled(w, m)
  {
    m.Claim? && Passes(w.store, w.found[m.c]) ==>
      w.found[m.c].key == w.store.users[w.found[m.c].candidate].queueKey
  }

  lemma MoveKeepsIdle(w: World, m: Move)
    requires CallersIdle(w) && Inv(w.store) && Enabled(w, m)
    ensures CallersIdle(Apply(w, m))
  {
    match m
    case Perform(op) =>
      forall u | u in MatchInvariants.Apply(w.store, op).users && u !in w.store.users ensures u !in w.found {
        NewUser(w.store, op, u);
      }
    case _ =>
  }

  lemma NewUser(s: Store, op: Operation, u: int)
    requires Inv(s) && MatchInvariants.Enabled(s, op)
    requires u in MatchInvariants.Apply(s, op).users && u !in s.users
    ensures op.Search? && op.req.id == u
  {
    match op
    case Search(req) =>
      SearchRefinesReference(s, req);
      var found := FirstFound(s, req, TargetKeys(req.gender, req.target, req.province));
      if found.Some? {
        assert IsQueuing(s, found.value.0);
      }
    case _ =>
  }

  /** A move keeps lists and states in agreement exactly when it is not a claim in the wrong queue. */
  lemma MoveKeepsIff(w: World, m: Move)
    requires CallersIdle(w) && Inv(w.store) && Enabled(w, m)
    ensures IndexAgrees(Apply(w, m).store) <==> InPlace(w, m)
    ensures InPlace(w, m) ==> Inv(Apply(w, m).store)
  {
    match m
    case Perform(op) => StepKeepsInv(w.store, op);
    case Spot(_) =>
    case Claim(c) =>
      var f := w.found[c];
      if Passes(w.store, f) {
        PairedKeepsIndexIff(w.store, f.req, f.candidate, f.key);
        PairedKeepsMutual(w.store, f.req, f.candidate, f.key);
        assert AllGenuine(Paired(w.store, f.req, f.candidate, f.key));
      }
    case GiveUp(req) =>
      EnqueuedKeepsIndex(w.store, req);
      EnqueuedIsGenuine(w.store, req);
  }

  /** Lists and states agree after every move of the run. */
  ghost predicate AlwaysAgrees(w: World, moves: seq<Move>)
    requires Runs(w, moves)
    decreases |moves|
  {
    moves == [] || (IndexAgrees(Apply(w, moves[0]).store) && AlwaysAgrees(Apply(w, moves[0]), moves[1..]))
  }

  predicate AlwaysInPlace(w: World, moves: seq<Move>)
    requires Runs(w, moves)
    decreases |moves|
  {
    moves == [] || (InPlace(w, moves[0]) && AlwaysInPlace(Apply(w, moves[0]), moves[1..]))
  }

  /**
   * In every interleaving, lists and states agree after every move if and only if every candidate
   * claimed still waits in the queue they were spotted in.
   */
  lemma {:induction false} AgreesIffInPlace(w: World, moves: seq<Move>)
    requires CallersIdle(w) && Inv(w.store) && Runs(w, moves)
    ensures AlwaysAgrees(w, moves) <==> AlwaysInPlace(w, moves)
    decreases |moves|
  {
    if moves != [] {
      MoveKeepsIff(w, moves[0]);
      MoveKeepsIdle(w, moves[0]);
      if InPlace(w, moves[0]) {
        AgreesIffInPlace(Apply(w, moves[0]), moves[1..]);
      }
    }
  }

  // ---------------------------------------------------------------- a candidate who moves

  const EMPTY := Store(map[], map[], {})

  /** Without users a search finds nobody. */
  lemma AloneJoins(s: Store, req: Request)
    requires Inv(s) && s.users == map[]
    ensures Searched(s, req).0 == Enqueued(s, req)
  {
    SearchRefinesReference(s, req);
    assert FirstFound(s, req, TargetKeys(req.gender, req.target, req.province)).None?;
  }

  /** B waits, A spots B, B cancels and joins another queue, A claims. */
  function MovedAway(a: Request, b: Request, later: Request): seq<Move> {
    [Perform(Search(b)), Spot(Found(a, b.id, b.Key())), Perform(Cancel(b.id)), Perform(Search(later)), Claim(a.id)]
  }

  predicate Meet(a: Request, b: Request, later: Request) {
    && WellFormed(a) && WellFormed(b) && WellFormed(later)
    && later.id == b.id != a.id && later.Key() != b.Key()
    && b.Key() in TargetKeys(a.gender, a.target, a.province)
    && Wanted(Enqueued(EMPTY, b), a, b.id)
  }

  lemma EmptyIsInOrder()
    ensures Inv(EMPTY)
  {
    assert IndexAgrees(EMPTY);
  }

  function Waiting(b: Request): Store { Enqueued(EMPTY, b) }

  function Gone(b: Request): Store { Removed(Waiting(b), b.id) }

  lemma BWaits(a: Request, b: Request, later: Request)
    requires Meet(a, b, later)
    ensures Searched(EMPTY, b).0 == Waiting(b) && Inv(Waiting(b)) && Waiting(b).users.Keys == {b.id}
    ensures IsQueuing(Waiting(b), b.id) && b.id in Queue(Waiting(b), b.Key())
  {
    EmptyIsInOrder();
    AloneJoins(EMPTY, b);
    StepKeepsInv(EMPTY, Search(b));
    assert Queue(Waiting(b), b.Key())[0] == b.id;
  }

  lemma BMoves(a: Request, b: Request, later: Request)
    requires Meet(a, b, later)
    ensures Inv(Gone(b)) && Gone(b).users == map[] && Gone(b).blocks == {}
    ensures Searched(Gone(b), later).0 == Enqueued(Gone(b), later) && IndexAgrees(Enqueued(Gone(b), later))
  {
    BWaits(a, b, later);
    StepKeepsInv(Waiting(b), Cancel(b.id));
    AloneJoins(Gone(b), later);
    EnqueuedKeepsIndex(Gone(b), later);
  }

  /** The claim of a user who waits in another queue than the one they were spotted in. */
  lemma MisplacedClaim(s: Store, f: Found, home: string)
    requires IndexAgrees(s) && IsQueuing(s, f.candidate) && s.users[f.candidate].queueKey == home != f.key
    requires f.req.id !in s.users
    ensures
      var r := Paired(s, f.req, f.candidate, f.key);
      && IsMatched(r, f.candidate) && r.users[f.candidate].matchedWith == Some(f.req.id) && IsMatched(r, f.req.id)
      && Occurrences(r, home, f.candidate) == 1 && !IndexAgrees(r)
  {
    assert Occurrences(s, home, f.candidate) == Expected(s, home, f.candidate);
    PairedOccurrences(s, f.req, f.candidate, f.key, home, f.candidate);
    PairedKeepsIndexIff(s, f.req, f.candidate, f.key);
  }

  lemma OneMore(w: World, m: Move, rest: seq<Move>, end: World)
    requires Enabled(w, m) && Runs(Apply(w, m), rest) && Run(Apply(w, m), rest) == end
    ensures Runs(w, [m] + rest) && Run(w, [m] + rest) == end
  {
    assert ([m] + rest)[1..] == rest;
  }

  predicate Goes(w: World, m: Move, next: World) { Enabled(w, m) && Apply(w, m) == next }

  lemma FiveMoves(m0: Move, m1: Move, m2: Move, m3: Move, m4: Move,
                  w0: World, w1: World, w2: World, w3: World, w4: World, w5: World)
    requires Goes(w0, m0, w1) && Goes(w1, m1, w2) && Goes(w2, m2, w3) && Goes(w3, m3, w4) && Goes(w4, m4, w5)
    ensures Runs(w0, [m0, m1, m2, m3, m4]) && Run(w0, [m0, m1, m2, m3, m4]) == w5
  {
    OneMore(w4, m4, [], w5);
    assert [m4] + [] == [m4] && [m3] + [m4] == [m3, m4] && [m2] + [m3, m4] == [m2, m3, m4];
    OneMore(w3, m3, [m4], w5);
    OneMore(w2, m2, [m3, m4], w5);
    OneMore(w1, m1, [m2, m3, m4], w5);
    assert [m1] + [m2, m3, m4] == [m1, m2, m3, m4];
    OneMore(w0, m0, [m1, m2, m3, m4], w5);
    assert [m0] + [m1, m2, m3, m4] == [m0, m1, m2, m3, m4];
  }

  /** B joins twice, A spots B and claims B, each a move of its own. */
  lemma MovesAreMade(a: Request, b: Request, later: Request, found: map<int, Found>)
    requires Meet(a, b, later) && found == map[a.id := Found(a, b.id, b.Key())]
    ensures Goes(World(EMPTY, map[]), Perform(Search(b)), World(Waiting(b), map[]))
    ensures Goes(World(Waiting(b), map[]), Spot(found[a.id]), World(Waiting(b), found))
    ensures Goes(World(Waiting(b), found), Perform(Cancel(b.id)), World(Gone(b), found))
    ensures Goes(World(Gone(b), found), Perform(Search(later)), World(Enqueued(Gone(b), later), found))
  {
    BWaits(a, b, later);
    BMoves(a, b, later);
  }

  lemma ClaimMade(s: Store, found: map<int, Found>, c: int)
    requires c in found && Passes(s, found[c])
    ensures
      var f := found[c];
      Goes(World(s, found), Claim(c), World(Paired(s, f.req, f.candidate, f.key), found - {c}))
  {
  }

  /** B, who has moved, waits in the other queue and passes the re-checks. */
  lemma BPasses(a: Request, b: Request, later: Request)
    requires Meet(a, b, later)
    ensures
      var s := Enqueued(Gone(b), later);
      && IndexAgrees(s) && IsQueuing(s, b.id) && s.users[b.id].queueKey == later.Key()
      && a.id !in s.users && Passes(s, Found(a, b.id, b.Key()))
  {
    BMoves(a, b, later);
  }

  /**
   * The failing interleaving, from an empty engine: the claim of a candidate who has moved to another
   * queue matches the two and leaves the candidate listed in that queue.
   */
  lemma MovedCandidateStaysListed(a: Request, b: Request, later: Request)
    requires Meet(a, b, later)
    ensures Runs(World(EMPTY, map[]), MovedAway(a, b, later))
    ensures
      var r := Run(World(EMPTY, map[]), MovedAway(a, b, later)).store;
      && IsMatched(r, b.id) && r.users[b.id].matchedWith == Some(a.id) && IsMatched(r, a.id)
      && Occurrences(r, later.Key(), b.id) == 1 && !IndexAgrees(r)
  {
    var f, s := Found(a, b.id, b.Key()), Enqueued(Gone(b), later);
    var found := map[a.id := f];
    BPasses(a, b, later);
    MovesAreMade(a, b, later, found);
    ClaimMade(s, found, a.id);
    FiveMoves(Perform(Search(b)), Spot(f), Perform(Cancel(b.id)), Perform(Search(later)), Claim(a.id),
              World(EMPTY, map[]), World(Waiting(b), map[]), World(Waiting(b), found), World(Gone(b), found),
              World(s, found), World(Paired(s, a, b.id, b.Key()), found - {a.id}));
    MisplacedClaim(s, f, later.Key());
  }

  /** Who gives up waits; a claim that passes its re-checks pairs the two, any other one changes nothing. */
  lemma MoveEffects(w: World, m: Move)
    requires Enabled(w, m) && CallersIdle(w)
    ensures
      var t := Apply(w, m);
      && (m.GiveUp? ==> IsQueuing(t.store, m.req.id) && t.store.users[m.req.id].queueKey == m.req.Key())
      && (m.Spot? ==> t.store == w.store && m.f.req.id in t.found && t.found[m.f.req.id] == m.f)
      && (m.Claim? ==>
            var b := w.found[m.c].candidate;
            && m.c !in t.found
            && if IsQueuing(w.store, b) && (m.c, b) !in w.store.blocks && (b, m.c) !in w.store.blocks
               then IsMatched(t.store, m.c) && t.store.users[m.c].matchedWith == Some(b)
                    && IsMatched(t.store, b) && t.store.users[b].matchedWith == Some(m.c)
               else t.store == w.store)
  {
  }
}
