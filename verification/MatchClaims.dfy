/**
 * The optimistic claim of a candidate in `find_match` (services/matching_engine.py): WATCH, the
 * re-checks, and MULTI/EXEC, for any number of callers that search at the same time while others
 * cancel, enqueue, block and unblock. The queue lists only suggest candidates, so here any user may
 * be picked at any time; what the claim guarantees must not depend on the lists.
 *
 * Every write to a Redis key raises its version; EXEC succeeds when no watched key has changed.
 */
module MatchClaims {
  import opened Wrappers

  datatype Status = Queuing | Matched

  /** A `user:state:*` hash; `stay` numbers the user's stays in the queue. */
  datatype UserState = UserState(status: Status, matchedWith: Option<int>, stay: nat)

  /** How far a caller got with the candidate it watches. */
  datatype Stage = JustWatched | StatusRead | OwnBlocksRead | BothBlocksRead

  datatype Search =
    | Scanning
    | Claiming(candidate: int, stateVersion: nat, ownVersion: nat, theirVersion: nat, stage: Stage)

  datatype Claim = Claim(caller: int, candidate: int, stay: nat)

  datatype State = State(
    users: map<int, UserState>,
    userVersion: map<int, nat>,
    blocks: set<(int, int)>,                    // (a, b): a blocks b, kept under a's key
    blockVersion: map<int, nat>,
    searches: map<int, Search>,
    nextStay: nat,
    claims: seq<Claim>,
    ended: set<nat>                             // stays of users whose match was ended
  )

  datatype Event =
    | BeginSearch(c: int)
    | Watch(c: int, candidate: int)
    | ReadStatus(c: int)
    | ReadOwnBlocks(c: int)
    | ReadTheirBlocks(c: int)
    | Exec(c: int)
    | GiveUp(c: int)                            // nobody found: the caller joins the queue
    | Cancel(u: int)
    | EndMatch(u: int)                          // the states of both partners are deleted
    | Block(a: int, b: int)
    | Unblock(a: int, b: int)

  function Version(versions: map<int, nat>, key: int): nat {
    if key in versions then versions[key] else 0
  }

  function Touch(versions: map<int, nat>, key: int): map<int, nat> {
    versions[key := Version(versions, key) + 1]
  }

  predicate IsQueuing(s: State, u: int) { u in s.users && s.users[u].status.Queuing? }

  predicate IsMatched(s: State, u: int) { u in s.users && s.users[u].status.Matched? }

  predicate AtStage(s: State, c: int, stage: Stage) {
    c in s.searches && s.searches[c].Claiming? && s.searches[c].stage == stage
  }

  /** A caller starts idle, with no other search in flight; a cancel acts on a queuing user. */
  predicate Enabled(s: State, e: Event) {
    match e
    case BeginSearch(c) => c !in s.users && c !in s.searches
    case Watch(c, candidate) => c in s.searches && s.searches[c].Scanning? && candidate != c
    case ReadStatus(c) => AtStage(s, c, JustWatched)
    case ReadOwnBlocks(c) => AtStage(s, c, StatusRead)
    case ReadTheirBlocks(c) => AtStage(s, c, OwnBlocksRead)
    case Exec(c) => AtStage(s, c, BothBlocksRead)
    case GiveUp(c) => c in s.searches && s.searches[c].Scanning?
    case Cancel(u) => IsQueuing(s, u)
    case EndMatch(u) => IsMatched(s, u)
    case Block(_, _) => true
    case Unblock(_, _) => true
  }

  /** None of the three watched keys was written since WATCH. */
  predicate Unchanged(s: State, c: int)
    requires c in s.searches && s.searches[c].Claiming?
  {
    var k := s.searches[c];
    && Version(s.userVersion, k.candidate) == k.stateVersion
    && Version(s.blockVersion, c) == k.ownVersion
    && Version(s.blockVersion, k.candidate) == k.theirVersion
  }

  function Progress(s: State, c: int, ok: bool, stage: Stage): State
    requires c in s.searches && s.searches[c].Claiming?
  {
    s.(searches := s.searches[c := if ok then s.searches[c].(stage := stage) else Scanning])
  }

  /** The transaction: both hashes are written, each naming the other user. */
  function Pair(s: State, c: int, candidate: int): State {
    var stay := if candidate in s.users then s.users[candidate].stay else s.nextStay;
    s.(users := s.users[c := UserState(Matched, Some(candidate), s.nextStay)]
                       [candidate := UserState(Matched, Some(c), stay)],
       userVersion := Touch(Touch(s.userVersion, c), candidate),
       searches := s.searches - {c},
       nextStay := s.nextStay + 1,
       claims := s.claims + [Claim(c, candidate, stay)])
  }

  /** Nobody found: the caller's hash is written and a new stay begins. */
  function Join(s: State, c: int): State {
    s.(users := s.users[c := UserState(Queuing, None, s.nextStay)],
       userVersion := Touch(s.userVersion, c),
       searches := s.searches - {c},
       nextStay := s.nextStay + 1)
  }

  function Leave(s: State, u: int): State {
    s.(users := s.users - {u}, userVersion := Touch(s.userVersion, u))
  }

  function End(s: State, u: int, p: int): State {
    s.(users := s.users - {u, p},
       userVersion := Touch(Touch(s.userVersion, u), p),
       ended := s.ended + StayOf(s, u) + StayOf(s, p))
  }

  function StayOf(s: State, u: int): set<nat> { if u in s.users then {s.users[u].stay} else {} }

  function PartnerOf(s: State, u: int): int {
    if u in s.users && s.users[u].matchedWith.Some? then s.users[u].matchedWith.value else u
  }

  function Apply(s: State, e: Event): State
    requires Enabled(s, e)
  {
    match e
    case BeginSearch(c) => s.(searches := s.searches[c := Scanning])
    case Watch(c, candidate) =>
      s.(searches := s.searches[c := Claiming(candidate, Version(s.userVersion, candidate),
                                              Version(s.blockVersion, c),
                                              Version(s.blockVersion, candidate), JustWatched)])
    case ReadStatus(c) => Progress(s, c, IsQueuing(s, s.searches[c].candidate), StatusRead)
    case ReadOwnBlocks(c) => Progress(s, c, (c, s.searches[c].candidate) !in s.blocks, OwnBlocksRead)
    case ReadTheirBlocks(c) => Progress(s, c, (s.searches[c].candidate, c) !in s.blocks, BothBlocksRead)
    case Exec(c) =>
      if Unchanged(s, c) then Pair(s, c, s.searches[c].candidate)
      else s.(searches := s.searches[c := Scanning])
    case GiveUp(c) => Join(s, c)
    case Cancel(u) => Leave(s, u)
    case EndMatch(u) => End(s, u, PartnerOf(s, u))
    case Block(a, b) =>
      if (a, b) in s.blocks then s
      else s.(blocks := s.blocks + {(a, b)}, blockVersion := Touch(s.blockVersion, a))
    case Unblock(a, b) =>
      if (a, b) !in s.blocks then s
      else s.(blocks := s.blocks - {(a, b)}, blockVersion := Touch(s.blockVersion, a))
  }

  predicate Initial(s: State) {
    s.users == map[] && s.searches == map[] && s.claims == [] && s.ended == {}
  }

  predicate Runs(s: State, events: seq<Event>)
    decreases |events|
  {
    events == [] || (Enabled(s, events[0]) && Runs(Apply(s, events[0]), events[1..]))
  }

  function Run(s: State, events: seq<Event>): State
    requires Runs(s, events)
    decreases |events|
  {
    if events == [] then s else Run(Apply(s, events[0]), events[1..])
  }

  // ---------------------------------------------------------------- invariant

  /** Every matched user's partner is matched back to them, and is somebody else. */
  ghost predicate Mutual(s: State) {
    forall u :: IsMatched(s, u) ==>
      && s.users[u].matchedWith.Some?
      && s.users[u].matchedWith.value != u
      && IsMatched(s, s.users[u].matchedWith.value)
      && s.users[s.users[u].matchedWith.value].matchedWith == Some(u)
  }

  ghost predicate SearchersIdle(s: State) { forall c :: c in s.searches ==> c !in s.users }

  /** What a caller has read is still true as long as the key it read has not been written. */
  predicate Backed(s: State, c: int)
    requires c in s.searches && s.searches[c].Claiming?
  {
    var k := s.searches[c];
    && k.candidate != c
    && k.stateVersion <= Version(s.userVersion, k.candidate)
    && k.ownVersion <= Version(s.blockVersion, c)
    && k.theirVersion <= Version(s.blockVersion, k.candidate)
    && (!k.stage.JustWatched? && k.stateVersion == Version(s.userVersion, k.candidate) ==>
          IsQueuing(s, k.candidate))
    && ((k.stage.OwnBlocksRead? || k.stage.BothBlocksRead?) && k.ownVersion == Version(s.blockVersion, c) ==>
          (c, k.candidate) !in s.blocks)
    && (k.stage.BothBlocksRead? && k.theirVersion == Version(s.blockVersion, k.candidate) ==>
          (k.candidate, c) !in s.blocks)
  }

  ghost predicate ReadsBacked(s: State) {
    forall c :: c in s.searches && s.searches[c].Claiming? ==> Backed(s, c)
  }

  /** No two claims, and no two users, share a stay; a stay still going on is unclaimed. */
  ghost predicate StaysUnique(s: State) {
    && (forall u :: u in s.users ==> s.users[u].stay < s.nextStay)
    && (forall u, v :: u in s.users && v in s.users && u != v ==> s.users[u].stay != s.users[v].stay)
    && (forall i :: 0 <= i < |s.claims| ==> s.claims[i].stay < s.nextStay)
    && (forall i, u :: 0 <= i < |s.claims| && IsQueuing(s, u) ==> s.claims[i].stay != s.users[u].stay)
    && (forall i, j :: 0 <= i < j < |s.claims| ==> s.claims[i].stay != s.claims[j].stay)
  }

  /** The two users of a claim are matched with each other. */
  predicate Stands(s: State, k: Claim) {
    && IsMatched(s, k.caller) && s.users[k.caller].matchedWith == Some(k.candidate)
    && IsMatched(s, k.candidate) && s.users[k.candidate].matchedWith == Some(k.caller)
    && s.users[k.candidate].stay == k.stay
  }

  /** Every claim stands until its match is ended. */
  ghost predicate ClaimsStand(s: State) {
    forall i :: 0 <= i < |s.claims| ==> s.claims[i].stay in s.ended || Stands(s, s.claims[i])
  }

  ghost predicate Inv(s: State) {
    Mutual(s) && SearchersIdle(s) && ReadsBacked(s) && StaysUnique(s) && ClaimsStand(s)
  }

  /** A successful EXEC finds the candidate queuing, the caller idle, and no block either way. */
  lemma ExecFindsGoodState(s: State, c: int)
    requires SearchersIdle(s) && ReadsBacked(s) && AtStage(s, c, BothBlocksRead) && Unchanged(s, c)
    ensures
      var candidate := s.searches[c].candidate;
      && IsQueuing(s, candidate) && c !in s.users && candidate != c
      && (c, candidate) !in s.blocks && (candidate, c) !in s.blocks
  {
    assert Backed(s, c);
  }

  /** The claim keeps matching mutual exactly when the caller is not matched already. */
  lemma PairKeepsMutualIff(s: State, c: int, candidate: int)
    requires Mutual(s) && IsQueuing(s, candidate) && candidate != c
    ensures Mutual(Pair(s, c, candidate)) <==> !IsMatched(s, c)
  {
    var t := Pair(s, c, candidate);
    if IsMatched(s, c) {
      var p := s.users[c].matchedWith.value;
      assert IsMatched(t, p);
      assert t.users[p].matchedWith == Some(c) && t.users[c].matchedWith == Some(candidate);
    } else {
      forall u | IsMatched(t, u)
        ensures t.users[u].matchedWith.Some? && t.users[u].matchedWith.value != u
        ensures IsMatched(t, t.users[u].matchedWith.value)
        ensures t.users[t.users[u].matchedWith.value].matchedWith == Some(u)
      {
        if u != c && u != candidate {
          assert IsMatched(s, u);
          assert IsMatched(s, s.users[u].matchedWith.value);
        }
      }
    }
  }

  lemma StepMutual(s: State, e: Event)
    requires Inv(s) && Enabled(s, e)
    ensures Mutual(Apply(s, e))
  {
    var t := Apply(s, e);
    if e.Exec? && Unchanged(s, e.c) {
      ExecFindsGoodState(s, e.c);
      PairKeepsMutualIff(s, e.c, s.searches[e.c].candidate);
    } else {
      forall u | IsMatched(t, u)
        ensures t.users[u].matchedWith.Some? && t.users[u].matchedWith.value != u
        ensures IsMatched(t, t.users[u].matchedWith.value)
        ensures t.users[t.users[u].matchedWith.value].matchedWith == Some(u)
      {
        assert IsMatched(s, u);
        assert IsMatched(s, s.users[u].matchedWith.value);
      }
    }
  }

  lemma StepSearchers(s: State, e: Event)
    requires Inv(s) && Enabled(s, e)
    ensures SearchersIdle(Apply(s, e))
  {
    if e.Exec? && Unchanged(s, e.c) {
      ExecFindsGoodState(s, e.c);
    }
  }

  /** A key with the same version holds what it held. */
  lemma UserVersionTells(s: State, e: Event, u: int)
    requires Enabled(s, e)
    ensures
      var t := Apply(s, e);
      && Version(s.userVersion, u) <= Version(t.userVersion, u)
      && (Version(s.userVersion, u) == Version(t.userVersion, u) ==> (IsQueuing(s, u) <==> IsQueuing(t, u)))
  {
  }

  lemma BlockVersionTells(s: State, e: Event, a: int, b: int)
    requires Enabled(s, e)
    ensures
      var t := Apply(s, e);
      && Version(s.blockVersion, a) <= Version(t.blockVersion, a)
      && (Version(s.blockVersion, a) == Version(t.blockVersion, a) ==> ((a, b) in s.blocks <==> (a, b) in t.blocks))
  {
  }

  /** Another caller's step, or a write, leaves what `c` has read valid or outdated. */
  lemma OthersKeepRead(s: State, e: Event, c: int)
    requires Enabled(s, e) && c in s.searches && s.searches[c].Claiming? && Backed(s, c)
    requires c in Apply(s, e).searches && Apply(s, e).searches[c] == s.searches[c]
    ensures Backed(Apply(s, e), c)
  {
    var candidate := s.searches[c].candidate;
    UserVersionTells(s, e, candidate);
    BlockVersionTells(s, e, c, candidate);
    BlockVersionTells(s, e, candidate, c);
  }

  /** The caller's own reads. */
  lemma OwnRead(s: State, e: Event, c: int)
    requires Enabled(s, e) && ReadsBacked(s)
    requires e in {Watch(c, if e.Watch? then e.candidate else 0), ReadStatus(c), ReadOwnBlocks(c), ReadTheirBlocks(c)}
    requires c in Apply(s, e).searches && Apply(s, e).searches[c].Claiming?
    ensures Backed(Apply(s, e), c)
  {
    if !e.Watch? {
      assert Backed(s, c);
    }
  }

  lemma SearchesChange(s: State, e: Event, c: int)
    requires Enabled(s, e)
    requires c in Apply(s, e).searches && Apply(s, e).searches[c].Claiming?
    ensures c in s.searches
    ensures || Apply(s, e).searches[c] == s.searches[c]
            || e in {Watch(c, if e.Watch? then e.candidate else 0), ReadStatus(c), ReadOwnBlocks(c), ReadTheirBlocks(c)}
  {
  }

  lemma StepReads(s: State, e: Event)
    requires ReadsBacked(s) && Enabled(s, e)
    ensures ReadsBacked(Apply(s, e))
  {
    var t := Apply(s, e);
    forall c | c in t.searches && t.searches[c].Claiming? ensures Backed(t, c) {
      SearchesChange(s, e, c);
      if t.searches[c] == s.searches[c] {
        assert Backed(s, c);
        OthersKeepRead(s, e, c);
      } else {
        OwnRead(s, e, c);
      }
    }
  }

  lemma PairStays(s: State, c: int, candidate: int)
    requires StaysUnique(s) && IsQueuing(s, candidate) && c !in s.users
    ensures StaysUnique(Pair(s, c, candidate))
  {
    var t := Pair(s, c, candidate);
    assert forall u :: IsQueuing(t, u) ==> IsQueuing(s, u) && u != candidate && t.users[u] == s.users[u];
  }

  lemma JoinStays(s: State, c: int)
    requires StaysUnique(s)
    ensures StaysUnique(Join(s, c))
  {
    var t := Join(s, c);
    assert forall u :: IsQueuing(t, u) && u != c ==> IsQueuing(s, u) && t.users[u] == s.users[u];
  }

  lemma LeaveStays(s: State, u: int)
    requires StaysUnique(s)
    ensures StaysUnique(Leave(s, u))
  {
    var t := Leave(s, u);
    assert forall v :: IsQueuing(t, v) ==> IsQueuing(s, v) && t.users[v] == s.users[v];
  }

  lemma EndStays(s: State, u: int, p: int)
    requires StaysUnique(s)
    ensures StaysUnique(End(s, u, p))
  {
    var t := End(s, u, p);
    assert forall v :: IsQueuing(t, v) ==> IsQueuing(s, v) && t.users[v] == s.users[v];
  }

  lemma SameStays(s: State, t: State)
    requires StaysUnique(s) && t.users == s.users && t.claims == s.claims && t.nextStay == s.nextStay
    ensures StaysUnique(t)
  {
    assert forall u :: IsQueuing(t, u) ==> IsQueuing(s, u);
  }

  lemma StepStays(s: State, e: Event)
    requires SearchersIdle(s) && ReadsBacked(s) && StaysUnique(s) && Enabled(s, e)
    ensures StaysUnique(Apply(s, e))
  {
    match e
    case Exec(c) =>
      if Unchanged(s, c) {
        ExecFindsGoodState(s, c);
        PairStays(s, c, s.searches[c].candidate);
      } else {
        SameStays(s, Apply(s, e));
      }
    case GiveUp(c) => JoinStays(s, c);
    case Cancel(u) => LeaveStays(s, u);
    case EndMatch(u) => EndStays(s, u, PartnerOf(s, u));
    case _ => SameStays(s, Apply(s, e));
  }

  lemma PairClaims(s: State, c: int, candidate: int)
    requires ClaimsStand(s) && IsQueuing(s, candidate) && c !in s.users && c != candidate
    ensures ClaimsStand(Pair(s, c, candidate))
  {
    var t := Pair(s, c, candidate);
    forall i | 0 <= i < |t.claims| ensures t.claims[i].stay in t.ended || Stands(t, t.claims[i]) {
      if i < |s.claims| {
        assert t.claims[i] == s.claims[i];
      }
    }
  }

  lemma EndClaims(s: State, u: int)
    requires ClaimsStand(s) && Mutual(s) && IsMatched(s, u)
    ensures ClaimsStand(End(s, u, PartnerOf(s, u)))
  {
    var t := End(s, u, PartnerOf(s, u));
    forall i | 0 <= i < |t.claims| ensures t.claims[i].stay in t.ended || Stands(t, t.claims[i]) {
      assert t.claims[i] == s.claims[i];
    }
  }

  lemma OthersKeepClaims(s: State, t: State)
    requires ClaimsStand(s) && t.claims == s.claims && t.ended == s.ended
    requires forall u :: IsMatched(s, u) ==> IsMatched(t, u) && t.users[u] == s.users[u]
    ensures ClaimsStand(t)
  {
  }

  lemma StepClaims(s: State, e: Event)
    requires Mutual(s) && SearchersIdle(s) && ReadsBacked(s) && ClaimsStand(s) && Enabled(s, e)
    ensures ClaimsStand(Apply(s, e))
  {
    if e.Exec? && Unchanged(s, e.c) {
      ExecFindsGoodState(s, e.c);
      PairClaims(s, e.c, s.searches[e.c].candidate);
    } else if e.EndMatch? {
      EndClaims(s, e.u);
    } else {
      OthersKeepClaims(s, Apply(s, e));
    }
  }

  lemma {:induction false} RunInv(s: State, events: seq<Event>)
    requires Inv(s) && Runs(s, events)
    ensures Inv(Run(s, events))
    decreases |events|
  {
    if events != [] {
      StepMutual(s, events[0]);
      StepSearchers(s, events[0]);
      StepReads(s, events[0]);
      StepStays(s, events[0]);
      StepClaims(s, events[0]);
      RunInv(Apply(s, events[0]), events[1..]);
    }
  }

  // ---------------------------------------------------------------- main results

  /** In every interleaving, ended matches included, matching is an involution without fixed points. */
  lemma MatchingIsInvolution(s: State, events: seq<Event>, u: int)
    requires Initial(s) && Runs(s, events) && IsMatched(Run(s, events), u)
    ensures
      var r := Run(s, events);
      && r.users[u].matchedWith.Some?
      && var p := r.users[u].matchedWith.value;
      p != u && IsMatched(r, p) && r.users[p].matchedWith == Some(u)
  {
    RunInv(s, events);
  }

  /** Every EXEC that succeeds does so while the candidate is queuing and neither user blocks the other. */
  lemma ClaimsRespectBlocks(s: State, events: seq<Event>, c: int)
    requires Initial(s) && Runs(s, events) && Enabled(Run(s, events), Exec(c))
    requires Unchanged(Run(s, events), c)
    ensures
      var r := Run(s, events);
      var candidate := r.searches[c].candidate;
      var t := Apply(r, Exec(c));
      && IsQueuing(r, candidate) && c !in r.users
      && (c, candidate) !in r.blocks && (candidate, c) !in r.blocks
      && t.users[c].matchedWith == Some(candidate) && t.users[candidate].matchedWith == Some(c)
      && (forall u :: u != c && u != candidate ==> (u in t.users <==> u in r.users))
      && (forall u :: u in r.users && u != c && u != candidate ==> t.users[u] == r.users[u])
  {
    RunInv(s, events);
    ExecFindsGoodState(Run(s, events), c);
  }

  /** No stay in the queue is claimed twice, and every claim stands until its match is ended. */
  lemma OneClaimPerStay(s: State, events: seq<Event>, i: nat, j: nat)
    requires Initial(s) && Runs(s, events)
    requires i < |Run(s, events).claims| && j < |Run(s, events).claims|
    ensures
      var r := Run(s, events);
      && (r.claims[i].stay == r.claims[j].stay ==> i == j)
      && (r.claims[i].stay !in r.ended ==> Stands(r, r.claims[i]))
  {
    RunInv(s, events);
  }

  /** A caller that was overtaken goes back to scanning and changes nothing else. */
  lemma OvertakenCallerBacksOff(s: State, events: seq<Event>, c: int, d: int)
    requires Initial(s) && Runs(s, events)
    requires c != d && Enabled(Run(s, events), Exec(c)) && Enabled(Run(s, events), Exec(d))
    requires Unchanged(Run(s, events), c)
    requires Run(s, events).searches[c].candidate == Run(s, events).searches[d].candidate
    ensures
      var t := Apply(Run(s, events), Exec(c));
      && Enabled(t, Exec(d)) && !Unchanged(t, d)
      && Apply(t, Exec(d)) == t.(searches := t.searches[d := Scanning])
  {
    RunInv(s, events);
    var r := Run(s, events);
    ExecFindsGoodState(r, c);
    assert Backed(r, d);
  }

  // ---------------------------------------------------------------- when a claim is made

  /** The event belongs to the search of `c`. */
  predicate By(e: Event, c: int) {
    (e.BeginSearch? || e.Watch? || e.ReadStatus? || e.ReadOwnBlocks? || e.ReadTheirBlocks? || e.Exec? || e.GiveUp?)
    && e.c == c
  }

  /** Events of others lead from one state to the other. */
  predicate Meanwhile(s: State, events: seq<Event>, t: State, c: int) {
    Runs(s, events) && Run(s, events) == t && forall i :: 0 <= i < |events| ==> !By(events[i], c)
  }

  lemma StepInv(s: State, e: Event)
    requires Inv(s) && Enabled(s, e)
    ensures Inv(Apply(s, e))
  {
    StepMutual(s, e);
    StepSearchers(s, e);
    StepReads(s, e);
    StepStays(s, e);
    StepClaims(s, e);
  }

  lemma {:induction false} OthersKeepSearch(s: State, events: seq<Event>, t: State, c: int)
    requires Inv(s) && c in s.searches && Meanwhile(s, events, t, c)
    ensures Inv(t) && c in t.searches && t.searches[c] == s.searches[c]
    decreases |events|
  {
    if events != [] {
      assert !By(events[0], c);
      StepInv(s, events[0]);
      OthersKeepSearch(Apply(s, events[0]), events[1..], t, c);
    }
  }

  /** The next step of the search of `c`, if the search got that far. */
  function Attempt(s: State, e: Event): State { if Enabled(s, e) then Apply(s, e) else s }

  /** Nothing watched was written between the two states. */
  predicate NothingWritten(s: State, t: State, a: int, b: int) {
    && Version(s.userVersion, b) == Version(t.userVersion, b)
    && Version(s.blockVersion, a) == Version(t.blockVersion, a)
    && Version(s.blockVersion, b) == Version(t.blockVersion, b)
  }

  /** The search of `a` for `b`, watching since the state `s`. */
  function WatchOf(s: State, a: int, b: int, stage: Stage): Search {
    Claiming(b, Version(s.userVersion, b), Version(s.blockVersion, a), Version(s.blockVersion, b), stage)
  }

  /** How far the search has come since `s`, unless it is scanning again. */
  ghost predicate GotTo(s: State, t: State, a: int, b: int, stage: Stage, ok: bool) {
    Inv(t) && a in t.searches && t.searches[a] == if ok then WatchOf(s, a, b, stage) else Scanning
  }

  /** One re-check: the search goes on exactly if it got this far and finds what it needs. */
  lemma CheckStep(s: State, t: State, e: Event, a: int, b: int, before: Stage, after: Stage, sofar: bool, ok: bool)
    requires GotTo(s, t, a, b, before, sofar)
    requires
      || (e == ReadStatus(a) && before.JustWatched? && after.StatusRead? && (ok <==> IsQueuing(t, b)))
      || (e == ReadOwnBlocks(a) && before.StatusRead? && after.OwnBlocksRead? && (ok <==> (a, b) !in t.blocks))
      || (e == ReadTheirBlocks(a) && before.OwnBlocksRead? && after.BothBlocksRead? && (ok <==> (b, a) !in t.blocks))
    ensures GotTo(s, Attempt(t, e), a, b, after, sofar && ok)
  {
    if Enabled(t, e) {
      StepInv(t, e);
    }
  }

  /** The transaction, if the search got that far. */
  lemma ExecStep(s: State, t: State, a: int, b: int, sofar: bool)
    requires a != b && GotTo(s, t, a, b, BothBlocksRead, sofar)
    ensures ClaimOutcome(t, Attempt(t, Exec(a)), a, b, sofar && NothingWritten(s, t, a, b))
  {
    if sofar && Unchanged(t, a) {
      ExecFindsGoodState(t, a);
    }
  }

  /** Either the two are matched with each other, by one claim more, or nothing is claimed. */
  predicate ClaimOutcome(s: State, t: State, a: int, b: int, made: bool) {
    if made then
      && IsQueuing(s, b) && a !in s.users
      && IsMatched(t, a) && t.users[a].matchedWith == Some(b)
      && IsMatched(t, b) && t.users[b].matchedWith == Some(a)
      && t.claims == s.claims + [Claim(a, b, s.users[b].stay)] && a !in t.searches
    else
      t.users == s.users && t.claims == s.claims && a !in t.users && a in t.searches && t.searches[a].Scanning?
  }

  /**
   * A search that watches B goes through its re-checks and the transaction while others do whatever
   * they do in between. It ends with the two matched with each other, by one claim more, exactly when
   * B was queuing and neither blocked the other at the moment each was read, and nothing watched was
   * written since; otherwise nothing is claimed and the search goes on.
   */
  lemma ClaimMadeIff(s: State, a: int, b: int, x: seq<Event>, s1: State, y: seq<Event>, s2: State,
                     z: seq<Event>, s3: State, w: seq<Event>, s4: State)
    requires Inv(s) && a != b && a in s.searches && s.searches[a].Scanning?
    requires Meanwhile(Apply(s, Watch(a, b)), x, s1, a)
    requires Meanwhile(Attempt(s1, ReadStatus(a)), y, s2, a)
    requires Meanwhile(Attempt(s2, ReadOwnBlocks(a)), z, s3, a)
    requires Meanwhile(Attempt(s3, ReadTheirBlocks(a)), w, s4, a)
    ensures
      var made := IsQueuing(s1, b) && (a, b) !in s2.blocks && (b, a) !in s3.blocks && NothingWritten(s, s4, a, b);
      ClaimOutcome(s4, Attempt(s4, Exec(a)), a, b, made)
  {
    var ok1 := IsQueuing(s1, b);
    var ok2 := ok1 && (a, b) !in s2.blocks;
    var ok3 := ok2 && (b, a) !in s3.blocks;
    StepInv(s, Watch(a, b));
    OthersKeepSearch(Apply(s, Watch(a, b)), x, s1, a);
    CheckStep(s, s1, ReadStatus(a), a, b, JustWatched, StatusRead, true, ok1);
    OthersKeepSearch(Attempt(s1, ReadStatus(a)), y, s2, a);
    CheckStep(s, s2, ReadOwnBlocks(a), a, b, StatusRead, OwnBlocksRead, ok1, (a, b) !in s2.blocks);
    OthersKeepSearch(Attempt(s2, ReadOwnBlocks(a)), z, s3, a);
    CheckStep(s, s3, ReadTheirBlocks(a), a, b, OwnBlocksRead, BothBlocksRead, ok2, (b, a) !in s3.blocks);
    OthersKeepSearch(Attempt(s3, ReadTheirBlocks(a)), w, s4, a);
    ExecStep(s, s4, a, b, ok3);
  }

  /** Left alone, a search that watches a queuing candidate without blocks either way ends in a match. */
  lemma ClaimSucceedsAlone(s0: State, events: seq<Event>, a: int, b: int)
    requires Initial(s0) && Runs(s0, events)
    requires
      var s := Run(s0, events);
      && a in s.searches && s.searches[a].Scanning? && IsQueuing(s, b) && a != b
      && (a, b) !in s.blocks && (b, a) !in s.blocks
    ensures
      var s := Run(s0, events);
      var claim := [Watch(a, b), ReadStatus(a), ReadOwnBlocks(a), ReadTheirBlocks(a), Exec(a)];
      && Runs(s, claim)
      && var t := Run(s, claim);
      && IsMatched(t, a) && t.users[a].matchedWith == Some(b)
      && IsMatched(t, b) && t.users[b].matchedWith == Some(a)
      && t.claims == s.claims + [Claim(a, b, s.users[b].stay)]
  {
    RunInv(s0, events);
    var s := Run(s0, events);
    Alone(s, a, b, WatchOf(s, a, b, JustWatched));
  }

  lemma OneMore(s: State, e: Event, rest: seq<Event>, end: State)
    requires Enabled(s, e) && Runs(Apply(s, e), rest) && Run(Apply(s, e), rest) == end
    ensures Runs(s, [e] + rest) && Run(s, [e] + rest) == end
  {
    assert ([e] + rest)[1..] == rest;
  }

  function Searching(s: State, a: int, k: Search): State { s.(searches := s.searches[a := k]) }

  lemma Alone(s: State, a: int, b: int, k: Search)
    requires a in s.searches && s.searches[a].Scanning? && IsQueuing(s, b) && a != b
    requires (a, b) !in s.blocks && (b, a) !in s.blocks
    requires k == WatchOf(s, a, b, JustWatched)
    ensures
      var claim := [Watch(a, b), ReadStatus(a), ReadOwnBlocks(a), ReadTheirBlocks(a), Exec(a)];
      Runs(s, claim) && Run(s, claim) == Pair(Searching(s, a, k.(stage := BothBlocksRead)), a, b)
  {
    var s0, s1 := Searching(s, a, k), Searching(s, a, k.(stage := StatusRead));
    var s2, s3 := Searching(s, a, k.(stage := OwnBlocksRead)), Searching(s, a, k.(stage := BothBlocksRead));
    var end := Pair(s3, a, b);
    Again(s, a, k, k.(stage := StatusRead));
    Again(s, a, k.(stage := StatusRead), k.(stage := OwnBlocksRead));
    Again(s, a, k.(stage := OwnBlocksRead), k.(stage := BothBlocksRead));
    OneMore(s3, Exec(a), [], end);
    OneMore(s2, ReadTheirBlocks(a), [Exec(a)] + [], end);
    OneMore(s1, ReadOwnBlocks(a), [ReadTheirBlocks(a)] + ([Exec(a)] + []), end);
    OneMore(s0, ReadStatus(a), [ReadOwnBlocks(a)] + ([ReadTheirBlocks(a)] + ([Exec(a)] + [])), end);
    OneMore(s, Watch(a, b), [ReadStatus(a)] + ([ReadOwnBlocks(a)] + ([ReadTheirBlocks(a)] + ([Exec(a)] + []))), end);
    assert [Watch(a, b)] + ([ReadStatus(a)] + ([ReadOwnBlocks(a)] + ([ReadTheirBlocks(a)] + ([Exec(a)] + [])))) ==
           [Watch(a, b), ReadStatus(a), ReadOwnBlocks(a), ReadTheirBlocks(a), Exec(a)];
  }

  lemma Again(s: State, a: int, k: Search, l: Search)
    ensures Searching(s, a, k).(searches := Searching(s, a, k).searches[a := l]) == Searching(s, a, l)
  {
    assert s.searches[a := k][a := l] == s.searches[a := l];
  }

  // ---------------------------------------------------------------- what the other events do

  /** Searches begin, users join, leave, and are freed of ended matches; blocks come and go. */
  lemma EventEffects(s: State, e: Event)
    requires Enabled(s, e)
    ensures
      var t := Apply(s, e);
      && (e.BeginSearch? ==> e.c in t.searches && t.searches[e.c].Scanning? && t.users == s.users)
      && (e.GiveUp? ==> IsQueuing(t, e.c) && t.users[e.c].matchedWith.None? && e.c !in t.searches)
      && (e.Cancel? ==> e.u !in t.users && forall u :: u != e.u ==> (u in t.users <==> u in s.users))
      && (e.EndMatch? ==> e.u !in t.users && (s.users[e.u].matchedWith.Some? ==>
                            s.users[e.u].matchedWith.value !in t.users))
      && (e.Block? ==> forall x, y :: (x, y) in t.blocks <==> (x, y) in s.blocks || (x, y) == (e.a, e.b))
      && (e.Unblock? ==> forall x, y :: (x, y) in t.blocks <==> (x, y) in s.blocks && (x, y) != (e.a, e.b))
  {
  }
}
