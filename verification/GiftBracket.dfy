/**
 * The bracket around the gift flow (bot/handlers/gifts.py): entering the flow sets the user's
 * conversation state and data aside, leaving it brings them back, provided the chat or date the
 * user came from is still going on.
 */
module GiftBracket {
  import opened Text
  import opened Wrappers

  datatype Value = Null | Number(n: int) | Name(s: string) | Dict(entries: map<string, Value>)

  /** A conversation context: the state's name and the data kept with it. */
  datatype Context = Context(state: Option<string>, data: map<string, Value>)

  const PREV_STATE := "__gift_prev_state__"
  const SNAPSHOT := "__gift_chat_meta_snapshot__"

  const CHOOSING_QUANTITY := "GiftStates:choosing_quantity"
  const WAITING_FOR_RECIPIENT := "GiftStates:waiting_for_recipient"
  const CONFIRMING_TRANSFER := "GiftStates:confirming_transfer"

  const GIFT_STATES: set<string> := {CHOOSING_QUANTITY, WAITING_FOR_RECIPIENT, CONFIRMING_TRANSFER}

  const TEMP_KEYS: set<string> :=
    {"chosen_gift_code", "recipient_tg_id", "send_code", "send_recipient", PREV_STATE, SNAPSHOT}

  predicate InGiftState(c: Context) { c.state.Some? && c.state.value in GIFT_STATES }

  /** `needle` occurs in `s`. */
  predicate Contains(s: string, needle: string) {
    needle <= s || (s != "" && Contains(s[1..], needle))
  }

  /** States of a chat, a match or a questionnaire: only restored while a match is active. */
  predicate IsPipeline(state: string) {
    || Contains(Lower(state), "chat")
    || Contains(Lower(state), "matching")
    || Contains(Lower(state), "questionnaire")
  }

  // ---------------------------------------------------------------- preserve and restore as functions

  predicate Kept(key: string) { key !in TEMP_KEYS && !("__gift_" <= key) }

  function SnapshotOf(data: map<string, Value>): map<string, Value> {
    map k | k in data && Kept(k) :: data[k]
  }

  function StateValue(state: Option<string>): Value { if state.Some? then Name(state.value) else Null }

  function Preserve(c: Context): Context {
    if InGiftState(c) then c
    else c.(data := c.data[PREV_STATE := StateValue(c.state)][SNAPSHOT := Dict(SnapshotOf(c.data))])
  }

  /** Keys the data lacks, or holds as null, are taken from the snapshot. */
  function Filled(data: map<string, Value>, snapshot: map<string, Value>): map<string, Value> {
    map k | k in data.Keys + snapshot.Keys &&
            (k in data || snapshot[k] != Null) ::
      if k in snapshot && snapshot[k] != Null && (k !in data || data[k] == Null) then snapshot[k] else data[k]
  }

  function SavedState(data: map<string, Value>): Option<string> {
    if PREV_STATE in data && data[PREV_STATE].Name? && data[PREV_STATE].s != "" then Some(data[PREV_STATE].s) else None
  }

  function SavedSnapshot(data: map<string, Value>): map<string, Value> {
    if SNAPSHOT in data && data[SNAPSHOT].Dict? then data[SNAPSHOT].entries else map[]
  }

  function Restore(c: Context, activeMatch: bool): Context {
    var previous := SavedState(c.data);
    if previous.Some? && IsPipeline(previous.value) && !activeMatch then Context(None, map[])
    else
      Context(if previous.Some? && previous.value in GIFT_STATES then None else previous,
              Filled(c.data - TEMP_KEYS, SavedSnapshot(c.data)))
  }

  // ---------------------------------------------------------------- the same as methods

  class FsmContext {
    var state: Option<string>
    var data: map<string, Value>

    constructor (state: Option<string>, data: map<string, Value>)
      ensures Contents() == Context(state, data)
    {
      this.state, this.data := state, data;
    }

    function Contents(): Context
      reads this
    {
      Context(state, data)
    }

    method PreserveCurrentState()
      modifies this`data
      ensures Contents() == Preserve(old(Contents()))
    {
      if state.Some? && state.value in GIFT_STATES {
        return;
      }
      var snapshot: map<string, Value> := map[];
      var keys := data.Keys;
      while keys != {}
        invariant keys <= data.Keys && data == old(data)
        invariant snapshot == SnapshotOf(data - keys)
        decreases keys
      {
        var k :| k in keys;
        keys := keys - {k};
        if Kept(k) {
          snapshot := snapshot[k := data[k]];
        }
        assert data - keys == (data - (keys + {k}))[k := data[k]];
      }
      assert data - keys == data;
      data := data[PREV_STATE := StateValue(state)][SNAPSHOT := Dict(snapshot)];
    }

    method RestorePreviousState(activeMatch: bool) returns (previous: Option<string>)
      modifies this
      ensures Contents() == Restore(old(Contents()), activeMatch)
      ensures previous == Restore(old(Contents()), activeMatch).state
    {
      previous := SavedState(data);
      var snapshot := SavedSnapshot(data);
      var restored := DropKeys(data, TEMP_KEYS);
      restored := FillIn(restored, snapshot);
      if previous.Some? && IsPipeline(previous.value) && !activeMatch {
        state, data := None, map[];
        return None;
      }
      if previous.Some? && previous.value in GIFT_STATES {
        previous := None;
      }
      data := restored;
      state := previous;
    }
  }

  /** `data.pop(key, None)` for every key. */
  method DropKeys(data: map<string, Value>, keys: set<string>) returns (rest: map<string, Value>)
    ensures rest == data - keys
  {
    rest := data;
    var left := keys;
    while left != {}
      invariant left <= keys && rest == data - (keys - left)
      decreases left
    {
      var k :| k in left;
      left := left - {k};
      rest := rest - {k};
    }
  }

  method FillIn(data: map<string, Value>, snapshot: map<string, Value>) returns (filled: map<string, Value>)
    ensures filled == Filled(data, snapshot)
  {
    filled := data;
    var left := snapshot.Keys;
    assert Filled(data, snapshot - left) == data;
    while left != {}
      invariant left <= snapshot.Keys && filled == Filled(data, snapshot - left)
      decreases left
    {
      var k :| k in left;
      assert k !in snapshot - left;
      left := left - {k};
      if (k !in filled || filled[k] == Null) && snapshot[k] != Null {
        filled := filled[k := snapshot[k]];
      }
    }
    assert snapshot - left == snapshot;
  }

  // ---------------------------------------------------------------- the buy and send flow

  /**
   * The steps between entering and leaving. The first three enter the flow and may be repeated; the
   * button behind `PickGiftToSend` is not checked for the state it is pressed in, see below;
   * `Forget` is another handler dropping one of the user's own keys meanwhile.
   */
  datatype Step =
    | PickGift(code: string)
    | StartSending
    | SendFromProfile(recipient: int)
    | NameRecipient(recipient: int)
    | PickGiftToSend(code: string, recipient: int)
    | Forget(key: string)

  predicate Enters(step: Step) { step.PickGift? || step.StartSending? || step.SendFromProfile? }

  /** A recipient is named in the state that waits for one; what is forgotten is not the flow's own. */
  predicate Enabled(c: Context, step: Step) {
    match step
    case NameRecipient(_) => c.state == Some(WAITING_FOR_RECIPIENT)
    case Forget(key) => Kept(key)
    case _ => true
  }

  function Apply(c: Context, step: Step): Context {
    match step
    case PickGift(code) => Context(Some(CHOOSING_QUANTITY), Preserve(c).data["chosen_gift_code" := Name(code)])
    case StartSending => Preserve(c).(state := Some(WAITING_FOR_RECIPIENT))
    case SendFromProfile(r) => Context(Some(WAITING_FOR_RECIPIENT), Preserve(c).data["recipient_tg_id" := Number(r)])
    case NameRecipient(r) => c.(data := c.data["recipient_tg_id" := Number(r)])
    case PickGiftToSend(code, r) =>
      Context(Some(CONFIRMING_TRANSFER), c.data["send_code" := Name(code)]["send_recipient" := Number(r)])
    case Forget(key) => c.(data := c.data - {key})
  }

  predicate Runs(c: Context, steps: seq<Step>)
    decreases |steps|
  {
    steps == [] || (Enabled(c, steps[0]) && Runs(Apply(c, steps[0]), steps[1..]))
  }

  function Run(c: Context, steps: seq<Step>): Context
    decreases |steps|
  {
    if steps == [] then c else Run(Apply(c, steps[0]), steps[1..])
  }

  /** Inside the flow entered from `origin`: what was set aside is still there. */
  predicate SetAside(c: Context, origin: Context) {
    && InGiftState(c)
    && PREV_STATE in c.data && c.data[PREV_STATE] == StateValue(origin.state)
    && SNAPSHOT in c.data && c.data[SNAPSHOT] == Dict(SnapshotOf(origin.data))
  }

  /** The user's own data is as it was, except for keys forgotten meanwhile. */
  predicate Within(data: map<string, Value>, origin: map<string, Value>) {
    && (forall k :: k in data && k !in TEMP_KEYS ==> k in origin && data[k] == origin[k])
    && (forall k :: k in origin && k !in TEMP_KEYS && !Kept(k) ==> k in data)
  }

  predicate Untouched(data: map<string, Value>, origin: map<string, Value>) {
    forall k :: k in origin && k !in TEMP_KEYS ==> k in data
  }

  lemma KeysAreTemporary()
    ensures "chosen_gift_code" in TEMP_KEYS && "recipient_tg_id" in TEMP_KEYS
    ensures "send_code" in TEMP_KEYS && "send_recipient" in TEMP_KEYS
    ensures PREV_STATE in TEMP_KEYS && SNAPSHOT in TEMP_KEYS && PREV_STATE != SNAPSHOT
    ensures {"chosen_gift_code", "recipient_tg_id", "send_code", "send_recipient"} !! {PREV_STATE, SNAPSHOT}
    ensures CHOOSING_QUANTITY in GIFT_STATES && WAITING_FOR_RECIPIENT in GIFT_STATES
    ensures CONFIRMING_TRANSFER in GIFT_STATES
  {
    assert PREV_STATE[7] != SNAPSHOT[7];
    assert PREV_STATE[0] == '_' && SNAPSHOT[0] == '_';
    assert "chosen_gift_code"[0] != '_' && "recipient_tg_id"[0] != '_';
    assert "send_code"[0] != '_' && "send_recipient"[0] != '_';
  }

  lemma EntrySetsAside(origin: Context, step: Step)
    requires !InGiftState(origin) && Enters(step)
    ensures SetAside(Apply(origin, step), origin)
    ensures Within(Apply(origin, step).data, origin.data) && Untouched(Apply(origin, step).data, origin.data)
  {
    KeysAreTemporary();
  }

  lemma StepKeepsAside(c: Context, origin: Context, step: Step)
    requires SetAside(c, origin) && Within(c.data, origin.data) && Enabled(c, step)
    ensures SetAside(Apply(c, step), origin) && Within(Apply(c, step).data, origin.data)
    ensures Untouched(c.data, origin.data) && !step.Forget? ==> Untouched(Apply(c, step).data, origin.data)
  {
    KeysAreTemporary();
  }

  lemma {:induction false} RunKeepsAside(c: Context, origin: Context, steps: seq<Step>)
    requires SetAside(c, origin) && Within(c.data, origin.data) && Runs(c, steps)
    ensures SetAside(Run(c, steps), origin) && Within(Run(c, steps).data, origin.data)
    ensures Untouched(c.data, origin.data) && (forall i :: 0 <= i < |steps| ==> !steps[i].Forget?) ==>
              Untouched(Run(c, steps).data, origin.data)
    decreases |steps|
  {
    if steps != [] {
      StepKeepsAside(c, origin, steps[0]);
      RunKeepsAside(Apply(c, steps[0]), origin, steps[1..]);
    }
  }

  // ---------------------------------------------------------------- main results

  lemma NothingToFill(data: map<string, Value>, origin: map<string, Value>)
    requires Within(data, origin) && Untouched(data, origin)
    ensures Filled(data - TEMP_KEYS, SnapshotOf(origin)) == origin - TEMP_KEYS
  {
    var clean := origin - TEMP_KEYS;
    assert data - TEMP_KEYS == clean;
    var snapshot := SnapshotOf(origin);
    forall k | k in snapshot ensures k in clean && clean[k] == snapshot[k] {
      assert Kept(k);
    }
  }

  /** The user came from a chat or date that is over by now. */
  predicate Stranded(origin: Context, activeMatch: bool) {
    origin.state.Some? && IsPipeline(origin.state.value) && !activeMatch
  }

  /**
   * Round trip: entering the flow, any sequence of its steps and repeated entries, then leaving it,
   * gives back the state and all data but the flow's own keys; a user whose chat or date is over gets
   * the cleared context.
   */
  lemma BracketRestores(origin: Context, entry: Step, steps: seq<Step>, activeMatch: bool)
    requires !InGiftState(origin) && origin.state != Some("") && Enters(entry)
    requires Runs(Apply(origin, entry), steps) && forall i :: 0 <= i < |steps| ==> !steps[i].Forget?
    ensures
      Restore(Run(Apply(origin, entry), steps), activeMatch) ==
        if Stranded(origin, activeMatch) then Context(None, map[])
        else Context(origin.state, origin.data - TEMP_KEYS)
  {
    EntrySetsAside(origin, entry);
    RunKeepsAside(Apply(origin, entry), origin, steps);
    LeaveUntouched(Run(Apply(origin, entry), steps), origin, activeMatch);
  }

  /** What was set aside is what leaving the flow reads. */
  lemma SavedIsOrigin(c: Context, origin: Context)
    requires SetAside(c, origin) && origin.state != Some("")
    ensures SavedState(c.data) == origin.state && SavedSnapshot(c.data) == SnapshotOf(origin.data)
  {
  }

  lemma LeaveUntouched(c: Context, origin: Context, activeMatch: bool)
    requires !InGiftState(origin) && origin.state != Some("")
    requires SetAside(c, origin) && Within(c.data, origin.data) && Untouched(c.data, origin.data)
    ensures
      Restore(c, activeMatch) ==
        if Stranded(origin, activeMatch) then Context(None, map[])
        else Context(origin.state, origin.data - TEMP_KEYS)
  {
    SavedIsOrigin(c, origin);
    NothingToFill(c.data, origin.data);
  }

  /** The original context comes back unchanged exactly when it held none of the flow's own keys and is not stranded. */
  lemma BracketIsIdentityIff(origin: Context, entry: Step, steps: seq<Step>, activeMatch: bool)
    requires !InGiftState(origin) && origin.state != Some("") && Enters(entry)
    requires Runs(Apply(origin, entry), steps) && forall i :: 0 <= i < |steps| ==> !steps[i].Forget?
    ensures Restore(Run(Apply(origin, entry), steps), activeMatch) == origin <==>
            origin.data.Keys !! TEMP_KEYS && !Stranded(origin, activeMatch)
  {
    BracketRestores(origin, entry, steps, activeMatch);
    NothingTakenAway(origin.data, TEMP_KEYS);
  }

  lemma NothingTakenAway(data: map<string, Value>, keys: set<string>)
    ensures data - keys == data <==> data.Keys !! keys
  {
    if data.Keys !! keys {
      assert data - keys == data;
    } else {
      var k :| k in data && k in keys;
      assert k !in data - keys;
    }
  }

  /** Reading a key, an absent one as null. */
  function Get(data: map<string, Value>, key: string): Value { if key in data then data[key] else Null }

  /** Keys that other handlers dropped meanwhile come back from the snapshot, up to nulls. */
  lemma BracketRecoversForgotten(origin: Context, entry: Step, steps: seq<Step>, activeMatch: bool, key: string)
    requires !InGiftState(origin) && origin.state != Some("") && Enters(entry)
    requires Runs(Apply(origin, entry), steps) && !Stranded(origin, activeMatch)
    requires key !in TEMP_KEYS
    ensures
      var r := Restore(Run(Apply(origin, entry), steps), activeMatch);
      r.state == origin.state && Get(r.data, key) == Get(origin.data, key)
  {
    EntrySetsAside(origin, entry);
    RunKeepsAside(Apply(origin, entry), origin, steps);
    KeysAreTemporary();
  }

  // ---------------------------------------------------------------- entering without preserving

  /** Inside the flow, with whatever was set aside before, by this flow or an abandoned one. */
  predicate SavedAsBefore(c: Context, origin: Context) {
    && InGiftState(c)
    && SameEntry(c.data, origin.data, PREV_STATE) && SameEntry(c.data, origin.data, SNAPSHOT)
  }

  predicate SameEntry(data: map<string, Value>, origin: map<string, Value>, key: string) {
    (key in data <==> key in origin) && (key in data ==> data[key] == origin[key])
  }

  lemma StepSavesNothing(c: Context, origin: Context, step: Step)
    requires SavedAsBefore(c, origin) && Within(c.data, origin.data) && Enabled(c, step)
    ensures SavedAsBefore(Apply(c, step), origin) && Within(Apply(c, step).data, origin.data)
    ensures Untouched(c.data, origin.data) && !step.Forget? ==> Untouched(Apply(c, step).data, origin.data)
  {
    KeysAreTemporary();
  }

  lemma {:induction false} RunSavesNothing(c: Context, origin: Context, steps: seq<Step>)
    requires SavedAsBefore(c, origin) && Within(c.data, origin.data) && Untouched(c.data, origin.data)
    requires Runs(c, steps) && forall i :: 0 <= i < |steps| ==> !steps[i].Forget?
    ensures SavedAsBefore(Run(c, steps), origin)
    ensures Within(Run(c, steps).data, origin.data) && Untouched(Run(c, steps).data, origin.data)
    decreases |steps|
  {
    if steps != [] {
      StepSavesNothing(c, origin, steps[0]);
      RunSavesNothing(Apply(c, steps[0]), origin, steps[1..]);
    }
  }

  /** Leaving the flow depends only on what is set aside and on the user's own data. */
  lemma LeaveUnsaved(c: Context, origin: Context, activeMatch: bool)
    requires SavedAsBefore(c, origin) && Within(c.data, origin.data) && Untouched(c.data, origin.data)
    ensures Restore(c, activeMatch) == Restore(origin, activeMatch)
  {
    assert c.data - TEMP_KEYS == origin.data - TEMP_KEYS;
    assert SavedState(c.data) == SavedState(origin.data);
    assert SavedSnapshot(c.data) == SavedSnapshot(origin.data);
  }

  /**
   * An old button that picks a gift to send enters the flow without preserving anything: whatever
   * follows, also proper entries, leaving the flow then gives what leaving it at once from the
   * original context would give. What the user came from plays no part: the state is the one an
   * abandoned flow has left behind, if any, else none.
   */
  lemma OldButtonLosesState(origin: Context, code: string, recipient: int, steps: seq<Step>, activeMatch: bool)
    requires !InGiftState(origin)
    requires Runs(Apply(origin, PickGiftToSend(code, recipient)), steps)
    requires forall i :: 0 <= i < |steps| ==> !steps[i].Forget?
    ensures
      var r := Restore(Run(Apply(origin, PickGiftToSend(code, recipient)), steps), activeMatch);
      && r == Restore(origin, activeMatch)
      && (SavedState(origin.data).None? ==> r.state.None?)
      && (r.state.Some? ==> r.state == SavedState(origin.data))
  {
    KeysAreTemporary();
    var c := Apply(origin, PickGiftToSend(code, recipient));
    RunSavesNothing(c, origin, steps);
    LeaveUnsaved(Run(c, steps), origin, activeMatch);
  }

  /** So the state the user came from comes back exactly when it is the one left behind and not cleared. */
  lemma OldButtonRestoresIff(origin: Context, code: string, recipient: int, steps: seq<Step>, activeMatch: bool)
    requires !InGiftState(origin) && origin.state != Some("")
    requires Runs(Apply(origin, PickGiftToSend(code, recipient)), steps)
    requires forall i :: 0 <= i < |steps| ==> !steps[i].Forget?
    ensures
      var r := Restore(Run(Apply(origin, PickGiftToSend(code, recipient)), steps), activeMatch);
      var saved := SavedState(origin.data);
      r.state == origin.state <==>
        if origin.state.Some? then saved == origin.state && !Stranded(origin, activeMatch)
        else saved.None? || saved.value in GIFT_STATES || (IsPipeline(saved.value) && !activeMatch)
  {
    OldButtonLosesState(origin, code, recipient, steps, activeMatch);
  }

  // ---------------------------------------------------------------- which states are cleared

  /** The word occurs in the text from position `i`, in any case. */
  predicate OccursAt(text: string, word: string, i: int) {
    && 0 <= i && i + |word| <= |text|
    && forall k :: 0 <= k < |word| ==> Folded(text[i + k]) == word[k]
  }

  function Folded(c: char): char { if 'A' <= c <= 'Z' then (c as int + 32) as char else c }

  lemma {:induction false} ContainsMeans(text: string, word: string)
    ensures Contains(Lower(text), word) <==> exists i :: OccursAt(text, word, i)
  {
    var low := Lower(text);
    if word <= low {
      assert OccursAt(text, word, 0);
    }
    if text == "" {
      if exists i :: OccursAt(text, word, i) {
        assert word <= low;
      }
    } else {
      ContainsMeans(text[1..], word);
      assert low[1..] == Lower(text[1..]);
      if exists i :: OccursAt(text[1..], word, i) {
        var i :| OccursAt(text[1..], word, i);
        assert OccursAt(text, word, i + 1);
      }
      if exists i :: OccursAt(text, word, i) {
        var i :| OccursAt(text, word, i);
        if i == 0 {
          assert word <= low;
        } else {
          assert OccursAt(text[1..], word, i - 1);
        }
      }
    }
  }

  /**
   * Leaving the flow without an active chat or date clears everything exactly for saved states whose
   * name has one of the three words in it, in any case; other states come back.
   */
  lemma ClearedIff(c: Context)
    requires SavedState(c.data).Some? && SavedState(c.data).value !in GIFT_STATES
    ensures
      var state := SavedState(c.data).value;
      var cleared := exists i :: OccursAt(state, "chat", i) || OccursAt(state, "matching", i)
                                 || OccursAt(state, "questionnaire", i);
      && (cleared ==> Restore(c, false) == Context(None, map[]))
      && (!cleared ==> Restore(c, false).state == Some(state))
      && Restore(c, true).state == Some(state)
  {
    var state := SavedState(c.data).value;
    ContainsMeans(state, "chat");
    ContainsMeans(state, "matching");
    ContainsMeans(state, "questionnaire");
  }

  /** Leaving the flow keeps what is there, and fills what is missing or null from the snapshot. */
  lemma LeavingFills(c: Context, activeMatch: bool, key: string)
    requires key !in TEMP_KEYS && !(SavedState(c.data).Some? && IsPipeline(SavedState(c.data).value) && !activeMatch)
    ensures
      var r := Restore(c, activeMatch);
      Get(r.data, key) == if Get(c.data, key) != Null then c.data[key] else Get(SavedSnapshot(c.data), key)
  {
  }

  /** The snapshot holds the user's own keys with their values, and no key of a gift flow. */
  lemma SnapshotHolds(c: Context, key: string)
    requires !InGiftState(c)
    ensures
      var snapshot := SavedSnapshot(Preserve(c).data);
      if key in c.data && key !in TEMP_KEYS && !("__gift_" <= key) then key in snapshot && snapshot[key] == c.data[key]
      else key !in snapshot
  {
    KeysAreTemporary();
  }
}
