/** The sparse history of validator sets and consensus parameters (`state/store.go`): only change
    heights and checkpoints hold a value, every other height points back. Read at any height it
    agrees with the dense history. */
module StateStore {
  import opened Options
  import opened ChainState

  const CHECKPOINT_INTERVAL := 100000

  datatype ValidatorsInfo = ValidatorsInfo(set': Option<ValidatorSet>, changed: nat)
  datatype ParamsInfo = ParamsInfo(params: Params, changed: nat)

  const EMPTY_PARAMS := Params(0, 0, 0, [])

  datatype DB = DB(validators: map<nat, ValidatorsInfo>, params: map<nat, ParamsInfo>)

  // ----- saving ----------------------------------------------------------------------------------

  function MakeValidatorsInfo(height: nat, changed: nat, vals: ValidatorSet): ValidatorsInfo {
    ValidatorsInfo(if height == changed || height % CHECKPOINT_INTERVAL == 0 then Some(vals) else None, changed)
  }

  function MakeParamsInfo(height: nat, changed: nat, params: Params): ParamsInfo {
    ParamsInfo(if changed == height then params else EMPTY_PARAMS, changed)
  }

  datatype SaveResult = Saved(db: DB) | SavePanic

  /** The history entries written before the state itself; a change height beyond the entry panics. */
  function SaveEntries(db: DB, s: State): SaveResult {
    var next := s.height + 1;
    if s.validatorsChanged > next + 1 then SavePanic
    else
      var vals := if next == 1 then db.validators[1 := MakeValidatorsInfo(1, 1, s.validators)] else db.validators;
      Saved(DB(
        vals[next + 1 := MakeValidatorsInfo(next + 1, s.validatorsChanged, s.nextValidators)],
        db.params[next := MakeParamsInfo(next, s.paramsChanged, s.params)]))
  }

  // ----- loading ---------------------------------------------------------------------------------

  datatype LoadResult<+T> = Loaded(value: T) | NotFound | LoadPanic

  function LastStoredHeightFor(height: nat, changed: nat): nat {
    var checkpoint := height - height % CHECKPOINT_INTERVAL;
    if checkpoint > changed then checkpoint else changed
  }

  /** Advancing proposer priorities panics on an empty set or a non-positive count. */
  function Increment(r: Rules, vals: ValidatorSet, times: int): LoadResult<ValidatorSet> {
    if vals.powers == map[] || times <= 0 then LoadPanic else Loaded(r.increment(vals, times))
  }

  function StoredSet(db: DB, height: nat): Option<ValidatorSet> {
    if height in db.validators then db.validators[height].set' else None
  }

  function LoadValidators(r: Rules, db: DB, height: nat): LoadResult<ValidatorSet> {
    if height !in db.validators then NotFound
    else
      var info := db.validators[height];
      if info.set'.Some? then Loaded(info.set'.value)
      else
        var last := LastStoredHeightFor(height, info.changed);
        if StoredSet(db, last).Some? then Increment(r, StoredSet(db, last).value, height - last)
        else if StoredSet(db, info.changed).Some? then
          Increment(r, StoredSet(db, info.changed).value, height - info.changed)
        else LoadPanic
  }

  function LoadParams(db: DB, height: nat): LoadResult<Params> {
    if height !in db.params then NotFound
    else
      var info := db.params[height];
      if info.params != EMPTY_PARAMS then Loaded(info.params)
      else if info.changed !in db.params then LoadPanic
      else Loaded(db.params[info.changed].params)
  }

  /** The store object: entries are overwritten in place. */
  class Store {
    var db: DB

    method SaveValidatorsInfo(height: nat, changed: nat, vals: ValidatorSet) returns (ok: bool)
      modifies this
      ensures ok <==> changed <= height
      ensures ok ==> height in db.validators && db.validators[height].changed == changed
                     && db.validators[height].set' == (if height == changed || height % 100000 == 0 then Some(vals) else None)
      ensures db == if ok then old(db).(validators := old(db).validators[height := MakeValidatorsInfo(height, changed, vals)]) else old(db)
    {
      if changed > height {
        return false;
      }
      var info := ValidatorsInfo(None, changed);
      if height == changed || height % CHECKPOINT_INTERVAL == 0 {
        info := info.(set' := Some(vals));
      }
      db := db.(validators := db.validators[height := info]);
      return true;
    }

    method SaveState(s: State) returns (ok: bool)
      modifies this
      ensures ok <==> SaveEntries(old(db), s).Saved?
      ensures ok ==> Saved(db) == SaveEntries(old(db), s)
      ensures !ok ==> db == if s.height > 0 then old(db)
                            else old(db).(validators := old(db).validators[1 := ValidatorsInfo(Some(s.validators), 1)])
    {
      var next := s.height + 1;
      if next == 1 {
        ok := SaveValidatorsInfo(next, 1, s.validators);
      }
      ok := SaveValidatorsInfo(next + 1, s.validatorsChanged, s.nextValidators);
      if !ok {
        return;
      }
      var info := ParamsInfo(EMPTY_PARAMS, s.paramsChanged);
      if s.paramsChanged == next {
        info := info.(params := s.params);
      }
      db := db.(params := db.params[next := info]);
    }
  }

  // ----- the dense history -----------------------------------------------------------------------

  ghost predicate Lawful(r: Rules) {
    && (forall v: ValidatorSet, k: nat :: r.increment(v, k).powers == v.powers)
    && (forall v: ValidatorSet, u: seq<ValidatorUpdate> :: r.change(v, u).Some? ==> r.change(v, u).value.powers != map[])
  }

  /** Genesis, after InitChain: both sets have the same members and powers. */
  ghost predicate Genesis(s: State) {
    && s.height == 0 && s.validatorsChanged == 1 && s.paramsChanged == 1
    && s.validators.powers == s.nextValidators.powers && s.validators.powers != map[]
  }

  /** `states[i]` is the state after block i. */
  ghost predicate History(r: Rules, states: seq<State>, blocks: seq<Block>, responses: seq<Responses>) {
    && |states| == |blocks| + 1 == |responses| + 1 && Genesis(states[0])
    && (forall i {:trigger blocks[i]} :: 0 <= i < |blocks| ==> Successor(r, states[i], states[i + 1], blocks[i], responses[i]))
  }

  ghost predicate Successor(r: Rules, s: State, t: State, b: Block, res: Responses) {
    b.height == s.height + 1 && UpdateState(r, s, b, res) == Some(t.(appHash := NO_HASH))
  }

  /** The database after saving every state of the history in turn. */
  function SaveAll(states: seq<State>): SaveResult {
    if states == [] then Saved(DB(map[], map[]))
    else
      var before := SaveAll(states[..|states| - 1]);
      if before.SavePanic? then SavePanic else SaveEntries(before.db, states[|states| - 1])
  }

  /** The validators that sign at a height: in force there, or due next. */
  function InForce(states: seq<State>, h: nat): ValidatorSet
    requires states != [] && 1 <= h <= |states| + 1
  {
    if h <= |states| then states[h - 1].validators else states[h - 2].nextValidators
  }

  function ChangedAt(states: seq<State>, h: nat): nat
    requires states != [] && 1 <= h <= |states| + 1
  {
    if h == 1 then 1 else states[h - 2].validatorsChanged
  }

  lemma {:induction false} Heights(r: Rules, states: seq<State>, blocks: seq<Block>, responses: seq<Responses>, i: nat)
    requires History(r, states, blocks, responses) && i < |states|
    ensures states[i].height == i
  {
    if i > 0 {
      Heights(r, states, blocks, responses, i - 1);
      assert Successor(r, states[i - 1], states[i], blocks[i - 1], responses[i - 1]);
    }
  }

  /** The sets line up: what is due next after one block is in force after the following one. */
  lemma DueThenInForce(r: Rules, states: seq<State>, blocks: seq<Block>, responses: seq<Responses>, h: nat)
    requires History(r, states, blocks, responses) && 2 <= h <= |states| + 1
    ensures InForce(states, h) == states[h - 2].nextValidators
  {
    if h <= |states| {
      assert Successor(r, states[h - 2], states[h - 1], blocks[h - 2], responses[h - 2]);
    }
  }

  /** One height further, the members either change right there or stay. */
  lemma ChangeStep(r: Rules, states: seq<State>, blocks: seq<Block>, responses: seq<Responses>, h: nat)
    requires Lawful(r) && History(r, states, blocks, responses) && 1 <= h <= |states|
    ensures ChangedAt(states, h + 1) == h + 1
            || (ChangedAt(states, h + 1) == ChangedAt(states, h)
                && InForce(states, h + 1).powers == InForce(states, h).powers)
    ensures InForce(states, h).powers != map[] ==> InForce(states, h + 1).powers != map[]
  {
    DueThenInForce(r, states, blocks, responses, h + 1);
    if h >= 2 {
      Heights(r, states, blocks, responses, h - 2);
      DueThenInForce(r, states, blocks, responses, h);
      assert Successor(r, states[h - 2], states[h - 1], blocks[h - 2], responses[h - 2]);
    }
  }

  /** An update decided in the block at h takes effect at h + 2 and not before; without one the members
      stay as they are. Priorities are moved on once by every block of even height. Validators move up by
      one set per block. */
  lemma UpdateTakesEffect(r: Rules, states: seq<State>, blocks: seq<Block>, responses: seq<Responses>, h: nat)
    requires Lawful(r) && History(r, states, blocks, responses) && 1 <= h <= |blocks|
    ensures var updates := responses[h - 1].end.validatorUpdates;
            var before, after := InForce(states, h + 1), InForce(states, h + 2);
            var changed := if updates != [] && r.change(before, updates).Some? then r.change(before, updates).value else before;
            && (updates != [] ==> r.change(before, updates).Some? && after.powers == r.change(before, updates).value.powers)
            && (updates == [] ==> after.powers == before.powers)
            && after == (if h % 2 == 0 then r.increment(changed, 1) else changed)
            && states[h].lastValidators == Some(InForce(states, h))
            && (ChangedAt(states, h + 2) == if updates != [] then h + 2 else ChangedAt(states, h + 1))
  {
    Heights(r, states, blocks, responses, h - 1);
    DueThenInForce(r, states, blocks, responses, h + 1);
    DueThenInForce(r, states, blocks, responses, h + 2);
    assert Successor(r, states[h - 1], states[h], blocks[h - 1], responses[h - 1]);
  }

  /** From its last change to a height, nothing about the members changed. */
  lemma {:induction false} UnchangedSince(r: Rules, states: seq<State>, blocks: seq<Block>, responses: seq<Responses>, h: nat, j: nat)
    requires Lawful(r) && History(r, states, blocks, responses) && 1 <= h <= |states| + 1
    ensures 1 <= ChangedAt(states, h) <= h && InForce(states, h).powers != map[]
    ensures ChangedAt(states, h) <= j <= h ==>
              ChangedAt(states, j) == ChangedAt(states, h) && InForce(states, j).powers == InForce(states, h).powers
  {
    if h > 1 {
      UnchangedSince(r, states, blocks, responses, h - 1, if j < h then j else 0);
      ChangeStep(r, states, blocks, responses, h - 1);
    }
  }

  /** A height's entries are the ones its change heights call for. */
  ghost predicate ValidatorsEntry(states: seq<State>, db: DB, h: nat)
    requires states != [] && 1 <= h <= |states| + 1
  {
    h in db.validators && db.validators[h] == MakeValidatorsInfo(h, ChangedAt(states, h), InForce(states, h))
  }

  ghost predicate ParamsEntry(states: seq<State>, db: DB, h: nat)
    requires 1 <= h <= |states|
  {
    h in db.params && db.params[h] == MakeParamsInfo(h, states[h - 1].paramsChanged, states[h - 1].params)
  }

  ghost predicate Complete(states: seq<State>, db: DB, n: nat)
    requires n < |states|
  {
    && (forall h :: 1 <= h <= n + 2 ==> ValidatorsEntry(states, db, h))
    && (forall h :: 1 <= h <= n + 1 ==> ParamsEntry(states, db, h))
  }

  /** Saving never panics, and leaves every entry in place. */
  lemma {:induction false} Entries(r: Rules, states: seq<State>, blocks: seq<Block>, responses: seq<Responses>, n: nat)
    requires Lawful(r) && History(r, states, blocks, responses) && n < |states|
    ensures SaveAll(states[..n + 1]).Saved? && Complete(states, SaveAll(states[..n + 1]).db, n)
    ensures SaveAll(states[..n]).Saved? && SaveEntries(SaveAll(states[..n]).db, states[n]) == SaveAll(states[..n + 1])
  {
    hide History, Lawful, MakeValidatorsInfo, MakeParamsInfo;
    if n > 0 {
      Entries(r, states, blocks, responses, n - 1);
    } else {
      assert states[..0] == [];
    }
    assert states[..n + 1][..n] == states[..n];
    Heights(r, states, blocks, responses, n);
    UnchangedSince(r, states, blocks, responses, n + 2, 0);
    DueThenInForce(r, states, blocks, responses, n + 2);
    assert SaveAll(states[..n + 1]) == SaveEntries(SaveAll(states[..n]).db, states[n]);
    var db := SaveAll(states[..n + 1]).db;
    forall h | 1 <= h <= n + 2
      ensures ValidatorsEntry(states, db, h)
    {
      assert n > 0 && h <= n + 1 ==> ValidatorsEntry(states, SaveAll(states[..n]).db, h);
    }
    forall h | 1 <= h <= n + 1
      ensures ParamsEntry(states, db, h)
    {
      assert n > 0 && h <= n ==> ParamsEntry(states, SaveAll(states[..n]).db, h);
    }
  }

  // ----- sparse refines dense --------------------------------------------------------------------

  /** At every height from 1 to two past the last block, the members and powers in force are
      returned; the fallback and both panics are out of reach, and when priorities are advanced it
      is by a positive count from a stored set. */
  lemma LoadValidatorsExact(r: Rules, states: seq<State>, blocks: seq<Block>, responses: seq<Responses>, n: nat, h: nat)
    requires Lawful(r) && History(r, states, blocks, responses) && n < |states| && 1 <= h <= n + 2
    ensures SaveAll(states[..n + 1]).Saved?
    ensures var db := SaveAll(states[..n + 1]).db;
            && LoadValidators(r, db, h).Loaded?
            && LoadValidators(r, db, h).value.powers == InForce(states, h).powers
            && h in db.validators && db.validators[h].changed == ChangedAt(states, h)
            && db.validators[h].set' == (if h == ChangedAt(states, h) || h % 100000 == 0 then Some(InForce(states, h)) else None)
            && (db.validators[h].set'.None? ==>
                  var last := LastStoredHeightFor(h, db.validators[h].changed);
                  1 <= last < h && LoadValidators(r, db, h).value == r.increment(InForce(states, last), h - last))
  {
    hide History, SaveAll;
    Entries(r, states, blocks, responses, n);
    var last := LastStoredHeightFor(h, ChangedAt(states, h));
    UnchangedSince(r, states, blocks, responses, h, last);
    if h != ChangedAt(states, h) && h % CHECKPOINT_INTERVAL != 0 {
      CheckpointBelow(h);
      assert ValidatorsEntry(states, SaveAll(states[..n + 1]).db, last);
    }
    assert ValidatorsEntry(states, SaveAll(states[..n + 1]).db, h);
  }

  lemma CheckpointBelow(h: nat)
    ensures (h - h % CHECKPOINT_INTERVAL) % CHECKPOINT_INTERVAL == 0 && h - h % CHECKPOINT_INTERVAL <= h
  {
  }

  lemma {:induction false} ParamsUnchangedSince(r: Rules, states: seq<State>, blocks: seq<Block>, responses: seq<Responses>, h: nat)
    requires History(r, states, blocks, responses) && 1 <= h <= |states|
    ensures var c := states[h - 1].paramsChanged;
            1 <= c <= h && states[c - 1].paramsChanged == c && states[c - 1].params == states[h - 1].params
  {
    if h > 1 {
      ParamsUnchangedSince(r, states, blocks, responses, h - 1);
      Heights(r, states, blocks, responses, h - 2);
      assert Successor(r, states[h - 2], states[h - 1], blocks[h - 2], responses[h - 2]);
    }
  }

  /** Parameters are exact at every height from 1 to one past the last block, even when they equal
      the empty value that marks an entry as pointing back. */
  lemma LoadParamsExact(r: Rules, states: seq<State>, blocks: seq<Block>, responses: seq<Responses>, n: nat, h: nat)
    requires Lawful(r) && History(r, states, blocks, responses) && n < |states| && 1 <= h <= n + 1
    ensures SaveAll(states[..n + 1]).Saved? && LoadParams(SaveAll(states[..n + 1]).db, h) == Loaded(states[h - 1].params)
  {
    hide History, SaveAll;
    Entries(r, states, blocks, responses, n);
    ParamsUnchangedSince(r, states, blocks, responses, h);
    var db := SaveAll(states[..n + 1]).db;
    assert ParamsEntry(states, db, h) && ParamsEntry(states, db, states[h - 1].paramsChanged);
  }

  /** Entries written for a state whose own save was cut off change nothing below: with any part of
      the next state's entries already there, every load answers as before. */
  lemma InterruptedSaveHarmless(r: Rules, states: seq<State>, blocks: seq<Block>, responses: seq<Responses>, n: nat, h: nat, cut: DB)
    requires Lawful(r) && History(r, states, blocks, responses) && n + 1 < |states| && 1 <= h <= n + 2
    requires SaveAll(states[..n + 1]).Saved? && SaveAll(states[..n + 2]).Saved?
    requires cut.validators in {SaveAll(states[..n + 1]).db.validators, SaveAll(states[..n + 2]).db.validators}
    requires cut.params in {SaveAll(states[..n + 1]).db.params, SaveAll(states[..n + 2]).db.params}
    ensures LoadValidators(r, cut, h) == LoadValidators(r, SaveAll(states[..n + 1]).db, h)
    ensures h <= n + 1 ==> LoadParams(cut, h) == LoadParams(SaveAll(states[..n + 1]).db, h)
  {
    hide History, SaveAll, Lawful, LoadValidators, LoadParams, MakeValidatorsInfo, MakeParamsInfo, ChangedAt, InForce;
    Entries(r, states, blocks, responses, n);
    Entries(r, states, blocks, responses, n + 1);
    Heights(r, states, blocks, responses, n + 1);
    var db := SaveAll(states[..n + 1]).db;
    UnchangedSince(r, states, blocks, responses, h, 0);
    assert ValidatorsEntry(states, db, h);
    ValidatorsReadBelow(r, states, db, cut, n, h, SaveAll(states[..n + 2]).db.validators[n + 3]);
    if h <= n + 1 {
      ParamsUnchangedSince(r, states, blocks, responses, h);
      assert ParamsEntry(states, db, h);
      ParamsReadBelow(states, db, cut, n, h, SaveAll(states[..n + 2]).db.params[n + 2]);
    }
  }

  lemma ValidatorsReadBelow(r: Rules, states: seq<State>, db: DB, cut: DB, n: nat, h: nat, info: ValidatorsInfo)
    requires n < |states| && 1 <= h <= n + 2 && ValidatorsEntry(states, db, h) && ChangedAt(states, h) <= h
    requires cut.validators == db.validators || cut.validators == db.validators[n + 3 := info]
    ensures LoadValidators(r, cut, h) == LoadValidators(r, db, h)
  {
    CheckpointBelow(h);
  }

  lemma ParamsReadBelow(states: seq<State>, db: DB, cut: DB, n: nat, h: nat, info: ParamsInfo)
    requires n < |states| && 1 <= h <= n + 1 && ParamsEntry(states, db, h) && states[h - 1].paramsChanged <= h
    requires cut.params == db.params || cut.params == db.params[n + 2 := info]
    ensures LoadParams(cut, h) == LoadParams(db, h)
  {
  }
}
