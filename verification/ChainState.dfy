/** The replicated chain state and the pure part of executing a block (`updateState`). */
module ChainState {
  import opened Options

  type Hash = nat
  type Address = nat

  const NO_HASH: Hash := 0

  /** Membership with voting powers, and the proposer priorities kept beside them. */
  datatype ValidatorSet = ValidatorSet(powers: map<Address, nat>, priorities: map<Address, int>)

  datatype ValidatorUpdate = ValidatorUpdate(address: Address, keyType: string, power: int)

  datatype Params = Params(maxBytes: int, maxGas: int, maxAge: int, keyTypes: seq<string>)
  datatype BlockLimits = BlockLimits(maxBytes: int, maxGas: int)
  datatype ParamUpdates = ParamUpdates(block: Option<BlockLimits>, maxAge: Option<int>, keyTypes: Option<seq<string>>)

  function UpdateParams(p: Params, u: ParamUpdates): Params {
    Params(
      if u.block.Some? then u.block.value.maxBytes else p.maxBytes,
      if u.block.Some? then u.block.value.maxGas else p.maxGas,
      if u.maxAge.Some? then u.maxAge.value else p.maxAge,
      if u.keyTypes.Some? then u.keyTypes.value else p.keyTypes)
  }

  datatype Block = Block(height: nat, time: int, txs: seq<nat>, id: Hash)

  datatype EndBlock = EndBlock(validatorUpdates: seq<ValidatorUpdate>, paramUpdates: Option<ParamUpdates>)
  datatype Responses = Responses(begin: nat, deliver: seq<nat>, end: EndBlock)

  datatype State = State(
    height: nat,
    totalTxs: nat,
    lastBlock: Option<Hash>,
    lastTime: int,
    nextValidators: ValidatorSet,
    validators: ValidatorSet,
    lastValidators: Option<ValidatorSet>,
    validatorsChanged: nat,
    params: Params,
    paramsChanged: nat,
    resultsHash: Option<Hash>,
    appHash: Hash,
    hashSignature: Option<Hash>)

  /** The parts this model does not look into. */
  datatype Rules = Rules(
    accepts: (State, Block) -> bool,
    change: (ValidatorSet, seq<ValidatorUpdate>) -> Option<ValidatorSet>,
    increment: (ValidatorSet, nat) -> ValidatorSet,
    paramsValid: Params -> bool,
    hashResults: seq<nat> -> Hash)

  /** Negative powers and unsupported key types are refused; a zero power removes a validator. */
  predicate UpdatesAllowed(updates: seq<ValidatorUpdate>, p: Params) {
    forall i :: 0 <= i < |updates| ==>
      updates[i].power >= 0 && (updates[i].power > 0 ==> updates[i].keyType in p.keyTypes)
  }

  function NextValidators(r: Rules, s: State, height: nat, updates: seq<ValidatorUpdate>): Option<ValidatorSet> {
    var changed := if updates == [] then Some(s.nextValidators) else r.change(s.nextValidators, updates);
    if changed.Some? && height % 2 == 0 then Some(r.increment(changed.value, 1)) else changed
  }

  function NextParams(r: Rules, s: State, updates: Option<ParamUpdates>): Option<Params> {
    if updates.None? then Some(s.params)
    else
      var p := UpdateParams(s.params, updates.value);
      if r.paramsValid(p) then Some(p) else None
  }

  /** The state after a block, its application hash still unset; None on an error. */
  function UpdateState(r: Rules, s: State, b: Block, res: Responses): Option<State> {
    var vals := NextValidators(r, s, b.height, res.end.validatorUpdates);
    var params := NextParams(r, s, res.end.paramUpdates);
    if vals.None? || params.None? then None
    else
      Some(State(
        b.height,
        s.totalTxs + |b.txs|,
        Some(b.id),
        b.time,
        vals.value,
        s.nextValidators,
        Some(s.validators),
        if res.end.validatorUpdates != [] then b.height + 2 else s.validatorsChanged,
        params.value,
        if res.end.paramUpdates.Some? then b.height + 1 else s.paramsChanged,
        Some(r.hashResults(res.deliver)),
        NO_HASH,
        s.hashSignature))
  }

  /** Everything but the aggregate signature the node attaches on its own. */
  function Core(s: State): State {
    s.(hashSignature := None)
  }
}
