/** The ledger as the source keeps it: two maps edited in place, with running totals per asset.
    Every method is proved against LedgerRules or Roots. */
module LedgerObjects {
  import opened Types
  import opened LittleEndian
  import opened Codec
  import opened LedgerRules
  import opened Sorting
  import Listings
  import Roots
  import Encoder
  import Vm

  type Totals = map<AssetId, u128>

  function Get(totals: Totals, id: AssetId): u128 {
    if id in totals then totals[id] else 0
  }

  /** The sum of two u128 values, as the build adds them; nothing if it stops. */
  function Plus(env: Env, a: u128, b: u128): (sum: Option<u128>)
    ensures sum.Some? <==> env.build.Wrapping? || a + b <= U128_MAX
    ensures sum.Some? ==> sum.value == Added(env, a + b)
  {
    if a + b <= U128_MAX then
      AddedSmall(env, a + b);
      Some(a + b)
    else if env.build.Checked? then None
    else Some(a + b - (U128_MAX + 1))
  }

  lemma OneMoreEntry(env: Env, total: u128, assets: seq<AssetAmount>, j: nat, sum: u128, id: AssetId)
    requires j < |assets| && sum == Added(env, total + AssetSum(assets, j, id))
    ensures var next := AssetSum(assets, j + 1, id);
      && (assets[j].assetId == id ==> Added(env, total + next) == Added(env, sum + assets[j].amount))
      && (assets[j].assetId != id ==> Added(env, total + next) == sum)
  {
    hide Added;
    AddedTwice(env, total + AssetSum(assets, j, id), assets[j].amount);
  }

  // What the totals come to after the first `j` entries.
  ghost predicate Upto(env: Env, totals: Totals, assets: seq<AssetAmount>, j: nat, sums: Totals)
    requires j <= |assets|
  {
    forall id :: Get(sums, id) == Added(env, Get(totals, id) + AssetSum(assets, j, id))
  }

  lemma UptoNothing(env: Env, totals: Totals, assets: seq<AssetAmount>)
    ensures Upto(env, totals, assets, 0, totals)
  {
    hide Added;
    forall id
      ensures Get(totals, id) == Added(env, Get(totals, id) + AssetSum(assets, 0, id))
    {
      AddedSmall(env, Get(totals, id));
    }
  }

  lemma UptoNext(env: Env, totals: Totals, assets: seq<AssetAmount>, j: nat, sums: Totals, sum: u128)
    requires j < |assets| && Upto(env, totals, assets, j, sums)
    requires sum == Added(env, Get(sums, assets[j].assetId) + assets[j].amount)
    ensures Upto(env, totals, assets, j + 1, sums[assets[j].assetId := sum])
  {
    hide Added, AssetSum;
    var next := sums[assets[j].assetId := sum];
    forall id
      ensures Get(next, id) == Added(env, Get(totals, id) + AssetSum(assets, j + 1, id))
    {
      OneMoreEntry(env, Get(totals, id), assets, j, Get(sums, id), id);
    }
  }

  lemma TooMuchOf(env: Env, total: u128, assets: seq<AssetAmount>, j: nat, sum: u128, id: AssetId)
    requires j < |assets| && assets[j].assetId == id && env.build.Checked?
    requires sum == Added(env, total + AssetSum(assets, j, id)) && sum + assets[j].amount > U128_MAX
    ensures total + AssetSum(assets, |assets|, id) > U128_MAX
  {
    AssetSumMonotone(assets, j + 1, |assets|, id);
  }

  lemma TooMuch(env: Env, totals: Totals, assets: seq<AssetAmount>, j: nat, sums: Totals)
    requires j < |assets| && Upto(env, totals, assets, j, sums) && env.build.Checked?
    requires Get(sums, assets[j].assetId) + assets[j].amount > U128_MAX
    ensures exists id :: Get(totals, id) + AssetSum(assets, |assets|, id) > U128_MAX
  {
    hide Added, AssetSum, Get;
    TooMuchOf(env, Get(totals, assets[j].assetId), assets, j, Get(sums, assets[j].assetId), assets[j].assetId);
  }

  /** `accumulate_asset` over the entries of one output; nothing is returned if an addition stops. */
  method Accumulate(env: Env, totals: Totals, assets: seq<AssetAmount>) returns (r: Option<Totals>)
    ensures r.Some? ==> forall id :: Get(r.value, id) == Added(env, Get(totals, id) + AssetSum(assets, |assets|, id))
    ensures r.None? ==> env.build.Checked? && exists id :: Get(totals, id) + AssetSum(assets, |assets|, id) > U128_MAX
  {
    var sums: Totals := totals;
    UptoNothing(env, totals, assets);
    for j := 0 to |assets|
      invariant Upto(env, totals, assets, j, sums)
    {
      hide *;
      var sum := Plus(env, Get(sums, assets[j].assetId), assets[j].amount);
      if sum.None? {
        TooMuch(env, totals, assets, j, sums);
        return None;
      }
      UptoNext(env, totals, assets, j, sums, sum.value);
      sums := sums[assets[j].assetId := sum.value];
    }
    return Some(sums);
  }

  lemma CheckedAdds(env: Env, n: nat)
    requires env.build.Checked?
    ensures Added(env, n) == n
  {
  }

  /** The two loops that compare what went in with what came out. */
  method SameTotals(inputTotals: Totals, outputTotals: Totals) returns (same: bool)
    ensures same <==> forall id :: Get(inputTotals, id) == Get(outputTotals, id)
  {
    var left := inputTotals.Keys;
    while left != {}
      invariant left <= inputTotals.Keys
      invariant forall id :: id in inputTotals.Keys - left ==> Get(inputTotals, id) == Get(outputTotals, id)
    {
      var id :| id in left;
      if inputTotals[id] != Get(outputTotals, id) {
        return false;
      }
      left := left - {id};
    }
    left := outputTotals.Keys;
    while left != {}
      invariant left <= outputTotals.Keys
      invariant forall id :: id in outputTotals.Keys - left && id !in inputTotals ==> outputTotals[id] == 0
    {
      var id :| id in left;
      if id !in inputTotals && outputTotals[id] > 0 {
        assert Get(inputTotals, id) != Get(outputTotals, id);
        return false;
      }
      left := left - {id};
    }
    return true;
  }

  /** Whether an output lists an asset. */
  method FindEntry(output: Output, id: AssetId) returns (found: bool)
    ensures found <==> HoldsEntry(output, id)
  {
    for j := 0 to |output.assets|
      invariant forall i :: 0 <= i < j ==> output.assets[i].assetId != id
    {
      if output.assets[j].assetId == id {
        return true;
      }
    }
    return false;
  }

  // What the input loop has gathered when it reaches its end.
  datatype Gathered = Gathered(consumed: seq<UtxoKey>, totals: Totals, issuerAuthorized: bool)

  /** The asset a CreateAsset is about to create. */
  datatype Pending = Pending(id: AssetId, definition: AssetDefinition, supply: u128)

  ghost predicate PendingFor(env: Env, core: TransactionCore, chainId: u32, pending: Option<Pending>) {
    match core.kind
    case Transfer => pending.None?
    case CreateAsset(definition, supply) =>
      pending == Some(Pending(DeriveAssetId(env, definition, chainId), definition, supply))
  }

  /** Leaving the created asset out of both totals is leaving it out of the comparison. */
  lemma ConservesIfSame(env: Env, utxos: Utxos, core: TransactionCore, chainId: u32, ins: Totals, outs: Totals)
    requires forall id :: Some(id) != CreatedId(env, core, chainId) ==>
      Get(ins, id) == Added(env, InputSum(utxos, core.inputs, |core.inputs|, id))
    requires forall id :: Some(id) != CreatedId(env, core, chainId) ==>
      Get(outs, id) == Added(env, OutputSum(core.outputs, |core.outputs|, id))
    requires forall id :: Some(id) == CreatedId(env, core, chainId) ==> Get(ins, id) == Get(outs, id)
    ensures Conserves(env, utxos, core, chainId) <==> forall id :: Get(ins, id) == Get(outs, id)
  {
    hide Get, InputSum, OutputSum, CreatedId, Added;
    if forall id :: Get(ins, id) == Get(outs, id) {
      forall id | Some(id) != CreatedId(env, core, chainId)
        ensures Added(env, InputSum(utxos, core.inputs, |core.inputs|, id))
             == Added(env, OutputSum(core.outputs, |core.outputs|, id))
      {
        assert Get(ins, id) == Get(outs, id);
      }
    }
  }

  lemma NothingGathered(env: Env, utxos: Utxos, inputs: seq<UtxoKey>)
    ensures forall id :: Get(map[], id) == Added(env, InputSum(utxos, inputs, 0, id)) == 0
    ensures forall definition, id :: !IssueAuthorized(utxos, inputs, 0, definition, id)
  {
  }

  lemma OneMoreInput(env: Env, utxos: Utxos, inputs: seq<UtxoKey>, i: nat, totals: Totals, sums: Totals)
    requires i < |inputs| && inputs[i] in utxos
    requires forall id :: Get(totals, id) == Added(env, InputSum(utxos, inputs, i, id))
    requires forall id :: Get(sums, id) == Added(env, Get(totals, id) + Holds(utxos[inputs[i]].output, id))
    ensures forall id :: Get(sums, id) == Added(env, InputSum(utxos, inputs, i + 1, id))
    ensures env.build.Checked? ==> InputsFit(utxos, inputs, i + 1)
  {
    hide Holds, Get, Added;
    forall id
      ensures Get(sums, id) == Added(env, InputSum(utxos, inputs, i + 1, id))
    {
      AddedTwice(env, InputSum(utxos, inputs, i, id), Holds(utxos[inputs[i]].output, id));
    }
    var n := i + 1;
    if env.build.Checked? {
      forall id
        ensures InputSum(utxos, inputs, n, id) <= U128_MAX
      {
        CheckedAdds(env, InputSum(utxos, inputs, n, id));
        assert Get(sums, id) == InputSum(utxos, inputs, n, id);
      }
    }
  }

  lemma TooMuchInput(env: Env, utxos: Utxos, inputs: seq<UtxoKey>, i: nat, totals: Totals)
    requires i < |inputs| && inputs[i] in utxos && env.build.Checked?
    requires forall id :: Get(totals, id) == Added(env, InputSum(utxos, inputs, i, id))
    requires exists id :: Get(totals, id) + Holds(utxos[inputs[i]].output, id) > U128_MAX
    ensures !InputsFit(utxos, inputs, i + 1)
  {
    hide Holds, Get;
    var id :| Get(totals, id) + Holds(utxos[inputs[i]].output, id) > U128_MAX;
    assert InputSum(utxos, inputs, i + 1, id) > U128_MAX;
  }

  lemma OneMoreAuthority(utxos: Utxos, inputs: seq<UtxoKey>, i: nat, definition: AssetDefinition, id: AssetId)
    requires i < |inputs|
    ensures IssueAuthorized(utxos, inputs, i + 1, definition, id)
       <==> IssueAuthorized(utxos, inputs, i, definition, id) || AuthorizesIssue(utxos, inputs[i], definition, id)
  {
    hide AuthorizesIssue;
  }

  class LedgerState {
    var utxos: Utxos
    var assets: map<AssetId, AssetDefinition>

    /** `clone`. */
    constructor (ledger: Ledger)
      ensures State() == ledger
    {
      utxos := ledger.utxos;
      assets := ledger.assets;
    }

    function State(): Ledger
      reads this
    {
      Ledger(utxos, assets)
    }

    /** `state_root`: entries in sorted order, each encoded into a buffer of its own. */
    method StateRoot(env: Env) returns (root: Hash256)
      ensures root == Roots.Root(env, State())
    {
      var utxoPart := EncodeUtxos(utxos);
      var assetPart := EncodeAssets(assets);
      return Blake3(env, utxoPart + assetPart);
    }

    /** The inputs, in order, up to the first error. */
    method GatherInputs(env: Env, tx: Transaction, height: u64, chainId: u32, pending: Option<Pending>)
      returns (r: Result<Gathered, LedgerError>)
      requires PendingFor(env, tx.core, chainId, pending)
      ensures r.Err? ==> InputsError(env, utxos, tx, height, chainId, 0) == Some(r.error)
      ensures r.Ok? ==>
        && InputsError(env, utxos, tx, height, chainId, 0).None?
        && r.value.consumed == tx.core.inputs
        && (forall id :: Get(r.value.totals, id) == Added(env, InputSum(utxos, tx.core.inputs, |tx.core.inputs|, id)))
        && (pending.Some? ==> (r.value.issuerAuthorized <==>
              IssueAuthorized(utxos, tx.core.inputs, |tx.core.inputs|, pending.value.definition, pending.value.id)))
    {
      hide WitnessError, InputSum, InputsFit, IssueAuthorized, HoldsEntry, DeriveAssetId, AssetSum, Added;
      var inputs := tx.core.inputs;
      var seen: set<UtxoKey> := {};
      var consumed: seq<UtxoKey> := [];
      var totals: Totals := map[];
      var issuerAuthorized := false;
      NothingGathered(env, utxos, inputs);
      for i := 0 to |inputs|
        invariant consumed == inputs[..i]
        invariant forall k :: k in seen <==> k in inputs[..i]
        invariant InputsError(env, utxos, tx, height, chainId, 0) == InputsError(env, utxos, tx, height, chainId, i)
        invariant forall id :: Get(totals, id) == Added(env, InputSum(utxos, inputs, i, id))
        invariant pending.Some? ==> (issuerAuthorized <==>
          IssueAuthorized(utxos, inputs, i, pending.value.definition, pending.value.id))
      {
        var key := inputs[i];
        if key in seen { return Err(DoubleSpend); }
        seen := seen + {key};
        if key !in utxos { return Err(MissingInput); }
        var spent := utxos[key].output;
        var rejected := CheckWitness(env, tx, height, chainId, i, spent);
        if rejected.Some? { return Err(rejected.value); }
        if pending.Some? {
          var listed := FindEntry(spent, pending.value.id);
          if spent.ownerScriptHash == pending.value.definition.issuerScriptHash || listed {
            issuerAuthorized := true;
          }
          OneMoreAuthority(utxos, inputs, i, pending.value.definition, pending.value.id);
        }
        consumed := consumed + [key];
        assert inputs[..i + 1] == inputs[..i] + [inputs[i]];
        var sums := Accumulate(env, totals, spent.assets);
        if sums.None? {
          TooMuchInput(env, utxos, inputs, i, totals);
          return Err(Overflow);
        }
        OneMoreInput(env, utxos, inputs, i, totals, sums.value);
        totals := sums.value;
      }
      assert inputs[..|inputs|] == inputs;
      return Ok(Gathered(consumed, totals, issuerAuthorized));
    }

    /** The witness of one input: present, decodable, of the right hash and metadata, and with a
        script that succeeds. */
    method CheckWitness(env: Env, tx: Transaction, height: u64, chainId: u32, i: u32, spent: Output)
      returns (rejected: Option<LedgerError>)
      ensures rejected == WitnessError(env, utxos, tx, height, chainId, i, spent)
    {
      if i >= |tx.witnesses| { return Some(MissingWitness); }
      var decoded := DecodeWitness(env, tx.witnesses[i]);
      if decoded.None? { return Some(InvalidWitness); }
      var scriptHash := Encoder.ComputeScriptHash(env, decoded.value.script);
      if scriptHash != spent.ownerScriptHash { return Some(ScriptHashMismatch); }
      if !MetadataMatches(env, spent.metadataHash, decoded.value.metadata) { return Some(MetadataHashMismatch); }
      var result := Vm.Evaluate(InputMachine(env, utxos, tx, height, chainId, i, spent.ownerScriptHash),
                                decoded.value.script);
      return if result.Err? then Some(ScriptFailed) else None;
    }

    /** `apply_transaction`. */
    method ApplyTransaction(env: Env, tx: Transaction, height: u64, chainId: u32) returns (r: Outcome<LedgerError>)
      modifies this
      ensures (State(), r) == ApplyTx(env, old(State()), tx, height, chainId)
    {
      hide InputsError, Create, Consume, IssueAuthorized, InputSum, OutputSum, DeriveAssetId, TxId;
      var core := tx.core;
      var pending: Option<Pending> := None;
      if core.kind.CreateAsset? {
        var id := Encoder.ComputeAssetId(env, core.kind.definition, chainId);
        if id == QCOIN_ASSET_ID { return Fail(ReservedNativeAssetId); }
        if id in assets { return Fail(AssetAlreadyExists); }
        pending := Some(Pending(id, core.kind.definition, core.kind.initialSupply));
      }
      var gathered := GatherInputs(env, tx, height, chainId, pending);
      if gathered.Err? { return Fail(gathered.error); }
      var inputTotals := gathered.value.totals;
      var summed := SumOutputs(env, core.outputs);
      if summed.None? { return Fail(Overflow); }
      var outputTotals := summed.value;
      if pending.Some? {
        var id := pending.value.id;
        var minted := Get(outputTotals, id);
        if minted != pending.value.supply { return Fail(AssetConservationViolation); }
        if pending.value.definition.maxSupply.Some? && minted > pending.value.definition.maxSupply.value {
          return Fail(MaxSupplyExceeded);
        }
        if Get(inputTotals, id) != 0 { return Fail(AssetConservationViolation); }
        if !gathered.value.issuerAuthorized { return Fail(MissingIssuerAuthorization); }
        outputTotals := outputTotals - {id};
        inputTotals := inputTotals - {id};
        assets := assets[id := pending.value.definition];
      }
      var same := SameTotals(inputTotals, outputTotals);
      ConservesIfSame(env, old(utxos), core, chainId, inputTotals, outputTotals);
      if !same { return Fail(AssetConservationViolation); }
      RemoveInputs(core.inputs);
      var txId := Encoder.ComputeTxId(env, core);
      InsertOutputs(txId, core.outputs, height);
      return Pass;
    }

    method RemoveInputs(keys: seq<UtxoKey>)
      modifies this
      ensures utxos == Consume(old(utxos), keys, |keys|) && assets == old(assets)
    {
      for i := 0 to |keys|
        invariant utxos == Consume(old(utxos), keys, i) && assets == old(assets)
      {
        utxos := utxos - {keys[i]};
      }
    }

    method InsertOutputs(txId: Hash256, outputs: Vec<Output>, height: u64)
      modifies this
      ensures utxos == Create(old(utxos), txId, outputs, |outputs|, height) && assets == old(assets)
    {
      for index := 0 to |outputs|
        invariant utxos == Create(old(utxos), txId, outputs, index, height) && assets == old(assets)
      {
        utxos := utxos[UtxoKey(txId, index) := TrackedOutput(outputs[index], height)];
      }
    }
  }

  method EncodeUtxo(key: UtxoKey, tracked: TrackedOutput) returns (encoded: Bytes)
    ensures encoded == Roots.UtxoEntryBytes(Listings.Entry(key, tracked))
  {
    hide OutputBytes, U32Bytes, U64Bytes;
    var buffer := new Encoder.Buffer();
    buffer.Extend(key.txId);
    buffer.Extend(U32Bytes(key.index));
    buffer.EncodeOutput(tracked.output);
    buffer.Extend(U64Bytes(tracked.createdHeight));
    encoded := buffer.out;
    Associate(key.txId + U32Bytes(key.index), OutputBytes(tracked.output), U64Bytes(tracked.createdHeight));
    Associate(key.txId, U32Bytes(key.index), OutputBytes(tracked.output) + U64Bytes(tracked.createdHeight));
    assert [] + key.txId == key.txId;
  }

  method EncodeAsset(id: AssetId, definition: AssetDefinition) returns (encoded: Bytes)
    ensures encoded == Roots.AssetEntryBytes(Listings.Entry(id, definition))
  {
    hide AssetDefinitionBytes;
    var buffer := new Encoder.Buffer();
    buffer.Extend(id);
    buffer.EncodeAssetDefinition(definition);
    encoded := buffer.out;
    assert [] + id == id;
  }

  method EncodeUtxos(utxos: Utxos) returns (hashed: Bytes)
    ensures hashed == Concat(Roots.SortedUtxos(utxos), Roots.UtxoEntryBytes)
  {
    hide StrictOrder, Sorted, KeyBefore, Roots.UtxoEntryBytes;
    KeyOrder();
    hashed := [];
    var keys := SortedList(utxos.Keys, KeyBefore);
    ghost var entries := Listings.Entries(utxos, keys);
    for i := 0 to |keys|
      invariant hashed == Concat(entries[..i], Roots.UtxoEntryBytes)
    {
      var encoded := EncodeUtxo(keys[i], utxos[keys[i]]);
      Listings.EntryAt(utxos, keys, i);
      Encoder.ConcatAppend(entries, i, Roots.UtxoEntryBytes);
      hashed := hashed + encoded;
    }
    assert entries[..|keys|] == entries;
  }

  method EncodeAssets(assets: map<AssetId, AssetDefinition>) returns (hashed: Bytes)
    ensures hashed == Concat(Roots.SortedAssets(assets), Roots.AssetEntryBytes)
  {
    hide StrictOrder, Sorted, HashBefore, Roots.AssetEntryBytes;
    HashOrder();
    hashed := [];
    var ids := SortedList(assets.Keys, HashBefore);
    ghost var entries := Listings.Entries(assets, ids);
    for i := 0 to |ids|
      invariant hashed == Concat(entries[..i], Roots.AssetEntryBytes)
    {
      var encoded := EncodeAsset(ids[i], assets[ids[i]]);
      Listings.EntryAt(assets, ids, i);
      Encoder.ConcatAppend(entries, i, Roots.AssetEntryBytes);
      hashed := hashed + encoded;
    }
    assert entries[..|ids|] == entries;
  }

  method SumOutputs(env: Env, outputs: seq<Output>) returns (r: Option<Totals>)
    ensures r.Some? ==> forall id :: Get(r.value, id) == Added(env, OutputSum(outputs, |outputs|, id))
    ensures r.Some? <==> env.build.Wrapping? || OutputsFit(outputs)
  {
    var totals: Totals := map[];
    for i := 0 to |outputs|
      invariant forall id :: Get(totals, id) == Added(env, OutputSum(outputs, i, id))
    {
      hide Added;
      var sums := Accumulate(env, totals, outputs[i].assets);
      if sums.None? {
        var id :| Get(totals, id) + Holds(outputs[i], id) > U128_MAX;
        CheckedAdds(env, OutputSum(outputs, i, id));
        OutputSumMonotone(outputs, i + 1, |outputs|, id);
        return None;
      }
      forall id
        ensures Get(sums.value, id) == Added(env, OutputSum(outputs, i + 1, id))
      {
        AddedTwice(env, OutputSum(outputs, i, id), Holds(outputs[i], id));
      }
      totals := sums.value;
    }
    return Some(totals);
  }
}
