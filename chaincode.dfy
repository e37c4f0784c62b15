/** The asset-management chaincode. The world state the contract reads and
    writes through its transaction context is the field `world` of the
    contract object; each contract method is a read-then-write sequence on it. */
module Chaincode {
  import opened KeyOrder
  import opened WorldState

  class SmartContract {
    var world: Store

    constructor (initial: Store)
      ensures world == initial
    {
      world := initial;
    }

    /** The stub's point read: the record under `key`, or nothing. */
    method GetState(key: string) returns (value: Option<Asset>)
      ensures value.Some? <==> key in world
      ensures value.Some? ==> value.value == world[key]
    {
      if key in world {
        value := Some(world[key]);
      } else {
        value := None;
      }
    }

    /** The stub's point write. */
    method PutState(key: string, value: Asset)
      modifies this
      ensures world == old(world)[key := value]
    {
      world := world[key := value];
    }

    /** The stub's point delete. */
    method DelState(key: string)
      modifies this
      ensures world == old(world) - {key}
    {
      world := world - {key};
    }

    /** Writes the six seed records under their custodian names, overwriting. */
    method InitLedger()
      modifies this
      ensures world == Seed(old(world))
    {
      var assets := SeedAssets();
      for i := 0 to |assets|
        invariant world == PutAll(old(world), assets[..i])
      {
        var asset := assets[i];
        PutState(asset.custodianName, asset);
        assert assets[..i + 1][..i] == assets[..i];
      }
      assert assets[..|assets|] == assets;
    }

    method CreateAsset(name: string, agency: string, caseNumber: string, evidence: string) returns (outcome: Outcome)
      modifies this
      ensures Step(world, outcome) == Create(old(world), name, agency, caseNumber, evidence)
    {
      var present := AssetExists(name);
      if present {
        return Fail(AlreadyExists(name));
      }
      PutState(name, Asset(name, agency, caseNumber, evidence));
      outcome := Pass;
    }

    method ReadAsset(name: string) returns (r: Result<Asset>)
      ensures r.Ok? <==> name in world
      ensures r.Ok? ==> r.value == world[name]
      ensures r.Err? ==> r.error == NotFound(name)
    {
      var value := GetState(name);
      if value.None? {
        return Err(NotFound(name));
      }
      r := Ok(value.value);
    }

    /** Overwrites every field of an existing record. */
    method UpdateAsset(name: string, agency: string, caseNumber: string, evidence: string) returns (outcome: Outcome)
      modifies this
      ensures Step(world, outcome) == Update(old(world), name, agency, caseNumber, evidence)
    {
      var present := AssetExists(name);
      if !present {
        return Fail(NotFound(name));
      }
      PutState(name, Asset(name, agency, caseNumber, evidence));
      outcome := Pass;
    }

    method DeleteAsset(name: string) returns (outcome: Outcome)
      modifies this
      ensures Step(world, outcome) == Delete(old(world), name)
    {
      var present := AssetExists(name);
      if !present {
        return Fail(NotFound(name));
      }
      DelState(name);
      outcome := Pass;
    }

    method AssetExists(name: string) returns (present: bool)
      ensures present <==> name in world
    {
      var value := GetState(name);
      present := value.Some?;
    }

    /** Replaces the custodian of the record stored under `caseNumber` and
        returns the custodian it had before; the record stays under `caseNumber`. */
    method TransferAsset(caseNumber: string, newName: string, newAgency: string) returns (r: Result<string>)
      modifies this
      ensures Step(world, r) == Transfer(old(world), caseNumber, newName, newAgency)
    {
      var read := ReadAsset(caseNumber);
      if read.Err? {
        return Err(read.error);
      }
      var asset := read.value;
      var previous := asset.custodianName;
      asset := asset.(custodianName := newName, custodianAgency := newAgency);
      PutState(caseNumber, asset);
      r := Ok(previous);
    }

    /** Scans the whole key space, visiting keys in order, and collects every record. */
    method GetAllAssets() returns (assets: seq<Asset>)
      ensures assets == Scan(world)
    {
      var remaining := world.Keys;
      assets := [];
      while remaining != {}
        invariant remaining <= world.Keys
        invariant assets + ScanFrom(world, remaining) == ScanFrom(world, world.Keys)
        decreases remaining
      {
        var key := LeastKey(remaining);
        ScanFromFirst(world, remaining, key);
        assets := assets + [world[key]];
        remaining := remaining - {key};
      }
    }
  }

  /** A client of the contract: seed, check, read and delete the record of "Zaki". */
  method SeedReadDeleteZaki()
  {
    var contract := new SmartContract(map[]);
    contract.InitLedger();
    SeedEffect(map[]);
    var present := contract.AssetExists("Zaki");
    assert present;
    var read := contract.ReadAsset("Zaki");
    assert read == Ok(Asset("Zaki", "RCED", "1", "HP01/HP02"));
    var deleted := contract.DeleteAsset("Zaki");
    assert deleted == Pass;
    present := contract.AssetExists("Zaki");
    assert !present;
    read := contract.ReadAsset("Zaki");
    assert read == Err(NotFound("Zaki"));
    var again := contract.CreateAsset("Zaki", "RCED", "7", "HP09");
    assert again == Pass;
    again := contract.CreateAsset("Zaki", "CSB", "8", "HP10");
    assert again == Fail(AlreadyExists("Zaki"));
  }
}
