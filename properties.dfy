/** Properties that relate several ledger operations to one another. */
module LedgerProperties {
  import opened KeyOrder
  import opened WorldState

  /** A created record reads back as created. */
  lemma CreateThenRead(s: Store, name: string, agency: string, caseNumber: string, evidence: string)
    requires name !in s
    ensures Create(s, name, agency, caseNumber, evidence).result == Pass
    ensures Read(Create(s, name, agency, caseNumber, evidence).store, name)
            == Ok(Asset(name, agency, caseNumber, evidence))
  {
  }

  /** Creating over an existing key writes nothing: the old record still reads back. */
  lemma CreateExistingKeepsRecord(s: Store, name: string, agency: string, caseNumber: string, evidence: string)
    requires name in s
    ensures Create(s, name, agency, caseNumber, evidence).result == Fail(AlreadyExists(name))
    ensures Read(Create(s, name, agency, caseNumber, evidence).store, name) == Ok(s[name])
  {
  }

  /** A key is absent before it is created, present after, and absent again once deleted. */
  lemma ExistenceLifecycle(s: Store, name: string, agency: string, caseNumber: string, evidence: string)
    requires name !in s
    ensures name in Create(s, name, agency, caseNumber, evidence).store
    ensures Delete(Create(s, name, agency, caseNumber, evidence).store, name).result == Pass
    ensures name !in Delete(Create(s, name, agency, caseNumber, evidence).store, name).store
  {
  }

  /** An update replaces the whole record, whatever was stored before. */
  lemma UpdateOverwrites(s: Store, name: string, agency: string, caseNumber: string, evidence: string)
    requires name in s
    ensures Read(Update(s, name, agency, caseNumber, evidence).store, name)
            == Ok(Asset(name, agency, caseNumber, evidence))
  {
  }

  /** Update, delete and transfer on a missing key fail with NotFound and change nothing. */
  lemma MissingKeyChangesNothing(s: Store, key: string, name: string, agency: string, caseNumber: string, evidence: string)
    requires key !in s
    ensures Update(s, key, agency, caseNumber, evidence) == Step(s, Fail(NotFound(key)))
    ensures Delete(s, key) == Step(s, Fail(NotFound(key)))
    ensures Transfer(s, key, name, agency) == Step(s, Err(NotFound(key)))
  {
  }

  /** Create, update and delete keep every record under its own custodian name. */
  lemma CrudKeepsWellKeyed(s: Store, name: string, agency: string, caseNumber: string, evidence: string)
    requires WellKeyed(s)
    ensures WellKeyed(Create(s, name, agency, caseNumber, evidence).store)
    ensures WellKeyed(Update(s, name, agency, caseNumber, evidence).store)
    ensures WellKeyed(Delete(s, name).store)
  {
  }

  /** Seeding keeps every record under its own custodian name. */
  lemma SeedKeepsWellKeyed(s: Store)
    requires WellKeyed(s)
    ensures WellKeyed(Seed(s))
  {
    SeedEffect(s);
  }

  /** Because a transfer writes back under `caseNumber`, it keeps records under
      their own custodian names exactly when it fails or the new custodian's
      name is that case number. */
  lemma TransferWellKeyed(s: Store, caseNumber: string, newName: string, newAgency: string)
    requires WellKeyed(s)
    ensures WellKeyed(Transfer(s, caseNumber, newName, newAgency).store)
            <==> (caseNumber !in s || newName == caseNumber)
  {
  }

  /** A transfer does not move the record: reading under the new custodian's
      name gives what it gave before, unless that name is the case number. */
  lemma TransferLeavesNewNameAlone(s: Store, caseNumber: string, newName: string, newAgency: string)
    requires newName != caseNumber
    ensures Read(Transfer(s, caseNumber, newName, newAgency).store, newName) == Read(s, newName)
  {
  }

  /** The keys of the seeded ledger, in scan order. */
  lemma SeedKeysInScanOrder()
    ensures SortedKeys(SeedMap().Keys) == ["Adi", "Aya", "Azmi", "Dan", "Mirul", "Zaki"]
  {
    var order := ["Adi", "Aya", "Azmi", "Dan", "Mirul", "Zaki"];
    assert Less(order[0], order[1]) && Less(order[1], order[2]) && Less(order[2], order[3])
        && Less(order[3], order[4]) && Less(order[4], order[5]);
    forall i, j | 0 <= i < j < |order|
      ensures Less(order[i], order[j])
    {
      if j > i + 1 {
        SortedChainLess(order, i, j);
      }
    }
    SortedKeysUnique(order, SeedMap().Keys);
  }

  /** Seeding a ledger that holds nothing but seed names (an empty one, say)
      and then scanning it returns the six seed records in key order. */
  lemma SeedThenScan(s: Store)
    requires s.Keys <= SeedMap().Keys
    ensures Scan(Seed(s)) ==
      [ Asset("Adi", "KDN", "3", "HP01/HP02/SIM01/SIM02"),
        Asset("Aya", "RBPF", "2", "HP01/HP02/HP03"),
        Asset("Azmi", "RCED", "5", "HP01/HP02/HP03/SIM01/SIM02"),
        Asset("Dan", "CSB", "4", "HP01/HP02/SIM01/"),
        Asset("Mirul", "CSB", "6", "HP01/HP02/HP03/SIM01/SIM02/SIM03"),
        Asset("Zaki", "RCED", "1", "HP01/HP02") ]
  {
    SeedEffect(s);
    ScanOfSeedRecords(Seed(s));
  }

  /** A store holding exactly the seed records scans to them in key order. */
  lemma ScanOfSeedRecords(t: Store)
    requires t == SeedMap()
    ensures Scan(t) ==
      [ Asset("Adi", "KDN", "3", "HP01/HP02/SIM01/SIM02"),
        Asset("Aya", "RBPF", "2", "HP01/HP02/HP03"),
        Asset("Azmi", "RCED", "5", "HP01/HP02/HP03/SIM01/SIM02"),
        Asset("Dan", "CSB", "4", "HP01/HP02/SIM01/"),
        Asset("Mirul", "CSB", "6", "HP01/HP02/HP03/SIM01/SIM02/SIM03"),
        Asset("Zaki", "RCED", "1", "HP01/HP02") ]
  {
    ScanOfSeedNames(t);
  }

  /** Any store whose keys are exactly the seed names scans them as
      Adi, Aya, Azmi, Dan, Mirul, Zaki, whatever records they hold. */
  lemma ScanOfSeedNames(t: Store)
    requires t.Keys == SeedMap().Keys
    ensures Scan(t) == [t["Adi"], t["Aya"], t["Azmi"], t["Dan"], t["Mirul"], t["Zaki"]]
  {
    SeedKeysInScanOrder();
    var r := Scan(t);
    ScanAt(t);
    assert |r| == 6;
    assert r == [r[0], r[1], r[2], r[3], r[4], r[5]];
  }

  /** Seed, then read, delete and read again the record of "Zaki", from any starting state. */
  lemma SeedReadDeleteScenario(s: Store)
    ensures "Zaki" in Seed(s)
    ensures Read(Seed(s), "Zaki") == Ok(Asset("Zaki", "RCED", "1", "HP01/HP02"))
    ensures Delete(Seed(s), "Zaki").result == Pass
    ensures "Zaki" !in Delete(Seed(s), "Zaki").store
    ensures Read(Delete(Seed(s), "Zaki").store, "Zaki") == Err(NotFound("Zaki"))
  {
    SeedEffect(s);
    assert SeedAssets()[0].custodianName == "Zaki";
  }
}
