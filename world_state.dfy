/** The ledger's world state and the effect of each contract operation on it,
    as pure transition functions. A record is stored as itself: the JSON
    encoding the chaincode writes is taken to decode back to the same record. */
module WorldState {
  import opened KeyOrder

  /** One custody entry. */
  datatype Asset = Asset(
    custodianName: string,
    custodianAgency: string,
    caseNumber: string,
    evidenceInfo: string)

  /** The world state: key to stored record. */
  type Store = map<string, Asset>

  datatype Error = AlreadyExists(key: string) | NotFound(key: string)

  /** What an operation that returns only an error gives back. */
  datatype Outcome = Pass | Fail(error: Error)

  /** What an operation that returns a value or an error gives back. */
  datatype Result<T> = Ok(value: T) | Err(error: Error)

  /** A value that may be missing, as a point read of the world state gives back. */
  datatype Option<T> = None | Some(value: T)

  /** The world state after an operation, with what the operation returned. */
  datatype Step<R> = Step(store: Store, result: R)

  /** `s` and `t` hold the same keys with the same records outside `keys`. */
  ghost predicate AgreeOutside(s: Store, t: Store, keys: set<string>) {
    forall k :: k !in keys ==> (k in s <==> k in t) && (k in s && k in t ==> s[k] == t[k])
  }

  /** Every record is stored under its own custodian name. */
  ghost predicate WellKeyed(s: Store) {
    forall k :: k in s ==> s[k].custodianName == k
  }

  function Read(s: Store, key: string): (r: Result<Asset>)
    ensures r.Ok? <==> key in s
    ensures r.Ok? ==> r.value == s[key]
    ensures r.Err? ==> r.error == NotFound(key)
  {
    if key in s then Ok(s[key]) else Err(NotFound(key))
  }

  function Create(s: Store, name: string, agency: string, caseNumber: string, evidence: string): (r: Step<Outcome>)
    ensures r.result.Fail? <==> name in s
    ensures r.result.Fail? ==> r.result.error == AlreadyExists(name) && r.store == s
    ensures r.result.Pass? ==>
              && name in r.store
              && r.store[name] == Asset(name, agency, caseNumber, evidence)
              && r.store.Keys == s.Keys + {name}
    ensures AgreeOutside(s, r.store, {name})
  {
    if name in s then Step(s, Fail(AlreadyExists(name)))
    else Step(s[name := Asset(name, agency, caseNumber, evidence)], Pass)
  }

  function Update(s: Store, name: string, agency: string, caseNumber: string, evidence: string): (r: Step<Outcome>)
    ensures r.result.Fail? <==> name !in s
    ensures r.result.Fail? ==> r.result.error == NotFound(name) && r.store == s
    ensures r.result.Pass? ==>
              && name in r.store
              && r.store[name] == Asset(name, agency, caseNumber, evidence)
              && r.store.Keys == s.Keys
    ensures AgreeOutside(s, r.store, {name})
  {
    if name !in s then Step(s, Fail(NotFound(name)))
    else Step(s[name := Asset(name, agency, caseNumber, evidence)], Pass)
  }

  function Delete(s: Store, name: string): (r: Step<Outcome>)
    ensures r.result.Fail? <==> name !in s
    ensures r.result.Fail? ==> r.result.error == NotFound(name) && r.store == s
    ensures r.result.Pass? ==> name !in r.store && r.store.Keys == s.Keys - {name}
    ensures AgreeOutside(s, r.store, {name})
  {
    if name !in s then Step(s, Fail(NotFound(name)))
    else Step(s - {name}, Pass)
  }

  /** Looks the record up under `caseNumber` and writes it back under that same key. */
  function Transfer(s: Store, caseNumber: string, newName: string, newAgency: string): (r: Step<Result<string>>)
    ensures r.result.Err? <==> caseNumber !in s
    ensures r.result.Err? ==> r.result.error == NotFound(caseNumber) && r.store == s
    ensures r.result.Ok? ==>
              && r.result.value == s[caseNumber].custodianName
              && r.store.Keys == s.Keys
              && r.store[caseNumber].custodianName == newName
              && r.store[caseNumber].custodianAgency == newAgency
              && r.store[caseNumber].caseNumber == s[caseNumber].caseNumber
              && r.store[caseNumber].evidenceInfo == s[caseNumber].evidenceInfo
    ensures AgreeOutside(s, r.store, {caseNumber})
  {
    if caseNumber !in s then Step(s, Err(NotFound(caseNumber)))
    else
      var asset := s[caseNumber];
      Step(s[caseNumber := asset.(custodianName := newName, custodianAgency := newAgency)],
           Ok(asset.custodianName))
  }

  /** Writes each record under its custodian name, in order, without checking existence. */
  function PutAll(s: Store, assets: seq<Asset>): Store
    decreases |assets|
  {
    if assets == [] then s
    else
      var last := assets[|assets| - 1];
      PutAll(s, assets[..|assets| - 1])[last.custodianName := last]
  }

  /** A key no record of `assets` is named by keeps its old state. */
  lemma {:induction false} PutAllElsewhere(s: Store, assets: seq<Asset>, key: string)
    requires forall i :: 0 <= i < |assets| ==> assets[i].custodianName != key
    ensures key in PutAll(s, assets) <==> key in s
    ensures key in s ==> PutAll(s, assets)[key] == s[key]
    decreases |assets|
  {
    if assets != [] {
      PutAllElsewhere(s, assets[..|assets| - 1], key);
    }
  }

  /** A record that no later record overwrites is what `PutAll` leaves under its name. */
  lemma {:induction false} PutAllWrites(s: Store, assets: seq<Asset>, i: nat)
    requires i < |assets|
    requires forall j :: i < j < |assets| ==> assets[j].custodianName != assets[i].custodianName
    ensures assets[i].custodianName in PutAll(s, assets)
    ensures PutAll(s, assets)[assets[i].custodianName] == assets[i]
    decreases |assets|
  {
    if i < |assets| - 1 {
      PutAllWrites(s, assets[..|assets| - 1], i);
    }
  }

  /** The six records the ledger is seeded with. */
  function SeedAssets(): (r: seq<Asset>)
    ensures |r| == 6
    ensures forall i, j :: 0 <= i < j < |r| ==> r[i].custodianName != r[j].custodianName
  {
    [ Asset("Zaki", "RCED", "1", "HP01/HP02"),
      Asset("Aya", "RBPF", "2", "HP01/HP02/HP03"),
      Asset("Adi", "KDN", "3", "HP01/HP02/SIM01/SIM02"),
      Asset("Dan", "CSB", "4", "HP01/HP02/SIM01/"),
      Asset("Azmi", "RCED", "5", "HP01/HP02/HP03/SIM01/SIM02"),
      Asset("Mirul", "CSB", "6", "HP01/HP02/HP03/SIM01/SIM02/SIM03") ]
  }

  /** The seed records by custodian name. */
  function SeedMap(): map<string, Asset> {
    var seed := SeedAssets();
    map["Zaki" := seed[0], "Aya" := seed[1], "Adi" := seed[2],
        "Dan" := seed[3], "Azmi" := seed[4], "Mirul" := seed[5]]
  }

  function Seed(s: Store): Store {
    PutAll(s, SeedAssets())
  }

  /** Seeding stores every seed record under its name, overwriting what was
      there, and leaves every other key alone. */
  lemma SeedEffect(s: Store)
    ensures Seed(s) == s + SeedMap()
  {
    var t, u := Seed(s), s + SeedMap();
    forall k | k in SeedMap()
      ensures k in t && t[k] == u[k]
    {
      SeedWrites(s, k);
    }
    forall k | k !in SeedMap()
      ensures (k in t <==> k in u) && (k in t ==> t[k] == u[k])
    {
      PutAllElsewhere(s, SeedAssets(), k);
    }
    assert t.Keys == u.Keys;
  }

  /** Each seed name ends up holding its seed record. */
  lemma SeedWrites(s: Store, k: string)
    requires k in SeedMap()
    ensures k in Seed(s) && Seed(s)[k] == SeedMap()[k]
  {
    var i := if k == "Zaki" then 0 else if k == "Aya" then 1 else if k == "Adi" then 2
             else if k == "Dan" then 3 else if k == "Azmi" then 4 else 5;
    PutAllWrites(s, SeedAssets(), i);
  }

  /** The records under the keys `ks`, in key order. */
  ghost function ScanFrom(s: Store, ks: set<string>): (r: seq<Asset>)
    requires ks <= s.Keys
    ensures |r| == |ks|
    decreases ks
  {
    if ks == {} then []
    else
      var m := Least(ks);
      [s[m]] + ScanFrom(s, ks - {m})
  }

  /** The `i`-th record of a scan is the record under the `i`-th key in key order. */
  lemma {:induction false} ScanFromAt(s: Store, ks: set<string>)
    requires ks <= s.Keys
    ensures forall i :: 0 <= i < |ks| ==>
              SortedKeys(ks)[i] in s && ScanFrom(s, ks)[i] == s[SortedKeys(ks)[i]]
    decreases ks
  {
    if ks != {} {
      var m := Least(ks);
      ScanFromAt(s, ks - {m});
    }
  }

  /** A scan of `ks` yields the record of its least key first. */
  lemma ScanFromFirst(s: Store, ks: set<string>, m: string)
    requires ks <= s.Keys
    requires IsLeast(m, ks)
    ensures ScanFrom(s, ks) == [s[m]] + ScanFrom(s, ks - {m})
  {
    LeastUnique(m, Least(ks), ks);
  }

  /** What a full range scan returns: the records of all keys, in key order. */
  ghost function Scan(s: Store): (r: seq<Asset>)
    ensures |r| == |s|
  {
    ScanFrom(s, s.Keys)
  }

  /** The `i`-th record of a full scan is the record under the `i`-th key in key order. */
  lemma ScanAt(s: Store)
    ensures forall i :: 0 <= i < |Scan(s)| ==>
              SortedKeys(s.Keys)[i] in s && Scan(s)[i] == s[SortedKeys(s.Keys)[i]]
  {
    ScanFromAt(s, s.Keys);
  }

  /** Every stored record appears in a full scan, and nothing else does. */
  lemma ScanCovers(s: Store)
    ensures forall k :: k in s ==> s[k] in Scan(s)
    ensures forall a :: a in Scan(s) ==> a in s.Values
  {
    var r, keys := Scan(s), SortedKeys(s.Keys);
    ScanAt(s);
    SortedKeysOrdered(s.Keys);
    forall k | k in s
      ensures s[k] in r
    {
      var i :| 0 <= i < |keys| && keys[i] == k;
      assert r[i] == s[k];
    }
    forall a | a in r
      ensures a in s.Values
    {
      var i :| 0 <= i < |r| && r[i] == a;
      assert s[keys[i]] == a;
    }
  }
}
