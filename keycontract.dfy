/** The key contract: six operations over the host's world state, each
    proved to do what the matching function of KeySpec describes. */
module KeyContract {
  import opened Ledger
  import opened KeySpec

  /** The existence check and write shared by every creation path. */
  method CheckAndWrite(ws: WorldState, key: string, image: Option<string>) returns (r: Result<Receipt>)
    modifies ws
    ensures var o := CreateStep(old(ws.entries), ws.txID, ws.faults, key, image);
      r == o.result && ws.entries == o.store
  {
    var existing := ws.GetState(key);
    match existing {
      case Err(_) =>
        return Err(StoreIOError);
      case Ok(Some(_)) =>
        return Err(AlreadyExists);
      case Ok(None) =>
    }
    var tx := ws.GetTxID();
    var put := ws.PutState(key, Fresh(tx, image));
    if put.Err? {
      return Err(StoreIOError);
    }
    r := Ok(Receipt(key, tx, image));
  }

  /** Creates an unconsumed record stamped with the current transaction. */
  method CreateKey(ws: WorldState, key: string) returns (r: Result<Receipt>)
    modifies ws
    ensures var o := CreateStep(old(ws.entries), ws.txID, ws.faults, key, None);
      r == o.result && ws.entries == o.store
    ensures r.Ok? ==>
      r.value == Receipt(key, ws.txID, None) && ws.entries == old(ws.entries)[key := Present(false, ws.txID, "")]
    ensures key !in ws.faults.unreadable && key in old(ws.entries) ==>
      r == Err(AlreadyExists) && ws.entries == old(ws.entries)
  {
    r := CheckAndWrite(ws, key, None);
  }

  /** Creates, processing `keys` in order; one key's failure is recorded
      and never stops the others, and the call itself never fails. */
  method CreateBulkKeys(ws: WorldState, keys: seq<string>) returns (report: BulkReport)
    modifies ws
    ensures var b := BulkRun(old(ws.entries), ws.txID, ws.faults, keys);
      report == BulkReport(b.created, b.failed, ws.txID) && ws.entries == b.store
  {
    var createdKeys: seq<string> := [];
    var failedKeys: map<string, ErrorKind> := map[];
    for i := 0 to |keys|
      invariant BulkRun(old(ws.entries), ws.txID, ws.faults, keys[..i]) == Batch(createdKeys, failedKeys, ws.entries)
    {
      assert keys[..i + 1][..i] == keys[..i];
      var r := CheckAndWrite(ws, keys[i], None);
      if r.Ok? {
        createdKeys := createdKeys + [keys[i]];
      } else {
        failedKeys := failedKeys[keys[i] := r.kind];
      }
    }
    assert keys[..|keys|] == keys;
    var tx := ws.GetTxID();
    report := BulkReport(createdKeys, failedKeys, tx);
  }

  /** Creates an unconsumed record that holds `imageURL` verbatim. */
  method CreateKeyWithImage(ws: WorldState, key: string, imageURL: string) returns (r: Result<Receipt>)
    modifies ws
    ensures var o := CreateStep(old(ws.entries), ws.txID, ws.faults, key, Some(imageURL));
      r == o.result && ws.entries == o.store
    ensures r.Ok? ==>
      r.value == Receipt(key, ws.txID, Some(imageURL)) && ws.entries == old(ws.entries)[key := Present(false, ws.txID, imageURL)]
    ensures key !in ws.faults.unreadable && key in old(ws.entries) ==>
      r == Err(AlreadyExists) && ws.entries == old(ws.entries)
  {
    r := CheckAndWrite(ws, key, Some(imageURL));
  }

  /** Marks an existing, unconsumed record as consumed. */
  method ConsumeKey(ws: WorldState, key: string) returns (r: Result<Receipt>)
    modifies ws
    ensures var o := ConsumeStep(old(ws.entries), ws.txID, ws.faults, key);
      r == o.result && ws.entries == o.store
  {
    var existing := ws.GetState(key);
    if existing.Err? {
      return Err(StoreIOError);
    }
    if existing.value.None? {
      return Err(NotFound);
    }
    var data := existing.value.value;
    if data.Malformed? {
      return Err(DecodeError);
    }
    if data.consumed {
      return Err(AlreadyConsumed);
    }
    var put := ws.PutState(key, data.(consumed := true));
    if put.Err? {
      return Err(StoreIOError);
    }
    var tx := ws.GetTxID();
    r := Ok(Receipt(key, tx, None));
  }

  /** Reports one record; the world state is only read. */
  method ReadKey(ws: WorldState, key: string) returns (r: Result<KeyView>)
    ensures r == View(ws.entries, ws.faults, key)
  {
    var existing := ws.GetState(key);
    if existing.Err? {
      return Err(StoreIOError);
    }
    if existing.value.None? {
      return Err(NotFound);
    }
    var data := existing.value.value;
    if data.Malformed? {
      return Err(DecodeError);
    }
    var image := if data.imageURL != "" then Some(data.imageURL) else None;
    r := Ok(KeyView(key, data.consumed, data.txID, image));
  }

  /** Lists every record in ascending key order, or fails as a whole at the
      first step of the scan that cannot be read or decoded. */
  method QueryAllKeys(ws: WorldState) returns (r: Result<seq<KeyEntry>>)
    ensures r == Query(ws.entries, ws.faults)
  {
    var scan := ws.GetStateByRange();
    if scan.Err? {
      return Err(StoreIOError);
    }
    var items := scan.value;
    var keys: seq<KeyEntry> := [];
    var i := 0;
    while i < |items|
      invariant 0 <= i <= |items|
      invariant Collect(items[..i]) == Ok(keys)
    {
      var item := items[i];
      assert items[..i + 1][..i] == items[..i];
      if item.Broken? {
        CollectFailFast(items[..i + 1], items[i + 1..]);
        assert items[..i + 1] + items[i + 1..] == items;
        return Err(StoreIOError);
      }
      if item.value.Malformed? {
        CollectFailFast(items[..i + 1], items[i + 1..]);
        assert items[..i + 1] + items[i + 1..] == items;
        return Err(DecodeError);
      }
      keys := keys + [KeyEntry(item.key, item.value.txID, item.value.consumed)];
      i := i + 1;
    }
    assert items[..i] == items;
    r := Ok(keys);
  }
}
