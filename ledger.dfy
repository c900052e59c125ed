/** The world state a key contract runs against, and the narrow stub the host
    runtime offers over it: point reads, point writes, a full range scan and
    the identifier of the running transaction. */
module Ledger {
  import opened Order

  datatype Option<T> = None | Some(value: T)

  /** The kinds of failure an operation reports in place of an error string. */
  datatype ErrorKind = StoreIOError | AlreadyExists | NotFound | AlreadyConsumed | DecodeError

  datatype Result<T> = Ok(value: T) | Err(kind: ErrorKind)

  /** What the world state holds under one key: the bytes of a `KeyData`
      record, or bytes that do not decode as one. */
  datatype Record = Present(consumed: bool, txID: string, imageURL: string) | Malformed

  type Store = map<string, Record>

  /** Failures the host may report, fixed for one invocation: reading a key
      in `unreadable` fails (a point read, or the scan's step onto it),
      writing a key in `unwritable` fails, and opening the range scan fails
      when `scanFails` holds. */
  datatype Faults = Faults(unreadable: set<string>, unwritable: set<string>, scanFails: bool)

  /** One step of the range-scan cursor: a key with its record, or a step
      that failed. */
  datatype Item = Entry(key: string, value: Record) | Broken

  /** A point read: absence is not an error. */
  function Lookup(s: Store, f: Faults, key: string): Result<Option<Record>> {
    if key in f.unreadable then Err(StoreIOError)
    else if key in s then Ok(Some(s[key]))
    else Ok(None)
  }

  function ItemAt(s: Store, f: Faults, key: string): Item
    requires key in s
  {
    if key in f.unreadable then Broken else Entry(key, s[key])
  }

  /** The cursor steps for the keys `ks`, in the order given. */
  function ItemsOf(s: Store, f: Faults, ks: seq<string>): (r: seq<Item>)
    requires forall k :: k in ks ==> k in s
    ensures |r| == |ks| && forall i :: 0 <= i < |ks| ==> r[i] == ItemAt(s, f, ks[i])
  {
    seq(|ks|, i requires 0 <= i < |ks| => ItemAt(s, f, ks[i]))
  }

  /** A full range scan: every stored key once, in ascending key order. */
  ghost function Scan(s: Store, f: Faults): Result<seq<Item>> {
    if f.scanFails then Err(StoreIOError) else Ok(ItemsOf(s, f, Ascending(s.Keys)))
  }

  /** The host's stub for one invocation: the world state it reads and
      writes, the transaction identifier it reports, and the failures it
      injects. */
  class WorldState {
    var entries: Store
    const txID: string
    const faults: Faults

    constructor (initial: Store, txID: string, faults: Faults)
      ensures entries == initial && this.txID == txID && this.faults == faults
    {
      entries := initial;
      this.txID := txID;
      this.faults := faults;
    }

    /** A point read: absence is answered as no record, not as an error. */
    method GetState(key: string) returns (r: Result<Option<Record>>)
      ensures r == Lookup(entries, faults, key)
      ensures r.Err? <==> key in faults.unreadable
      ensures r.Err? ==> r.kind == StoreIOError
      ensures r.Ok? ==> (r.value.Some? <==> key in entries)
      ensures r.Ok? && key in entries ==> r.value == Some(entries[key])
    {
      if key in faults.unreadable {
        r := Err(StoreIOError);
      } else if key in entries {
        r := Ok(Some(entries[key]));
      } else {
        r := Ok(None);
      }
    }

    /** A point write. The model assumes it is visible to every later read
        of the same invocation; a Fabric peer defers writes to commit, so
        there a later read still sees the value from before the invocation. */
    method PutState(key: string, value: Record) returns (r: Result<()>)
      modifies this
      ensures r.Ok? <==> key !in faults.unwritable
      ensures r.Err? ==> r.kind == StoreIOError
      ensures entries == if r.Ok? then old(entries)[key := value] else old(entries)
    {
      if key in faults.unwritable {
        r := Err(StoreIOError);
      } else {
        entries := entries[key := value];
        r := Ok(());
      }
    }

    method GetTxID() returns (id: string)
      ensures id == txID
    {
      id := txID;
    }

    /** The range scan from the empty key to the empty key, assumed here to
        cover every stored key; its cursor is handed over as the list of its
        steps. */
    method GetStateByRange() returns (r: Result<seq<Item>>)
      ensures r == Scan(entries, faults)
    {
      if faults.scanFails {
        return Err(StoreIOError);
      }
      var ks := SortKeys(entries.Keys);
      r := Ok(ItemsOf(entries, faults, ks));
    }
  }
}
