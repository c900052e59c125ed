/** The record life cycle across several calls: create, read, consume,
    bulk create and enumerate, in the orders a client issues them. */
module Scenarios {
  import opened Order
  import opened Ledger
  import opened KeySpec

  const NoFaults := Faults({}, {}, false)

  /** A call of one of the contract's operations. */
  datatype Call =
    | CreateKey(key: string)
    | CreateBulkKeys(keys: seq<string>)
    | CreateKeyWithImage(key: string, imageURL: string)
    | ConsumeKey(key: string)
    | ReadKey(key: string)
    | QueryAllKeys

  /** One invocation: its transaction, the failures its host injects, and
      the call it makes. */
  datatype Invocation = Invocation(tx: string, faults: Faults, call: Call)

  /** The world state one invocation leaves behind. */
  function After(s: Store, inv: Invocation): Store {
    match inv.call
    case CreateKey(k) => CreateStep(s, inv.tx, inv.faults, k, None).store
    case CreateBulkKeys(ks) => BulkRun(s, inv.tx, inv.faults, ks).store
    case CreateKeyWithImage(k, url) => CreateStep(s, inv.tx, inv.faults, k, Some(url)).store
    case ConsumeKey(k) => ConsumeStep(s, inv.tx, inv.faults, k).store
    case ReadKey(_) => s
    case QueryAllKeys => s
  }

  /** The world state after a history of invocations, oldest first. */
  function Replay(s: Store, history: seq<Invocation>): Store
    decreases |history|
  {
    if history == [] then s
    else After(Replay(s, history[..|history| - 1]), history[|history| - 1])
  }

  /** Over any history no key disappears, no transaction id or image is
      rewritten, no consumed record becomes unconsumed, and a malformed
      record is never rewritten. */
  lemma {:induction false} HistoryEvolves(s: Store, history: seq<Invocation>)
    ensures Evolves(s, Replay(s, history))
    decreases |history|
  {
    if history != [] {
      var before := Replay(s, history[..|history| - 1]);
      HistoryEvolves(s, history[..|history| - 1]);
      var inv := history[|history| - 1];
      if inv.call.CreateBulkKeys? {
        BulkEvolves(before, inv.tx, inv.faults, inv.call.keys);
      }
      EvolvesTransitive(s, before, Replay(s, history));
    }
  }

  /** Once a key holds a record, no later invocation of any creation path
      succeeds on it, because the record is still there. */
  lemma NoSecondCreate(s: Store, history: seq<Invocation>, tx: string, f: Faults, k: string, image: Option<string>,
                        keys: seq<string>)
    requires k in s
    ensures k !in f.unreadable ==> CreateStep(Replay(s, history), tx, f, k, image).result == Err(AlreadyExists)
    ensures CreateStep(Replay(s, history), tx, f, k, image).result.Err?
    ensures k !in BulkRun(Replay(s, history), tx, f, keys).created
  {
    HistoryEvolves(s, history);
    BulkAccounting(Replay(s, history), tx, f, keys);
  }

  /** A created key reads back unconsumed, stamped with the creating
      transaction, and without an image. */
  lemma CreateThenRead(s: Store, tx: string, f: Faults, k: string)
    requires k !in s && k !in f.unreadable && k !in f.unwritable
    ensures View(CreateStep(s, tx, f, k, None).store, f, k) == Ok(KeyView(k, false, tx, None))
  {
  }

  /** A create with a non-empty image reads back that image verbatim. */
  lemma CreateWithImageThenRead(s: Store, tx: string, f: Faults, k: string, url: string)
    requires k !in s && k !in f.unreadable && k !in f.unwritable && url != ""
    ensures View(CreateStep(s, tx, f, k, Some(url)).store, f, k) == Ok(KeyView(k, false, tx, Some(url)))
  {
  }

  /** Creating a key a second time, by any creation path and in any later
      transaction with failures of its own, fails and leaves the first
      record as it was. */
  lemma CreateTwice(s: Store, tx: string, tx': string, f: Faults, f': Faults, k: string,
                    image: Option<string>, image': Option<string>)
    requires k !in f.unreadable && k !in f.unwritable && k !in f'.unreadable
    ensures var s1 := CreateStep(s, tx, f, k, image).store;
      var o := CreateStep(s1, tx', f', k, image');
      o.result == Err(AlreadyExists) && o.store == s1
  {
  }

  /** Consuming twice: the first call succeeds, the second fails as already
      consumed, and the record stays consumed with its other fields intact. */
  lemma ConsumeTwice(s: Store, tx: string, f: Faults, k: string)
    requires k in s && s[k].Present? && !s[k].consumed
    requires k !in f.unreadable && k !in f.unwritable
    ensures var o1 := ConsumeStep(s, tx, f, k);
      var o2 := ConsumeStep(o1.store, tx, f, k);
      && o1.result.Ok? && o2.result == Err(AlreadyConsumed) && o2.store == o1.store
      && o2.store[k] == Present(true, s[k].txID, s[k].imageURL)
  {
  }

  /** A consumed record is terminal: no later consume writes to it. */
  lemma ConsumedIsTerminal(s: Store, tx: string, f: Faults, k: string)
    requires k in s && s[k].Present? && s[k].consumed
    ensures ConsumeStep(s, tx, f, k).store == s
    ensures ConsumeStep(s, tx, f, k).result.Err?
  {
  }

  /** A bulk create against an empty store with a repeated key: the first
      occurrence creates it, the second reports it as already existing. */
  lemma BulkWithRepeat(tx: string)
    ensures BulkRun(map[], tx, NoFaults, ["a", "b", "a"]) ==
      Batch(["a", "b"], map["a" := AlreadyExists], map["a" := Fresh(tx, None), "b" := Fresh(tx, None)])
  {
    var keys := ["a", "b", "a"];
    assert keys[..2] == ["a", "b"] && keys[..2][..1] == ["a"] && keys[..2][..1][..0] == [];
  }

  /** Keys created out of order, by three separate transactions, are
      enumerated in ascending order, each with the id of the transaction
      that created it. */
  lemma EnumerationOrder(tx1: string, tx2: string, tx3: string)
    ensures var s1 := CreateStep(map[], tx1, NoFaults, "x", None).store;
      var s2 := CreateStep(s1, tx2, NoFaults, "z", None).store;
      var s3 := CreateStep(s2, tx3, NoFaults, "y", None).store;
      Query(s3, NoFaults) == Ok([KeyEntry("x", tx1, false), KeyEntry("y", tx3, false), KeyEntry("z", tx2, false)])
  {
    var s1 := CreateStep(map[], tx1, NoFaults, "x", None).store;
    var s2 := CreateStep(s1, tx2, NoFaults, "z", None).store;
    var s3 := CreateStep(s2, tx3, NoFaults, "y", None).store;
    assert s3 == map["x" := Fresh(tx1, None), "z" := Fresh(tx2, None), "y" := Fresh(tx3, None)];
    ListXYZ(tx1, tx2, tx3, s3);
  }

  lemma ListXYZ(tx1: string, tx2: string, tx3: string, s: Store)
    requires s == map["x" := Fresh(tx1, None), "z" := Fresh(tx2, None), "y" := Fresh(tx3, None)]
    ensures Query(s, NoFaults) == Ok([KeyEntry("x", tx1, false), KeyEntry("y", tx3, false), KeyEntry("z", tx2, false)])
  {
    assert s.Keys == {"x", "y", "z"};
    AscendingXYZ(s.Keys);
    ItemsXYZ(tx1, tx2, tx3, s);
    CollectXYZ(tx1, tx2, tx3, ItemsOf(s, NoFaults, ["x", "y", "z"]));
  }

  lemma ItemsXYZ(tx1: string, tx2: string, tx3: string, s: Store)
    requires s == map["x" := Fresh(tx1, None), "z" := Fresh(tx2, None), "y" := Fresh(tx3, None)]
    ensures ItemsOf(s, NoFaults, ["x", "y", "z"]) ==
      [Entry("x", Fresh(tx1, None)), Entry("y", Fresh(tx3, None)), Entry("z", Fresh(tx2, None))]
  {
  }

  lemma AscendingXYZ(ks: set<string>)
    requires ks == {"x", "y", "z"}
    ensures Ascending(ks) == ["x", "y", "z"]
  {
    var order := ["x", "y", "z"];
    assert Below("x", "y") && Below("x", "z") && Below("y", "z");
    assert Increasing(order);
    IncreasingUnique(order, Ascending(ks));
  }

  lemma CollectXYZ(tx1: string, tx2: string, tx3: string, items: seq<Item>)
    requires items == [Entry("x", Fresh(tx1, None)), Entry("y", Fresh(tx3, None)), Entry("z", Fresh(tx2, None))]
    ensures Collect(items) == Ok([KeyEntry("x", tx1, false), KeyEntry("y", tx3, false), KeyEntry("z", tx2, false)])
  {
    assert forall i :: 0 <= i < |items| ==> Decodes(items[i]);
    var es := Collect(items).value;
    assert |es| == 3;
    assert es == [KeyEntry("x", tx1, false), KeyEntry("y", tx3, false), KeyEntry("z", tx2, false)];
  }
}
