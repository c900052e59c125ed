/** What each operation of the key contract does to the world state and what
    it answers, stated as functions of the state before the call, and the
    properties of the record life cycle proved about them. */
module KeySpec {
  import opened Order
  import opened Ledger

  /** Confirmation of a create or consume: the key and the transaction
      identifier; `imageURL` is reported by the create-with-image path only. */
  datatype Receipt = Receipt(key: string, txID: string, imageURL: Option<string>)

  /** Answer of a read; `imageURL` is `None` when the record holds none. */
  datatype KeyView = KeyView(key: string, consumed: bool, txID: string, imageURL: Option<string>)

  /** One line of the enumeration. */
  datatype KeyEntry = KeyEntry(key: string, txID: string, consumed: bool)

  /** Answer of a bulk create: created keys in processing order, and the
      last failure seen for each key that failed. */
  datatype BulkReport = BulkReport(createdKeys: seq<string>, failedKeys: map<string, ErrorKind>, txID: string)

  /** An operation's answer with the world state it leaves behind. */
  datatype Step<T> = Step(result: Result<T>, store: Store)

  /** The state of a bulk create after some prefix of its input. */
  datatype Batch = Batch(created: seq<string>, failed: map<string, ErrorKind>, store: Store)

  // ---------------------------------------------------------------------
  // The life cycle every operation respects

  /** Record `b` may follow record `a`: a malformed record stays as it is;
      a decoded one keeps its transaction id and image, and once consumed
      stays consumed. */
  predicate Persists(a: Record, b: Record) {
    match a
    case Malformed => b == Malformed
    case Present(c, t, i) => b.Present? && b.txID == t && b.imageURL == i && (c ==> b.consumed)
  }

  /** `t` may follow `s`: no key is removed and every record persists. */
  ghost predicate Evolves(s: Store, t: Store) {
    s.Keys <= t.Keys && forall k :: k in s ==> Persists(s[k], t[k])
  }

  lemma EvolvesTransitive(s: Store, t: Store, u: Store)
    requires Evolves(s, t) && Evolves(t, u)
    ensures Evolves(s, u)
  {
  }

  // ---------------------------------------------------------------------
  // Creation

  function ImageOf(image: Option<string>): string {
    match image
    case None => ""
    case Some(url) => url
  }

  /** The record a create writes: unconsumed, stamped with the creating
      transaction, holding the image if one was given. */
  function Fresh(tx: string, image: Option<string>): Record {
    Present(false, tx, ImageOf(image))
  }

  /** Check-then-write shared by the three creation paths: fail if the key
      cannot be read or already holds any record, consumed or not, or if
      the write fails; otherwise write the fresh record. */
  function CreateStep(s: Store, tx: string, f: Faults, key: string, image: Option<string>): (o: Step<Receipt>)
    ensures o.result.Ok? <==> key !in f.unreadable && key !in s && key !in f.unwritable
    ensures o.result.Ok? ==> o.result.value == Receipt(key, tx, image) && o.store == s[key := Fresh(tx, image)]
    ensures o.result.Err? ==> o.store == s
    ensures key in f.unreadable ==> o.result == Err(StoreIOError)
    ensures key !in f.unreadable && key in s ==> o.result == Err(AlreadyExists)
    ensures key !in f.unreadable && key !in s && key in f.unwritable ==> o.result == Err(StoreIOError)
    ensures o.result.Err? && o.result.kind != AlreadyExists ==> o.result.kind == StoreIOError
    ensures Evolves(s, o.store)
  {
    match Lookup(s, f, key)
    case Err(_) => Step(Err(StoreIOError), s)
    case Ok(Some(_)) => Step(Err(AlreadyExists), s)
    case Ok(None) =>
      if key in f.unwritable then Step(Err(StoreIOError), s)
      else Step(Ok(Receipt(key, tx, image)), s[key := Fresh(tx, image)])
  }

  // ---------------------------------------------------------------------
  // Consumption

  /** Flip `consumed` of an existing, decodable, unconsumed record; every
      other case fails without a write. */
  function ConsumeStep(s: Store, tx: string, f: Faults, key: string): (o: Step<Receipt>)
    ensures o.result.Ok? <==>
      key !in f.unreadable && key in s && s[key].Present? && !s[key].consumed && key !in f.unwritable
    ensures o.result.Ok? ==>
      key in s && s[key].Present? && o.result.value == Receipt(key, tx, None) &&
      o.store == s[key := Present(true, s[key].txID, s[key].imageURL)]
    ensures o.result.Err? ==> o.store == s
    ensures key in f.unreadable ==> o.result == Err(StoreIOError)
    ensures key !in f.unreadable && key !in s ==> o.result == Err(NotFound)
    ensures key !in f.unreadable && key in s && s[key].Malformed? ==> o.result == Err(DecodeError)
    ensures key !in f.unreadable && key in s && s[key].Present? && s[key].consumed ==> o.result == Err(AlreadyConsumed)
    ensures key !in f.unreadable && key in s && s[key].Present? && !s[key].consumed && key in f.unwritable ==>
      o.result == Err(StoreIOError)
    ensures Evolves(s, o.store)
  {
    match Lookup(s, f, key)
    case Err(_) => Step(Err(StoreIOError), s)
    case Ok(None) => Step(Err(NotFound), s)
    case Ok(Some(Malformed)) => Step(Err(DecodeError), s)
    case Ok(Some(Present(consumed, t, img))) =>
      if consumed then Step(Err(AlreadyConsumed), s)
      else if key in f.unwritable then Step(Err(StoreIOError), s)
      else Step(Ok(Receipt(key, tx, None)), s[key := Present(true, t, img)])
  }

  // ---------------------------------------------------------------------
  // Reading

  /** A read: the stored fields of a decodable record, the image only when
      it is not empty. */
  function View(s: Store, f: Faults, key: string): (r: Result<KeyView>)
    ensures r.Ok? <==> key !in f.unreadable && key in s && s[key].Present?
    ensures r.Ok? ==>
      key in s && r.value.key == key && r.value.consumed == s[key].consumed && r.value.txID == s[key].txID
    ensures r.Ok? ==> (r.value.imageURL == None <==> s[key].imageURL == "")
    ensures r.Ok? && r.value.imageURL.Some? ==> r.value.imageURL.value == s[key].imageURL
    ensures key in f.unreadable ==> r == Err(StoreIOError)
    ensures key !in f.unreadable && key !in s ==> r == Err(NotFound)
    ensures key !in f.unreadable && key in s && s[key].Malformed? ==> r == Err(DecodeError)
  {
    match Lookup(s, f, key)
    case Err(_) => Err(StoreIOError)
    case Ok(None) => Err(NotFound)
    case Ok(Some(Malformed)) => Err(DecodeError)
    case Ok(Some(Present(consumed, t, img))) =>
      Ok(KeyView(key, consumed, t, if img != "" then Some(img) else None))
  }

  // ---------------------------------------------------------------------
  // Bulk creation

  /** One key of a bulk create: the single-key check-then-write against the
      state left by the keys before it. */
  function BulkItem(b: Batch, tx: string, f: Faults, key: string): (r: Batch)
    ensures key !in f.unreadable && key !in b.store && key !in f.unwritable ==>
      r == Batch(b.created + [key], b.failed, b.store[key := Fresh(tx, None)])
    ensures key in f.unreadable || key in b.store || key in f.unwritable ==>
      r == Batch(b.created, b.failed[key := Reason(b.store, f, key)], b.store)
  {
    var o := CreateStep(b.store, tx, f, key, None);
    if o.result.Ok? then Batch(b.created + [key], b.failed, o.store)
    else Batch(b.created, b.failed[key := o.result.kind], o.store)
  }

  /** The keys processed strictly in input order. */
  function BulkRun(s: Store, tx: string, f: Faults, keys: seq<string>): (r: Batch)
    ensures |r.created| <= |keys|
    ensures forall k :: k in r.created ==> k in keys
    ensures forall k :: k in r.failed ==> k in keys
    decreases |keys|
  {
    if keys == [] then Batch([], map[], s)
    else BulkItem(BulkRun(s, tx, f, keys[..|keys| - 1]), tx, f, keys[|keys| - 1])
  }

  /** A key the bulk create can write: readable, absent before the call, and
      writable. */
  ghost predicate Eligible(s: Store, f: Faults, k: string) {
    k !in f.unreadable && k !in s && k !in f.unwritable
  }

  /** The failure reported for `k`: the read fault, else an earlier record
      or an earlier occurrence in the same call, else the write fault. */
  function Reason(s: Store, f: Faults, k: string): ErrorKind {
    if k in f.unreadable then StoreIOError
    else if k in s then AlreadyExists
    else if k in f.unwritable then StoreIOError
    else AlreadyExists
  }

  /** The records a bulk create adds for the keys `ks`. */
  ghost function Minted(ks: seq<string>, tx: string): Store {
    map k | k in ks :: Fresh(tx, None)
  }

  ghost predicate Distinct(ks: seq<string>) {
    forall i, j :: 0 <= i < j < |ks| ==> ks[i] != ks[j]
  }

  /** `a` is `b` with some elements left out: matched from the back. */
  ghost predicate Subsequence(a: seq<string>, b: seq<string>)
    decreases |b|
  {
    if a == [] then true
    else if b == [] then false
    else if a[|a| - 1] == b[|b| - 1] then Subsequence(a[..|a| - 1], b[..|b| - 1])
    else Subsequence(a, b[..|b| - 1])
  }

  lemma {:induction false} SubsequenceDropLast(a: seq<string>, b: seq<string>)
    requires a != [] && Subsequence(a, b)
    ensures Subsequence(a[..|a| - 1], b)
    decreases |b|, 0
  {
    var a', b' := a[..|a| - 1], b[..|b| - 1];
    if a[|a| - 1] == b[|b| - 1] {
      SubsequenceExtend(a', b', b[|b| - 1]);
      assert b' + [b[|b| - 1]] == b;
    } else {
      SubsequenceDropLast(a, b');
      SubsequenceExtend(a', b', b[|b| - 1]);
      assert b' + [b[|b| - 1]] == b;
    }
  }

  lemma {:induction false} SubsequenceExtend(a: seq<string>, b: seq<string>, x: string)
    requires Subsequence(a, b)
    ensures Subsequence(a, b + [x])
    decreases |b|, 1
  {
    assert (b + [x])[..|b|] == b;
    if a != [] && a[|a| - 1] == x {
      SubsequenceDropLast(a, b);
    }
  }

  /** What a bulk create has done after any prefix of its input: the state is
      the old one plus a fresh record per created key; a key is created iff
      it is in the input and eligible, at most once; a key fails iff it is in
      the input and either is not eligible or occurs more than once; and
      each failure has its reason. */
  ghost predicate BulkAccounts(s: Store, tx: string, f: Faults, keys: seq<string>, b: Batch) {
    && b.store == s + Minted(b.created, tx)
    && Distinct(b.created)
    && (forall k :: k in b.created <==> k in keys && Eligible(s, f, k))
    && (forall k :: k in b.failed <==> k in keys && (!Eligible(s, f, k) || multiset(keys)[k] > 1))
    && (forall k :: k in b.failed ==> b.failed[k] == Reason(s, f, k))
  }

  /** One more key that fails keeps the account. */
  lemma BulkAccountsFail(s: Store, tx: string, f: Faults, p: seq<string>, x: string, b: Batch)
    requires BulkAccounts(s, tx, f, p, b)
    requires x in f.unreadable || x in b.store || x in f.unwritable
    ensures BulkAccounts(s, tx, f, p + [x], BulkItem(b, tx, f, x))
  {
    var keys := p + [x];
    var b' := BulkItem(b, tx, f, x);
    assert b'.created == b.created && b'.store == b.store;
    assert x in b.store <==> x in s || x in b.created;
    assert x in b.created ==> Eligible(s, f, x) && x in p;
    assert b'.failed == b.failed[x := Reason(s, f, x)];
    assert multiset(keys) == multiset(p) + multiset{x};
    forall k
      ensures k in b'.created <==> k in keys && Eligible(s, f, k)
      ensures k in b'.failed <==> k in keys && (!Eligible(s, f, k) || multiset(keys)[k] > 1)
    {
      assert k in keys <==> k in p || k == x;
    }
  }

  /** One more key that is written keeps the account. */
  lemma BulkAccountsCreate(s: Store, tx: string, f: Faults, p: seq<string>, x: string, b: Batch)
    requires BulkAccounts(s, tx, f, p, b)
    requires x !in f.unreadable && x !in b.store && x !in f.unwritable
    ensures BulkAccounts(s, tx, f, p + [x], BulkItem(b, tx, f, x))
  {
    var b' := BulkItem(b, tx, f, x);
    assert b'.created == b.created + [x] && b'.failed == b.failed;
    assert x !in b.created;
    BulkCreatedStore(s, tx, b, x);
    BulkCreatedDistinct(b.created, x);
    BulkCreatedMembers(s, tx, f, p, x, b);
  }

  lemma BulkCreatedStore(s: Store, tx: string, b: Batch, x: string)
    requires b.store == s + Minted(b.created, tx)
    ensures b.store[x := Fresh(tx, None)] == s + Minted(b.created + [x], tx)
  {
    assert Minted(b.created + [x], tx) == Minted(b.created, tx)[x := Fresh(tx, None)];
  }

  lemma BulkCreatedDistinct(c: seq<string>, x: string)
    requires Distinct(c) && x !in c
    ensures Distinct(c + [x])
  {
    forall i, j | 0 <= i < j < |c| + 1
      ensures (c + [x])[i] != (c + [x])[j]
    {
      if j == |c| {
        assert (c + [x])[i] == c[i];
      }
    }
  }

  lemma BulkCreatedMembers(s: Store, tx: string, f: Faults, p: seq<string>, x: string, b: Batch)
    requires BulkAccounts(s, tx, f, p, b)
    requires x !in f.unreadable && x !in b.store && x !in f.unwritable
    ensures var keys, b' := p + [x], BulkItem(b, tx, f, x);
      && (forall k :: k in b'.created <==> k in keys && Eligible(s, f, k))
      && (forall k :: k in b'.failed <==> k in keys && (!Eligible(s, f, k) || multiset(keys)[k] > 1))
      && (forall k :: k in b'.failed ==> b'.failed[k] == Reason(s, f, k))
  {
    var keys := p + [x];
    var b' := BulkItem(b, tx, f, x);
    assert x !in s && x !in b.created && x !in p;
    assert b'.created == b.created + [x] && b'.failed == b.failed;
    assert multiset(keys) == multiset(p) + multiset{x};
    forall k
      ensures k in b'.created <==> k in keys && Eligible(s, f, k)
      ensures k in b'.failed <==> k in keys && (!Eligible(s, f, k) || multiset(keys)[k] > 1)
    {
      assert k in keys <==> k in p || k == x;
    }
  }

  lemma {:induction false} BulkAccounting(s: Store, tx: string, f: Faults, keys: seq<string>)
    ensures BulkAccounts(s, tx, f, keys, BulkRun(s, tx, f, keys))
    decreases |keys|
  {
    if keys == [] {
      assert Minted([], tx) == map[];
    } else {
      var p, x := keys[..|keys| - 1], keys[|keys| - 1];
      BulkAccounting(s, tx, f, p);
      var b := BulkRun(s, tx, f, p);
      if x in f.unreadable || x in b.store || x in f.unwritable {
        BulkAccountsFail(s, tx, f, p, x, b);
      } else {
        BulkAccountsCreate(s, tx, f, p, x, b);
      }
      assert keys == p + [x];
    }
  }

  lemma {:induction false} BulkInOrder(s: Store, tx: string, f: Faults, keys: seq<string>)
    ensures Subsequence(BulkRun(s, tx, f, keys).created, keys)
    decreases |keys|
  {
    if keys != [] {
      var p, x := keys[..|keys| - 1], keys[|keys| - 1];
      BulkInOrder(s, tx, f, p);
      var c := BulkRun(s, tx, f, p).created;
      var c' := BulkRun(s, tx, f, keys).created;
      if c' == c {
        SubsequenceExtend(c, p, x);
        assert p + [x] == keys;
      } else {
        assert c' == c + [x];
        assert c'[..|c'| - 1] == c;
      }
    }
  }

  /** The bulk create's promises in the caller's terms: created keys are an
      in-order, repetition-free selection of the input, each now holding an
      unconsumed record of this transaction and absent before; every input
      key is created or failed; nothing else changes. */
  lemma BulkOutcome(s: Store, tx: string, f: Faults, keys: seq<string>)
    ensures var b := BulkRun(s, tx, f, keys);
      && Subsequence(b.created, keys)
      && Distinct(b.created)
      && (forall k :: k in b.created ==> k !in s && k in b.store && b.store[k] == Present(false, tx, ""))
      && (forall i :: 0 <= i < |keys| ==> keys[i] in b.created || keys[i] in b.failed)
      && b.store.Keys == s.Keys + (set k | k in b.created)
      && (forall k :: k in s ==> k in b.store && b.store[k] == s[k])
  {
    BulkAccounting(s, tx, f, keys);
    BulkInOrder(s, tx, f, keys);
    var b := BulkRun(s, tx, f, keys);
    forall i | 0 <= i < |keys|
      ensures keys[i] in b.created || keys[i] in b.failed
    {
      assert keys[i] in keys;
    }
  }

  /** The keys a bulk create should create, in the order it should create
      them: each eligible key once, at its first occurrence in the input. */
  ghost function FirstEligible(s: Store, f: Faults, keys: seq<string>): seq<string>
    decreases |keys|
  {
    if keys == [] then []
    else
      var p, x := keys[..|keys| - 1], keys[|keys| - 1];
      if Eligible(s, f, x) && x !in p then FirstEligible(s, f, p) + [x]
      else FirstEligible(s, f, p)
  }

  /** The created keys of a bulk create are exactly the eligible input keys,
      each at its first occurrence and in input order. */
  lemma {:induction false} BulkCreatedIsFirstEligible(s: Store, tx: string, f: Faults, keys: seq<string>)
    ensures BulkRun(s, tx, f, keys).created == FirstEligible(s, f, keys)
    decreases |keys|
  {
    if keys != [] {
      var p, x := keys[..|keys| - 1], keys[|keys| - 1];
      BulkCreatedIsFirstEligible(s, tx, f, p);
      BulkAccounting(s, tx, f, p);
      var b := BulkRun(s, tx, f, p);
      assert x in b.store <==> x in s || x in b.created;
    }
  }

  /** A key repeated in one bulk call, readable and writable, fails as
      already existing: the first write is seen by the later check. */
  lemma BulkRepeatFails(s: Store, tx: string, f: Faults, keys: seq<string>, i: nat, j: nat)
    requires i < j < |keys| && keys[i] == keys[j]
    requires keys[i] !in f.unreadable && keys[i] !in f.unwritable
    ensures var b := BulkRun(s, tx, f, keys);
      keys[i] in b.failed && b.failed[keys[i]] == AlreadyExists
  {
    BulkAccounting(s, tx, f, keys);
    var k := keys[i];
    assert keys == keys[..j] + keys[j..];
    assert k in keys[..j] && k in keys[j..];
    assert multiset(keys) == multiset(keys[..j]) + multiset(keys[j..]);
  }

  lemma {:induction false} BulkEvolves(s: Store, tx: string, f: Faults, keys: seq<string>)
    ensures Evolves(s, BulkRun(s, tx, f, keys).store)
    decreases |keys|
  {
    if keys != [] {
      var p := keys[..|keys| - 1];
      BulkEvolves(s, tx, f, p);
      var b := BulkRun(s, tx, f, p);
      var o := CreateStep(b.store, tx, f, keys[|keys| - 1], None);
      EvolvesTransitive(s, b.store, o.store);
    }
  }

  // ---------------------------------------------------------------------
  // Enumeration

  predicate Decodes(it: Item) {
    it.Entry? && it.value.Present?
  }

  function EntryOf(it: Item): KeyEntry
    requires Decodes(it)
  {
    KeyEntry(it.key, it.value.txID, it.value.consumed)
  }

  function Failure(it: Item): ErrorKind {
    if it.Broken? then StoreIOError else DecodeError
  }

  /** The enumeration loop over the cursor's steps: one entry per step, or
      the error of the first step that does not decode, discarding what was
      collected before it. */
  function Collect(items: seq<Item>): (r: Result<seq<KeyEntry>>)
    ensures r.Ok? <==> forall i :: 0 <= i < |items| ==> Decodes(items[i])
    ensures r.Ok? ==>
      |r.value| == |items| && forall i :: 0 <= i < |items| ==> Decodes(items[i]) && r.value[i] == EntryOf(items[i])
    ensures r.Err? ==> exists i :: 0 <= i < |items| && !Decodes(items[i]) && r.kind == Failure(items[i]) &&
                                 (forall j :: 0 <= j < i ==> Decodes(items[j]))
    decreases |items|
  {
    if items == [] then Ok([])
    else
      var last := items[|items| - 1];
      match Collect(items[..|items| - 1])
      case Err(e) => Err(e)
      case Ok(acc) => if Decodes(last) then Ok(acc + [EntryOf(last)]) else Err(Failure(last))
  }

  /** Once a prefix fails, the whole enumeration fails the same way. */
  lemma {:induction false} CollectFailFast(items: seq<Item>, rest: seq<Item>)
    requires Collect(items).Err?
    ensures Collect(items + rest) == Collect(items)
    decreases |rest|
  {
    if rest == [] {
      assert items + rest == items;
    } else {
      var p := rest[..|rest| - 1];
      CollectFailFast(items, p);
      assert (items + rest)[..|items + rest| - 1] == items + p;
    }
  }

  /** QueryAllKeys as a function of the world state. */
  ghost function Query(s: Store, f: Faults): (r: Result<seq<KeyEntry>>)
    ensures f.scanFails ==> r == Err(StoreIOError)
  {
    match Scan(s, f)
    case Err(e) => Err(e)
    case Ok(items) => Collect(items)
  }

  /** Every stored key is listed by the scan, and only stored keys are. */
  lemma ScanCovers(s: Store)
    ensures forall k :: k in s <==> exists i :: 0 <= i < |Ascending(s.Keys)| && Ascending(s.Keys)[i] == k
  {
    var ks := Ascending(s.Keys);
    forall k | k in s
      ensures exists i :: 0 <= i < |ks| && ks[i] == k
    {
      assert k in ks;
    }
  }

  /** The enumeration succeeds exactly when the scan opens and every stored
      record can be read and decoded. */
  lemma QueryOkIff(s: Store, f: Faults)
    ensures Query(s, f).Ok? <==> !f.scanFails && forall k :: k in s ==> k !in f.unreadable && s[k].Present?
  {
    if !f.scanFails {
      var ks := Ascending(s.Keys);
      var items := ItemsOf(s, f, ks);
      assert Query(s, f) == Collect(items);
      ScanCovers(s);
      if Collect(items).Err? {
        var i :| 0 <= i < |items| && !Decodes(items[i]);
        assert ks[i] in s && (ks[i] in f.unreadable || s[ks[i]].Malformed?);
      }
    }
  }

  /** A successful enumeration lists every stored key once, in ascending
      order, with that key's transaction id and consumed flag. */
  lemma QueryListing(s: Store, f: Faults)
    requires Query(s, f).Ok?
    ensures var es := Query(s, f).value;
      && |es| == |s|
      && (forall i, j :: 0 <= i < j < |es| ==> Below(es[i].key, es[j].key))
      && (forall i :: 0 <= i < |es| ==>
            es[i].key in s && es[i].txID == s[es[i].key].txID && es[i].consumed == s[es[i].key].consumed)
      && (forall k :: k in s ==> exists i :: 0 <= i < |es| && es[i].key == k)
  {
    var ks := Ascending(s.Keys);
    var items := ItemsOf(s, f, ks);
    assert Query(s, f) == Collect(items);
    var es := Collect(items).value;
    assert forall i :: 0 <= i < |es| ==> es[i].key == ks[i];
    ScanCovers(s);
  }

  /** The enumeration reports a decode failure only when some stored record
      is malformed, and a store failure only when the scan cannot be opened
      or some stored key cannot be read. */
  lemma QueryFailureCause(s: Store, f: Faults)
    ensures Query(s, f) == Err(DecodeError) ==> exists k :: k in s && s[k] == Malformed
    ensures Query(s, f) == Err(StoreIOError) ==> f.scanFails || exists k :: k in s && k in f.unreadable
  {
    if !f.scanFails {
      var ks := Ascending(s.Keys);
      var items := ItemsOf(s, f, ks);
      assert Query(s, f) == Collect(items);
      if Collect(items).Err? {
        var i :| 0 <= i < |items| && !Decodes(items[i]) && Collect(items).kind == Failure(items[i]);
        assert ks[i] in s;
      }
    }
  }
}
