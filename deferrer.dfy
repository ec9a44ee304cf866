/** The deferred-write coalescer of one unit of work: pending saves and
    deletes keyed by entity key (the last intent per key wins), saves of
    entities whose id the store is still to generate, and the flush that turns
    all of them into at most one save batch and one delete batch. */
module Deferral {
  import opened Wrappers

  /** What identifies an entity within its kind: a numeric id or a string name. */
  datatype KeyName = Id(id: int) | Name(name: string)

  /** A low-level datastore key; it is complete once it carries an id or a name. */
  datatype RawKey = RawKey(kind: string, idOrName: Option<KeyName>) {
    predicate IsComplete() { idOrName.Some? }
  }

  /** The typed key `Key<?>`; `Key.create(raw)` wraps a raw key. */
  datatype Key = Key(raw: RawKey)

  /** A low-level datastore entity: its key and its property values. */
  datatype Entity<V> = Entity(key: RawKey, properties: map<string, V>)

  /** What `deferSave` accepts: a raw datastore entity or an entity pojo. */
  datatype Saveable<P, V> = Raw(entity: Entity<V>) | Pojo(pojo: P)

  /** What `undefer` accepts: a typed key, a raw key, a raw entity or a pojo. */
  datatype Target<P, V> =
    | TypedKey(key: Key)
    | RawKeyOf(raw: RawKey)
    | RawEntity(entity: Entity<V>)
    | PojoOf(pojo: P)

  /** The key-derivation collaborator for pojos. */
  datatype KeyMetadata<!P> = KeyMetadata(keyOf: P -> Key, requiresAutogeneratedId: P -> bool)

  /** A pending intent per key: `Some(x)` is a save of `x`, `None` a delete. */
  type Operations<P, V> = map<Key, Option<Saveable<P, V>>>

  /** The batches a flush issues; `None` means the call is not made at all. */
  datatype Batches<P, V> = Batches(saveBatch: Option<seq<Saveable<P, V>>>, deleteBatch: Option<seq<Key>>)

  /** The keyed part of a flush: saves and deletes in the order `order` visits the keys. */
  datatype Split<P, V> = Split(saves: seq<Saveable<P, V>>, deletes: seq<Key>)

  /** Visits the keys of `ops` in the order `order` and sends each one to the
      delete list (pending delete) or its value to the save list. */
  function Partition<P, V>(ops: Operations<P, V>, order: seq<Key>): (r: Split<P, V>)
    requires forall i | 0 <= i < |order| :: order[i] in ops
    // every visited key lands in exactly one of the two lists
    ensures |r.saves| + |r.deletes| == |order|
  {
    if order == [] then Split([], [])
    else
      var rest := Partition(ops, order[..|order| - 1]);
      var k := order[|order| - 1];
      match ops[k]
      case None => Split(rest.saves, rest.deletes + [k])
      case Some(x) => Split(rest.saves + [x], rest.deletes)
  }

  /** A key is deleted exactly when it is visited and its pending intent is a delete. */
  lemma {:induction false} PartitionDeletes<P, V>(ops: Operations<P, V>, order: seq<Key>, k: Key)
    requires forall i | 0 <= i < |order| :: order[i] in ops
    ensures k in Partition(ops, order).deletes <==> k in order && ops[k].None?
  {
    if order != [] {
      var init := order[..|order| - 1];
      PartitionDeletes(ops, init, k);
      assert order == init + [order[|order| - 1]];
    }
  }

  /** The saves are exactly the values of the visited keys with a pending save. */
  lemma {:induction false} PartitionSaves<P, V>(ops: Operations<P, V>, order: seq<Key>, x: Saveable<P, V>)
    requires forall i | 0 <= i < |order| :: order[i] in ops
    ensures x in Partition(ops, order).saves <==> exists i | 0 <= i < |order| :: ops[order[i]] == Some(x)
  {
    if order != [] {
      var init := order[..|order| - 1];
      PartitionSaves(ops, init, x);
      var last := |order| - 1;
      if x in Partition(ops, order).saves && x !in Partition(ops, init).saves {
        assert ops[order[last]] == Some(x);
      }
      if exists i | 0 <= i < |order| :: ops[order[i]] == Some(x) {
        var i :| 0 <= i < |order| && ops[order[i]] == Some(x);
        if i < last {
          assert init[i] == order[i];
        }
      }
    }
  }

  /** When the visited keys are distinct, no key is in the delete list twice. */
  lemma {:induction false} PartitionDeletesDistinct<P, V>(ops: Operations<P, V>, order: seq<Key>)
    requires forall i | 0 <= i < |order| :: order[i] in ops
    requires forall i, j | 0 <= i < j < |order| :: order[i] != order[j]
    ensures var d := Partition(ops, order).deletes;
            forall i, j | 0 <= i < j < |d| :: d[i] != d[j]
  {
    if order != [] {
      var init := order[..|order| - 1];
      var k := order[|order| - 1];
      PartitionDeletesDistinct(ops, init);
      PartitionDeletes(ops, init, k);
    }
  }

  /** A batch call is issued only for a non-empty batch. */
  function Issue<P, V>(saves: seq<Saveable<P, V>>, deletes: seq<Key>): (b: Batches<P, V>)
    ensures b.saveBatch.Some? <==> saves != []
    ensures b.deleteBatch.Some? <==> deletes != []
    ensures b.saveBatch.Some? ==> b.saveBatch.value == saves
    ensures b.deleteBatch.Some? ==> b.deleteBatch.value == deletes
  {
    Batches(if saves == [] then None else Some(saves),
            if deletes == [] then None else Some(deletes))
  }

  /** The position of the first element equal to `x`. */
  function IndexOf<T(==)>(s: seq<T>, x: T): (i: nat)
    requires x in s
    ensures i < |s| && s[i] == x && x !in s[..i]
  {
    if s[0] == x then 0
    else
      var i := 1 + IndexOf(s[1..], x);
      assert s[..i] == [s[0]] + s[1..][..i - 1];
      i
  }

  /** `List.remove(Object)`: drops the first element equal to `x`, if any,
      keeping the others in order; exactly one copy of `x` goes. */
  function RemoveFirst<T(==)>(s: seq<T>, x: T): (r: seq<T>)
    ensures x !in s ==> r == s
    ensures x in s ==> exists i | 0 <= i < |s| && s[i] == x && x !in s[..i] :: r == s[..i] + s[i + 1..]
    ensures multiset(r) == multiset(s) - multiset{x}
  {
    if x in s then
      var i := IndexOf(s, x);
      assert s == s[..i] + [x] + s[i + 1..];
      s[..i] + s[i + 1..]
    else s
  }

  /** Every element left by `RemoveFirst` was already in the list. */
  lemma RemoveFirstElements<T>(s: seq<T>, x: T)
    ensures forall j | 0 <= j < |RemoveFirst(s, x)| :: RemoveFirst(s, x)[j] in s
  {
    var r := RemoveFirst(s, x);
    forall j | 0 <= j < |r| ensures r[j] in s {
      assert r[j] in multiset(r);
    }
  }

  /** Removing an element just appended to a list without it gives the list back. */
  lemma RemoveFirstAppended<T>(s: seq<T>, x: T)
    requires x !in s
    ensures RemoveFirst(s + [x], x) == s
  {
    var t := s + [x];
    assert t[..|s|] == s;
    var i :| 0 <= i < |t| && t[i] == x && x !in t[..i] && RemoveFirst(t, x) == t[..i] + t[i + 1..];
  }

  /** The unit of work's session: key to the in-process value (`None`: deleted). */
  class Session<P, V> {
    var values: map<Key, Option<Saveable<P, V>>>

    constructor ()
      ensures values == map[]
    {
      values := map[];
    }

    method AddValue(key: Key, value: Option<Saveable<P, V>>)
      modifies this
      ensures values == old(values)[key := value]
    {
      values := values[key := value];
    }
  }

  class Deferrer<P(==), V(==)> {
    const keys: KeyMetadata<P>
    const session: Session<P, V>

    /** Pending intents by key; `None` means "delete". */
    var operations: Operations<P, V>

    /** Saves of entities that have no key yet, in the order they were deferred. */
    var autogeneratedIdSaves: seq<Saveable<P, V>>

    /** The key a deferred save is filed under, or `None` when the store must
        generate the id first (a raw entity with an incomplete key, or a pojo
        that requires an autogenerated id). */
    function SaveKey(x: Saveable<P, V>): (r: Option<Key>)
      ensures x.Raw? ==> (r.Some? <==> x.entity.key.IsComplete())
      ensures x.Raw? && r.Some? ==> r.value.raw == x.entity.key && r.value.raw.IsComplete()
      ensures x.Pojo? ==> (r.None? <==> keys.requiresAutogeneratedId(x.pojo))
      ensures x.Pojo? && r.Some? ==> r.value == keys.keyOf(x.pojo)
    {
      match x
      case Raw(e) => if e.key.IsComplete() then Some(Key(e.key)) else None
      case Pojo(p) => if keys.requiresAutogeneratedId(p) then None else Some(keys.keyOf(p))
    }

    /** Every pending save is filed under its own key, and every auto-id save has none. */
    ghost predicate Valid()
      reads this
    {
      && (forall k | k in operations && operations[k].Some? :: SaveKey(operations[k].value) == Some(k))
      && (forall i | 0 <= i < |autogeneratedIdSaves| :: SaveKey(autogeneratedIdSaves[i]).None?)
    }

    constructor (keys: KeyMetadata<P>, session: Session<P, V>)
      ensures this.keys == keys && this.session == session
      ensures operations == map[] && autogeneratedIdSaves == []
      ensures Valid()
    {
      this.keys := keys;
      this.session := session;
      operations := map[];
      autogeneratedIdSaves := [];
    }

    /** Drops any pending intent for the target's key; for a pojo that needs an
        autogenerated id, drops its first occurrence from the auto-id saves. A
        raw entity is always resolved through its key, even an incomplete one. */
    method Undefer(target: Target<P, V>)
      requires Valid()
      modifies this
      ensures Valid()
      ensures unchanged(session)
      ensures match target
        case TypedKey(k) =>
          operations == old(operations) - {k} && autogeneratedIdSaves == old(autogeneratedIdSaves)
        case RawKeyOf(raw) =>
          operations == old(operations) - {Key(raw)} && autogeneratedIdSaves == old(autogeneratedIdSaves)
        case RawEntity(e) =>
          operations == old(operations) - {Key(e.key)} && autogeneratedIdSaves == old(autogeneratedIdSaves)
        case PojoOf(p) =>
          if keys.requiresAutogeneratedId(p) then
            operations == old(operations) &&
            autogeneratedIdSaves == RemoveFirst(old(autogeneratedIdSaves), Pojo(p))
          else
            operations == old(operations) - {keys.keyOf(p)} && autogeneratedIdSaves == old(autogeneratedIdSaves)
    {
      match target
      case TypedKey(k) =>
        operations := operations - {k};
      case RawKeyOf(raw) =>
        operations := operations - {Key(raw)};
      case RawEntity(e) =>
        operations := operations - {Key(e.key)};
      case PojoOf(p) =>
        if keys.requiresAutogeneratedId(p) {
          RemoveFirstElements(autogeneratedIdSaves, Pojo(p));
          autogeneratedIdSaves := RemoveFirst(autogeneratedIdSaves, Pojo(p));
        } else {
          operations := operations - {keys.keyOf(p)};
        }
    }

    /** Files a save under its key (replacing any earlier intent) and makes it
        visible in the session; an entity without a key joins the auto-id saves. */
    method DeferSave(x: Saveable<P, V>)
      requires Valid()
      modifies this, session
      ensures Valid()
      ensures match SaveKey(x)
        case Some(k) =>
          && operations == old(operations)[k := Some(x)]
          && session.values == old(session.values)[k := Some(x)]
          && autogeneratedIdSaves == old(autogeneratedIdSaves)
        case None =>
          && operations == old(operations)
          && unchanged(session)
          && autogeneratedIdSaves == old(autogeneratedIdSaves) + [x]
    {
      match x
      case Raw(e) =>
        if e.key.IsComplete() {
          var k := Key(e.key);
          session.AddValue(k, Some(x));
          operations := operations[k := Some(x)];
        } else {
          autogeneratedIdSaves := autogeneratedIdSaves + [x];
        }
      case Pojo(p) =>
        if keys.requiresAutogeneratedId(p) {
          autogeneratedIdSaves := autogeneratedIdSaves + [x];
        } else {
          var k := keys.keyOf(p);
          session.AddValue(k, Some(x));
          operations := operations[k := Some(x)];
        }
    }

    /** Files a delete under `key`, replacing any earlier intent, and records
        the absence in the session. */
    method DeferDelete(key: Key)
      requires Valid()
      modifies this, session
      ensures Valid()
      ensures operations == old(operations)[key := None]
      ensures session.values == old(session.values)[key := None]
      ensures autogeneratedIdSaves == old(autogeneratedIdSaves)
    {
      session.AddValue(key, None);
      operations := operations[key := None];
    }

    /** Splits the pending intents into a save batch (keyed saves in some order
        of the keys, then the auto-id saves in order) and a delete batch, issues
        each batch only if it is non-empty, and empties both collections. The
        session is left as it is. */
    method Flush() returns (batches: Batches<P, V>, ghost order: seq<Key>)
      requires Valid()
      modifies this
      ensures Valid()
      ensures operations == map[] && autogeneratedIdSaves == []
      ensures unchanged(session)
      ensures |order| == |old(operations)| && (forall i | 0 <= i < |order| :: order[i] in old(operations))
      ensures forall i, j | 0 <= i < j < |order| :: order[i] != order[j]
      ensures forall k | k in old(operations) :: k in order
      ensures var split := Partition(old(operations), order);
              batches == Issue(split.saves + old(autogeneratedIdSaves), split.deletes)
    {
      order := [];
      if operations == map[] && autogeneratedIdSaves == [] {
        batches := Batches(None, None);
        return;
      }
      var saves: seq<Saveable<P, V>> := [];
      var deletes: seq<Key> := [];
      var remaining := operations.Keys;
      while remaining != {}
        invariant remaining <= operations.Keys
        invariant forall i | 0 <= i < |order| :: order[i] in operations && order[i] !in remaining
        invariant forall i, j | 0 <= i < j < |order| :: order[i] != order[j]
        invariant forall k | k in operations :: k in remaining || k in order
        invariant |order| + |remaining| == |operations|
        invariant Split(saves, deletes) == Partition(operations, order)
        decreases remaining
      {
        var k :| k in remaining;
        assert (order + [k])[..|order|] == order;
        match operations[k] {
          case None => deletes := deletes + [k];
          case Some(x) => saves := saves + [x];
        }
        order := order + [k];
        remaining := remaining - {k};
      }
      saves := saves + autogeneratedIdSaves;
      batches := Issue(saves, deletes);
      operations := map[];
      autogeneratedIdSaves := [];
    }
  }

  /** In a valid state, every save a flush issues is filed under a visited
      key whose pending intent it is, or is an auto-id save without a key. */
  lemma FlushedSaveKey<P, V>(
      d: Deferrer<P, V>, ops: Operations<P, V>, auto: seq<Saveable<P, V>>, order: seq<Key>, y: Saveable<P, V>)
    requires forall i | 0 <= i < |order| :: order[i] in ops
    requires forall k | k in ops && ops[k].Some? :: d.SaveKey(ops[k].value) == Some(k)
    requires forall i | 0 <= i < |auto| :: d.SaveKey(auto[i]).None?
    requires y in Partition(ops, order).saves + auto
    ensures match d.SaveKey(y)
      case Some(k) => k in order && ops[k] == Some(y)
      case None => y in auto
  {
    if y in Partition(ops, order).saves {
      PartitionSaves(ops, order, y);
      var i :| 0 <= i < |order| && ops[order[i]] == Some(y);
      assert d.SaveKey(y) == Some(order[i]);
    } else {
      var i :| 0 <= i < |auto| && auto[i] == y;
    }
  }

  /** A value that is the pending save of exactly one visited key is saved
      exactly once, when the visited keys are distinct. */
  lemma {:induction false} PartitionSavedOnce<P, V>(ops: Operations<P, V>, order: seq<Key>, k: Key, x: Saveable<P, V>)
    requires forall i | 0 <= i < |order| :: order[i] in ops
    requires forall i, j | 0 <= i < j < |order| :: order[i] != order[j]
    requires k in order && ops[k] == Some(x)
    requires forall k' | k' in ops && ops[k'] == Some(x) :: k' == k
    ensures multiset(Partition(ops, order).saves)[x] == 1
  {
    var init := order[..|order| - 1];
    var last := order[|order| - 1];
    var rest := Partition(ops, init);
    if last == k {
      assert k !in init;
      PartitionSaves(ops, init, x);
      assert x !in rest.saves;
      assert Partition(ops, order).saves == rest.saves + [x];
    } else {
      assert k in init;
      PartitionSavedOnce(ops, init, k, x);
    }
  }

  /** Two saves under the same key, then a flush: only the later one is saved,
      and it is the only save issued for that key. */
  method LastSaveWins<P(==), V(==)>(d: Deferrer<P, V>, a: Saveable<P, V>, a': Saveable<P, V>)
      returns (batches: Batches<P, V>)
    requires d.Valid()
    requires d.SaveKey(a).Some? && d.SaveKey(a) == d.SaveKey(a') && a != a'
    modifies d, d.session
    ensures batches.saveBatch.Some?
    ensures a' in batches.saveBatch.value && a !in batches.saveBatch.value
    ensures forall y | y in batches.saveBatch.value && d.SaveKey(y) == d.SaveKey(a') :: y == a'
    ensures multiset(batches.saveBatch.value)[a'] == 1
  {
    d.DeferSave(a);
    d.DeferSave(a');
    var ops := d.operations;
    ghost var auto := d.autogeneratedIdSaves;
    var k := d.SaveKey(a').value;
    ghost var order;
    batches, order := d.Flush();
    assert ops[k] == Some(a');
    assert exists i | 0 <= i < |order| :: ops[order[i]] == Some(a') by {
      var i :| 0 <= i < |order| && order[i] == k;
    }
    PartitionSaves(ops, order, a');
    forall y | y in batches.saveBatch.value
      ensures d.SaveKey(y) == d.SaveKey(a') ==> y == a'
    {
      FlushedSaveKey(d, ops, auto, order, y);
    }
    PartitionSavedOnce(ops, order, k, a');
    assert a' !in auto;
    assert batches.saveBatch.value == Partition(ops, order).saves + auto;
  }

  /** A save then a delete under the same key, then a flush: the key is
      deleted and no save for that key is issued. */
  method DeleteOverridesSave<P(==), V(==)>(d: Deferrer<P, V>, x: Saveable<P, V>)
      returns (batches: Batches<P, V>)
    requires d.Valid()
    requires d.SaveKey(x).Some?
    modifies d, d.session
    ensures batches.deleteBatch.Some? && d.SaveKey(x).value in batches.deleteBatch.value
    ensures batches.saveBatch.Some? ==>
              forall y | y in batches.saveBatch.value :: d.SaveKey(y) != d.SaveKey(x)
  {
    var k := d.SaveKey(x).value;
    d.DeferSave(x);
    d.DeferDelete(k);
    var ops := d.operations;
    ghost var auto := d.autogeneratedIdSaves;
    ghost var order;
    batches, order := d.Flush();
    PartitionDeletes(ops, order, k);
    if batches.saveBatch.Some? {
      forall y | y in batches.saveBatch.value
        ensures d.SaveKey(y) != d.SaveKey(x)
      {
        FlushedSaveKey(d, ops, auto, order, y);
      }
    }
  }

  /** An entity without a key, deferred and then flushed, is in the save batch. */
  method AutoIdSaved<P(==), V(==)>(d: Deferrer<P, V>, x: Saveable<P, V>) returns (batches: Batches<P, V>)
    requires d.Valid() && d.SaveKey(x).None?
    modifies d, d.session
    ensures batches.saveBatch.Some? && x in batches.saveBatch.value
  {
    d.DeferSave(x);
    ghost var order;
    var auto := d.autogeneratedIdSaves;
    batches, order := d.Flush();
    assert x == auto[|auto| - 1];
  }

  /** An auto-id pojo deferred and then undeferred is not saved by the flush;
      when nothing else was pending, no call is issued at all. */
  method AutoIdUndeferred<P(==), V(==)>(d: Deferrer<P, V>, p: P) returns (batches: Batches<P, V>)
    requires d.Valid() && Pojo(p) !in d.autogeneratedIdSaves
    requires d.keys.requiresAutogeneratedId(p)
    modifies d, d.session
    ensures batches.saveBatch.Some? ==> Pojo(p) !in batches.saveBatch.value
    ensures old(d.operations) == map[] && old(d.autogeneratedIdSaves) == [] ==> batches == Batches(None, None)
  {
    ghost var before := d.autogeneratedIdSaves;
    d.DeferSave(Pojo(p));
    assert d.autogeneratedIdSaves == before + [Pojo(p)];
    d.Undefer(PojoOf(p));
    RemoveFirstAppended(before, Pojo(p));
    var ops := d.operations;
    ghost var auto := d.autogeneratedIdSaves;
    ghost var order;
    batches, order := d.Flush();
    if batches.saveBatch.Some? && Pojo(p) in batches.saveBatch.value {
      FlushedSaveKey(d, ops, auto, order, Pojo(p));
    }
  }
}
