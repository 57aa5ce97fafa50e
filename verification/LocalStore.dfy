/** The local store's meta rows and journals, the statements that read and write them, and the functions that run
    those statements at boot. A crash may fall between any two statements. */
module LocalStore {
  import opened Options
  import opened MutationState

  /** A registry: the durable schema it provisions, and its writable tables, which have journals. A fingerprint
      tells registries apart, so a stamp is modelled as what it stands for. */
  datatype Registry = Registry(version: string, schema: string, writable: set<string>)

  /** A journal row is named by its table and its mutation. */
  datatype Key = Key(table: string, mutation: nat)

  type Journal = map<Key, Status>

  datatype Store = Store(
    // `pgxsinkit_local_meta`
    marker: Option<string>,
    registryStamp: Option<Registry>,
    schemaStamp: Option<string>,
    // the journals of every table that ever had one, and the Outbox
    rows: Journal,
    outbox: set<string>,
    // history: the durable schemas executed since the last wipe
    executed: set<string>)

  const VIRGIN := Store(None, None, None, map[], {}, {})

  // ---- Statements ----

  function WrittenMarker(s: Store, required: bool): Store {
    s.(marker := Some(if required then "true" else "false"))
  }

  /** NOT EXISTS a `sending` row, over the journals of the registry's writable tables. */
  predicate NoSendingIn(s: Store, tables: set<string>) {
    forall k | k in s.rows && k.table in tables :: !s.rows[k].Sending?
  }

  predicate NoSending(s: Store) {
    forall k | k in s.rows :: !s.rows[k].Sending?
  }

  predicate SendingOnlyIn(s: Store, tables: set<string>) {
    forall k | k in s.rows && s.rows[k].Sending? :: k.table in tables
  }

  /** The guarded UPDATE: it needs a marker row, and no `sending` row. */
  predicate Clears(s: Store, r: Registry) {
    s.marker.Some? && NoSendingIn(s, r.writable)
  }

  function ClearedIfSettled(s: Store, r: Registry): Store {
    if Clears(s, r) then s.(marker := Some("false")) else s
  }

  /** The `sending -> pending` UPDATE, over some tables. */
  function Recovered(s: Store, tables: set<string>): Store {
    s.(rows := map k | k in s.rows :: if k.table in tables && s.rows[k].Sending? then Pending else s.rows[k])
  }

  /** The full teardown: the registry's own tables and journals, the Outbox, and the meta table. */
  function Wiped(s: Store, r: Registry): Store {
    Store(None, None, None, map k | k in s.rows && k.table !in r.writable :: s.rows[k], {}, {})
  }

  function SchemaExecuted(s: Store, r: Registry): Store {
    s.(executed := s.executed + {r.schema})
  }

  function OwedRows(s: Store, tables: set<string>): set<Key> {
    set k | k in s.rows && k.table in tables && Owed(s.rows[k])
  }

  /** The rebuild, statement by statement. */
  function Rebuilding(s: Store, r: Registry, done: nat): Store {
    if done == 0 then s
    else if done == 1 then Wiped(s, r)
    else if done == 2 then SchemaExecuted(Wiped(s, r), r)
    else if done == 3 then SchemaExecuted(Wiped(s, r), r).(registryStamp := Some(r))
    else SchemaExecuted(Wiped(s, r), r).(registryStamp := Some(r), schemaStamp := Some(r.schema))
  }

  /** What the marker says; anything but the two values written fails closed. */
  function RecoveryRequired(marker: Option<string>): (required: Option<bool>)
    ensures required == Some(false) <==> marker == Some("false")
    ensures required.None? <==> marker.None?
  {
    match marker
    case None => None
    case Some(value) => if value == "true" then Some(true) else if value == "false" then Some(false) else Some(true)
  }

  /** No stamp claims a schema that was not executed. */
  predicate StampsHold(s: Store) {
    && (s.schemaStamp.Some? ==> s.schemaStamp.value in s.executed)
    && (s.registryStamp.Some? ==> s.registryStamp.value.schema in s.executed)
  }

  /** The marker never reads clean while a `sending` row exists. */
  predicate MarkerHolds(s: Store) {
    RecoveryRequired(s.marker) == Some(false) ==> NoSending(s)
  }

  // ---- The functions ----

  datatype Reconciliation = Unchanged | Stamped | Rebuilt | Deferred(owed: nat)

  /** What a finished rebuild comes to: only the new schema is there, stamped, without rows of the registry's journals, and
      all other journals as they were. */
  ghost predicate StartsAfresh(before: Store, after: Store, r: Registry) {
    && after.registryStamp == Some(r) && after.schemaStamp == Some(r.schema) && after.executed == {r.schema}
    && after.marker.None? && after.outbox == {}
    && (forall k :: k in after.rows <==> (k in before.rows && k.table !in r.writable))
    && forall k | k in after.rows && k in before.rows :: after.rows[k] == before.rows[k]
  }

  class LocalStoreClient {
    const registry: Registry
    var store: Store

    constructor (registry: Registry, store: Store)
      ensures this.registry == registry && this.store == store
    {
      this.registry := registry;
      this.store := store;
    }

    method ReadMutationRecoveryRequired() returns (required: Option<bool>)
      ensures required == RecoveryRequired(store.marker)
      ensures MarkerHolds(store) && required == Some(false) ==> NoSending(store)
    {
      if store.marker.None? {
        return None;
      }
      var value := store.marker.value;
      if value == "true" {
        return Some(true);
      }
      if value == "false" {
        return Some(false);
      }
      return Some(true);
    }

    method WriteMutationRecoveryRequired(required: bool)
      modifies this
      ensures store == WrittenMarker(old(store), required)
      ensures required || NoSending(store) ==> MarkerHolds(store)
    {
      store := store.(marker := Some(if required then "true" else "false"));
    }

    /** It clears the marker where it is safe to, and only there, as far as the registry's journals show. */
    method ClearMutationRecoveryMarkerIfSettled() returns (cleared: bool)
      modifies this
      ensures store == ClearedIfSettled(old(store), registry) && cleared == Clears(old(store), registry)
      ensures MarkerHolds(old(store)) && SendingOnlyIn(store, registry.writable) ==> MarkerHolds(store)
    {
      cleared := store.marker.Some? && NoSendingIn(store, registry.writable);
      if cleared {
        store := store.(marker := Some("false"));
      }
    }

    /** The drain check, then the rebuild; a crash stops it between two of its statements. */
    method RebuildReadCacheOrDefer() returns (event: Option<Reconciliation>)
      modifies this
      ensures OwedRows(old(store), registry.writable) != {} ==>
                event == Some(Deferred(|OwedRows(old(store), registry.writable)|)) && store == old(store)
      ensures event == Some(Rebuilt) ==> store == Rebuilding(old(store), registry, 4) && StartsAfresh(old(store), store, registry)
      ensures event.None? ==> exists done :: 0 <= done < 4 && store == Rebuilding(old(store), registry, done)
      ensures OwedRows(old(store), registry.writable) == {} ==> event.None? || event == Some(Rebuilt)
    {
      var owed := OwedRows(store, registry.writable);
      if |owed| > 0 {
        return Some(Deferred(|owed|));
      }
      ghost var before := store;
      var crash: bool := *;
      if crash {
        assert store == Rebuilding(before, registry, 0);
        return None;
      }
      store := Wiped(store, registry);
      crash := *;
      if crash {
        assert store == Rebuilding(before, registry, 1);
        return None;
      }
      store := SchemaExecuted(store, registry);
      crash := *;
      if crash {
        assert store == Rebuilding(before, registry, 2);
        return None;
      }
      store := store.(registryStamp := Some(registry));
      crash := *;
      if crash {
        assert store == Rebuilding(before, registry, 3);
        return None;
      }
      store := store.(schemaStamp := Some(registry.schema));
      return Some(Rebuilt);
    }

    /** An unstamped store is stamped, an unchanged one left alone, a changed one rebuilt once nothing is owed.
        Stamps and marker hold wherever it crashes, given that the registry's schema was executed before. */
    method ReconcileLocalStoreVersion() returns (event: Option<Reconciliation>)
      requires StampsHold(store) && MarkerHolds(store) && registry.schema in store.executed
      modifies this
      ensures StampsHold(store) && MarkerHolds(store)
      ensures old(store.registryStamp) == Some(registry) ==> event == Some(Unchanged) && store == old(store)
      ensures old(store.registryStamp).None? ==> event == Some(Stamped) && store == old(store).(registryStamp := Some(registry))
      ensures event == Some(Rebuilt) ==>
                && store.registryStamp == Some(registry) && store.schemaStamp == Some(registry.schema)
                && OwedRows(old(store), registry.writable) == {}
      ensures OwedRows(old(store), registry.writable) != {} ==> store.rows == old(store.rows) && store.outbox == old(store.outbox)
    {
      if store.registryStamp == Some(registry) {
        return Some(Unchanged);
      }
      if store.registryStamp.None? {
        store := store.(registryStamp := Some(registry));
        return Some(Stamped);
      }
      ghost var before := store;
      event := RebuildReadCacheOrDefer();
      if OwedRows(before, registry.writable) == {} {
        ghost var done :| 0 <= done <= 4 && store == Rebuilding(before, registry, done);
        RebuildingHolds(before, registry, done);
      }
    }
  }

  lemma RebuildingHolds(s: Store, r: Registry, done: nat)
    requires StampsHold(s) && MarkerHolds(s)
    ensures StampsHold(Rebuilding(s, r, done)) && MarkerHolds(Rebuilding(s, r, done))
  {
  }

  /** The rebuild asks nothing of the Outbox: it drops every event staged there, and runs whether or not there is
      one. Events survive it exactly where there were none. */
  lemma RebuildDropsTheOutbox(s: Store, r: Registry, done: nat)
    requires done > 0
    ensures Rebuilding(s, r, done).outbox == {}
    ensures Rebuilding(s, r, done).outbox == s.outbox <==> s.outbox == {}
  {
  }

  /** Recovery by a registry leaves the marker clean; that is true exactly when no `sending` row lies in a journal
      the registry no longer writes. */
  lemma RecoveryIsSoundExactly(s: Store, r: Registry)
    ensures var t := Recovered(s, r.writable);
            && (s.marker.Some? ==> RecoveryRequired(ClearedIfSettled(t, r).marker) == Some(false))
            && (s.marker.Some? ==> (MarkerHolds(ClearedIfSettled(t, r)) <==> SendingOnlyIn(s, r.writable)))
            && (MarkerHolds(WrittenMarker(t, false)) <==> SendingOnlyIn(s, r.writable))
  {
    var t := Recovered(s, r.writable);
    assert forall k | k in s.rows :: t.rows[k].Sending? <==> s.rows[k].Sending? && k.table !in r.writable;
    if k :| k in s.rows && s.rows[k].Sending? && k.table !in r.writable {
      assert k in t.rows && t.rows[k].Sending?;
    }
  }

  /** Dropping a writable table from the registry hides its journal: a row in flight stays `sending` behind a
      marker that reads clean. */
  lemma DroppedTableHidesSending()
    ensures var row := Key("note", 1);
            var s := VIRGIN.(marker := Some("true"), rows := map[row := Sending]);
            var t := ClearedIfSettled(Recovered(s, {"issue"}), Registry("v2", "s2", {"issue"}));
            MarkerHolds(s) && t.marker == Some("false") && t.rows == map[row := Sending] && !MarkerHolds(t)
  {
    var row := Key("note", 1);
    var s := VIRGIN.(marker := Some("true"), rows := map[row := Sending]);
    var t := Recovered(s, {"issue"});
    assert row in t.rows && t.rows == map[row := Sending];
    assert RecoveryRequired(Some("true")) == Some(true);
  }
}
