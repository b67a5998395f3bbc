/**
  The inventory service: a table of items keyed by SKU with soft delete, and an
  append-only log of inventory transactions. Each transaction (the row change and
  its log entry) is one atomic step; the existence check runs before it, so a
  refused call changes nothing.
 */
module Inventory {
  import opened Wrappers

  /** A row of the item table; `deletedAt` is set by a soft delete. */
  datatype InventoryItem = InventoryItem(sku: string, available: int, deletedAt: Option<nat>)

  datatype TransactionType = CREATE | UPDATE | DELETE

  /** A row of the transaction log. */
  datatype InventoryLog = InventoryLog(sku: string, userId: string, kind: TransactionType, quantity: int)

  /** The body of a create request: validated to a non-empty SKU and a quantity of at least 1. */
  datatype CreateItemDto = CreateItemDto(sku: string, quantity: int)

  /** The body of an update request. */
  datatype UpdateItemDto = UpdateItemDto(quantity: int)

  datatype InventoryError =
    | DoesNotExist   // no live row with that SKU
    | AlreadyExists  // a live row with that SKU
    | SkuTaken       // the unique index on sku refuses a new row for a soft-deleted SKU
    | DatabaseError(message: string)  // any other failure of the transaction, which then rolls back

  function Message(e: InventoryError): string {
    match e
    case DoesNotExist => "Item with SKU does not exist"
    case AlreadyExists => "Item with SKU already exists"
    case SkuTaken => "Unique constraint failed on the fields: (`sku`)"
    case DatabaseError(m) => m
  }

  // ---------------------------------------------------------------------------
  // The ledger: what the log says about each SKU

  /** What one log entry adds to the available quantity of `sku`. */
  function Contribution(l: InventoryLog, sku: string): int {
    if l.sku == sku && l.kind != DELETE then l.quantity else 0
  }

  /** The sum of the CREATE and UPDATE quantities logged for `sku`. */
  function Balance(logs: seq<InventoryLog>, sku: string): int {
    if logs == [] then 0
    else Balance(logs[..|logs| - 1], sku) + Contribution(logs[|logs| - 1], sku)
  }

  /** How many DELETE entries are logged for `sku`. */
  function Deletions(logs: seq<InventoryLog>, sku: string): nat {
    if logs == [] then 0
    else Deletions(logs[..|logs| - 1], sku) + (if logs[|logs| - 1].sku == sku && logs[|logs| - 1].kind == DELETE then 1 else 0)
  }

  lemma LedgerAppend(logs: seq<InventoryLog>, l: InventoryLog, sku: string)
    ensures Balance(logs + [l], sku) == Balance(logs, sku) + Contribution(l, sku)
    ensures Deletions(logs + [l], sku) == Deletions(logs, sku) + (if l.sku == sku && l.kind == DELETE then 1 else 0)
  {
    assert (logs + [l])[..|logs|] == logs;
  }

  lemma {:induction false} LedgerOfUnloggedSku(logs: seq<InventoryLog>, sku: string)
    requires forall i :: 0 <= i < |logs| ==> logs[i].sku != sku
    ensures Balance(logs, sku) == 0 && Deletions(logs, sku) == 0
  {
    if logs != [] {
      LedgerOfUnloggedSku(logs[..|logs| - 1], sku);
    }
  }

  class InventoryService {
    /** The `inventoryItem` table, by SKU. */
    var items: map<string, InventoryItem>
    /** The `inventoryLogs` table, in insertion order. */
    var logs: seq<InventoryLog>

    /**
      Rows are keyed by their SKU, every log entry names a row, a row's available
      quantity is what its CREATE and UPDATE entries add up to, and a row is
      deleted exactly when a DELETE entry was logged for it.
     */
    ghost predicate Valid()
      reads this
    {
      && (forall sku :: sku in items ==>
            && items[sku].sku == sku
            && items[sku].available == Balance(logs, sku)
            && (items[sku].deletedAt.Some? <==> Deletions(logs, sku) > 0))
      && (forall i :: 0 <= i < |logs| ==> logs[i].sku in items)
    }

    constructor ()
      ensures Valid() && items == map[] && logs == []
    {
      items := map[];
      logs := [];
    }

    /** A SKU exists when it has a row that is not soft-deleted. */
    predicate IsExisting(sku: string)
      reads this
      ensures Valid() ==> (IsExisting(sku) <==> exists it :: it in items.Values && it.sku == sku && it.deletedAt.None?)
    {
      sku in items && items[sku].deletedAt.None?
    }

    /** Exactly the rows that are not soft-deleted. */
    function GetAllItems(): (r: set<InventoryItem>)
      requires Valid()
      reads this
      ensures forall it :: it in r <==> it.sku in items && items[it.sku] == it && it.deletedAt.None?
      ensures forall sku :: sku in items ==> (IsExisting(sku) <==> items[sku] in r)
    {
      set sku | sku in items && items[sku].deletedAt.None? :: items[sku]
    }

    function GetItemBySku(sku: string): (r: Result<InventoryItem, InventoryError>)
      reads this
      ensures r.Ok? <==> IsExisting(sku)
      ensures r.Ok? ==> r.value == items[sku] && r.value.deletedAt.None?
      ensures r.Err? ==> r.error == DoesNotExist
    {
      if !IsExisting(sku) then Err(DoesNotExist) else Ok(items[sku])
    }

    /**
      Creates a live row with `available = quantity` and logs one CREATE entry. A
      live SKU is refused with "already exists"; a soft-deleted SKU passes the
      existence check but its row still holds the SKU, so the insert is refused.
      `txErr` is any other failure of the transaction: it rolls back.
     */
    method AddItem(userId: string, payload: CreateItemDto, txErr: Option<string>) returns (r: Result<InventoryItem, InventoryError>)
      requires Valid()
      requires payload.quantity >= 1
      modifies this
      ensures Valid()
      ensures old(IsExisting(payload.sku)) ==> r == Err(AlreadyExists)
      ensures !old(IsExisting(payload.sku)) && payload.sku in old(items) ==> r == Err(SkuTaken)
      ensures payload.sku !in old(items) && txErr.Some? ==> r == Err(DatabaseError(txErr.value))
      ensures r.Err? ==> items == old(items) && logs == old(logs)
      ensures payload.sku !in old(items) && txErr.None? ==>
                && r == Ok(InventoryItem(payload.sku, payload.quantity, None))
                && items == old(items)[payload.sku := r.value]
                && logs == old(logs) + [InventoryLog(payload.sku, userId, CREATE, payload.quantity)]
                && IsExisting(payload.sku)
    {
      if IsExisting(payload.sku) {
        return Err(AlreadyExists);
      }
      if payload.sku in items {
        return Err(SkuTaken);
      }
      if txErr.Some? {
        return Err(DatabaseError(txErr.value));
      }
      var created := InventoryItem(payload.sku, payload.quantity, None);
      var entry := InventoryLog(payload.sku, userId, CREATE, payload.quantity);
      LedgerOfUnloggedSku(logs, payload.sku);
      forall sku | sku in items {
        LedgerAppend(logs, entry, sku);
      }
      LedgerAppend(logs, entry, payload.sku);
      items := items[payload.sku := created];
      logs := logs + [entry];
      r := Ok(created);
    }

    /**
      Adds `quantity` to a live row's available count and logs one UPDATE entry.
      A failing transaction (`txErr`) rolls back.
     */
    method UpdateItemBySku(userId: string, sku: string, payload: UpdateItemDto, txErr: Option<string>)
      returns (r: Result<InventoryItem, InventoryError>)
      requires Valid()
      modifies this
      ensures Valid()
      ensures !old(IsExisting(sku)) ==> r == Err(DoesNotExist) && items == old(items) && logs == old(logs)
      ensures old(IsExisting(sku)) && txErr.Some? ==>
                r == Err(DatabaseError(txErr.value)) && items == old(items) && logs == old(logs)
      ensures old(IsExisting(sku)) && txErr.None? ==>
                && r == Ok(old(items)[sku].(available := old(items)[sku].available + payload.quantity))
                && items == old(items)[sku := r.value]
                && logs == old(logs) + [InventoryLog(sku, userId, UPDATE, payload.quantity)]
    {
      if !IsExisting(sku) {
        return Err(DoesNotExist);
      }
      if txErr.Some? {
        return Err(DatabaseError(txErr.value));
      }
      var updated := items[sku].(available := items[sku].available + payload.quantity);
      var entry := InventoryLog(sku, userId, UPDATE, payload.quantity);
      forall s | s in items {
        LedgerAppend(logs, entry, s);
      }
      items := items[sku := updated];
      logs := logs + [entry];
      r := Ok(updated);
    }

    /**
      Soft-deletes a live row: the row stays, with `deletedAt` set, and one DELETE
      entry logs the quantity that was available at deletion. Afterwards the SKU no
      longer exists: it is gone from `GetAllItems`, and reading, updating or deleting
      it again is refused. A failing transaction (`txErr`) rolls back.
     */
    method DeleteItemBySku(userId: string, sku: string, now: nat, txErr: Option<string>) returns (err: Option<InventoryError>)
      requires Valid()
      modifies this
      ensures Valid()
      ensures !old(IsExisting(sku)) ==> err == Some(DoesNotExist) && items == old(items) && logs == old(logs)
      ensures old(IsExisting(sku)) && txErr.Some? ==>
                err == Some(DatabaseError(txErr.value)) && items == old(items) && logs == old(logs)
      ensures old(IsExisting(sku)) && txErr.None? ==>
                && err.None?
                && items == old(items)[sku := old(items)[sku].(deletedAt := Some(now))]
                && logs == old(logs) + [InventoryLog(sku, userId, DELETE, old(items)[sku].available)]
                && !IsExisting(sku)
                && (forall it :: it in GetAllItems() ==> it.sku != sku)
                && GetItemBySku(sku) == Err(DoesNotExist)
    {
      if !IsExisting(sku) {
        return Some(DoesNotExist);
      }
      if txErr.Some? {
        return Some(DatabaseError(txErr.value));
      }
      var deleted := items[sku].(deletedAt := Some(now));
      var entry := InventoryLog(sku, userId, DELETE, items[sku].available);
      forall s | s in items {
        LedgerAppend(logs, entry, s);
      }
      items := items[sku := deleted];
      logs := logs + [entry];
      err := None;
    }
  }
}
