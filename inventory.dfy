/** The inventory controller: the Pharmacist-only add, update and delete,
    the listing open to Pharmacists and Admins with its per-item alert flags,
    and the threshold default. */
module Inventory {
  import opened Common
  import opened Models
  import opened Store

  // ----------------------------------------------------------- alert flags

  /** `Math.ceil((expiry - today) / 86400000)`. */
  function DaysToExpiry(item: InventoryItem, now: int): (d: int)
    ensures (d - 1) * DayMs < item.expiryDate - now <= d * DayMs
  {
    CeilDays(item.expiryDate - now)
  }

  predicate IsLowStock(item: InventoryItem) {
    item.quantity <= item.lowStockThreshold
  }

  predicate IsExpired(item: InventoryItem, now: int) {
    DaysToExpiry(item, now) < 0
  }

  predicate IsExpiringSoon(item: InventoryItem, now: int) {
    0 <= DaysToExpiry(item, now) <= 30
  }

  /** The flags in terms of the expiry instant: expired means at least one
      whole day past; expiring soon means less than a day past up to thirty
      days ahead. */
  lemma ExpiryFlagsByInstant(item: InventoryItem, now: int)
    ensures IsExpired(item, now) <==> item.expiryDate <= now - DayMs
    ensures IsExpiringSoon(item, now) <==> now - DayMs < item.expiryDate <= now + 30 * DayMs
  {
  }

  /** No item is flagged both expired and expiring soon. */
  lemma ExpiryFlagsExclusive(item: InventoryItem, now: int)
    ensures !(IsExpired(item, now) && IsExpiringSoon(item, now))
  {
  }

  /** An item as the listing sends it: the stored item plus its three flags. */
  datatype ProcessedItem = ProcessedItem(
    item: InventoryItem, isLowStock: bool, isExpired: bool, isExpiringSoon: bool)

  function Process(item: InventoryItem, now: int): (p: ProcessedItem)
    ensures p.item == item
    ensures p.isLowStock <==> item.quantity <= item.lowStockThreshold
    ensures p.isExpired <==> item.expiryDate <= now - DayMs
    ensures p.isExpiringSoon <==> now - DayMs < item.expiryDate <= now + 30 * DayMs
    ensures !(p.isExpired && p.isExpiringSoon)
  {
    ExpiryFlagsByInstant(item, now);
    ProcessedItem(item, IsLowStock(item), IsExpired(item, now), IsExpiringSoon(item, now))
  }

  /** The listing's payload: its count and the processed items. */
  datatype Listing = Listing(count: nat, data: seq<ProcessedItem>)

  /** GET /api/inventory: 403 unless Pharmacist or Admin; otherwise one
      processed item per stored item, in the same order, and the count. */
  function GetItems(inventory: map<Id, InventoryItem>, n: nat, caller: Caller, now: int): (r: Result<Listing>)
    requires Below(inventory, n)
    ensures r.Fail? <==> caller.role !in {Pharmacist, Admin}
    ensures r.Fail? ==> r.status == FORBIDDEN
    ensures r.Ok? ==>
      var items := All(inventory, n);
      && r.status == OK
      && r.value.count == |r.value.data| == |items| == |inventory|
      && forall k :: 0 <= k < |items| ==> r.value.data[k] == Process(items[k], now)
  {
    if caller.role != Pharmacist && caller.role != Admin then Fail(FORBIDDEN, "Access denied")
    else
      var items := All(inventory, n);
      var data := seq(|items|, k requires 0 <= k < |items| => Process(items[k], now));
      Ok(OK, Listing(|data|, data))
  }

  // ------------------------------------------------------------------- add

  /** The body of POST /api/inventory; absent fields are None. */
  datatype ItemRequest = ItemRequest(
    name: Option<string>,
    batchNumber: Option<string>,
    manufacturer: Option<string>,
    expiryDate: Option<int>,
    quantity: Option<int>,
    price: Option<int>,
    lowStockThreshold: Option<int>)

  /** `lowStockThreshold || 10`: an absent threshold and a threshold of 0 both
      become 10. */
  function Threshold(sent: Option<int>): (t: int)
    ensures sent.Some? && sent.value != 0 ==> t == sent.value
    ensures sent.None? || sent.value == 0 ==> t == DefaultLowStockThreshold
  {
    if sent.Some? && sent.value != 0 then sent.value else DefaultLowStockThreshold
  }

  /** The schema's validators on creation: required fields and `min: 0`. */
  predicate ItemAccepted(req: ItemRequest) {
    && Given(req.name) && Given(req.batchNumber) && Given(req.manufacturer)
    && req.expiryDate.Some? && req.quantity.Some? && req.price.Some?
    && req.quantity.value >= 0 && req.price.value >= 0
  }

  /** The item POST /api/inventory stores: 403 for a non-Pharmacist, 500 when
      a validator fails; otherwise the item, owned by the caller. */
  function NewItem(caller: Caller, req: ItemRequest): (r: Result<InventoryItem>)
    ensures caller.role != Pharmacist ==> r.Fail? && r.status == FORBIDDEN
    ensures caller.role == Pharmacist && !ItemAccepted(req) ==> r.Fail? && r.status == SERVER_ERROR
    ensures r.Ok? <==> caller.role == Pharmacist && ItemAccepted(req)
    ensures r.Ok? ==>
      var i := r.value;
      && r.status == CREATED && i.pharmacistId == caller.id
      && i.name == req.name.value && i.batchNumber == req.batchNumber.value
      && i.manufacturer == req.manufacturer.value && i.expiryDate == req.expiryDate.value
      && i.quantity == req.quantity.value && i.price == req.price.value
      && i.lowStockThreshold == Threshold(req.lowStockThreshold)
      && ValidItem(i)
  {
    if caller.role != Pharmacist then Fail(FORBIDDEN, "Access denied. Only pharmacists can manage inventory")
    else if !ItemAccepted(req) then Fail(SERVER_ERROR, "Inventory validation failed")
    else
      Ok(CREATED, InventoryItem(caller.id, req.name.value, req.batchNumber.value, req.manufacturer.value,
                                req.expiryDate.value, req.quantity.value, req.price.value,
                                Threshold(req.lowStockThreshold)))
  }

  /** A threshold of 0 cannot be stored: the item is then low on stock only
      at 10 or fewer units. */
  lemma ZeroThresholdBecomesTen(caller: Caller, req: ItemRequest)
    requires NewItem(caller, req).Ok?
    requires req.lowStockThreshold == Some(0)
    ensures NewItem(caller, req).value.lowStockThreshold == 10
    ensures IsLowStock(NewItem(caller, req).value) <==> req.quantity.value <= 10
  {
  }

  /** POST /api/inventory. */
  method AddItem(db: Db, caller: Caller, req: ItemRequest) returns (res: Result<InventoryItem>, id: Id)
    requires db.Valid()
    modifies db`inventory, db`nextId
    ensures db.Valid()
    ensures res == NewItem(caller, req)
    ensures res.Ok? ==>
      id == old(db.nextId) && id !in old(db.inventory) && db.inventory == old(db.inventory)[id := res.value]
    ensures res.Fail? ==> db.inventory == old(db.inventory) && db.nextId == old(db.nextId)
  {
    id := 0;
    res := NewItem(caller, req);
    if res.Ok? {
      id := db.Allocate();
      db.inventory := db.inventory[id := res.value];
    }
  }

  // --------------------------------------------------------- update, delete

  /** The body of PUT /api/inventory/:id. */
  datatype ItemPatch = ItemPatch(
    pharmacistId: Option<Id>,
    name: Option<string>,
    batchNumber: Option<string>,
    manufacturer: Option<string>,
    expiryDate: Option<int>,
    quantity: Option<int>,
    price: Option<int>,
    lowStockThreshold: Option<int>)

  /** The update's validators: required strings stay non-empty and the two
      bounds hold for the values sent. */
  predicate ItemPatchAccepted(p: ItemPatch) {
    && p.name != Some("") && p.batchNumber != Some("") && p.manufacturer != Some("")
    && (p.quantity.Some? ==> p.quantity.value >= 0)
    && (p.price.Some? ==> p.price.value >= 0)
  }

  function ApplyItemPatch(i: InventoryItem, p: ItemPatch): InventoryItem {
    InventoryItem(
      Pick(p.pharmacistId, i.pharmacistId), Pick(p.name, i.name), Pick(p.batchNumber, i.batchNumber),
      Pick(p.manufacturer, i.manufacturer), Pick(p.expiryDate, i.expiryDate), Pick(p.quantity, i.quantity),
      Pick(p.price, i.price), Pick(p.lowStockThreshold, i.lowStockThreshold))
  }

  /** The reply of PUT /api/inventory/:id: 403 for a non-Pharmacist, 404 for
      a missing item, 500 when a validator fails; there is no ownership check. */
  function UpdateItemReply(inventory: map<Id, InventoryItem>, caller: Caller, id: Id, p: ItemPatch)
    : (r: Result<InventoryItem>)
    ensures caller.role != Pharmacist ==> r.Fail? && r.status == FORBIDDEN
    ensures caller.role == Pharmacist && id !in inventory ==> r.Fail? && r.status == NOT_FOUND
    ensures caller.role == Pharmacist && id in inventory && !ItemPatchAccepted(p) ==>
      r.Fail? && r.status == SERVER_ERROR
    ensures r.Ok? <==> caller.role == Pharmacist && id in inventory && ItemPatchAccepted(p)
    ensures r.Ok? ==> r.status == OK && r.value == ApplyItemPatch(inventory[id], p)
    ensures r.Ok? && ValidItem(inventory[id]) ==> ValidItem(r.value)
  {
    if caller.role != Pharmacist then Fail(FORBIDDEN, "Access denied")
    else if id !in inventory then Fail(NOT_FOUND, "Item not found")
    else if !ItemPatchAccepted(p) then Fail(SERVER_ERROR, "Validation failed")
    else Ok(OK, ApplyItemPatch(inventory[id], p))
  }

  /** PUT /api/inventory/:id. */
  method UpdateItem(db: Db, caller: Caller, id: Id, p: ItemPatch) returns (res: Result<InventoryItem>)
    requires db.Valid()
    modifies db`inventory
    ensures db.Valid()
    ensures res == UpdateItemReply(old(db.inventory), caller, id, p)
    ensures db.inventory == if res.Ok? then old(db.inventory)[id := res.value] else old(db.inventory)
  {
    res := UpdateItemReply(db.inventory, caller, id, p);
    if res.Ok? {
      db.inventory := db.inventory[id := res.value];
    }
  }

  /** The reply of DELETE /api/inventory/:id. */
  function DeleteItemReply(inventory: map<Id, InventoryItem>, caller: Caller, id: Id): (r: Result<string>)
    ensures caller.role != Pharmacist ==> r.Fail? && r.status == FORBIDDEN
    ensures caller.role == Pharmacist && id !in inventory ==> r.Fail? && r.status == NOT_FOUND
    ensures r.Ok? <==> caller.role == Pharmacist && id in inventory
    ensures r.Ok? ==> r == Ok(OK, "Item removed from inventory")
  {
    if caller.role != Pharmacist then Fail(FORBIDDEN, "Access denied")
    else if id !in inventory then Fail(NOT_FOUND, "Item not found")
    else Ok(OK, "Item removed from inventory")
  }

  /** Any Pharmacist may update or delete any stored item, including one
      another Pharmacist added. */
  lemma NoOwnershipCheck(inventory: map<Id, InventoryItem>, caller: Caller, id: Id, p: ItemPatch)
    requires caller.role == Pharmacist && id in inventory && inventory[id].pharmacistId != caller.id
    requires ItemPatchAccepted(p)
    ensures UpdateItemReply(inventory, caller, id, p).Ok?
    ensures DeleteItemReply(inventory, caller, id).Ok?
  {
  }

  /** DELETE /api/inventory/:id. */
  method DeleteItem(db: Db, caller: Caller, id: Id) returns (res: Result<string>)
    requires db.Valid()
    modifies db`inventory
    ensures db.Valid()
    ensures res == DeleteItemReply(old(db.inventory), caller, id)
    ensures db.inventory == if res.Ok? then old(db.inventory) - {id} else old(db.inventory)
  {
    res := DeleteItemReply(db.inventory, caller, id);
    if res.Ok? {
      db.inventory := db.inventory - {id};
    }
  }
}
