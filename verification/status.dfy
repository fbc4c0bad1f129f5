/**
 * `baja` and `alta`: look a sale up by its identifier and set its status
 * to 0 (disabled) or 1 (active). Looking up an identifier with no sale
 * leaves `find` with nothing, and assigning to it raises an error.
 */
module Status {
  import opened Wrappers
  import opened Schema

  datatype StatusError = NotFound  // the lookup found no sale; the request ends in an error

  const Disabled: int := 0
  const Active: int := 1

  /** Every sale keyed `id` gets status `status`; nothing else changes. */
  function SetStatus(sales: seq<Sale>, id: string, status: int): (r: seq<Sale>)
    ensures |r| == |sales|
    ensures forall i :: 0 <= i < |sales| ==>
      r[i] == sales[i].(status := if sales[i].id == id then status else sales[i].status)
  {
    if |sales| == 0 then []
    else
      var s := sales[0];
      [if s.id == id then s.(status := status) else s] + SetStatus(sales[1..], id, status)
  }

  /** The status change the two actions share. */
  function Toggle(db: Db, id: string, status: int): (r: Result<Db, StatusError>)
    ensures r.Failure? <==> id !in SaleIds(db.sales)
    ensures r.Success? ==>
      && r.value == db.(sales := r.value.sales)
      && |r.value.sales| == |db.sales|
      && forall i :: 0 <= i < |db.sales| ==>
           && r.value.sales[i] == db.sales[i].(status := r.value.sales[i].status)
           && r.value.sales[i].status == (if db.sales[i].id == id then status else db.sales[i].status)
  {
    if id in SaleIds(db.sales) then Success(db.(sales := SetStatus(db.sales, id, status))) else Failure(NotFound)
  }

  /** `baja`: disable the sale. */
  function Disable(db: Db, id: string): (r: Result<Db, StatusError>)
    ensures r.Failure? <==> id !in SaleIds(db.sales)
    ensures r.Success? ==> |r.value.sales| == |db.sales| && forall i :: 0 <= i < |db.sales| ==>
      r.value.sales[i].status == (if db.sales[i].id == id then Disabled else db.sales[i].status)
  {
    Toggle(db, id, Disabled)
  }

  /** `alta`: restore the sale. */
  function Enable(db: Db, id: string): (r: Result<Db, StatusError>)
    ensures r.Failure? <==> id !in SaleIds(db.sales)
    ensures r.Success? ==> |r.value.sales| == |db.sales| && forall i :: 0 <= i < |db.sales| ==>
      r.value.sales[i].status == (if db.sales[i].id == id then Active else db.sales[i].status)
  {
    Toggle(db, id, Active)
  }

  // ---------------------------------------------------------------------
  // Lemmas
  // ---------------------------------------------------------------------

  /** Disabling an existing sale leaves it disabled and every other row, field and table as it was. */
  lemma DisableOnlyTouchesStatus(db: Db, id: string)
    requires id in SaleIds(db.sales)
    ensures Disable(db, id).Success?
    ensures var after := Disable(db, id).value;
      && after.stock == db.stock && after.details == db.details
      && after.legalClients == db.legalClients && after.naturalClients == db.naturalClients
      && |after.sales| == |db.sales|
      && forall i :: 0 <= i < |db.sales| ==>
           if db.sales[i].id == id then after.sales[i] == db.sales[i].(status := Disabled)
           else after.sales[i] == db.sales[i]
  {
  }

  /** Disabling twice is disabling once. */
  lemma DisableIdempotent(db: Db, id: string)
    requires id in SaleIds(db.sales)
    ensures Disable(db, id).Success?
    ensures Disable(Disable(db, id).value, id) == Disable(db, id)
  {
    var once := Disable(db, id).value;
    assert SaleIds(once.sales) == SaleIds(db.sales) by {
      assert forall i :: 0 <= i < |db.sales| ==> once.sales[i].id == db.sales[i].id;
    }
    var twice := Disable(once, id).value;
    assert twice.sales == once.sales;
  }

  /** Restoring a sale that was active before it was disabled gives back the database unchanged. */
  lemma EnableUndoesDisable(db: Db, id: string)
    requires id in SaleIds(db.sales)
    requires forall i :: 0 <= i < |db.sales| && db.sales[i].id == id ==> db.sales[i].status == Active
    ensures Disable(db, id).Success?
    ensures Enable(Disable(db, id).value, id) == Success(db)
  {
    var once := Disable(db, id).value;
    assert SaleIds(once.sales) == SaleIds(db.sales) by {
      assert forall i :: 0 <= i < |db.sales| ==> once.sales[i].id == db.sales[i].id;
    }
    var back := Enable(once, id).value;
    assert back.sales == db.sales;
  }

  /** Either action on an identifier with no sale is an error and changes nothing. */
  lemma UnknownSaleRejected(db: Db, id: string)
    requires id !in SaleIds(db.sales)
    ensures Disable(db, id) == Failure(NotFound) && Enable(db, id) == Failure(NotFound)
  {
  }
}
