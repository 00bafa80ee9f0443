/** `src/components/boq-table.tsx`: the Bill of Quantities table. Its
    controller mirrors the `boq_items` table; every change reaches the list
    only after the gateway has confirmed it. */
module BoqTable {
  import opened Wrappers
  import opened Gateway
  import opened Types
  import Lists
  import Totals
  import Fixtures
  import BoqForm

  /** The amount shown on a row: quantity × rate. */
  function Amount(item: BoqItem): (a: real)
    ensures item.quantity == 0.0 || item.rate == 0.0 ==> a == 0.0
    ensures item.quantity >= 0.0 && item.rate >= 0.0 ==> a >= 0.0
  {
    var q, r := item.quantity, item.rate;
    assert q >= 0.0 && r >= 0.0 ==> q * r >= 0.0;
    q * r
  }

  /** `items.reduce((total, item) => total + item.quantity * item.rate, 0)`. */
  function GrandTotal(items: seq<BoqItem>): (t: real)
    ensures items == [] ==> t == 0.0
    ensures |items| == 1 ==> t == items[0].quantity * items[0].rate
  {
    assert |items| == 1 ==> items[..|items| - 1] == [];
    Totals.Total(items, Amount)
  }

  /** The amounts of the displayed rows, top to bottom. */
  function RowAmounts(items: seq<BoqItem>): seq<real>
  {
    Totals.Amounts(items, Amount)
  }

  /** The grand total in the footer is the sum of the row amounts above it. */
  lemma GrandTotalIsSumOfRows(items: seq<BoqItem>)
    ensures GrandTotal(items) == Totals.Sum(RowAmounts(items))
    ensures forall i :: 0 <= i < |items| ==> RowAmounts(items)[i] == Amount(items[i])
  {
    Totals.TotalIsSumOfAmounts(items, Amount);
  }

  /** An empty table totals zero, and adding a line raises the total by that
      line's amount. */
  lemma GrandTotalAppend(items: seq<BoqItem>, item: BoqItem)
    ensures GrandTotal([]) == 0.0
    ensures GrandTotal(items + [item]) == GrandTotal(items) + item.quantity * item.rate
  {
    Totals.TotalAppend(items, Amount, item);
  }

  /** Lines with non-negative quantities and rates never total below zero. */
  lemma GrandTotalNonnegative(items: seq<BoqItem>)
    requires forall i :: 0 <= i < |items| ==> items[i].quantity >= 0.0 && items[i].rate >= 0.0
    ensures GrandTotal(items) >= 0.0
  {
    forall i | 0 <= i < |items| ensures Amount(items[i]) >= 0.0 {
      var q, r := items[i].quantity, items[i].rate;
      assert q * r >= 0.0;
    }
  }

  /** The fixture lines: 150 × 15.50 + 75 × 55 = 6450 for the first two,
      22416 for all four. */
  lemma FixtureGrandTotal()
    ensures GrandTotal(Fixtures.InitialBoqItems[..2]) == 6450.0
    ensures GrandTotal(Fixtures.InitialBoqItems) == 22416.0
  {
    var s := Fixtures.InitialBoqItems;
    assert s[..1] == [] + [s[0]];
    GrandTotalAppend([], s[0]);
    assert s[..2] == s[..1] + [s[1]];
    GrandTotalAppend(s[..1], s[1]);
    assert s[..3] == s[..2] + [s[2]];
    GrandTotalAppend(s[..2], s[2]);
    assert s == s[..3] + [s[3]];
    GrandTotalAppend(s[..3], s[3]);
  }

  class Controller {
    var items: seq<BoqItem>
    var dialogOpen: bool
    var editing: Option<BoqItem>

    /** The table starts empty, with the dialog closed. */
    constructor ()
      ensures items == [] && !dialogOpen && editing == None
    {
      items := [];
      dialogOpen := false;
      editing := None;
    }

    /** `fetchItems`: on an error the list stays; otherwise returned rows
        replace it wholesale, in the order returned. */
    method FetchItems(response: Response<BoqItem>)
      modifies this`items
      ensures response.failed ==> items == old(items)
      ensures !response.failed && response.data.Some? ==> items == response.data.value
      ensures response.data.None? ==> items == old(items)
      ensures dialogOpen == old(dialogOpen) && editing == old(editing)
    {
      if response.failed {
      } else if response.data.Some? {
        items := response.data.value;
      }
    }

    /** `handleAddItem`: open an empty form. */
    method BeginCreate()
      modifies this`dialogOpen, this`editing
      ensures dialogOpen && editing == None && items == old(items)
    {
      editing := None;
      dialogOpen := true;
    }

    /** `handleEditItem`: open the form on `item`. */
    method BeginEdit(item: BoqItem)
      modifies this`dialogOpen, this`editing
      ensures dialogOpen && editing == Some(item) && items == old(items)
    {
      editing := Some(item);
      dialogOpen := true;
    }

    /** The dialog's close callback: only the dialog flag changes. */
    method CloseDialog()
      modifies this`dialogOpen
      ensures !dialogOpen
    {
      dialogOpen := false;
    }

    /** `handleDeleteItem`: issue one delete by id; only when it succeeds
        drop that id's rows locally, keeping the others in order. */
    method DeleteItem(id: string, outcome: Outcome) returns (request: Request<BoqForm.FormValues>)
      modifies this`items
      ensures request == Delete(id)
      ensures outcome.Ok? ==> items == Lists.Without(old(items), BoqId, id)
      ensures outcome.Err? ==> items == old(items)
    {
      request := Delete(id);
      if outcome.Ok? {
        items := Lists.Without(items, BoqId, id);
      }
    }

    /** `handleFormSubmit`: one update keyed by the edited line's id, or one
        insert. The list itself is never touched here: a success asks for a
        reload (`reload`), closes the dialog and clears the edit target; a
        failure leaves dialog and target as they were. */
    method Submit(data: BoqForm.FormValues, outcome: Outcome) returns (request: Request<BoqForm.FormValues>, reload: bool)
      modifies this`dialogOpen, this`editing
      ensures old(editing).Some? ==> request == Update(old(editing).value.id, data)
      ensures old(editing).None? ==> request == Insert(data)
      ensures reload <==> outcome.Ok?
      ensures outcome.Ok? ==> !dialogOpen && editing == None
      ensures outcome.Err? ==> dialogOpen == old(dialogOpen) && editing == old(editing)
    {
      if editing.Some? {
        request := Update(editing.value.id, data);
      } else {
        request := Insert(data);
      }
      reload := outcome.Ok?;
      if outcome.Ok? {
        dialogOpen := false;
        editing := None;
      }
    }
  }
}
