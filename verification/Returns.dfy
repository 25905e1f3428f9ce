/** backend/apps/returns/services/process.py, lines 101-141 and 350-386: the lines of a
    return and of the credit note it may raise. */
module Returns {
  import opened Rounding
  import opened Wrappers
  import opened Sales

  /** `quantity` of line `line` comes back. */
  datatype ReturnLine = ReturnLine(line: nat, quantity: int)

  predicate Returnable(items: seq<SaleItem>, r: ReturnLine) {
    r.line < |items| && 0 < r.quantity <= items[r.line].quantity
  }

  predicate AllReturnable(items: seq<SaleItem>, lines: seq<ReturnLine>) {
    lines != [] && forall r <- lines :: Returnable(items, r)
  }

  /** The credit-note line of a returned quantity: unit price times quantity, and the
      original tax pro rata, rounded half even. */
  function NoteLine(it: SaleItem, quantity: int): SaleItem
    requires 0 < it.quantity
  {
    var tax := HalfEven(it.taxAmount * quantity, it.quantity);
    var total := HalfEven(it.unitPrice * quantity + 10_000 * tax, 10_000);
    SaleItem(quantity, it.unitPrice, 0, 0, it.taxRate, tax, total, false, false, 0)
  }

  function NoteLines(items: seq<SaleItem>, lines: seq<ReturnLine>): (r: seq<SaleItem>)
    requires forall l <- lines :: Returnable(items, l)
    ensures |r| == |lines|
  {
    seq(|lines|, j requires 0 <= j < |lines| =>
      assert Returnable(items, lines[j]); NoteLine(items[lines[j].line], lines[j].quantity))
  }

  /** The lines returned in full by one of the entries. */
  predicate InFull(items: seq<SaleItem>, lines: seq<ReturnLine>, k: nat) {
    k < |items| && ReturnLine(k, items[k].quantity) in lines
  }

  function Flagged(items: seq<SaleItem>, lines: seq<ReturnLine>): (r: seq<SaleItem>)
    ensures |r| == |items|
  {
    seq(|items|, k requires 0 <= k < |items| =>
      if InFull(items, lines, k) then items[k].(isCancelled := true) else items[k])
  }

  /** A full return hands back the line's tax to the last digit, and the gross without the
      discount: more than was charged by the discount, to within a rounding of each total. */
  lemma FullRefund(it: SaleItem)
    requires 0 < it.quantity && LineConsistent(it)
    ensures var note := NoteLine(it, it.quantity);
      && note.taxAmount == it.taxAmount
      && Abs(10_000 * (note.lineTotal - it.lineTotal) - 10_000 * it.discountAmount) <= 10_000
  {
    Exact(it.taxAmount, it.quantity);
    RoundsToNearest(it.unitPrice * it.quantity + 10_000 * it.taxAmount, 10_000);
  }

  /** Line j of a credit note: the returned quantity at the original price and rate, the tax
      pro rata and the total to the nearest ten-thousandth, ties to even, and no discount. */
  lemma NoteLineExactly(items: seq<SaleItem>, lines: seq<ReturnLine>, j: nat)
    requires AllReturnable(items, lines) && j < |lines|
    ensures lines[j].line < |items| && 0 < items[lines[j].line].quantity
    ensures var note, it := NoteLines(items, lines)[j], items[lines[j].line];
      && note.quantity == lines[j].quantity && note.unitPrice == it.unitPrice && note.taxRate == it.taxRate
      && Banker(it.taxAmount * note.quantity, it.quantity, note.taxAmount)
      && Banker(note.quantity * note.unitPrice + 10_000 * note.taxAmount, 10_000, note.lineTotal)
      && note.discountPct == 0 && note.discountAmount == 0
      && !note.isEdited && !note.isCancelled && note.editCount == 0
  {
    assert Returnable(items, lines[j]);
    var it := items[lines[j].line];
    RoundsToNearest(it.taxAmount * lines[j].quantity, it.quantity);
    var note := NoteLines(items, lines)[j];
    RoundsToNearest(it.unitPrice * lines[j].quantity + 10_000 * note.taxAmount, 10_000);
  }

  /** What can be returned: at least one entry, each of an existing line, of more than nothing
      and no more than was sold. */
  lemma ReturnableExactly(items: seq<SaleItem>, lines: seq<ReturnLine>)
    ensures AllReturnable(items, lines) <==>
      && lines != []
      && forall j :: 0 <= j < |lines| ==>
           lines[j].line < |items| && 0 < lines[j].quantity <= items[lines[j].line].quantity
  {
    if AllReturnable(items, lines) {
      forall j | 0 <= j < |lines| ensures Returnable(items, lines[j]) {
      }
    } else if lines != [] {
      var l :| l in lines && !Returnable(items, l);
      var j :| 0 <= j < |lines| && lines[j] == l;
    }
  }

  /** The amount a return refunds. */
  function Refund(items: seq<SaleItem>, lines: seq<ReturnLine>): int
    requires forall l <- lines :: Returnable(items, l)
  {
    LiveSum(NoteLines(items, lines), LineTotal)
  }
}
