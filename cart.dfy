/** The minus, plus and remove buttons of the cart panel, repeated on the
    checkout, catalogue, reviews and terms pages. The cart itself is the
    shared `react-use-cart` store; what the buttons decide is which call they
    make to it, and that is what is modelled here. */
module CartButtons {
  import opened Text

  /** A cart line as the store hands it to the page. */
  datatype LineItem = LineItem(
    id: string, name: string, price: real, comparation: Option<real>, quantity: Option<int>)

  /** A call the page makes to the cart store. */
  datatype CartCall = UpdateItemQuantity(id: string, quantity: int) | RemoveItem(id: string)

  /** `item.quantity ?? 0`. */
  function QuantityOrZero(item: LineItem): int
  {
    if item.quantity.Some? then item.quantity.value else 0
  }

  /** The minus button: it asks for one less only while the quantity is
      above 1, so it never asks for less than 1. */
  function MinusCall(item: LineItem): (call: Option<CartCall>)
    ensures call.Some? <==> QuantityOrZero(item) > 1
    ensures call.Some? ==>
      && call.value == UpdateItemQuantity(item.id, QuantityOrZero(item) - 1)
      && call.value.quantity >= 1
  {
    var quantity := QuantityOrZero(item);
    if quantity > 1 then Some(UpdateItemQuantity(item.id, quantity - 1)) else None
  }

  /** The plus button: one more than the current quantity, a missing
      quantity counting as 0. */
  function PlusCall(item: LineItem): (call: CartCall)
    ensures call.UpdateItemQuantity? && call.id == item.id
    ensures item.quantity.None? ==> call.quantity == 1
    ensures item.quantity.Some? ==> call.quantity == item.quantity.value + 1
  {
    UpdateItemQuantity(item.id, QuantityOrZero(item) + 1)
  }

  /** The remove button: removes the line it was rendered for. */
  function TrashCall(item: LineItem): (call: CartCall)
    ensures call.RemoveItem? && call.id == item.id
  {
    RemoveItem(item.id)
  }

  /** Given quantities the store can hold (none, or at least 0), no button
      asks for a quantity below 1. */
  lemma ButtonsNeverAskBelowOne(item: LineItem)
    requires item.quantity.None? || item.quantity.value >= 0
    ensures MinusCall(item).Some? ==> MinusCall(item).value.quantity >= 1
    ensures PlusCall(item).quantity >= 1
  {
  }

  /** Minus after plus on the same line asks to restore the original
      quantity; at quantity 1 minus asks for nothing. */
  lemma MinusUndoesPlus(item: LineItem, q: int)
    requires item.quantity == Some(q) && q >= 1
    ensures MinusCall(item.(quantity := Some(PlusCall(item).quantity))) ==
      Some(UpdateItemQuantity(item.id, q))
    ensures q == 1 ==> MinusCall(item) == None
  {
  }

  /** The cart panel of one page: the lines it rendered, and the calls its
      buttons have made to the cart store, oldest first. The store's answer
      to those calls is not part of this model. */
  class CartPanel {
    const items: seq<LineItem>
    var calls: seq<CartCall>

    constructor (items: seq<LineItem>)
      ensures this.items == items && calls == []
    {
      this.items := items;
      calls := [];
    }

    /** Every quantity the buttons have asked for is at least 1. */
    predicate NeverBelowOne()
      reads this
    {
      forall i :: 0 <= i < |calls| ==> calls[i].UpdateItemQuantity? ==> calls[i].quantity >= 1
    }

    /** The minus button of line `i`. */
    method Minus(i: nat)
      requires i < |items|
      modifies this`calls
      ensures calls == old(calls) + (if MinusCall(items[i]).Some? then [MinusCall(items[i]).value] else [])
      ensures old(NeverBelowOne()) ==> NeverBelowOne()
    {
      var quantity := QuantityOrZero(items[i]);
      if quantity > 1 {
        calls := calls + [UpdateItemQuantity(items[i].id, quantity - 1)];
      }
    }

    /** The plus button of line `i`. */
    method Plus(i: nat)
      requires i < |items|
      modifies this`calls
      ensures calls == old(calls) + [PlusCall(items[i])]
    {
      var quantity := QuantityOrZero(items[i]);
      calls := calls + [UpdateItemQuantity(items[i].id, quantity + 1)];
    }

    /** The remove button of line `i`. */
    method Trash(i: nat)
      requires i < |items|
      modifies this`calls
      ensures calls == old(calls) + [RemoveItem(items[i].id)]
    {
      calls := calls + [RemoveItem(items[i].id)];
    }
  }
}
