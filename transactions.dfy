/** The transaction history (components/Transactions.tsx): the list sorted newest
    first in place, one expandable detail row at a time, and the per-transaction
    item count and line amounts. */
module TransactionsScreen {
  import opened Seqs
  import opened Types
  import PosScreen

  // ---------------------------------------------------------------------------
  // The detail row

  /** `toggleExpand` (Transactions.tsx:12-14) on the expanded id. */
  function Toggled(expandedId: Option<string>, id: string): (r: Option<string>)
    ensures r == Some(id) <==> expandedId != Some(id)
    ensures r != Some(id) ==> r == None
  {
    if expandedId == Some(id) then None else Some(id)
  }

  /** Toggling the same row twice leaves it open exactly when it was open before;
      otherwise no row is open afterwards. */
  lemma ToggleTwice(expandedId: Option<string>, id: string)
    ensures Toggled(Toggled(expandedId, id), id) == if expandedId == Some(id) then Some(id) else None
  {
  }

  class TransactionList {
    var expandedId: Option<string>

    constructor ()
      ensures expandedId == None
    {
      expandedId := None;
    }

    /** At most one row shows its details: the one whose id is `expandedId`. */
    method ToggleExpand(id: string)
      modifies this
      ensures expandedId == Toggled(old(expandedId), id)
    {
      expandedId := if expandedId == Some(id) then None else Some(id);
    }
  }

  // ---------------------------------------------------------------------------
  // The columns

  function QuantityOf(item: CartItem): int
  {
    item.quantity
  }

  /** The "Total Barang" column (Transactions.tsx:38): the units sold. */
  function ItemCount(t: Transaction): int
  {
    SumOf(t.items, QuantityOf)
  }

  /** With every quantity at least 1, a transaction counts at least one unit per line. */
  lemma {:induction false} ItemCountAtLeastLines(items: seq<CartItem>)
    requires forall i :: 0 <= i < |items| ==> items[i].quantity >= 1
    ensures SumOf(items, QuantityOf) >= |items|
  {
    if items != [] {
      ItemCountAtLeastLines(items[1..]);
    }
  }

  /** A transaction stored from a cart that keeps its invariant counts at least
      one unit per line, and its detail rows' amounts (Transactions.tsx:56) add up
      to its total. */
  lemma CheckoutColumns(cart: seq<CartItem>, products: seq<Product>, id: string, date: string)
    requires PosScreen.CartInvariant(cart, products)
    requires PosScreen.CheckoutOf(cart, products).Ok?
    ensures var draft := PosScreen.CheckoutOf(cart, products).value.transaction;
            var t := Transaction(id, draft.items, draft.total, draft.profit, date);
            && ItemCount(t) >= |t.items| >= 1
            && SumOf(t.items, LineAmount) == t.total
  {
    ItemCountAtLeastLines(cart);
  }

  // ---------------------------------------------------------------------------
  // The order

  /** No transaction is listed before a newer one; `time` stands for
      `new Date(date).getTime()`. */
  ghost predicate NewestFirst(s: seq<Transaction>, time: string -> int)
  {
    forall i, j :: 0 <= i < j < |s| ==> time(s[j].date) <= time(s[i].date)
  }

  /** `transactions.sort(...)` (Transactions.tsx:33), which reorders the array it
      is given: an insertion sort by date, newest first. */
  method SortNewestFirst(a: array<Transaction>, time: string -> int)
    modifies a
    ensures NewestFirst(a[..], time)
    ensures multiset(a[..]) == multiset(old(a[..]))
  {
    if a.Length == 0 {
      return;
    }
    var i := 1;
    while i < a.Length
      invariant 1 <= i <= a.Length
      invariant NewestFirst(a[..i], time)
      invariant multiset(a[..]) == multiset(old(a[..]))
    {
      InsertAt(a, i, time);
      i := i + 1;
    }
    assert a[..a.Length] == a[..];
  }

  /** `s[..i + 1]` is newest first except that `s[j]` may be newer than the
      transactions before it. */
  ghost predicate NewestFirstAround(s: seq<Transaction>, i: nat, j: nat, time: string -> int)
    requires j <= i < |s|
  {
    && (forall k, l :: 0 <= k < l <= i && k != j && l != j ==> time(s[l].date) <= time(s[k].date))
    && (forall l :: j < l <= i ==> time(s[l].date) <= time(s[j].date))
  }

  lemma StartInsert(s: seq<Transaction>, i: nat, time: string -> int)
    requires i < |s| && NewestFirst(s[..i], time)
    ensures NewestFirstAround(s, i, i, time)
  {
    forall k, l | 0 <= k < l < i
      ensures time(s[l].date) <= time(s[k].date)
    {
      assert s[..i][k] == s[k] && s[..i][l] == s[l];
    }
  }

  /** Swapping the new transaction with an older one before it moves the gap left. */
  lemma SwapStep(s: seq<Transaction>, i: nat, j: nat, time: string -> int)
    requires 0 < j <= i < |s| && NewestFirstAround(s, i, j, time)
    requires time(s[j - 1].date) < time(s[j].date)
    ensures NewestFirstAround(s[j - 1 := s[j]][j := s[j - 1]], i, j - 1, time)
  {
  }

  lemma SwapSameMultiset(s: seq<Transaction>, j: nat)
    requires 0 < j < |s|
    ensures multiset(s[j - 1 := s[j]][j := s[j - 1]]) == multiset(s)
  {
  }

  lemma FinishInsert(s: seq<Transaction>, i: nat, j: nat, time: string -> int)
    requires j <= i < |s| && NewestFirstAround(s, i, j, time)
    requires j == 0 || time(s[j].date) <= time(s[j - 1].date)
    ensures NewestFirst(s[..i + 1], time)
  {
    forall k, l | 0 <= k < l <= i
      ensures time(s[l].date) <= time(s[k].date)
    {
      if l == j && k < j - 1 {
        assert time(s[j - 1].date) <= time(s[k].date);
      }
    }
  }

  /** Moves `a[i]` left past every older transaction, so that `a[..i + 1]` is
      newest first. */
  method InsertAt(a: array<Transaction>, i: nat, time: string -> int)
    requires i < a.Length && NewestFirst(a[..i], time)
    modifies a
    ensures NewestFirst(a[..i + 1], time)
    ensures multiset(a[..]) == multiset(old(a[..]))
  {
    StartInsert(a[..], i, time);
    var j := i;
    while j > 0 && time(a[j - 1].date) < time(a[j].date)
      invariant 0 <= j <= i
      invariant NewestFirstAround(a[..], i, j, time)
      invariant multiset(a[..]) == multiset(old(a[..]))
    {
      ghost var s := a[..];
      SwapStep(s, i, j, time);
      a[j - 1], a[j] := a[j], a[j - 1];
      assert a[..] == s[j - 1 := s[j]][j := s[j - 1]];
      SwapSameMultiset(s, j);
      j := j - 1;
    }
    FinishInsert(a[..], i, j, time);
  }
}
