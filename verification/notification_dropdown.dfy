/** The notification bell: the unread counter and the local effect of
    marking one notification read. */
module NotificationDropdown {

  datatype Item = Item(id: string, message: string, read: bool)

  /** Number of unread items. */
  function Unread(items: seq<Item>): (n: nat)
    ensures n <= |items|
    ensures n == 0 <==> forall i :: 0 <= i < |items| ==> items[i].read
  {
    if |items| == 0 then 0 else (if items[0].read then 0 else 1) + Unread(items[1..])
  }

  /** The mark-read action is offered for unread items only. */
  predicate OffersMarkAction(n: Item) {
    !n.read
  }

  /** After a successful request every item with that id is read and the
      others are unchanged. */
  function MarkLocally(items: seq<Item>, id: string): (r: seq<Item>)
    ensures |r| == |items|
    ensures forall i :: 0 <= i < |items| ==> r[i] == if items[i].id == id then items[i].(read := true) else items[i]
  {
    if |items| == 0 then []
    else [if items[0].id == id then items[0].(read := true) else items[0]] + MarkLocally(items[1..], id)
  }

  /** The counter after marking: one less, never below zero. */
  function Decrement(count: nat): (r: nat)
    ensures count > 0 ==> r == count - 1
    ensures count == 0 ==> r == 0
  {
    if count > 0 then count - 1 else 0
  }

  function Occurrences(items: seq<Item>, id: string): nat {
    if |items| == 0 then 0 else (if items[0].id == id then 1 else 0) + Occurrences(items[1..], id)
  }

  /** Marking an unread item whose id occurs once lowers the unread count by
      exactly one, so a counter that matched the list still matches it. */
  lemma {:induction false} MarkKeepsCounter(items: seq<Item>, id: string, i: nat)
    requires i < |items| && items[i].id == id && !items[i].read && Occurrences(items, id) == 1
    ensures Unread(MarkLocally(items, id)) == Decrement(Unread(items))
    decreases |items|
  {
    assert !items[i].read;
    if i == 0 {
      NoOccurrence(items[1..], id);
      assert MarkLocally(items, id)[1..] == MarkLocally(items[1..], id);
    } else {
      OccurrencePositive(items[1..], id, i - 1);
      MarkKeepsCounter(items[1..], id, i - 1);
      assert MarkLocally(items, id)[1..] == MarkLocally(items[1..], id);
    }
  }

  lemma {:induction false} OccurrencePositive(items: seq<Item>, id: string, i: nat)
    requires i < |items| && items[i].id == id
    ensures Occurrences(items, id) > 0
    decreases |items|
  {
    if i > 0 {
      OccurrencePositive(items[1..], id, i - 1);
    }
  }

  lemma {:induction false} NoOccurrence(items: seq<Item>, id: string)
    requires Occurrences(items, id) == 0
    ensures MarkLocally(items, id) == items
    decreases |items|
  {
    if |items| > 0 {
      NoOccurrence(items[1..], id);
    }
  }

  /** Marking an already-read item still lowers the counter, which then
      undercounts the list by one. */
  lemma MarkingReadItemUndercounts(id: string, other: string)
    requires other != id
    ensures var items := [Item(id, "", true), Item(other, "", false)];
      Unread(MarkLocally(items, id)) == 1 && Decrement(Unread(items)) == 0
  {
    var items := [Item(id, "", true), Item(other, "", false)];
    assert MarkLocally(items, id) == items by {
      assert MarkLocally(items[1..], id)[0] == items[1];
    }
    assert Unread(items) == Unread(items[1..]);
  }
}
