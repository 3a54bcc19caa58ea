/** The NGO's list of claimed donations: status colours, the urgency flag, the
    update reducer, the tab filters and the header counts. */
module ActivePickups {
  import opened Wrappers
  import opened Seqs
  import opened ClientLists

  datatype Colour = Yellow | Blue | Purple | Green | Grey

  /** The badge colour of a status; every string gets one. */
  function StatusColour(status: string): (c: Colour)
    ensures status == "delivered" || status == "completed" <==> c == Green
    ensures c == Grey <==> status !in {"available", "claimed", "picked_up", "delivered", "completed"}
  {
    if status == "available" then Yellow
    else if status == "claimed" then Blue
    else if status == "picked_up" then Purple
    else if status == "delivered" || status == "completed" then Green
    else Grey
  }

  /** Less than two hours before expiry, or past it. */
  predicate IsUrgent(p: Listing, now: int) {
    p.expiryDate - now < HourMs * 2
  }

  predicate IsActive(p: Listing) {
    p.status == "claimed" || p.status == "picked_up"
  }

  /** The `urgent` tab: urgent and not `completed`; a `delivered` pickup still counts. */
  predicate UrgentOpen(p: Listing, now: int) {
    IsUrgent(p, now) && p.status != "completed"
  }

  /** `donation_updated`: replaces the entry with the same id; an unknown id
      leaves the list as it was. */
  function OnUpdate(list: seq<Listing>, item: Listing): (r: seq<Listing>)
    ensures !HasId(list, item.id) ==> r == list
    ensures r == ReplaceById(list, item)
  {
    if exists i :: 0 <= i < |list| && list[i].id == item.id then ReplaceById(list, item)
    else
      ReplaceByIdFacts(list, item);
      list
  }

  /** Whether a pickup is listed under a tab; an unknown tab lists everything. */
  predicate InTab(p: Listing, tab: string, now: int) {
    if tab == "all" then true
    else if tab == "active" then IsActive(p)
    else if tab == "completed" then p.status == "delivered" || p.status == "completed"
    else if tab == "urgent" then UrgentOpen(p, now)
    else true
  }

  function FilteredPickups(list: seq<Listing>, tab: string, now: int): (r: seq<Listing>)
    ensures forall x :: x in r <==> x in list && InTab(x, tab, now)
    ensures forall x :: multiset(r)[x] == if InTab(x, tab, now) then multiset(list)[x] else 0
    ensures InOrderWithin(r, list)
    ensures tab !in {"active", "completed", "urgent"} ==> r == list
  {
    var keep := (p: Listing) => InTab(p, tab, now);
    FilterCounts(list, keep);
    Filter(list, keep)
  }

  datatype Stats = Stats(total: nat, active: nat, urgent: nat)

  /** The header counts: the list size, and the sizes of the `active` and
      `urgent` tabs. */
  function StatsOf(list: seq<Listing>, now: int): (s: Stats)
    ensures s.total == |list|
    ensures s.active == |FilteredPickups(list, "active", now)|
    ensures s.urgent == |FilteredPickups(list, "urgent", now)|
  {
    var active := Filter(list, (p: Listing) => IsActive(p));
    var urgent := Filter(list, (p: Listing) => UrgentOpen(p, now));
    FilterCongruent(list, (p: Listing) => IsActive(p), (p: Listing) => InTab(p, "active", now));
    FilterCongruent(list, (p: Listing) => UrgentOpen(p, now), (p: Listing) => InTab(p, "urgent", now));
    Stats(|list|, |active|, |urgent|)
  }

  /** A delivered pickup past its expiry is listed both as completed and as urgent. */
  lemma DeliveredCanBeUrgent(p: Listing, now: int)
    requires p.status == "delivered" && p.expiryDate <= now
    ensures InTab(p, "completed", now) && InTab(p, "urgent", now)
  {
  }
}
