/** The volunteer dashboard: which claimed donations are offered, the
    optimistic accept, and the status each task card requests next. */
module VolunteerDashboard {
  import opened Wrappers
  import opened Seqs
  import opened ClientLists

  /** Offered tasks: claimed donations (as fetched) without a volunteer. */
  function AvailableTasks(claimed: seq<Listing>): (r: seq<Listing>)
    ensures forall x :: x in r <==> x in claimed && x.assignedVolunteer.None?
    ensures forall x :: multiset(r)[x] == if x.assignedVolunteer.None? then multiset(claimed)[x] else 0
    ensures InOrderWithin(r, claimed)
  {
    var keep := (d: Listing) => d.assignedVolunteer.None?;
    FilterCounts(claimed, keep);
    Filter(claimed, keep)
  }

  /** `Array.prototype.find` by id. */
  function FindById(list: seq<Listing>, id: string): (r: Option<Listing>)
    ensures r.None? <==> !HasId(list, id)
    ensures r.Some? ==> r.value.id == id && r.value in list
    ensures |list| > 0 && list[0].id == id ==> r == Some(list[0])
  {
    if |list| == 0 then None
    else if list[0].id == id then Some(list[0])
    else
      var r := FindById(list[1..], id);
      assert r.Some? ==> r.value in list;
      assert HasId(list[1..], id) ==> HasId(list, id) by {
        if HasId(list[1..], id) {
          var i :| 0 <= i < |list[1..]| && list[1..][i].id == id;
          assert list[i + 1].id == id;
        }
      }
      r
  }

  /** After a successful claim the task leaves the offered list and goes to
      the front of the volunteer's own list. The entry placed there is whatever
      the lookup found: an id not on the offered list puts an undefined entry
      in front. */
  function Accept(available: seq<Listing>, mine: seq<Option<Listing>>, id: string)
    : (r: (seq<Listing>, seq<Option<Listing>>))
    ensures !HasId(r.0, id) && (forall x :: x in r.0 <==> x in available && x.id != id)
    ensures |r.1| == |mine| + 1 && r.1[1..] == mine
    ensures HasId(available, id) ==> r.1[0].Some? && r.1[0].value.id == id && r.1[0].value in available
    ensures !HasId(available, id) ==> r.1[0].None?
  {
    (WithoutId(available, id), [FindById(available, id)] + mine)
  }

  /** The status a task card requests: `picked_up` after `claimed`, otherwise
      `completed`. */
  function NextStatus(status: string): (s: string)
    ensures status == "claimed" <==> s == "picked_up"
    ensures s == "picked_up" || s == "completed"
  {
    if status == "claimed" then "picked_up" else "completed"
  }

  function ActionLabel(status: string): string {
    if status == "claimed" then "Mark Picked Up" else "Mark Delivered"
  }

  /** The label says "Mark Picked Up" exactly when `picked_up` is requested;
      "Mark Delivered" requests `completed`, never `delivered`. */
  lemma LabelMatchesRequest(status: string)
    ensures ActionLabel(status) == "Mark Picked Up" <==> NextStatus(status) == "picked_up"
    ensures ActionLabel(status) == "Mark Delivered" ==> NextStatus(status) == "completed"
  {
  }
}
