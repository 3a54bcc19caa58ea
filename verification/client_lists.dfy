/** The donation record as the browser lists hold it, and the list updates the
    components apply when a request succeeds or a broadcast arrives. */
module ClientLists {
  import opened Wrappers
  import opened Seqs

  /** The `donor` field of a listed donation: missing, a reference that was
      not populated (its id, as the creation and update broadcasts carry it),
      or a populated user whose name may be missing. */
  datatype DonorRef = NoDonor | DonorId(ref: string) | Populated(name: Option<string>)

  /** A listed donation: only the fields the components read. */
  datatype Listing = Listing(
    id: string,
    title: string,
    donor: DonorRef,
    foodType: string,
    status: string,
    expiryDate: int,
    assignedVolunteer: Option<string>)

  const HourMs: int := 3600000

  predicate HasId(list: seq<Listing>, id: string) {
    exists i :: 0 <= i < |list| && list[i].id == id
  }

  /** `list.filter(p => p._id !== id)`. */
  function WithoutId(list: seq<Listing>, id: string): (r: seq<Listing>)
    ensures forall x :: x in r <==> x in list && x.id != id
    ensures !HasId(r, id)
    ensures !HasId(list, id) ==> r == list
    ensures |r| <= |list|
  {
    var r := Filter(list, (p: Listing) => p.id != id);
    assert !HasId(list, id) ==> forall i :: 0 <= i < |list| ==> list[i].id != id;
    assert forall i :: 0 <= i < |r| ==> r[i].id != id;
    r
  }

  /** Removing an id twice is removing it once. */
  lemma WithoutIdIdempotent(list: seq<Listing>, a: string)
    ensures WithoutId(WithoutId(list, a), a) == WithoutId(list, a)
  {
  }

  /** Removals of two ids commute. */
  lemma {:induction false} WithoutIdCommutes(list: seq<Listing>, a: string, b: string)
    ensures WithoutId(WithoutId(list, a), b) == WithoutId(WithoutId(list, b), a)
    decreases |list|
  {
    if |list| > 0 {
      var x, rest := list[0], list[1..];
      assert list == [x] + rest;
      WithoutIdCommutes(rest, a, b);
      WithoutIdCons(x, rest, a);
      WithoutIdCons(x, rest, b);
      if x.id != a {
        WithoutIdCons(x, WithoutId(rest, a), b);
      }
      if x.id != b {
        WithoutIdCons(x, WithoutId(rest, b), a);
      }
    }
  }

  lemma WithoutIdCons(x: Listing, rest: seq<Listing>, a: string)
    ensures WithoutId([x] + rest, a) == (if x.id != a then [x] else []) + WithoutId(rest, a)
  {
    assert ([x] + rest)[1..] == rest;
  }

  /** `list.map(p => p._id === item._id ? item : p)`. */
  function ReplaceById(list: seq<Listing>, item: Listing): (r: seq<Listing>)
    ensures |r| == |list|
    ensures forall i :: 0 <= i < |list| && list[i].id != item.id ==> r[i] == list[i]
    ensures forall i :: 0 <= i < |list| && list[i].id == item.id ==> r[i] == item
  {
    seq(|list|, i requires 0 <= i < |list| => if list[i].id == item.id then item else list[i])
  }

  /** An unknown id leaves the list as it was; replacing twice with the same
      item is replacing once; the item is listed afterwards exactly when its id
      was. */
  lemma ReplaceByIdFacts(list: seq<Listing>, item: Listing)
    ensures !HasId(list, item.id) ==> ReplaceById(list, item) == list
    ensures ReplaceById(ReplaceById(list, item), item) == ReplaceById(list, item)
    ensures item in ReplaceById(list, item) <==> HasId(list, item.id)
  {
    var r := ReplaceById(list, item);
    if HasId(list, item.id) {
      var i :| 0 <= i < |list| && list[i].id == item.id;
      assert r[i] == item;
    }
  }
}
