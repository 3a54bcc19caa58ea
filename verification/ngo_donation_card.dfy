/** The NGO's donation card: defaults for a partly populated donation, the
    visibility option shown, the list of volunteer approvals, and when the
    permission and approval handlers issue a request. */
module NgoDonationCard {
  import opened Wrappers
  import opened Seqs

  datatype VolunteerRef = VolunteerRef(id: Option<string>, name: Option<string>)
  datatype Approval = Approval(volunteer: Option<VolunteerRef>, status: Option<string>)

  /** The donation as the card receives it; any field may be missing. */
  datatype CardDonation = CardDonation(
    id: Option<string>,
    title: Option<string>,
    permissions: Option<string>,
    approvedVolunteers: Option<seq<Option<Approval>>>)

  /** The card's view with every default filled in. */
  datatype SafeDonation = SafeDonation(
    id: string, title: string, permissions: string, approvedVolunteers: seq<Option<Approval>>)

  predicate Truthy(s: Option<string>) {
    s.Some? && |s.value| > 0
  }

  function OrText(s: Option<string>, fallback: string): (r: string)
    ensures Truthy(s) ==> r == s.value
    ensures !Truthy(s) ==> r == fallback
  {
    if Truthy(s) then s.value else fallback
  }

  /** `safeDonation`: missing or empty fields take their defaults; permissions
      default to `private`; approvals default to none. */
  function Safe(d: Option<CardDonation>): (r: SafeDonation)
    ensures d.None? ==> r == SafeDonation("", "Untitled Donation", "private", [])
    ensures d.Some? ==> r.id == OrText(d.value.id, "") && r.title == OrText(d.value.title, "Untitled Donation")
    ensures d.Some? ==> r.permissions == OrText(d.value.permissions, "private")
    ensures d.Some? ==> r.approvedVolunteers == d.value.approvedVolunteers.GetOr([])
  {
    match d
    case None => SafeDonation("", "Untitled Donation", "private", [])
    case Some(x) => SafeDonation(
      OrText(x.id, ""), OrText(x.title, "Untitled Donation"), OrText(x.permissions, "private"),
      x.approvedVolunteers.GetOr([]))
  }

  datatype PermissionOption = PermissionOption(value: string, caption: string)

  const Options: seq<PermissionOption> := [
    PermissionOption("private", "Private"),
    PermissionOption("ngo_only", "NGO Managed"),
    PermissionOption("all_volunteers", "Public")]

  /** The first option whose value is the donation's permission, else Private. */
  function CurrentOption(permissions: string): (o: PermissionOption)
    ensures o in Options
    ensures (exists i :: 0 <= i < |Options| && Options[i].value == permissions) ==> o.value == permissions
    ensures (forall i :: 0 <= i < |Options| ==> Options[i].value != permissions) ==> o == Options[0]
  {
    if permissions == "private" then Options[0]
    else if permissions == "ngo_only" then Options[1]
    else if permissions == "all_volunteers" then Options[2]
    else Options[0]
  }

  /** A donation without a permission, or with an unknown one, shows Private. */
  lemma MissingPermissionShowsPrivate(d: CardDonation)
    requires !Truthy(d.permissions) || d.permissions.value !in {"private", "ngo_only", "all_volunteers"}
    ensures CurrentOption(Safe(Some(d)).permissions) == PermissionOption("private", "Private")
  {
  }

  /** Each approval as a present list entry. */
  function Present(r: seq<Approval>): (w: seq<Option<Approval>>)
    ensures |w| == |r|
    ensures forall i :: 0 <= i < |r| ==> w[i] == Some(r[i])
  {
    seq(|r|, i requires 0 <= i < |r| => Some(r[i]))
  }

  /** The approvals drawn: entries that exist and name a volunteer, in list
      order. */
  function ShownApprovals(list: seq<Option<Approval>>): (r: seq<Approval>)
    ensures |r| <= |list|
    ensures forall a :: a in r <==> Some(a) in list && a.volunteer.Some?
    ensures InOrderWithin(Present(r), list)
  {
    if |list| == 0 then []
    else
      var rest := ShownApprovals(list[1..]);
      assert list == [list[0]] + list[1..];
      if list[0].Some? && list[0].value.volunteer.Some? then
        var r := [list[0].value] + rest;
        assert Present(r)[1..] == Present(rest);
        r
      else
        assert forall a: Approval :: a.volunteer.Some? ==> Some(a) != list[0];
        assert |rest| == 0 || Present(rest)[0] != list[0];
        rest
  }

  /** Each drawn approval appears as often as its entry occurs in the list. */
  lemma {:induction false} ShownApprovalsCounts(list: seq<Option<Approval>>, a: Approval)
    ensures multiset(ShownApprovals(list))[a] == if a.volunteer.Some? then multiset(list)[Some(a)] else 0
    decreases |list|
  {
    if |list| > 0 {
      assert list == [list[0]] + list[1..];
      assert multiset(list) == multiset{list[0]} + multiset(list[1..]);
      ShownApprovalsCounts(list[1..], a);
    }
  }

  /** The heading counts every entry, drawn or not. */
  lemma HeadingCountsSkippedEntries()
    ensures |Safe(Some(CardDonation(None, None, None, Some([None])))).approvedVolunteers| == 1
    ensures ShownApprovals([None]) == []
  {
  }

  function StatusLabel(a: Approval): (s: string)
    ensures Truthy(a.status) ==> s == a.status.value
    ensures !Truthy(a.status) ==> s == "pending"
  {
    OrText(a.status, "pending")
  }

  /** A permission change: sent only for a donation with an id, after the
      confirmation, when a handler is wired. */
  function PermissionRequest(d: SafeDonation, permission: string, confirmed: bool, hasHandler: bool)
    : (r: Option<(string, string)>)
    ensures r.Some? <==> d.id != "" && confirmed && hasHandler
    ensures r.Some? ==> r.value == (d.id, permission)
  {
    if d.id == "" || !confirmed || !hasHandler then None else Some((d.id, permission))
  }

  /** An approval decision: sent only with both a donation id and a volunteer id. */
  function ApprovalRequest(d: SafeDonation, volunteerId: Option<string>, status: string, hasHandler: bool)
    : (r: Option<(string, string, string)>)
    ensures r.Some? <==> d.id != "" && Truthy(volunteerId) && hasHandler
    ensures r.Some? ==> r.value == (d.id, volunteerId.value, status)
  {
    if d.id == "" || !Truthy(volunteerId) || !hasHandler then None else Some((d.id, volunteerId.value, status))
  }
}
