/** The volunteer-management handlers: listing volunteers, assigning a
    volunteer to a claimed donation, a volunteer completing a task, and the
    volunteer's statistics. */
module UserController {
  import opened Wrappers
  import opened Domain
  import opened Seqs
  import DonationController

  // ---------------------------------------------------------------- presence

  /** The status shown for a volunteer in the listing. */
  datatype Presence = Free | Busy | Offline

  function PresenceName(p: Presence): string {
    match p
    case Free => "available"
    case Busy => "busy"
    case Offline => "offline"
  }

  /** Busy while holding a task, otherwise available when active, otherwise offline. */
  function PresenceOf(u: User): (p: Presence)
    ensures p == Busy <==> u.currentTask.Some?
    ensures p == Free <==> u.currentTask.None? && u.isActive
    ensures p == Offline <==> u.currentTask.None? && !u.isActive
  {
    if u.currentTask.Some? then Busy else if u.isActive then Free else Offline
  }

  // ---------------------------------------------------------------- query

  datatype TaskFilter = AnyTask | NoTask | HasTask

  /** The store query: role `volunteer`, plus optional conditions on `isActive`
      and on whether `currentTask` is set. */
  datatype VolunteerFilter = VolunteerFilter(isActive: Option<bool>, task: TaskFilter)

  /** Maps the `status` query parameter to store conditions; an unknown status
      adds none. Without `status`, the availability filter applies only when the
      `available` parameter is the string `"true"`; its default is the boolean
      `true`, which is never equal to that string. */
  function BuildVolunteerFilter(status: Option<string>, available: Option<string>): (f: VolunteerFilter)
    ensures Truthy(status) && status.value == "available" ==> f == VolunteerFilter(Some(true), NoTask)
    ensures Truthy(status) && status.value == "busy" ==> f == VolunteerFilter(None, HasTask)
    ensures Truthy(status) && status.value == "offline" ==> f == VolunteerFilter(Some(false), AnyTask)
    ensures Truthy(status) && status.value != "available" && status.value != "busy" && status.value != "offline"
            ==> f == VolunteerFilter(None, AnyTask)
    ensures !Truthy(status) && available == Some("true") ==> f == VolunteerFilter(Some(true), NoTask)
    ensures !Truthy(status) && available != Some("true") ==> f == VolunteerFilter(None, AnyTask)
  {
    if Truthy(status) then
      if status.value == "available" then VolunteerFilter(Some(true), NoTask)
      else if status.value == "busy" then VolunteerFilter(None, HasTask)
      else if status.value == "offline" then VolunteerFilter(Some(false), AnyTask)
      else VolunteerFilter(None, AnyTask)
    else if available == Some("true") then VolunteerFilter(Some(true), NoTask)
    else VolunteerFilter(None, AnyTask)
  }

  predicate Matches(f: VolunteerFilter, u: User) {
    && u.role == Volunteer
    && (f.isActive.Some? ==> u.isActive == f.isActive.value)
    && (match f.task
        case AnyTask => true
        case NoTask => u.currentTask.None?
        case HasTask => u.currentTask.Some?)
  }

  /** With neither `status` nor `available` in the query, every volunteer
      matches, busy and offline ones included. */
  lemma NoParamsNoFilter(u: User)
    requires u.role == Volunteer
    ensures Matches(BuildVolunteerFilter(None, None), u)
  {
  }

  /** The `available` and `busy` filters select exactly the volunteers shown
      with that status. */
  lemma FilterAgreesWithPresence(u: User)
    ensures Matches(BuildVolunteerFilter(Some("available"), None), u) <==> u.role == Volunteer && PresenceOf(u) == Free
    ensures Matches(BuildVolunteerFilter(Some("busy"), None), u) <==> u.role == Volunteer && PresenceOf(u) == Busy
    ensures u.role == Volunteer && PresenceOf(u) == Offline ==> Matches(BuildVolunteerFilter(Some("offline"), None), u)
  {
  }

  /** The `offline` filter also selects inactive volunteers that hold a task,
      which the listing then shows as busy. */
  lemma OfflineFilterAdmitsBusy(u: User)
    requires u.role == Volunteer && !u.isActive && u.currentTask.Some?
    ensures Matches(BuildVolunteerFilter(Some("offline"), None), u)
    ensures PresenceOf(u) == Busy
  {
  }

  // ---------------------------------------------------------------- sorting

  /** `Math.round` of the share of completed tasks, in percent; 0 with no completed task. */
  function ReliabilityScore(u: User): (s: nat)
    ensures s <= 100
    ensures u.completedTasks == 0 ==> s == 0
    ensures u.completedTasks > 0 && u.failedTasks == 0 ==> s == 100
  {
    if u.completedTasks == 0 then 0
    else RoundedPercent(u.completedTasks, u.completedTasks + u.failedTasks)
  }

  /** `Math.round(part / total * 100)` in exact arithmetic: the integer nearest
      to the percentage, halves rounded up. */
  function RoundedPercent(part: nat, total: nat): (r: nat)
    requires 0 < total && part <= total
    ensures 2 * r * total <= 200 * part + total < 2 * (r + 1) * total
    ensures r <= 100
    ensures part == total ==> r == 100
    ensures part == 0 ==> r == 0
  {
    var r := (200 * part + total) / (2 * total);
    RoundingBounds(part, total, r);
    r
  }

  /** The quotient that rounds the percentage lies in [0, 100] and is exact at
      both ends. */
  lemma RoundingBounds(part: nat, total: nat, r: int)
    requires 0 < total && part <= total
    requires r == (200 * part + total) / (2 * total)
    ensures 2 * r * total <= 200 * part + total < 2 * (r + 1) * total
    ensures 0 <= r <= 100
    ensures part == total ==> r == 100
    ensures part == 0 ==> r == 0
  {
    var m, dv := 200 * part + total, 2 * total;
    var rem := m % dv;
    assert m == dv * r + rem && 0 <= rem < dv;
    assert 2 * r * total == dv * r;
    assert 2 * (r + 1) * total == dv * r + dv;
    MulMonotone(dv, 101, r);
    MulMonotone(dv, r, 99);
    MulMonotone(dv, 1, r);
  }

  lemma MulMonotone(c: nat, a: int, b: int)
    ensures a <= b ==> c * a <= c * b
  {
    assert c * b - c * a == c * (b - a);
  }

  function RatingOrZero(u: User): real {
    match u.rating
    case Some(x) => x
    case None => 0.0
  }

  /** The listing's sort. `reliability`: highest score first. `distance` with
      coordinates: the store's nearest-first order is kept. Otherwise available
      volunteers first, each group by rating, highest first. */
  function SortVolunteers(vs: seq<User>, sortBy: Option<string>, hasCoordinates: bool): (r: seq<User>)
    ensures multiset(r) == multiset(vs)
    ensures sortBy == Some("reliability") ==>
      forall i, j :: 0 <= i < j < |r| ==> ReliabilityScore(r[i]) >= ReliabilityScore(r[j])
    ensures sortBy == Some("distance") && hasCoordinates ==> r == vs
    ensures sortBy != Some("reliability") && !(sortBy == Some("distance") && hasCoordinates) ==>
      && (forall i, j :: 0 <= i < j < |r| && PresenceOf(r[j]) == Free ==> PresenceOf(r[i]) == Free)
      && (forall i, j :: 0 <= i < j < |r| && (PresenceOf(r[i]) == Free <==> PresenceOf(r[j]) == Free)
            ==> RatingOrZero(r[i]) >= RatingOrZero(r[j]))
  {
    if sortBy == Some("reliability") then
      SortDesc(vs, (u: User) => ReliabilityScore(u) as real)
    else if sortBy == Some("distance") && hasCoordinates then vs
    else DefaultOrder(vs)
  }

  function DefaultOrder(vs: seq<User>): (r: seq<User>)
    ensures multiset(r) == multiset(vs)
    ensures forall i, j :: 0 <= i < j < |r| && PresenceOf(r[j]) == Free ==> PresenceOf(r[i]) == Free
    ensures forall i, j :: 0 <= i < j < |r| && (PresenceOf(r[i]) == Free <==> PresenceOf(r[j]) == Free)
              ==> RatingOrZero(r[i]) >= RatingOrZero(r[j])
  {
    var parts := Partition(vs, (u: User) => PresenceOf(u) == Free);
    var a := SortDesc(parts.0, RatingOrZero);
    var b := SortDesc(parts.1, RatingOrZero);
    SortedKeepsClass(parts.0, a, true);
    SortedKeepsClass(parts.1, b, false);
    ConcatByClass(a, b);
    a + b
  }

  /** Sorting a part whose elements all have (or all lack) the `Free` status
      keeps that property. */
  lemma SortedKeepsClass(part: seq<User>, sorted: seq<User>, free: bool)
    requires forall x :: x in part ==> (PresenceOf(x) == Free) == free
    requires multiset(sorted) == multiset(part)
    ensures forall k :: 0 <= k < |sorted| ==> (PresenceOf(sorted[k]) == Free) == free
  {
    forall k | 0 <= k < |sorted| ensures (PresenceOf(sorted[k]) == Free) == free {
      assert sorted[k] in multiset(sorted);
      assert sorted[k] in part;
    }
  }

  /** Available volunteers sorted by rating, followed by the others sorted by
      rating, is the default order. */
  lemma ConcatByClass(a: seq<User>, b: seq<User>)
    requires forall k :: 0 <= k < |a| ==> PresenceOf(a[k]) == Free
    requires forall k :: 0 <= k < |b| ==> PresenceOf(b[k]) != Free
    requires SortedDesc(a, RatingOrZero) && SortedDesc(b, RatingOrZero)
    ensures forall i, j :: 0 <= i < j < |a + b| && PresenceOf((a + b)[j]) == Free ==> PresenceOf((a + b)[i]) == Free
    ensures forall i, j :: 0 <= i < j < |a + b| && (PresenceOf((a + b)[i]) == Free <==> PresenceOf((a + b)[j]) == Free)
              ==> RatingOrZero((a + b)[i]) >= RatingOrZero((a + b)[j])
  {
    var r := a + b;
    forall i, j | 0 <= i < j < |r| && (PresenceOf(r[i]) == Free <==> PresenceOf(r[j]) == Free)
      ensures RatingOrZero(r[i]) >= RatingOrZero(r[j])
    {
      if j < |a| {
        assert r[i] == a[i] && r[j] == a[j];
      } else if i >= |a| {
        assert r[i] == b[i - |a|] && r[j] == b[j - |a|];
      }
    }
  }

  /** `GET /volunteers` without the proximity condition: each matching
      volunteer once per stored copy, in the order `sortBy` asks for. */
  function GetVolunteers(users: seq<User>, status: Option<string>, available: Option<string>,
                         sortBy: Option<string>, hasCoordinates: bool): (r: seq<User>)
    ensures forall u :: u in r <==> u in users && Matches(BuildVolunteerFilter(status, available), u)
    ensures multiset(r) == multiset(Filter(users, (u: User) => Matches(BuildVolunteerFilter(status, available), u)))
    ensures sortBy == Some("reliability") ==>
      forall i, j :: 0 <= i < j < |r| ==> ReliabilityScore(r[i]) >= ReliabilityScore(r[j])
    ensures sortBy == Some("distance") && hasCoordinates ==>
      r == Filter(users, (u: User) => Matches(BuildVolunteerFilter(status, available), u))
    ensures sortBy != Some("reliability") && !(sortBy == Some("distance") && hasCoordinates) ==>
      && (forall i, j :: 0 <= i < j < |r| && PresenceOf(r[j]) == Free ==> PresenceOf(r[i]) == Free)
      && (forall i, j :: 0 <= i < j < |r| && (PresenceOf(r[i]) == Free <==> PresenceOf(r[j]) == Free)
            ==> RatingOrZero(r[i]) >= RatingOrZero(r[j]))
  {
    var selected := Filter(users, (u: User) => Matches(BuildVolunteerFilter(status, available), u));
    var r := SortVolunteers(selected, sortBy, hasCoordinates);
    SameMembers(r, selected);
    r
  }

  // ---------------------------------------------------------------- assign

  /** An existing volunteer that is active and holds no task. */
  predicate Assignable(volunteer: Option<User>) {
    volunteer.Some? && volunteer.value.role == Volunteer && PresenceOf(volunteer.value) == Free
  }

  datatype Assignment = Assignment(donation: Donation, volunteer: User, notices: seq<Notice>, events: seq<Event>)

  /** `POST /volunteers/:volunteerId/assign-donation` as the handler evidently
      means it, with a schema whose enumeration lists `assigned`. Checked in order: the
      user exists and is a volunteer (404), is active with no current task (400),
      the donation exists (404), is `claimed` (400), and, for an NGO caller only,
      was claimed by the caller (403; a claim with no NGO makes the comparison
      throw: 500). Then the donation gets the volunteer and status `assigned`,
      the volunteer gets the task, and three notifications go to the volunteer,
      the caller and the donor. */
  function AssignIntended(actor: Actor, volunteer: Option<User>, donation: Option<Donation>, donationId: Id,
                          donorName: string, now: Millis): (r: Result<Assignment, HttpError>)
    ensures volunteer.None? || volunteer.value.role != Volunteer ==> r == Failure(NotFound)
    ensures volunteer.Some? && volunteer.value.role == Volunteer && PresenceOf(volunteer.value) != Free
            ==> r == Failure(BadRequest)
    ensures Assignable(volunteer) && donation.None? ==> r == Failure(NotFound)
    ensures Assignable(volunteer) && donation.Some? && donation.value.status != Claimed ==> r == Failure(BadRequest)
    ensures (Assignable(volunteer) && donation.Some? && donation.value.status == Claimed && actor.role == Ngo
             && donation.value.claimedBy.None?) ==> r == Failure(ServerError)
    ensures (Assignable(volunteer) && donation.Some? && donation.value.status == Claimed && actor.role == Ngo
             && donation.value.claimedBy.Some? && donation.value.claimedBy.value != actor.id) ==> r == Failure(Forbidden)
    ensures r.Success? <==>
      && Assignable(volunteer)
      && donation.Some? && donation.value.status == Claimed
      && (actor.role == Ngo ==> donation.value.claimedBy == Some(actor.id))
    ensures r.Success? ==>
      var d, v := donation.value, volunteer.value;
      && r.value.donation == d.(assignedVolunteer := Some(v.id), status := Assigned, updatedAt := now)
      && r.value.volunteer == v.(currentTask := Some(donationId))
      && |r.value.notices| == 3
      && r.value.notices[0].recipient == Some(v.id) && r.value.notices[0].onModel == Some("Task")
      && r.value.notices[1].recipient == Some(actor.id) && r.value.notices[1].kind == SuccessNotice
      && r.value.notices[2].recipient == Some(d.donor)
      && r.value.events == [VolunteerAssigned(d.id, v.id, actor.id)]
  {
    if volunteer.None? || volunteer.value.role != Volunteer then Failure(NotFound)
    else
      var v := volunteer.value;
      if !v.isActive || v.currentTask.Some? then Failure(BadRequest)
      else if donation.None? then Failure(NotFound)
      else
        var d := donation.value;
        if d.status != Claimed then Failure(BadRequest)
        else if actor.role == Ngo && d.claimedBy.None? then Failure(ServerError)
        else if actor.role == Ngo && d.claimedBy.value != actor.id then Failure(Forbidden)
        else
          var saved := DonationController.Save(d, d.(assignedVolunteer := Some(v.id), status := Assigned), now);
          var v' := v.(currentTask := Some(donationId));
          Success(Assignment(
            saved, v',
            [Notice(Some(v.id), "You have been assigned to pick up \"" + d.title + "\" from " + donorName + ".",
                    InfoNotice, Some(d.id), Some("Task")),
             Notice(Some(actor.id), "Volunteer " + v.name + " has been assigned to pick up \"" + d.title + "\".",
                    SuccessNotice, Some(d.id), Some("Donation")),
             Notice(Some(d.donor), "Volunteer " + v.name + " will pick up your donation \"" + d.title + "\".",
                    InfoNotice, Some(d.id), Some("Donation"))],
            [VolunteerAssigned(d.id, v.id, actor.id)]))
  }

  /** `POST /volunteers/:volunteerId/assign-donation` as written: the same
      checks in the same order, but once they pass, the donation's save fails
      the schema's enumeration validator on `assigned`, and the handler answers
      500 before the volunteer, the notifications or the broadcast are touched.
      No assignment succeeds. */
  function Assign(actor: Actor, volunteer: Option<User>, donation: Option<Donation>, donationId: Id,
                  donorName: string, now: Millis): (r: Result<Assignment, HttpError>)
    ensures volunteer.None? || volunteer.value.role != Volunteer ==> r == Failure(NotFound)
    ensures volunteer.Some? && volunteer.value.role == Volunteer && PresenceOf(volunteer.value) != Free
            ==> r == Failure(BadRequest)
    ensures Assignable(volunteer) && donation.None? ==> r == Failure(NotFound)
    ensures Assignable(volunteer) && donation.Some? && donation.value.status != Claimed ==> r == Failure(BadRequest)
    ensures (Assignable(volunteer) && donation.Some? && donation.value.status == Claimed && actor.role == Ngo
             && donation.value.claimedBy.None?) ==> r == Failure(ServerError)
    ensures (Assignable(volunteer) && donation.Some? && donation.value.status == Claimed && actor.role == Ngo
             && donation.value.claimedBy.Some? && donation.value.claimedBy.value != actor.id) ==> r == Failure(Forbidden)
    ensures (Assignable(volunteer) && donation.Some? && donation.value.status == Claimed
             && (actor.role == Ngo ==> donation.value.claimedBy == Some(actor.id))) ==> r == Failure(ServerError)
    ensures !r.Success?
    ensures AssignIntended(actor, volunteer, donation, donationId, donorName, now).Success? ==>
      !InSchemaEnum(AssignIntended(actor, volunteer, donation, donationId, donorName, now).value.donation.status)
  {
    match AssignIntended(actor, volunteer, donation, donationId, donorName, now)
    case Failure(e) => Failure(e)
    case Success(_) => Failure(ServerError)
  }

  /** Every request that passes the checks, the ones the handler exists for,
      is answered 500 with nothing saved, where the intended assignment
      succeeds. */
  lemma AssignRefusedAtSave(actor: Actor, v: User, d: Donation, donationId: Id, donorName: string, now: Millis)
    requires Assignable(Some(v)) && d.status == Claimed
    requires actor.role == Ngo ==> d.claimedBy == Some(actor.id)
    ensures AssignIntended(actor, Some(v), Some(d), donationId, donorName, now).Success?
    ensures Assign(actor, Some(v), Some(d), donationId, donorName, now) == Failure(ServerError)
  {
  }

  /** An assigned volunteer is busy, so a second assignment of the same
      volunteer is refused; the donation is no longer `claimed`, so a second
      assignment of it is refused too. */
  lemma AssignNotRepeatable(actor: Actor, v: User, d: Donation, donationId: Id, donorName: string, now: Millis,
                            other: Actor, otherDonation: Option<Donation>, otherVolunteer: Option<User>, later: Millis)
    requires AssignIntended(actor, Some(v), Some(d), donationId, donorName, now).Success?
    ensures var a := AssignIntended(actor, Some(v), Some(d), donationId, donorName, now).value;
      && PresenceOf(a.volunteer) == Busy
      && AssignIntended(other, Some(a.volunteer), otherDonation, donationId, donorName, later) == Failure(BadRequest)
      && (otherVolunteer.Some? && otherVolunteer.value.role == Volunteer && PresenceOf(otherVolunteer.value) == Free
          ==> AssignIntended(other, otherVolunteer, Some(a.donation), d.id, donorName, later) == Failure(BadRequest))
  {
  }

  /** The status an intended assignment writes, `assigned`, is outside the
      schema's present enumeration, and the volunteer's task list (claimed or
      picked-up donations) does not show the assigned donation. */
  lemma AssignedDropsFromTaskList(actor: Actor, v: User, d: Donation, donationId: Id, donorName: string,
                                  now: Millis, rest: seq<Donation>)
    requires AssignIntended(actor, Some(v), Some(d), donationId, donorName, now).Success?
    ensures var saved := AssignIntended(actor, Some(v), Some(d), donationId, donorName, now).value.donation;
      && !InSchemaEnum(saved.status)
      && saved !in DonationController.VolunteerTasks(rest + [saved], Actor(v.id, Volunteer, v.name))
  {
    var saved := AssignIntended(actor, Some(v), Some(d), donationId, donorName, now).value.donation;
    assert saved.status == Assigned;
    var tasks := DonationController.VolunteerTasks(rest + [saved], Actor(v.id, Volunteer, v.name));
    assert saved !in tasks;
  }

  // ---------------------------------------------------------------- complete

  datatype Completion = Completion(donation: Donation, volunteer: User, notices: seq<Notice>)

  /** The rating after one more completed task, in exact arithmetic:
      `min(5, (rating * (n - 1) + 5) / n)` for the new count `n`. From an unset
      rating the code computes NaN (an undefined factor makes the product NaN,
      and `Math.min` passes NaN on); `None` stands for both, because every
      reader of the rating (`rating || 0`, `rating || 5`) treats NaN like an
      unset value. */
  function NextRating(rating: Option<real>, n: nat): (r: Option<real>)
    requires n >= 1
    ensures rating.None? <==> r.None?
    ensures r.Some? ==> r.value <= 5.0
    ensures rating.Some? && rating.value <= 5.0 && rating.value >= 0.0 ==> 0.0 <= r.value <= 5.0
  {
    match rating
    case None => None
    case Some(x) =>
      var candidate := (x * (n - 1) as real + 5.0) / n as real;
      assert x >= 0.0 ==> candidate >= 0.0;
      Some(if candidate < 5.0 then candidate else 5.0)
  }

  /** `PUT /volunteer/tasks/:taskId/complete` as the handler evidently means
      it, with a schema whose enumeration lists `delivered`. Only a volunteer
      (403) may complete a donation that exists (404) and is assigned to them
      (403; no assignee at all: 500). The requested status is written as is, a
      missing one clearing the field and text naming no status answering 500;
      the `notes` of the body go to a path the donation schema does not have,
      so they are never stored. Only `delivered` counts a completed task, frees
      the volunteer and notifies the claiming NGO. */
  function CompleteTaskIntended(actor: Actor, stored: Option<Donation>, status: Option<string>, notes: Option<string>,
                                self: User, now: Millis): (r: Result<Completion, HttpError>)
    ensures actor.role != Volunteer ==> r == Failure(Forbidden)
    ensures actor.role == Volunteer && stored.None? ==> r == Failure(NotFound)
    ensures actor.role == Volunteer && stored.Some? && stored.value.assignedVolunteer.None? ==> r == Failure(ServerError)
    ensures (actor.role == Volunteer && stored.Some? && stored.value.assignedVolunteer.Some?
             && stored.value.assignedVolunteer.value != actor.id) ==> r == Failure(Forbidden)
    ensures (actor.role == Volunteer && stored.Some? && stored.value.assignedVolunteer == Some(actor.id)
             && DonationController.BodyStatus(status).None?) ==> r == Failure(ServerError)
    ensures r.Success? <==>
      && actor.role == Volunteer && stored.Some? && stored.value.assignedVolunteer == Some(actor.id)
      && DonationController.BodyStatus(status).Some?
    ensures r.Success? ==>
      var st := DonationController.BodyStatus(status).value;
      && StatusName(r.value.donation.status) == status
      && r.value.donation.status == st
      && r.value.donation.(status := stored.value.status, updatedAt := stored.value.updatedAt) == stored.value
      && (st == stored.value.status ==> r.value.donation == stored.value)
      && (st != stored.value.status ==> r.value.donation.updatedAt == now)
    ensures r.Success? && status == Some("delivered") ==>
      && r.value.volunteer.completedTasks == self.completedTasks + 1
      && r.value.volunteer.currentTask.None?
      && r.value.volunteer.failedTasks == self.failedTasks
      && |r.value.notices| == 1
      && r.value.notices[0].recipient == stored.value.claimedBy
      && r.value.notices[0].kind == SuccessNotice
      && r.value.notices[0].relatedId == Some(stored.value.id)
    ensures r.Success? && status != Some("delivered") ==> r.value.volunteer == self && r.value.notices == []
  {
    if actor.role != Volunteer then Failure(Forbidden)
    else match stored
      case None => Failure(NotFound)
      case Some(d) =>
        if d.assignedVolunteer.None? then Failure(ServerError)
        else if d.assignedVolunteer.value != actor.id then Failure(Forbidden)
        else
          match DonationController.BodyStatus(status)
          case None => Failure(ServerError)
          case Some(st) =>
            var saved := DonationController.Save(d, d.(status := st), now);
            if st == Delivered then
              var n := self.completedTasks + 1;
              Success(Completion(
                saved,
                self.(completedTasks := n, currentTask := None, rating := NextRating(self.rating, n)),
                [Notice(d.claimedBy, "Volunteer " + actor.name + " has delivered \"" + d.title + "\" to your location.",
                        SuccessNotice, Some(d.id), Some("Donation"))]))
            else Success(Completion(saved, self, []))
  }

  /** `PUT /volunteer/tasks/:taskId/complete` as written: the same checks, but
      the save refuses `delivered` (and `assigned`) like any status outside the
      schema's enumeration, answering 500 before the volunteer is touched. So
      the delivered branch is never reached: a completion that succeeds writes
      the status and nothing else, and no completion counts a task, frees the
      volunteer or notifies the NGO. */
  function CompleteTask(actor: Actor, stored: Option<Donation>, status: Option<string>, notes: Option<string>,
                        self: User, now: Millis): (r: Result<Completion, HttpError>)
    ensures actor.role != Volunteer ==> r == Failure(Forbidden)
    ensures actor.role == Volunteer && stored.None? ==> r == Failure(NotFound)
    ensures actor.role == Volunteer && stored.Some? && stored.value.assignedVolunteer.None? ==> r == Failure(ServerError)
    ensures (actor.role == Volunteer && stored.Some? && stored.value.assignedVolunteer.Some?
             && stored.value.assignedVolunteer.value != actor.id) ==> r == Failure(Forbidden)
    ensures (actor.role == Volunteer && stored.Some? && stored.value.assignedVolunteer == Some(actor.id)
             && DonationController.RequestedStatus(status).Failure?) ==> r == Failure(ServerError)
    ensures (actor.role == Volunteer && stored.Some? && stored.value.assignedVolunteer == Some(actor.id)
             && status == Some("delivered")) ==> r == Failure(ServerError)
    ensures r.Success? <==>
      && actor.role == Volunteer && stored.Some? && stored.value.assignedVolunteer == Some(actor.id)
      && DonationController.RequestedStatus(status).Success?
    ensures r.Success? ==>
      var st := DonationController.RequestedStatus(status).value;
      && StatusName(r.value.donation.status) == status
      && r.value.donation.status == st
      && r.value.donation.(status := stored.value.status, updatedAt := stored.value.updatedAt) == stored.value
      && (st == stored.value.status ==> r.value.donation == stored.value)
      && (st != stored.value.status ==> r.value.donation.updatedAt == now)
    ensures r.Success? ==> r.value.volunteer == self && r.value.notices == []
  {
    match CompleteTaskIntended(actor, stored, status, notes, self, now)
    case Failure(e) => Failure(e)
    case Success(c) => if InSchemaEnum(c.donation.status) then Success(c) else Failure(ServerError)
  }

  /** The delivery notes change nothing: two completions that differ only in
      their notes have the same outcome. */
  lemma NotesNotStored(actor: Actor, stored: Option<Donation>, status: Option<string>, n1: Option<string>,
                       n2: Option<string>, self: User, now: Millis)
    ensures CompleteTask(actor, stored, status, n1, self, now) == CompleteTask(actor, stored, status, n2, self, now)
  {
  }

  /** A completion without a status clears the donation's status, succeeds
      for the assignee, and counts nothing. */
  lemma MissingStatusCountsNothing(actor: Actor, d: Donation, notes: Option<string>, self: User, now: Millis)
    requires actor.role == Volunteer && d.assignedVolunteer == Some(actor.id)
    ensures var r := CompleteTask(actor, Some(d), None, notes, self, now);
      && r.Success?
      && r.value.donation.status == Unset
      && r.value.volunteer == self && r.value.notices == []
  {
  }

  /** As written, the assignee's `delivered` completion is answered 500 with
      nothing saved or counted, where the intended completion succeeds. */
  lemma DeliveredRefused(actor: Actor, d: Donation, notes: Option<string>, self: User, now: Millis)
    requires actor.role == Volunteer && d.assignedVolunteer == Some(actor.id)
    ensures CompleteTask(actor, Some(d), Some("delivered"), notes, self, now) == Failure(ServerError)
    ensures CompleteTaskIntended(actor, Some(d), Some("delivered"), notes, self, now).Success?
  {
  }

  /** Completing with `delivered` after an intended assignment makes the
      volunteer assignable again. */
  lemma DeliveryFreesVolunteer(actor: Actor, d: Donation, notes: Option<string>, self: User, now: Millis)
    requires self.isActive
    requires CompleteTaskIntended(actor, Some(d), Some("delivered"), notes, self, now).Success?
    ensures PresenceOf(CompleteTaskIntended(actor, Some(d), Some("delivered"), notes, self, now).value.volunteer) == Free
  {
  }

  // ---------------------------------------------------------------- stats

  datatype Stats = Stats(completedDeliveries: nat, inProgress: nat, successRate: nat, rating: real, reliabilityScore: int)

  /** `Math.round` of a non-negative rational. */
  function Round(x: real): int {
    (x + 0.5).Floor
  }

  /** The donations `who` delivered. */
  function DeliveredBy(who: Id): Donation -> bool {
    (d: Donation) => d.assignedVolunteer == Some(who) && d.status == Delivered
  }

  /** The donations `who` holds in progress: assigned or picked up. */
  function InProgressWith(who: Id): Donation -> bool {
    (d: Donation) => d.assignedVolunteer == Some(who) && (d.status == Assigned || d.status == PickedUp)
  }

  /** `GET /volunteer/stats`. Deliveries are the caller's donations with status
      `delivered`; in progress are those `assigned` or `picked_up`. The success
      rate is 0 when there is nothing to divide by. */
  function VolunteerStats(actor: Actor, all: seq<Donation>, self: User): (r: Result<Stats, HttpError>)
    ensures actor.role != Volunteer ==> r == Failure(Forbidden)
    ensures actor.role == Volunteer ==> r.Success?
    ensures r.Success? ==>
      && r.value.completedDeliveries == Count(all, DeliveredBy(actor.id))
      && r.value.inProgress == Count(all, InProgressWith(actor.id))
      && r.value.completedDeliveries + r.value.inProgress <= |all|
      && r.value.successRate <= 100
      && (r.value.completedDeliveries + self.failedTasks == 0 ==> r.value.successRate == 0)
      && (r.value.completedDeliveries > 0 && self.failedTasks == 0 ==> r.value.successRate == 100)
  {
    if actor.role != Volunteer then Failure(Forbidden)
    else
      var delivered := Count(all, DeliveredBy(actor.id));
      var inProgress := Count(all, InProgressWith(actor.id));
      DisjointCounts(all, actor.id);
      var total := delivered + self.failedTasks;
      var rate := if total > 0 then RoundedPercent(delivered, total) else 0;
      var shownRating := match self.rating case Some(x) => x case None => 0.0;
      var weight := match self.rating case Some(x) => (if x != 0.0 then x else 5.0) case None => 5.0;
      Success(Stats(delivered, inProgress, rate, shownRating, Round(rate as real * weight / 5.0)))
  }

  /** No donation is both delivered and in progress, so the two counts
      together never exceed the number of donations. */
  lemma DisjointCounts(all: seq<Donation>, who: Id)
    ensures Count(all, DeliveredBy(who)) + Count(all, InProgressWith(who)) <= |all|
  {
    CountDisjoint(all, DeliveredBy(who), InProgressWith(who));
  }

  /** Under the intended completion, completing an in-progress task with
      `delivered` moves it from the in-progress count to the delivered count
      of the next statistics. */
  lemma DeliveryCounted(actor: Actor, all: seq<Donation>, i: nat, notes: Option<string>, self: User, now: Millis)
    requires actor.role == Volunteer && i < |all|
    requires InProgressWith(actor.id)(all[i])
    ensures var c := CompleteTaskIntended(actor, Some(all[i]), Some("delivered"), notes, self, now);
      && c.Success?
      && var before := VolunteerStats(actor, all, self).value;
         var after := VolunteerStats(actor, all[i := c.value.donation], c.value.volunteer).value;
         && after.completedDeliveries == before.completedDeliveries + 1
         && after.inProgress + 1 == before.inProgress
  {
    var c := CompleteTaskIntended(actor, Some(all[i]), Some("delivered"), notes, self, now);
    var d := c.value.donation;
    assert DeliveredBy(actor.id)(d) && !InProgressWith(actor.id)(d);
    CountUpdate(all, i, d, DeliveredBy(actor.id));
    CountUpdate(all, i, d, InProgressWith(actor.id));
  }
}
