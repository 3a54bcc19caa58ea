/** The notification handlers: list the caller's notifications, mark one as
    read, and the internal `createNotification` every other handler calls. */
module NotificationStore {
  import opened Wrappers
  import opened Domain
  import opened Seqs

  datatype Notification = Notification(
    id: Id,
    recipient: Option<Id>,
    message: string,
    kind: NoticeType,
    relatedId: Option<Id>,
    onModel: Option<string>,
    read: bool,
    createdAt: Millis)

  /** At most this many notifications are listed. */
  const ListLimit: nat := 20

  /** The arguments of `createNotification` after its defaults apply: an
      omitted type is `info`, an omitted related id and model are null. */
  function WithDefaults(recipient: Option<Id>, message: string, kind: Option<NoticeType>,
                        relatedId: Option<Id>, onModel: Option<string>): (n: Notice)
    ensures kind.None? ==> n.kind == InfoNotice
    ensures kind.Some? ==> n.kind == kind.value
    ensures n.recipient == recipient && n.message == message
    ensures n.relatedId == relatedId && n.onModel == onModel
  {
    Notice(recipient, message, kind.GetOr(InfoNotice), relatedId, onModel)
  }

  /** The stored form of a notice: unread, stamped with the creation time. */
  function Record(n: Notice, id: Id, now: Millis): Notification {
    Notification(id, n.recipient, n.message, n.kind, n.relatedId, n.onModel, false, now)
  }

  /** `createNotification`: stores one unread notification. When the store
      rejects the write (`fails`) the failure is swallowed: the store is left as
      it was and the caller carries on, so a notification never fails the
      handler that triggered it. */
  function CreateNotification(store: seq<Notification>, n: Notice, id: Id, now: Millis, fails: bool)
    : (r: seq<Notification>)
    ensures fails ==> r == store
    ensures !fails ==> |r| == |store| + 1 && r[..|store|] == store
    ensures !fails ==> r[|store|].id == id && r[|store|].recipient == n.recipient && r[|store|].message == n.message
    ensures !fails ==> r[|store|].kind == n.kind && r[|store|].relatedId == n.relatedId && r[|store|].onModel == n.onModel
    ensures !fails ==> !r[|store|].read && r[|store|].createdAt == now
  {
    if fails then store else store + [Record(n, id, now)]
  }

  /** The notifications a fan-out leaves in the store, defined notice by notice
      from the first: the record of each notice whose write went through, in
      the order the notices were sent. */
  function Survivors(notices: seq<Notice>, ids: seq<Id>, failures: seq<bool>, now: Millis): (r: seq<Notification>)
    requires |ids| == |notices| == |failures|
    ensures |r| <= |notices|
    ensures forall i :: 0 <= i < |r| ==> !r[i].read && r[i].createdAt == now
    ensures (forall i :: 0 <= i < |failures| ==> failures[i]) ==> r == []
    ensures (forall i :: 0 <= i < |failures| ==> !failures[i]) ==>
      |r| == |notices| && forall i :: 0 <= i < |r| ==> r[i] == Record(notices[i], ids[i], now)
  {
    if |notices| == 0 then []
    else (if failures[0] then [] else [Record(notices[0], ids[0], now)])
         + Survivors(notices[1..], ids[1..], failures[1..], now)
  }

  /** Sending one more notice extends the survivors by its record, unless its
      write fails. */
  lemma {:induction false} SurvivorsSnoc(notices: seq<Notice>, ids: seq<Id>, failures: seq<bool>, now: Millis, k: nat)
    requires |ids| == |notices| == |failures| && k < |notices|
    ensures Survivors(notices[..k + 1], ids[..k + 1], failures[..k + 1], now)
         == Survivors(notices[..k], ids[..k], failures[..k], now)
            + (if failures[k] then [] else [Record(notices[k], ids[k], now)])
    decreases k
  {
    if k > 0 {
      SurvivorsSnoc(notices[1..], ids[1..], failures[1..], now, k - 1);
      TakeTail(notices, k + 1);
      TakeTail(ids, k + 1);
      TakeTail(failures, k + 1);
      TakeTail(notices, k);
      TakeTail(ids, k);
      TakeTail(failures, k);
    }
  }

  /** The fan-out of one handler: each notice in order, each possibly failing.
      Exactly the notices that did not fail are appended, unread, in order. */
  method DeliverAll(store: seq<Notification>, notices: seq<Notice>, ids: seq<Id>, now: Millis, failures: seq<bool>)
    returns (r: seq<Notification>)
    requires |ids| == |notices| == |failures|
    ensures r == store + Survivors(notices, ids, failures, now)
  {
    r := store;
    var k := 0;
    while k < |notices|
      invariant 0 <= k <= |notices|
      invariant r == store + Survivors(notices[..k], ids[..k], failures[..k], now)
    {
      SurvivorsSnoc(notices, ids, failures, now, k);
      r := CreateNotification(r, notices[k], ids[k], now, failures[k]);
      k := k + 1;
    }
    assert notices[..k] == notices && ids[..k] == ids && failures[..k] == failures;
  }

  /** The notifications addressed to `recipient`. */
  function AddressedTo(recipient: Id): Notification -> bool {
    (n: Notification) => n.recipient == Some(recipient)
  }

  function CreatedKey(n: Notification): real {
    n.createdAt as real
  }

  /** `GET /`: the caller's notifications, newest first, at most twenty; any
      of the caller's notifications left out is no newer than every one
      listed. */
  function List(store: seq<Notification>, caller: Id): (r: seq<Notification>)
    ensures |r| <= ListLimit
    ensures forall i :: 0 <= i < |r| ==> r[i].recipient == Some(caller) && r[i] in store
    ensures forall i, j :: 0 <= i < j < |r| ==> r[i].createdAt >= r[j].createdAt
    ensures var mine := Count(store, AddressedTo(caller));
            |r| == if mine < ListLimit then mine else ListLimit
    ensures multiset(r) <= multiset(store)
    ensures forall n, i :: n in store && n.recipient == Some(caller) && n !in r && 0 <= i < |r|
              ==> n.createdAt <= r[i].createdAt
  {
    var r := NewestMatching(store, AddressedTo(caller), CreatedKey, ListLimit);
    forall i, j | 0 <= i < j < |r| ensures r[i].createdAt >= r[j].createdAt {
      assert CreatedKey(r[i]) >= CreatedKey(r[j]);
    }
    forall n, i | n in store && n.recipient == Some(caller) && n !in r && 0 <= i < |r|
      ensures n.createdAt <= r[i].createdAt
    {
      assert AddressedTo(caller)(n);
      assert CreatedKey(n) <= CreatedKey(r[i]);
    }
    r
  }

  /** Index of the first notification with the given id. */
  function FindById(store: seq<Notification>, id: Id): (r: Option<nat>)
    ensures r.Some? ==> r.value < |store| && store[r.value].id == id
    ensures r.Some? ==> forall j :: 0 <= j < r.value ==> store[j].id != id
    ensures r.None? ==> forall j :: 0 <= j < |store| ==> store[j].id != id
  {
    if |store| == 0 then None
    else if store[0].id == id then Some(0)
    else match FindById(store[1..], id)
      case None => None
      case Some(k) => Some(k + 1)
  }

  /** `PUT /:id/read`. A missing notification is 404; someone else's is 401
      (one without a recipient makes the comparison throw: 500). Otherwise
      `read` becomes true and nothing else changes. */
  function MarkAsRead(store: seq<Notification>, id: Id, caller: Id)
    : (r: Result<seq<Notification>, HttpError>)
    ensures FindById(store, id).None? ==> r == Failure(NotFound)
    ensures FindById(store, id).Some? && store[FindById(store, id).value].recipient.None?
            ==> r == Failure(ServerError)
    ensures FindById(store, id).Some? && store[FindById(store, id).value].recipient.Some?
            && store[FindById(store, id).value].recipient.value != caller
            ==> r == Failure(Unauthorized)
    ensures FindById(store, id).Some? && store[FindById(store, id).value].recipient == Some(caller)
            ==> r.Success?
    ensures r.Success? ==>
      var i := FindById(store, id).value;
      && store[i].recipient == Some(caller)
      && |r.value| == |store|
      && r.value[i] == store[i].(read := true)
      && forall j :: 0 <= j < |store| && j != i ==> r.value[j] == store[j]
  {
    match FindById(store, id)
    case None => Failure(NotFound)
    case Some(i) =>
      var n := store[i];
      if n.recipient.None? then Failure(ServerError)
      else if n.recipient.value != caller then Failure(Unauthorized)
      else Success(store[i := n.(read := true)])
  }

  /** Marking twice is the same as marking once. */
  lemma MarkAsReadIdempotent(store: seq<Notification>, id: Id, caller: Id)
    requires MarkAsRead(store, id, caller).Success?
    ensures MarkAsRead(MarkAsRead(store, id, caller).value, id, caller)
         == MarkAsRead(store, id, caller)
  {
    var s1 := MarkAsRead(store, id, caller).value;
    var i := FindById(store, id).value;
    assert forall j :: 0 <= j < |s1| ==> s1[j].id == store[j].id;
    assert FindById(s1, id) == Some(i) by {
      FindByIdSameIds(store, s1, id);
    }
    assert s1[i := s1[i].(read := true)] == s1;
  }

  lemma {:induction false} FindByIdSameIds(a: seq<Notification>, b: seq<Notification>, id: Id)
    requires |a| == |b|
    requires forall j :: 0 <= j < |a| ==> a[j].id == b[j].id
    ensures FindById(a, id) == FindById(b, id)
    decreases |a|
  {
    if |a| > 0 && a[0].id != id {
      FindByIdSameIds(a[1..], b[1..], id);
    }
  }
}
