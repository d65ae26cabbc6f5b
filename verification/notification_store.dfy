/**
 The notification store: the list of notifications shown in the feed, the
 unread badge flag and the paging counters, with the eight actions the store
 exposes, each a pure transition from one store state to the next.
 */
module NotificationStore {
  import opened Optional

  /** A notification as the server sends it, plus the follow fields the page fills in. */
  datatype Notification = Notification(
    notificationId: int,
    kind: string,
    subId: Option<int>,
    message: string,
    createdAt: Option<string>,
    isRead: bool,
    followId: Option<int>,
    followStatus: Option<string>)

  datatype Store = Store(
    notifications: seq<Notification>,
    hasUnreadNotifications: bool,
    page: nat,
    size: nat,
    hasMore: bool)

  const Initial: Store := Store([], false, 0, 10, true)

  /** `ns.some(n => n.notification_id === id)` */
  predicate HasId(ns: seq<Notification>, id: int) {
    exists k | 0 <= k < |ns| :: ns[k].notificationId == id
  }

  /** No two notifications of the list share an id (the page uses the id as the React key). */
  ghost predicate UniqueIds(ns: seq<Notification>) {
    forall i, j | 0 <= i < j < |ns| :: ns[i].notificationId != ns[j].notificationId
  }

  /* ---------- list helpers: Array.prototype.filter and map-by-id ---------- */

  /** `ns.filter(keep)`: keeps, in order, the notifications `keep` accepts. */
  function Filter(ns: seq<Notification>, keep: Notification -> bool): seq<Notification> {
    if ns == [] then []
    else (if keep(ns[0]) then [ns[0]] else []) + Filter(ns[1..], keep)
  }

  /** Every element a filter keeps is accepted and comes from the input. */
  lemma {:induction false} FilterKept(ns: seq<Notification>, keep: Notification -> bool)
    ensures |Filter(ns, keep)| <= |ns|
    ensures forall k | 0 <= k < |Filter(ns, keep)| :: keep(Filter(ns, keep)[k]) && Filter(ns, keep)[k] in ns
  {
    if ns != [] {
      FilterKept(ns[1..], keep);
      var head := if keep(ns[0]) then [ns[0]] else [];
      var tail := Filter(ns[1..], keep);
      forall k | 0 <= k < |head + tail| ensures keep((head + tail)[k]) && (head + tail)[k] in ns {
        if k >= |head| {
          assert (head + tail)[k] == tail[k - |head|];
          assert tail[k - |head|] in ns[1..];
        }
      }
    }
  }

  /** Filtering keeps exactly the accepted elements, each as often as it occurred. */
  lemma {:induction false} FilterCount(ns: seq<Notification>, keep: Notification -> bool)
    ensures forall n :: multiset(Filter(ns, keep))[n] == if keep(n) then multiset(ns)[n] else 0
  {
    if ns != [] {
      FilterCount(ns[1..], keep);
      assert ns == [ns[0]] + ns[1..];
      var head := if keep(ns[0]) then [ns[0]] else [];
      assert multiset(Filter(ns, keep)) == multiset(head) + multiset(Filter(ns[1..], keep));
    }
  }

  /** Filtering commutes with concatenation: the kept elements stay in their original relative order. */
  lemma {:induction false} FilterConcat(a: seq<Notification>, b: seq<Notification>, keep: Notification -> bool)
    ensures Filter(a + b, keep) == Filter(a, keep) + Filter(b, keep)
  {
    if a == [] {
      assert a + b == b;
    } else {
      assert (a + b)[1..] == a[1..] + b;
      FilterConcat(a[1..], b, keep);
    }
  }

  /** Filtering with a predicate every element satisfies returns the list itself. */
  lemma {:induction false} FilterKeepsAll(ns: seq<Notification>, keep: Notification -> bool)
    requires forall k | 0 <= k < |ns| :: keep(ns[k])
    ensures Filter(ns, keep) == ns
  {
    if ns != [] {
      FilterKeepsAll(ns[1..], keep);
    }
  }

  /** `ns.map(n => n.notification_id === id ? update(n) : n)` */
  function MapMatching(ns: seq<Notification>, id: int, update: Notification -> Notification): (r: seq<Notification>)
    ensures |r| == |ns|
    ensures forall k | 0 <= k < |ns| :: r[k] == if ns[k].notificationId == id then update(ns[k]) else ns[k]
  {
    if ns == [] then []
    else [if ns[0].notificationId == id then update(ns[0]) else ns[0]] + MapMatching(ns[1..], id, update)
  }

  function IdIsNot(id: int): Notification -> bool {
    (n: Notification) => n.notificationId != id
  }

  function NotIn(existing: seq<Notification>): Notification -> bool {
    (n: Notification) => !HasId(existing, n.notificationId)
  }

  function MarkRead(): Notification -> Notification {
    (n: Notification) => n.(isRead := true)
  }

  function SetFollow(followId: int, followStatus: string): Notification -> Notification {
    (n: Notification) => n.(followId := Some(followId), followStatus := Some(followStatus))
  }

  /* ---------- the eight actions ---------- */

  /**
   `addNotification`: a notification whose id is already listed leaves the whole
   store as it was; otherwise it goes to the front and raises the unread flag.
   */
  function AddNotification(s: Store, n: Notification): (r: Store)
    ensures HasId(s.notifications, n.notificationId) ==> r == s
    ensures !HasId(s.notifications, n.notificationId) ==>
              && |r.notifications| == |s.notifications| + 1
              && r.notifications[0] == n
              && r.notifications[1..] == s.notifications
              && r.hasUnreadNotifications
              && r.(notifications := s.notifications, hasUnreadNotifications := s.hasUnreadNotifications) == s
    ensures HasId(r.notifications, n.notificationId)
  {
    if HasId(s.notifications, n.notificationId) then s
    else s.(notifications := [n] + s.notifications, hasUnreadNotifications := true)
  }

  /**
   `appendNotifications`: the batch's notifications whose ids are not yet
   listed go to the end, in batch order; `hasMore` takes the given value. The
   batch is not checked against itself.
   */
  function AppendNotifications(s: Store, batch: seq<Notification>, hasMore: bool): (r: Store)
    ensures |s.notifications| <= |r.notifications|
    ensures r.notifications[..|s.notifications|] == s.notifications
    ensures forall k | |s.notifications| <= k < |r.notifications| :: !HasId(s.notifications, r.notifications[k].notificationId)
    ensures forall n :: multiset(r.notifications[|s.notifications|..])[n] ==
              if HasId(s.notifications, n.notificationId) then 0 else multiset(batch)[n]
    ensures r.hasMore == hasMore
    ensures r.(notifications := s.notifications, hasMore := s.hasMore) == s
  {
    var added := Filter(batch, NotIn(s.notifications));
    FilterCount(batch, NotIn(s.notifications));
    FilterKept(batch, NotIn(s.notifications));
    assert (s.notifications + added)[|s.notifications|..] == added;
    s.(notifications := s.notifications + added, hasMore := hasMore)
  }

  /** `resetNotifications`: back to the first page; the unread flag and the page size are kept. */
  function ResetNotifications(s: Store): (r: Store)
    ensures r.notifications == [] && r.page == 0 && r.hasMore
    ensures r.hasUnreadNotifications == s.hasUnreadNotifications && r.size == s.size
  {
    s.(notifications := [], page := 0, hasMore := true)
  }

  /** `markNotificationsAsRead`: clears the unread flag and nothing else. */
  function MarkNotificationsAsRead(s: Store): (r: Store)
    ensures !r.hasUnreadNotifications
    ensures r.(hasUnreadNotifications := s.hasUnreadNotifications) == s
  {
    s.(hasUnreadNotifications := false)
  }

  /** `incrementPage`: moves to the next page and changes nothing else. */
  function IncrementPage(s: Store): (r: Store)
    ensures r.page == s.page + 1
    ensures r.(page := s.page) == s
  {
    s.(page := s.page + 1)
  }

  /** `removeNotification`: drops every notification with the id and keeps the others. */
  function RemoveNotification(s: Store, id: int): (r: Store)
    ensures !HasId(r.notifications, id)
    ensures forall n :: multiset(r.notifications)[n] == if n.notificationId == id then 0 else multiset(s.notifications)[n]
    ensures r.(notifications := s.notifications) == s
  {
    FilterCount(s.notifications, IdIsNot(id));
    FilterKept(s.notifications, IdIsNot(id));
    s.(notifications := Filter(s.notifications, IdIsNot(id)))
  }

  /** `markSingleNotificationAsRead`: the notifications with the id become read; nothing else changes. */
  function MarkSingleNotificationAsRead(s: Store, id: int): (r: Store)
    ensures |r.notifications| == |s.notifications|
    ensures forall k | 0 <= k < |s.notifications| ::
              && r.notifications[k].(isRead := s.notifications[k].isRead) == s.notifications[k]
              && r.notifications[k].isRead == (s.notifications[k].isRead || s.notifications[k].notificationId == id)
    ensures r.(notifications := s.notifications) == s
  {
    s.(notifications := MapMatching(s.notifications, id, MarkRead()))
  }

  /** `updateNotificationFollowStatus`: the notifications with the id get the follow id and status; nothing else changes. */
  function UpdateNotificationFollowStatus(s: Store, id: int, followId: int, followStatus: string): (r: Store)
    ensures |r.notifications| == |s.notifications|
    ensures forall k | 0 <= k < |s.notifications| ::
              r.notifications[k].(followId := s.notifications[k].followId, followStatus := s.notifications[k].followStatus)
                == s.notifications[k]
    ensures forall k | 0 <= k < |s.notifications| && s.notifications[k].notificationId == id ::
              r.notifications[k].followId == Some(followId) && r.notifications[k].followStatus == Some(followStatus)
    ensures forall k | 0 <= k < |s.notifications| && s.notifications[k].notificationId != id ::
              r.notifications[k] == s.notifications[k]
    ensures r.(notifications := s.notifications) == s
  {
    s.(notifications := MapMatching(s.notifications, id, SetFollow(followId, followStatus)))
  }

  /* ---------- properties relating the actions ---------- */

  /** Adding a notification twice is the same as adding it once. */
  lemma AddIdempotent(s: Store, n: Notification)
    ensures AddNotification(AddNotification(s, n), n) == AddNotification(s, n)
  {
  }

  /** Adding a fresh notification and then removing its id gives back the list. */
  lemma AddThenRemove(s: Store, n: Notification)
    requires !HasId(s.notifications, n.notificationId)
    ensures RemoveNotification(AddNotification(s, n), n.notificationId).notifications == s.notifications
  {
    var keep := IdIsNot(n.notificationId);
    FilterConcat([n], s.notifications, keep);
    FilterKeepsAll(s.notifications, keep);
  }

  /** Removing an id that is not listed changes nothing. */
  lemma RemoveAbsentIsIdentity(s: Store, id: int)
    requires !HasId(s.notifications, id)
    ensures RemoveNotification(s, id) == s
  {
    FilterKeepsAll(s.notifications, IdIsNot(id));
  }

  /** Removal keeps the relative order of the rest: removing from a concatenation removes from each part. */
  lemma {:induction false} RemoveKeepsOrder(a: seq<Notification>, b: seq<Notification>, s: Store, id: int)
    requires s.notifications == a + b
    ensures RemoveNotification(s, id).notifications ==
              RemoveNotification(s.(notifications := a), id).notifications + RemoveNotification(s.(notifications := b), id).notifications
  {
    FilterConcat(a, b, IdIsNot(id));
  }

  /** The appended part keeps the batch's order: appending a concatenated batch appends each part's new notifications. */
  lemma {:induction false} AppendKeepsBatchOrder(s: Store, b1: seq<Notification>, b2: seq<Notification>, hasMore: bool)
    ensures AppendNotifications(s, b1 + b2, hasMore).notifications ==
              s.notifications + Filter(b1, NotIn(s.notifications)) + Filter(b2, NotIn(s.notifications))
  {
    var keep := NotIn(s.notifications);
    var f1, f2 := Filter(b1, keep), Filter(b2, keep);
    calc {
      AppendNotifications(s, b1 + b2, hasMore).notifications;
      s.notifications + Filter(b1 + b2, keep);
      { FilterConcat(b1, b2, keep); }
      s.notifications + (f1 + f2);
      s.notifications + f1 + f2;
    }
  }

  /** Marking one notification read twice is the same as once. */
  lemma MarkSingleReadIdempotent(s: Store, id: int)
    ensures MarkSingleNotificationAsRead(MarkSingleNotificationAsRead(s, id), id) == MarkSingleNotificationAsRead(s, id)
  {
    var once := MarkSingleNotificationAsRead(s, id);
    var twice := MarkSingleNotificationAsRead(once, id);
    assert twice.notifications == once.notifications;
  }

  /* ---------- the id-uniqueness invariant ---------- */

  lemma AddPreservesUniqueIds(s: Store, n: Notification)
    requires UniqueIds(s.notifications)
    ensures UniqueIds(AddNotification(s, n).notifications)
  {
    var r := AddNotification(s, n);
    if !HasId(s.notifications, n.notificationId) {
      forall i, j | 0 <= i < j < |r.notifications|
        ensures r.notifications[i].notificationId != r.notifications[j].notificationId
      {
        assert r.notifications[j] == s.notifications[j - 1];
        if i > 0 {
          assert r.notifications[i] == s.notifications[i - 1];
        }
      }
    }
  }

  /** A filtered list has no two equal ids if the list had none: filtering keeps a sub-list. */
  lemma {:induction false} FilterPreservesUniqueIds(ns: seq<Notification>, keep: Notification -> bool)
    requires UniqueIds(ns)
    ensures UniqueIds(Filter(ns, keep))
  {
    if ns != [] {
      var tail := Filter(ns[1..], keep);
      assert UniqueIds(ns[1..]) by {
        forall i, j | 0 <= i < j < |ns[1..]| ensures ns[1..][i].notificationId != ns[1..][j].notificationId {
          assert ns[1..][i] == ns[i + 1] && ns[1..][j] == ns[j + 1];
        }
      }
      FilterPreservesUniqueIds(ns[1..], keep);
      if keep(ns[0]) {
        FilterKept(ns[1..], keep);
        forall k | 0 <= k < |tail| ensures tail[k].notificationId != ns[0].notificationId {
          var m :| 0 <= m < |ns[1..]| && ns[1..][m] == tail[k];
          assert ns[m + 1] == tail[k];
        }
        var r := [ns[0]] + tail;
        assert Filter(ns, keep) == r;
        forall i, j | 0 <= i < j < |r| ensures r[i].notificationId != r[j].notificationId {
          assert r[j] == tail[j - 1];
          if i > 0 {
            assert r[i] == tail[i - 1];
          }
        }
      }
    }
  }

  /** Appending a batch whose own ids are distinct keeps the ids distinct. */
  lemma AppendPreservesUniqueIds(s: Store, batch: seq<Notification>, hasMore: bool)
    requires UniqueIds(s.notifications) && UniqueIds(batch)
    ensures UniqueIds(AppendNotifications(s, batch, hasMore).notifications)
  {
    var added := Filter(batch, NotIn(s.notifications));
    FilterPreservesUniqueIds(batch, NotIn(s.notifications));
    FilterKept(batch, NotIn(s.notifications));
    var r := s.notifications + added;
    forall i, j | 0 <= i < j < |r| ensures r[i].notificationId != r[j].notificationId {
      if j >= |s.notifications| {
        assert r[j] == added[j - |s.notifications|];
        assert NotIn(s.notifications)(added[j - |s.notifications|]);
        if i < |s.notifications| {
          assert r[i] == s.notifications[i];
        } else {
          assert r[i] == added[i - |s.notifications|];
        }
      }
    }
  }

  /**
   The batch is not deduplicated against itself: two notifications with one id,
   neither listed yet, are both appended, and the ids are no longer distinct.
   */
  lemma AppendDuplicateBatchBreaksUniqueIds(s: Store, a: Notification, b: Notification, hasMore: bool)
    requires a.notificationId == b.notificationId && !HasId(s.notifications, a.notificationId)
    ensures !UniqueIds(AppendNotifications(s, [a, b], hasMore).notifications)
  {
    var keep := NotIn(s.notifications);
    assert Filter([a, b], keep) == [a, b] by {
      FilterKeepsAll([a, b], keep);
    }
    var r := AppendNotifications(s, [a, b], hasMore).notifications;
    assert r[|s.notifications|] == a && r[|s.notifications| + 1] == b;
  }

  /* ---------- the store as a state machine ---------- */

  datatype Action =
    | Add(notification: Notification)
    | Append(batch: seq<Notification>, hasMore: bool)
    | Reset
    | MarkAllRead
    | NextPage
    | Remove(id: int)
    | MarkOneRead(id: int)
    | UpdateFollowStatus(id: int, followId: int, followStatus: string)

  function Apply(s: Store, a: Action): Store {
    match a
    case Add(n) => AddNotification(s, n)
    case Append(batch, hasMore) => AppendNotifications(s, batch, hasMore)
    case Reset => ResetNotifications(s)
    case MarkAllRead => MarkNotificationsAsRead(s)
    case NextPage => IncrementPage(s)
    case Remove(id) => RemoveNotification(s, id)
    case MarkOneRead(id) => MarkSingleNotificationAsRead(s, id)
    case UpdateFollowStatus(id, followId, followStatus) => UpdateNotificationFollowStatus(s, id, followId, followStatus)
  }

  /** An action that cannot introduce a repeated id: anything but an append of a batch with a repeated id. */
  ghost predicate SafeAction(a: Action) {
    a.Append? ==> UniqueIds(a.batch)
  }

  /** One action keeps the ids distinct, unless it appends a batch that repeats an id. */
  lemma {:induction false} ApplyPreservesUniqueIds(s: Store, a: Action)
    requires UniqueIds(s.notifications) && SafeAction(a)
    ensures UniqueIds(Apply(s, a).notifications)
  {
    match a
    case Add(n) => AddPreservesUniqueIds(s, n);
    case Append(batch, hasMore) => AppendPreservesUniqueIds(s, batch, hasMore);
    case Remove(id) => FilterPreservesUniqueIds(s.notifications, IdIsNot(id));
    case MarkOneRead(id) => {
      var r := Apply(s, a).notifications;
      assert forall k | 0 <= k < |r| :: r[k].notificationId == s.notifications[k].notificationId;
    }
    case UpdateFollowStatus(id, followId, followStatus) => {
      var r := Apply(s, a).notifications;
      assert forall k | 0 <= k < |r| :: r[k].notificationId == s.notifications[k].notificationId;
    }
    case _ =>
  }

  function ApplyAll(s: Store, actions: seq<Action>): Store
    decreases |actions|
  {
    if actions == [] then s else ApplyAll(Apply(s, actions[0]), actions[1..])
  }

  /** From a store with distinct ids, any run of safe actions keeps the notification ids distinct. */
  lemma {:induction false} ApplyAllPreservesUniqueIds(s: Store, actions: seq<Action>)
    requires UniqueIds(s.notifications)
    requires forall k | 0 <= k < |actions| :: SafeAction(actions[k])
    ensures UniqueIds(ApplyAll(s, actions).notifications)
    decreases |actions|
  {
    if actions != [] {
      ApplyPreservesUniqueIds(s, actions[0]);
      assert forall k | 0 <= k < |actions[1..]| :: actions[1..][k] == actions[k + 1];
      ApplyAllPreservesUniqueIds(Apply(s, actions[0]), actions[1..]);
    }
  }

  /** The store opens on the first page, empty, with no unread badge, pages of ten and more to load. */
  lemma InitialStoreState()
    ensures Initial.notifications == [] && !Initial.hasUnreadNotifications
    ensures Initial.page == 0 && Initial.size == 10 && Initial.hasMore
    ensures UniqueIds(Initial.notifications)
  {
  }

  /** From the initial store, any run of safe actions keeps the notification ids distinct. */
  lemma InitialRunKeepsUniqueIds(actions: seq<Action>)
    requires forall k | 0 <= k < |actions| :: SafeAction(actions[k])
    ensures UniqueIds(ApplyAll(Initial, actions).notifications)
  {
    ApplyAllPreservesUniqueIds(Initial, actions);
  }
}
