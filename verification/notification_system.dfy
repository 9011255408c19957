/** The module-level notification store of `NotificationSystem`: a list of notifications
    that `addNotification` appends to and `removeNotification` filters, and the listeners
    (one per mounted `useNotifications` hook) that are handed the new list after each
    change. */
module NotificationSystem {
  import opened Wrappers
  import opened Seqs

  datatype NotificationType = Success | Error | Warning | Info

  datatype Notification = Notification(
    id: string, kind: NotificationType, title: string, message: Option<string>, duration: Option<int>)

  /** What a caller hands to `addNotification`: a notification without its id. */
  datatype NotificationDraft = NotificationDraft(
    kind: NotificationType, title: string, message: Option<string>, duration: Option<int>)

  function WithId(d: NotificationDraft, id: string): (n: Notification)
    ensures n.id == id && n.kind == d.kind && n.title == d.title
    ensures n.message == d.message && n.duration == d.duration
  {
    Notification(id, d.kind, d.title, d.message, d.duration)
  }

  /** A listener stands for the `setNotifications` closure of one mounted hook; closures
      are told apart by identity, so a number does here. */
  type Listener = nat

  const DefaultDuration := 5000

  /** The auto-removal decision: a duration of 0 schedules nothing; otherwise the removal
      comes after the duration, or after 5000 ms when there is none. */
  function AutoRemoveDelay(duration: Option<int>): (delay: Option<int>)
    ensures delay == None <==> duration == Some(0)
    ensures duration == None ==> delay == Some(DefaultDuration)
    ensures duration.Some? && duration.value != 0 ==> delay == duration
  {
    match duration
    case None => Some(DefaultDuration)
    case Some(d) => if d == 0 then None else Some(d)
  }

  function IdsOf(ns: seq<Notification>): set<string> {
    set n | n in ns :: n.id
  }

  /** The list left by `removeNotification(id)`. */
  function Without(ns: seq<Notification>, id: string): (r: seq<Notification>)
    ensures forall n :: n in r <==> n in ns && n.id != id
    ensures id !in IdsOf(r)
  {
    var keep := (n: Notification) => n.id != id;
    forall n ensures n in Filter(ns, keep) <==> n in ns && n.id != id {
      FilterMember(ns, keep, n);
    }
    Filter(ns, keep)
  }

  /** What each listener last received after the listeners `ls` are called with
      `current`: `current` for those, the earlier view for the rest. */
  function Delivered(views: map<Listener, seq<Notification>>, ls: seq<Listener>, current: seq<Notification>)
    : (r: map<Listener, seq<Notification>>)
    ensures r.Keys == views.Keys + set l | l in ls
    ensures forall l :: l in ls ==> r[l] == current
    ensures forall l :: l in views && l !in ls ==> r[l] == views[l]
  {
    map l | l in views.Keys + (set l | l in ls) :: if l in ls then current else views[l]
  }

  lemma DeliveredSnoc(views: map<Listener, seq<Notification>>, ls: seq<Listener>, l: Listener, current: seq<Notification>)
    ensures Delivered(views, ls + [l], current) == Delivered(views, ls, current)[l := current]
  {
    var a := Delivered(views, ls + [l], current);
    var b := Delivered(views, ls, current)[l := current];
    assert forall x :: x in ls + [l] <==> x in ls || x == l;
    assert a.Keys == b.Keys;
    assert forall x :: x in a ==> a[x] == b[x];
  }

  class NotificationStore {
    var notifications: seq<Notification>
    var listeners: seq<Listener>
    /** The list each listener's hook currently holds. */
    var views: map<Listener, seq<Notification>>

    /** Every registered listener has a hook state, and each is registered once. */
    predicate Valid()
      reads this
    {
      Distinct(listeners) && forall l :: l in listeners ==> l in views
    }

    constructor ()
      ensures notifications == [] && listeners == [] && views == map[]
      ensures Valid()
    {
      notifications, listeners, views := [], [], map[];
    }

    /** `listeners.forEach(listener => listener(notifications))`. */
    method Broadcast()
      modifies this`views
      ensures views == Delivered(old(views), listeners, notifications)
    {
      ghost var v0 := views;
      for i := 0 to |listeners|
        invariant views == Delivered(v0, listeners[..i], notifications)
      {
        DeliveredSnoc(v0, listeners[..i], listeners[i], notifications);
        assert listeners[..i + 1] == listeners[..i] + [listeners[i]];
        views := views[listeners[i] := notifications];
      }
      assert listeners[..|listeners|] == listeners;
    }

    /** `addNotification`: appends the notification under the new id `id`, tells every
        listener, and returns the auto-removal delay it schedules (`None`: none). */
    method AddNotification(draft: NotificationDraft, id: string) returns (delay: Option<int>)
      requires Valid()
      modifies this`notifications, this`views
      ensures Valid()
      ensures notifications == old(notifications) + [WithId(draft, id)]
      ensures views == Delivered(old(views), listeners, notifications)
      ensures delay == AutoRemoveDelay(draft.duration)
    {
      notifications := notifications + [WithId(draft, id)];
      Broadcast();
      delay := AutoRemoveDelay(draft.duration);
    }

    /** `removeNotification`: drops every notification with that id and tells every
        listener. */
    method RemoveNotification(id: string)
      requires Valid()
      modifies this`notifications, this`views
      ensures Valid()
      ensures notifications == Without(old(notifications), id)
      ensures views == Delivered(old(views), listeners, notifications)
    {
      notifications := Without(notifications, id);
      Broadcast();
    }

    /** The effect of `useNotifications`: a new hook, whose state starts empty, registers
        its listener. */
    method Subscribe(l: Listener)
      requires Valid() && l !in listeners
      modifies this`listeners, this`views
      ensures Valid()
      ensures listeners == old(listeners) + [l] && views == old(views)[l := []]
    {
      listeners := listeners + [l];
      views := views[l := []];
    }

    /** The effect's clean-up: that listener, and only it, is unregistered. */
    method Unsubscribe(l: Listener)
      requires Valid()
      modifies this`listeners
      ensures Valid()
      ensures listeners == Filter(old(listeners), (x: Listener) => x != l)
      ensures l !in listeners && forall x :: x in old(listeners) && x != l ==> x in listeners
    {
      var keep := (x: Listener) => x != l;
      FilterDistinct(listeners, keep);
      forall x ensures x in Filter(listeners, keep) <==> x in listeners && x != l {
        FilterMember(listeners, keep, x);
      }
      listeners := Filter(listeners, keep);
    }
  }

  /** Removing an id no notification has leaves the list as it was. */
  lemma RemoveUnknown(ns: seq<Notification>, id: string)
    requires id !in IdsOf(ns)
    ensures Without(ns, id) == ns
  {
    FilterAll(ns, (n: Notification) => n.id != id);
  }

  /** Removal keeps the order of what it keeps: removing a suffix's ids leaves the prefix's
      survivors in front. */
  lemma RemoveAppend(a: seq<Notification>, b: seq<Notification>, id: string)
    ensures Without(a + b, id) == Without(a, id) + Without(b, id)
  {
    FilterAppend(a, b, (n: Notification) => n.id != id);
  }

  /** Adding a notification under a new id and then removing it gives back the list. */
  lemma AddThenRemove(ns: seq<Notification>, draft: NotificationDraft, id: string)
    requires id !in IdsOf(ns)
    ensures Without(ns + [WithId(draft, id)], id) == ns
  {
    RemoveAppend(ns, [WithId(draft, id)], id);
    RemoveUnknown(ns, id);
    FilterNone([WithId(draft, id)], (n: Notification) => n.id != id);
  }
}
