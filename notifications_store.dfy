/** The notifications store of the frontend: toasts are appended with a
    time-based id and a display duration, and removed by id. */
module NotificationsStore {
  import opened Common

  datatype Kind = Success | Error | Warning | Info

  datatype Notification = Notification(
    id: string,
    kind: Kind,
    title: string,
    message: Option<string>,
    duration: Option<int>)

  /** The `duration` key of what a caller passes: left out, or given (possibly
      as `undefined`, which still replaces the default). */
  datatype DurationKey = Unspecified | Specified(duration: Option<int>)

  /** What `addNotification` receives: a notification without its id. */
  datatype Draft = Draft(kind: Kind, title: string, message: Option<string>, duration: DurationKey)

  /** A removal `setTimeout` schedules: the id, after `delay` milliseconds. */
  datatype Timer = Timer(id: string, delay: int)

  const DefaultDuration := 5000
  const ErrorDuration := 8000

  /** `{ id, duration: 5000, ...notification }`: the caller's keys win. */
  function WithDefaults(draft: Draft, id: string): (n: Notification)
    ensures n.id == id && n.kind == draft.kind && n.title == draft.title && n.message == draft.message
    ensures draft.duration.Unspecified? ==> n.duration == Some(DefaultDuration)
    ensures draft.duration.Specified? ==> n.duration == draft.duration.duration
  {
    Notification(id, draft.kind, draft.title, draft.message,
                 match draft.duration case Unspecified => Some(DefaultDuration) case Specified(d) => d)
  }

  /** `if (newNotification.duration)`: a duration of 0 or none schedules nothing. */
  predicate Expires(n: Notification)
  {
    n.duration.Some? && n.duration.value != 0
  }

  /** The position of the first notification with this id (`findIndex`). */
  function IndexOfId(ns: seq<Notification>, id: string): (r: Option<nat>)
    ensures r.Some? ==> r.value < |ns| && ns[r.value].id == id
                        && forall j :: 0 <= j < r.value ==> ns[j].id != id
    ensures r.None? ==> forall n :: n in ns ==> n.id != id
  {
    IndexWhere(ns, HasId(id))
  }

  /** The test `findIndex` applies: the notification has this id. */
  function HasId(id: string): Notification -> bool
  {
    (n: Notification) => n.id == id
  }

  /** The list after `splice(index, 1)` at the first notification with the id. */
  function RemoveFirst(ns: seq<Notification>, id: string): seq<Notification>
  {
    match IndexOfId(ns, id)
    case None => ns
    case Some(i) => ns[..i] + ns[i + 1..]
  }

  /** How many notifications carry the id. */
  function CountId(ns: seq<Notification>, id: string): nat
    decreases |ns|
  {
    if ns == [] then 0 else (if ns[0].id == id then 1 else 0) + CountId(ns[1..], id)
  }

  lemma {:induction false} CountIdConcat(a: seq<Notification>, b: seq<Notification>, id: string)
    ensures CountId(a + b, id) == CountId(a, id) + CountId(b, id)
    decreases |a|
  {
    if a == [] {
      assert a + b == b;
    } else {
      CountIdConcat(a[1..], b, id);
      assert (a + b)[0] == a[0] && (a + b)[1..] == a[1..] + b;
    }
  }

  /** Removing takes out exactly one notification with the id when there is
      one, and nothing otherwise. */
  lemma RemoveFirstCounts(ns: seq<Notification>, id: string)
    ensures |RemoveFirst(ns, id)| == if CountId(ns, id) > 0 then |ns| - 1 else |ns|
    ensures CountId(RemoveFirst(ns, id), id) == if CountId(ns, id) > 0 then CountId(ns, id) - 1 else 0
  {
    match IndexOfId(ns, id)
    case None =>
      CountIdAbsent(ns, id);
    case Some(i) =>
      assert ns == ns[..i] + [ns[i]] + ns[i + 1..];
      CountIdConcat(ns[..i] + [ns[i]], ns[i + 1..], id);
      CountIdConcat(ns[..i], [ns[i]], id);
      CountIdConcat(ns[..i], ns[i + 1..], id);
      CountIdAbsent(ns[..i], id);
  }

  lemma {:induction false} CountIdAbsent(ns: seq<Notification>, id: string)
    requires forall n :: n in ns ==> n.id != id
    ensures CountId(ns, id) == 0
    decreases |ns|
  {
    if ns != [] {
      assert ns[0] in ns;
      assert forall n :: n in ns[1..] ==> n in ns;
      CountIdAbsent(ns[1..], id);
    }
  }

  /** Removing keeps the others in their order, and every notification with
      another id stays. */
  lemma RemoveFirstKeepsOthers(ns: seq<Notification>, id: string)
    ensures IsSubsequence(RemoveFirst(ns, id), ns)
    ensures forall n :: n in ns && n.id != id ==> n in RemoveFirst(ns, id)
  {
    match IndexOfId(ns, id)
    case None =>
      SubsequenceOfSelf(ns);
    case Some(i) =>
      WithoutAtIsSubsequence(ns, i);
      forall n | n in ns && n.id != id ensures n in RemoveFirst(ns, id) {
        var k :| 0 <= k < |ns| && ns[k] == n;
        if k < i {
          assert (ns[..i] + ns[i + 1..])[k] == n;
        } else {
          assert (ns[..i] + ns[i + 1..])[k - 1] == n;
        }
      }
  }

  /** Leaving out the entry at `i` gives a sub-list. */
  lemma {:induction false} WithoutAtIsSubsequence(ns: seq<Notification>, i: nat)
    requires i < |ns|
    ensures IsSubsequence(ns[..i] + ns[i + 1..], ns)
    decreases i
  {
    if i == 0 {
      assert ns[..0] + ns[1..] == ns[1..];
      SubsequenceOfSelf(ns[1..]);
      SubsequenceSkip(ns[1..], ns[1..], ns[0]);
      assert [ns[0]] + ns[1..] == ns;
    } else {
      WithoutAtIsSubsequence(ns[1..], i - 1);
      var rest := ns[1..][..i - 1] + ns[1..][i..];
      SubsequenceKeep(rest, ns[1..], ns[0]);
      assert [ns[0]] + rest == ns[..i] + ns[i + 1..];
      assert [ns[0]] + ns[1..] == ns;
    }
  }

  class Store {
    var notifications: seq<Notification>
    /** The removals scheduled with `setTimeout`, in the order they were set. */
    var timers: seq<Timer>

    constructor ()
      ensures notifications == [] && timers == []
    {
      notifications := [];
      timers := [];
    }

    /** `addNotification`: the id is the clock reading in decimal; the
        notification is appended with its defaults and, when it has a
        duration, its removal is scheduled. */
    method AddNotification(draft: Draft, now: nat) returns (id: string)
      modifies this
      ensures id == NatToString(now)
      ensures notifications == old(notifications) + [WithDefaults(draft, id)]
      ensures Expires(WithDefaults(draft, id)) ==>
                timers == old(timers) + [Timer(id, WithDefaults(draft, id).duration.value)]
      ensures !Expires(WithDefaults(draft, id)) ==> timers == old(timers)
    {
      id := NatToString(now);
      var n := WithDefaults(draft, id);
      notifications := notifications + [n];
      if n.duration.Some? && n.duration.value != 0 {
        timers := timers + [Timer(id, n.duration.value)];
      }
    }

    /** `findIndex(n => n.id === id)`, scanning from the front. */
    method FindIndex(id: string) returns (index: int)
      ensures index == (match IndexOfId(notifications, id) case Some(i) => i case None => -1)
    {
      var i := 0;
      while i < |notifications|
        invariant 0 <= i <= |notifications|
        invariant forall j :: 0 <= j < i ==> notifications[j].id != id
      {
        if notifications[i].id == id {
          FirstMatchIsIndex(notifications, HasId(id), i);
          return i;
        }
        i := i + 1;
      }
      index := -1;
    }

    /** `removeNotification`: the first notification with the id is spliced out. */
    method RemoveNotification(id: string)
      modifies this
      ensures notifications == RemoveFirst(old(notifications), id)
      ensures timers == old(timers)
    {
      var index := FindIndex(id);
      if index > -1 {
        notifications := notifications[..index] + notifications[index + 1..];
      }
    }

    /** `success`. */
    method Success(title: string, message: Option<string>, now: nat) returns (id: string)
      modifies this
      ensures id == NatToString(now)
      ensures notifications == old(notifications) + [Notification(id, Kind.Success, title, message, Some(DefaultDuration))]
      ensures timers == old(timers) + [Timer(id, DefaultDuration)]
    {
      id := AddNotification(Draft(Kind.Success, title, message, Unspecified), now);
    }

    /** `error`: shown longer than the others. */
    method Error(title: string, message: Option<string>, now: nat) returns (id: string)
      modifies this
      ensures id == NatToString(now)
      ensures notifications == old(notifications) + [Notification(id, Kind.Error, title, message, Some(ErrorDuration))]
      ensures timers == old(timers) + [Timer(id, ErrorDuration)]
    {
      id := AddNotification(Draft(Kind.Error, title, message, Specified(Some(ErrorDuration))), now);
    }

    /** `warning`. */
    method Warning(title: string, message: Option<string>, now: nat) returns (id: string)
      modifies this
      ensures id == NatToString(now)
      ensures notifications == old(notifications) + [Notification(id, Kind.Warning, title, message, Some(DefaultDuration))]
      ensures timers == old(timers) + [Timer(id, DefaultDuration)]
    {
      id := AddNotification(Draft(Kind.Warning, title, message, Unspecified), now);
    }

    /** `info`. */
    method Info(title: string, message: Option<string>, now: nat) returns (id: string)
      modifies this
      ensures id == NatToString(now)
      ensures notifications == old(notifications) + [Notification(id, Kind.Info, title, message, Some(DefaultDuration))]
      ensures timers == old(timers) + [Timer(id, DefaultDuration)]
    {
      id := AddNotification(Draft(Kind.Info, title, message, Unspecified), now);
    }
  }

  /** A notification added and then removed by its id leaves the list as it
      was, provided no earlier notification shares the id. */
  lemma AddThenRemove(ns: seq<Notification>, draft: Draft, now: nat)
    requires forall n :: n in ns ==> n.id != NatToString(now)
    ensures RemoveFirst(ns + [WithDefaults(draft, NatToString(now))], NatToString(now)) == ns
  {
    var id := NatToString(now);
    var added := ns + [WithDefaults(draft, id)];
    FirstMatchIsIndex(added, HasId(id), |ns|);
    assert added[..|ns|] == ns;
  }

  /** Two notifications added at the same millisecond share an id, and a
      removal by that id takes out only the earlier one. */
  lemma SameMillisecondRemovesEarlier(a: Draft, b: Draft, now: nat)
    ensures var id := NatToString(now);
            RemoveFirst([WithDefaults(a, id), WithDefaults(b, id)], id) == [WithDefaults(b, id)]
  {
    var id := NatToString(now);
    var ns := [WithDefaults(a, id), WithDefaults(b, id)];
    FirstMatchIsIndex(ns, HasId(id), 0);
    assert ns[..0] + ns[1..] == [WithDefaults(b, id)];
  }
}
