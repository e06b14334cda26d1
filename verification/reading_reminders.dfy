/** The reading-reminder hook's scheduling decision as a pure step. The platform check,
    the permission answer, the identifier the scheduler returns and the current time are
    inputs; the notification calls come out as an ordered action list. */
module ReadingReminders {
  import opened Wrappers
  import opened Seqs
  import opened Text
  import opened LinkTypes
  import LinksStore
  import opened ReminderStore

  /** A call the hook makes, in order. `Cancel(None)` is a call that does nothing. */
  datatype Action =
    | AskPermission
    | ConfigureChannel
    | Cancel(id: Option<string>)
    | Schedule(reminderTime: string, body: string)

  predicate Pending(l: Link) {
    l.status != Completed
  }

  /** The reading status of each link, in order. */
  function Statuses(links: seq<Link>): (r: seq<Status>)
    ensures |r| == |links| && forall i :: 0 <= i < |links| ==> r[i] == links[i].status
  {
    seq(|links|, i requires 0 <= i < |links| => links[i].status)
  }

  /** `pendingCount`: the number of links not yet completed, i.e. all links but the
      completed ones. */
  function PendingCount(links: seq<Link>): (n: nat)
    ensures n <= |links|
    ensures n + multiset(Statuses(links))[Completed] == |links|
    ensures n == 0 <==> forall i :: 0 <= i < |links| ==> links[i].status == Completed
  {
    var r := Filter(links, Pending);
    NoneCompletedIff(links);
    PendingPlusCompleted(links);
    |r|
  }

  /** The kept links and the completed ones together are all the links. */
  lemma {:induction false} PendingPlusCompleted(links: seq<Link>)
    ensures |Filter(links, Pending)| + multiset(Statuses(links))[Completed] == |links|
  {
    if |links| > 0 {
      var t := links[1..];
      PendingPlusCompleted(t);
      assert Statuses(links) == [links[0].status] + Statuses(t);
    }
  }

  lemma NoneCompletedIff(links: seq<Link>)
    ensures Filter(links, Pending) == [] <==>
              forall i :: 0 <= i < |links| ==> links[i].status == Completed
  {
    var r := Filter(links, Pending);
    if r != [] {
      assert r[0] in r;
    }
    if r == [] {
      forall i | 0 <= i < |links|
        ensures links[i].status == Completed
      {
        assert links[i] in links;
      }
    }
  }

  /** Adding a link adds one pending link unless it is already completed. */
  lemma PendingAfterAdd(links: seq<Link>, data: LinkPayload, id: string, createdAt: string)
    ensures PendingCount(LinksStore.AddLink(links, data, id, createdAt))
         == PendingCount(links) + (if data.status == Completed then 0 else 1)
  {
    var r := LinksStore.AddLink(links, data, id, createdAt);
    assert r == [r[0]] + links;
    FilterConcat([r[0]], links, Pending);
  }

  /** The notification text. */
  function ReminderBody(pending: nat): (b: string)
    ensures pending == 1 ==> b == "You have 1 link waiting for your attention."
    ensures pending != 1 ==>
              b == "You have " + NatToString(pending) + " links waiting for your attention."
  {
    if pending == 1 then "You have 1 link waiting for your attention."
    else "You have " + NatToString(pending) + " links waiting for your attention."
  }

  /** The count in the body can be read back: bodies for different counts differ. */
  lemma ReminderBodyInjective(m: nat, n: nat)
    requires ReminderBody(m) == ReminderBody(n)
    ensures m == n
  {
    if m != 1 && n != 1 {
      var prefix := "You have ";
      var sm, sn := NatToString(m), NatToString(n);
      assert ReminderBody(m)[|prefix|..|prefix| + |sm|] == sm;
      assert ReminderBody(n)[|prefix|..|prefix| + |sn|] == sn;
      NatToStringInjective(m, n);
    }
  }

  /** `refreshSchedule`: the calls made and the settings left behind. */
  function RefreshSchedule(supported: bool, s: ReminderState, links: seq<Link>,
                           permitted: bool, newId: string, now: string): (r: (seq<Action>, ReminderState))
    // an unsupported platform does nothing
    ensures !supported ==> r == ([], s)
    // off, or nothing to read: cancel and forget the schedule, leave the switch alone
    ensures supported && (!s.enabled || PendingCount(links) == 0) ==>
              r.0 == [Cancel(s.scheduledNotificationId)]
              && r.1 == s.(scheduledNotificationId := None, lastScheduledAt := None)
    // refused permission: switch off and forget the schedule, cancel nothing
    ensures supported && s.enabled && PendingCount(links) > 0 && !permitted ==>
              r.0 == [AskPermission]
              && r.1 == s.(enabled := false, scheduledNotificationId := None, lastScheduledAt := None)
    // otherwise: the old reminder is cancelled before the new one is scheduled
    ensures supported && s.enabled && PendingCount(links) > 0 && permitted ==>
              r.0 == [AskPermission, ConfigureChannel, Cancel(s.scheduledNotificationId),
                      Schedule(s.reminderTime, ReminderBody(PendingCount(links)))]
              && r.1 == s.(scheduledNotificationId := Some(newId), lastScheduledAt := Some(now))
  {
    if !supported then ([], s)
    else
      var pending := PendingCount(links);
      if !s.enabled || pending == 0 then
        var t := SetScheduledNotificationId(s, None);
        ([Cancel(s.scheduledNotificationId)], SetLastScheduledAt(t, None))
      else if !permitted then
        var t := SetEnabled(s, false);
        var u := SetLastScheduledAt(t, None);
        ([AskPermission], SetScheduledNotificationId(u, None))
      else
        var t := SetScheduledNotificationId(s, Some(newId));
        ([AskPermission, ConfigureChannel, Cancel(s.scheduledNotificationId),
          Schedule(s.reminderTime, ReminderBody(pending))],
         SetLastScheduledAt(t, Some(now)))
  }

  /** A refresh keeps the id and the schedule time present or absent together, and a
      recorded reminder implies the switch is on and something is pending. */
  lemma RefreshKeepsConsistent(supported: bool, s: ReminderState, links: seq<Link>,
                               permitted: bool, newId: string, now: string)
    requires Consistent(s)
    ensures var r := RefreshSchedule(supported, s, links, permitted, newId, now).1;
            Consistent(r)
            && (supported && r.scheduledNotificationId.Some? ==>
                  r.enabled && PendingCount(links) > 0)
  {
  }

  /** Every reminder a refresh schedules is preceded by cancelling the one recorded. */
  lemma CancelBeforeSchedule(supported: bool, s: ReminderState, links: seq<Link>,
                             permitted: bool, newId: string, now: string)
    ensures var acts := RefreshSchedule(supported, s, links, permitted, newId, now).0;
            forall k :: 0 <= k < |acts| && acts[k].Schedule? ==>
              exists j :: 0 <= j < k && acts[j] == Cancel(s.scheduledNotificationId)
  {
    var acts := RefreshSchedule(supported, s, links, permitted, newId, now).0;
    if |acts| == 4 {
      assert acts[2] == Cancel(s.scheduledNotificationId);
    }
  }

  /** Two refreshes in a row with permission: the second cancels exactly the reminder the
      first scheduled. */
  lemma SecondRefreshCancelsFirst(s: ReminderState, links: seq<Link>, id1: string,
                                  id2: string, t1: string, t2: string)
    requires s.enabled && PendingCount(links) > 0
    ensures var s1 := RefreshSchedule(true, s, links, true, id1, t1).1;
            RefreshSchedule(true, s1, links, true, id2, t2).0[2] == Cancel(Some(id1))
  {
  }

  /** Every reminder id a refresh forgets has been cancelled by it, except on a refused
      permission: there the recorded id is dropped with no cancel call, so that reminder
      can no longer be cancelled by a later refresh. */
  lemma ForgottenIdsAreCancelled(s: ReminderState, links: seq<Link>, permitted: bool,
                                 newId: string, now: string)
    requires s.scheduledNotificationId.Some?
    ensures var r := RefreshSchedule(true, s, links, permitted, newId, now);
            r.1.scheduledNotificationId != s.scheduledNotificationId ==>
              (Cancel(s.scheduledNotificationId) in r.0 <==> permitted || !s.enabled || PendingCount(links) == 0)
  {
    var r := RefreshSchedule(true, s, links, permitted, newId, now);
    if s.enabled && PendingCount(links) > 0 && permitted {
      assert r.0[2] == Cancel(s.scheduledNotificationId);
    }
  }
}
