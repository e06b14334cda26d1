/** The reading-reminder settings record, its initial value and its setters. */
module ReminderStore {
  import opened Wrappers

  /** The only reminder frequency there is. */
  datatype Frequency = Daily

  /** `reminderTime` is meant as HH:mm but is stored as given. */
  datatype ReminderState = ReminderState(
    enabled: bool,
    reminderTime: string,
    frequency: Frequency,
    lastScheduledAt: Option<string>,
    scheduledNotificationId: Option<string>)

  /** The state before any setter runs: off, at 20:00, daily, nothing scheduled. */
  const Initial := ReminderState(false, "20:00", Daily, None, None)

  /** No reminder is recorded as scheduled exactly when no schedule time is recorded. */
  predicate Consistent(s: ReminderState) {
    s.scheduledNotificationId.Some? <==> s.lastScheduledAt.Some?
  }

  lemma InitialConsistent()
    ensures Consistent(Initial) && !Initial.enabled && Initial.reminderTime == "20:00"
    ensures Initial.lastScheduledAt.None? && Initial.scheduledNotificationId.None?
    ensures Initial.frequency == Daily
  {
  }

  function SetEnabled(s: ReminderState, value: bool): (r: ReminderState)
    ensures r.enabled == value
    ensures r.reminderTime == s.reminderTime && r.frequency == s.frequency
    ensures r.lastScheduledAt == s.lastScheduledAt
    ensures r.scheduledNotificationId == s.scheduledNotificationId
  {
    s.(enabled := value)
  }

  /** Stores the text verbatim: nothing checks that it is a valid HH:mm time. */
  function SetReminderTime(s: ReminderState, time: string): (r: ReminderState)
    ensures r.reminderTime == time
    ensures r.enabled == s.enabled && r.frequency == s.frequency
    ensures r.lastScheduledAt == s.lastScheduledAt
    ensures r.scheduledNotificationId == s.scheduledNotificationId
  {
    s.(reminderTime := time)
  }

  function SetFrequency(s: ReminderState, frequency: Frequency): (r: ReminderState)
    ensures r.frequency == frequency
    ensures r.enabled == s.enabled && r.reminderTime == s.reminderTime
    ensures r.lastScheduledAt == s.lastScheduledAt
    ensures r.scheduledNotificationId == s.scheduledNotificationId
  {
    s.(frequency := frequency)
  }

  function SetLastScheduledAt(s: ReminderState, value: Option<string>): (r: ReminderState)
    ensures r.lastScheduledAt == value
    ensures r.enabled == s.enabled && r.reminderTime == s.reminderTime
    ensures r.frequency == s.frequency
    ensures r.scheduledNotificationId == s.scheduledNotificationId
  {
    s.(lastScheduledAt := value)
  }

  function SetScheduledNotificationId(s: ReminderState, value: Option<string>): (r: ReminderState)
    ensures r.scheduledNotificationId == value
    ensures r.enabled == s.enabled && r.reminderTime == s.reminderTime
    ensures r.frequency == s.frequency && r.lastScheduledAt == s.lastScheduledAt
  {
    s.(scheduledNotificationId := value)
  }

  /** Setters of different fields commute, and a repeated setter keeps the last value. */
  lemma SettersCommute(s: ReminderState, e: bool, id: Option<string>, at: Option<string>)
    ensures SetEnabled(SetScheduledNotificationId(s, id), e)
         == SetScheduledNotificationId(SetEnabled(s, e), id)
    ensures SetLastScheduledAt(SetScheduledNotificationId(s, id), at)
         == SetScheduledNotificationId(SetLastScheduledAt(s, at), id)
    ensures SetEnabled(SetEnabled(s, !e), e) == SetEnabled(s, e)
  {
  }
}
