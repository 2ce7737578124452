/**
 * Local expiry reminders. The platform's schedule of pending notifications is the
 * `scheduled` sequence of a `Scheduler`; `parse` stands for `new Date(text)`, None being an
 * Invalid Date, and `offset` is the device's offset from UTC in milliseconds.
 */
module NotificationService {
  import opened Wrappers
  import opened Clock
  import JsArray

  /** One pending notification: its title, its body and the instant it fires. */
  datatype Reminder = Reminder(title: string, body: string, fireAt: int)

  /** What the reminder loop reads of a food. */
  datatype FoodDate = FoodDate(name: string, expiryDate: string)

  const ReminderTitle := "\U{23F0} Reminder Makanan"

  function ReminderBody(foodName: string): string {
    foodName + " akan kadaluarsa besok!"
  }

  /**
   * `setDate(getDate() - 1)` then `setHours(9, 0, 0)` on the expiry instant: 09:00:00 local time
   * on the previous calendar day, keeping the expiry's milliseconds.
   */
  function FireTime(expiry: int, offset: int): (t: int)
    ensures LocalDay(t, offset) == LocalDay(expiry, offset) - 1
    ensures LocalTimeOfDay(t, offset) == 9 * MillisPerHour + (expiry + offset) % MillisPerSecond
  {
    var d, ms := LocalDay(expiry, offset), (expiry + offset) % MillisPerSecond;
    NineOnDay(d - 1, ms, offset);
    (d - 1) * MillisPerDay + 9 * MillisPerHour + ms - offset
  }

  /** The instant at nine o'clock and `ms` milliseconds, local time, on local day `day`. */
  lemma NineOnDay(day: int, ms: int, offset: int)
    requires 0 <= ms < MillisPerSecond
    ensures var t := day * MillisPerDay + 9 * MillisPerHour + ms - offset;
            LocalDay(t, offset) == day && LocalTimeOfDay(t, offset) == 9 * MillisPerHour + ms
  {
    var local := day * MillisPerDay + (9 * MillisPerHour + ms);
    assert 0 <= 9 * MillisPerHour + ms < MillisPerDay;
    assert local / MillisPerDay == day && local % MillisPerDay == 9 * MillisPerHour + ms;
  }

  /** So a reminder fires between 15 and 39 hours before the expiry instant. */
  lemma FireTimeBeforeExpiry(expiry: int, offset: int)
    ensures FireTime(expiry, offset) + 15 * MillisPerHour <= expiry < FireTime(expiry, offset) + 39 * MillisPerHour
  {
    var local := expiry + offset;
    LocalSplit(expiry, offset);
    MillisWithinDay(local);
    assert expiry - FireTime(expiry, offset) == MillisPerDay - 9 * MillisPerHour + local % MillisPerDay - local % MillisPerSecond;
  }

  /** The milliseconds past the second (of 1000) never exceed the time past midnight (of 86400000). */
  lemma MillisWithinDay(local: int)
    ensures local % 1000 <= local % 86400000
  {
    var k, r := local / 86400000, local % 86400000;
    var t := r % 1000;
    assert r == 1000 * (r / 1000) + t;
    assert local == 1000 * (86400 * k + r / 1000) + t;
  }

  /**
   * The guard as written: `if (oneDayBefore <= new Date()) return`. An Invalid Date compares
   * false with everything, so an unparseable expiry is not skipped.
   */
  predicate SchedulesAsWritten(expiry: Option<int>, now: int, offset: int) {
    !(expiry.Some? && FireTime(expiry.value, offset) <= now)
  }

  /** An unparseable expiry date passes the guard as written. */
  lemma InvalidDatePassesGuard(now: int, offset: int)
    ensures SchedulesAsWritten(None, now, offset)
  {
  }

  /** The guard as intended: schedule only a valid fire time that is still in the future. */
  predicate Schedules(expiry: Option<int>, now: int, offset: int) {
    expiry.Some? && FireTime(expiry.value, offset) > now
  }

  /** The corrected guard agrees with the written one on every valid date and skips invalid ones. */
  lemma GuardCorrection(expiry: Option<int>, now: int, offset: int)
    ensures expiry.Some? ==> (Schedules(expiry, now, offset) <==> SchedulesAsWritten(expiry, now, offset))
    ensures expiry.None? ==> !Schedules(expiry, now, offset)
    ensures Schedules(expiry, now, offset) ==> FireTime(expiry.value, offset) > now
  {
  }

  /** Whether the loop schedules a reminder for this food. */
  predicate WillFire(food: FoodDate, now: int, offset: int, parse: string -> Option<int>) {
    Schedules(parse(food.expiryDate), now, offset)
  }

  /** The reminder for a food that will fire. */
  function ReminderFor(food: FoodDate, offset: int, parse: string -> Option<int>): (r: Reminder)
    requires parse(food.expiryDate).Some?
    ensures r.title == ReminderTitle && r.body == ReminderBody(food.name)
    ensures r.fireAt + 15 * MillisPerHour <= parse(food.expiryDate).value < r.fireAt + 39 * MillisPerHour
  {
    FireTimeBeforeExpiry(parse(food.expiryDate).value, offset);
    Reminder(ReminderTitle, ReminderBody(food.name), FireTime(parse(food.expiryDate).value, offset))
  }

  /** The foods that get a reminder, in list order. */
  function Firing(foods: seq<FoodDate>, now: int, offset: int, parse: string -> Option<int>): seq<FoodDate> {
    JsArray.Filter(foods, f => WillFire(f, now, offset, parse))
  }

  /** What one run of `scheduleAllReminders` adds: one reminder per firing food, in list order. */
  function Reminders(foods: seq<FoodDate>, now: int, offset: int, parse: string -> Option<int>): (r: seq<Reminder>)
    ensures |r| <= |foods|
    decreases |foods|
  {
    if foods == [] then []
    else
      var last := foods[|foods| - 1];
      Reminders(foods[..|foods| - 1], now, offset, parse)
      + (if WillFire(last, now, offset, parse) then [ReminderFor(last, offset, parse)] else [])
  }

  /** Appending a food adds its reminder at the end when it fires, and nothing otherwise. */
  lemma RemindersSnoc(foods: seq<FoodDate>, food: FoodDate, now: int, offset: int, parse: string -> Option<int>)
    ensures Reminders(foods + [food], now, offset, parse) ==
            Reminders(foods, now, offset, parse)
            + (if WillFire(food, now, offset, parse) then [ReminderFor(food, offset, parse)] else [])
  {
    assert (foods + [food])[..|foods|] == foods;
  }

  /** The reminders are those of the firing foods, one each, in the same order. */
  lemma {:induction false} RemindersFollowFiring(foods: seq<FoodDate>, now: int, offset: int, parse: string -> Option<int>)
    ensures |Reminders(foods, now, offset, parse)| == |Firing(foods, now, offset, parse)|
    ensures forall i :: 0 <= i < |Firing(foods, now, offset, parse)| ==>
              Reminders(foods, now, offset, parse)[i] == ReminderFor(Firing(foods, now, offset, parse)[i], offset, parse)
    decreases |foods|
  {
    if foods != [] {
      var init, last := foods[..|foods| - 1], foods[|foods| - 1];
      assert foods == init + [last];
      RemindersFollowFiring(init, now, offset, parse);
      JsArray.FilterSnoc(init, last, f => WillFire(f, now, offset, parse));
    }
  }

  /** Every scheduled reminder fires after `now` and before its food's expiry. */
  lemma {:induction false} RemindersAreInTheFuture(foods: seq<FoodDate>, now: int, offset: int, parse: string -> Option<int>)
    ensures forall r :: r in Reminders(foods, now, offset, parse) ==> now < r.fireAt && r.title == ReminderTitle
    decreases |foods|
  {
    if foods != [] {
      RemindersAreInTheFuture(foods[..|foods| - 1], now, offset, parse);
    }
  }

  /** The permission request: ask only when not yet granted, alert only when asked and refused. */
  datatype PermissionSteps = PermissionSteps(requested: bool, alerted: bool)

  function RequestNotificationPermission(granted: bool, answer: string): (r: PermissionSteps)
    ensures r.requested <==> !granted
    ensures r.alerted ==> r.requested
    ensures r.alerted <==> !granted && answer != "granted"
  {
    if granted then PermissionSteps(false, false) else PermissionSteps(true, answer != "granted")
  }

  // ---- The loop as written: Invalid Date triggers are submitted, and a rejection ends the run.

  /** What `scheduleNotificationAsync` is handed; the trigger is None for an Invalid Date. */
  datatype Request = Request(title: string, body: string, trigger: Option<int>)

  /** Whether the guard as written lets this food through to the platform. */
  predicate SubmitsAsWritten(food: FoodDate, now: int, offset: int, parse: string -> Option<int>): (b: bool)
    ensures b <==> parse(food.expiryDate).None? || FireTime(parse(food.expiryDate).value, offset) > now
  {
    SchedulesAsWritten(parse(food.expiryDate), now, offset)
  }

  /** The request the code builds for a food: an unparseable expiry date gives an Invalid Date trigger. */
  function RequestFor(food: FoodDate, offset: int, parse: string -> Option<int>): (q: Request)
    ensures q.title == ReminderTitle && q.body == ReminderBody(food.name)
    ensures q.trigger.None? <==> parse(food.expiryDate).None?
    ensures q.trigger.Some? ==> q.trigger.value == FireTime(parse(food.expiryDate).value, offset)
  {
    var trigger := match parse(food.expiryDate)
                   case None => None
                   case Some(expiry) => Some(FireTime(expiry, offset));
    Request(ReminderTitle, ReminderBody(food.name), trigger)
  }

  /** What a run of the loop has done so far: the requests the platform took, and whether one was rejected. */
  datatype Run = Run(accepted: seq<Request>, rejected: bool)

  /**
   * `scheduleAllReminders` as written, with the platform's answer to each request given by
   * `accepts`: the first rejected request throws out of the `await` and ends the loop.
   */
  function RunAsWritten(foods: seq<FoodDate>, now: int, offset: int, parse: string -> Option<int>,
                        accepts: Request -> bool): (r: Run)
    ensures |r.accepted| <= |foods|
    ensures forall i :: 0 <= i < |r.accepted| ==> accepts(r.accepted[i]) && r.accepted[i].title == ReminderTitle
    ensures forall i :: 0 <= i < |r.accepted| && r.accepted[i].trigger.Some? ==> r.accepted[i].trigger.value > now
    decreases |foods|
  {
    if foods == [] then Run([], false)
    else
      var prev := RunAsWritten(foods[..|foods| - 1], now, offset, parse, accepts);
      var food := foods[|foods| - 1];
      if prev.rejected || !SubmitsAsWritten(food, now, offset, parse) then prev
      else if accepts(RequestFor(food, offset, parse)) then Run(prev.accepted + [RequestFor(food, offset, parse)], false)
      else Run(prev.accepted, true)
  }

  /** Appending one food runs one more step of the loop after the run over the others. */
  lemma RunSnoc(foods: seq<FoodDate>, food: FoodDate, now: int, offset: int, parse: string -> Option<int>,
                accepts: Request -> bool)
    ensures var prev := RunAsWritten(foods, now, offset, parse, accepts);
            RunAsWritten(foods + [food], now, offset, parse, accepts) ==
              if prev.rejected || !SubmitsAsWritten(food, now, offset, parse) then prev
              else if accepts(RequestFor(food, offset, parse)) then Run(prev.accepted + [RequestFor(food, offset, parse)], false)
              else Run(prev.accepted, true)
  {
    assert (foods + [food])[..|foods|] == foods;
  }

  /** Once a request is rejected, none of the later foods is submitted: the run stays as it stopped. */
  lemma {:induction false} RejectionEndsTheRun(foods: seq<FoodDate>, k: int, now: int, offset: int,
                                               parse: string -> Option<int>, accepts: Request -> bool)
    requires 0 <= k <= |foods| && RunAsWritten(foods[..k], now, offset, parse, accepts).rejected
    ensures RunAsWritten(foods, now, offset, parse, accepts) == RunAsWritten(foods[..k], now, offset, parse, accepts)
    decreases |foods| - k
  {
    if k < |foods| {
      assert foods[..|foods| - 1][..k] == foods[..k];
      RejectionEndsTheRun(foods[..|foods| - 1], k, now, offset, parse, accepts);
    } else {
      assert foods[..k] == foods;
    }
  }

  /** The discrepancy: a food whose expiry date does not parse is submitted with an Invalid Date trigger. */
  lemma InvalidDateIsSubmitted(food: FoodDate, now: int, offset: int, parse: string -> Option<int>,
                               accepts: Request -> bool)
    requires parse(food.expiryDate).None?
    ensures SubmitsAsWritten(food, now, offset, parse) && RequestFor(food, offset, parse).trigger.None?
    ensures var q := RequestFor(food, offset, parse);
            RunAsWritten([food], now, offset, parse, accepts) == if accepts(q) then Run([q], false) else Run([], true)
  {
    RunSnoc([], food, now, offset, parse, accepts);
    assert [] + [food] == [food];
  }

  /** A reminder as a request to the platform. */
  function AsRequest(r: Reminder): Request {
    Request(r.title, r.body, Some(r.fireAt))
  }

  function AsRequests(rs: seq<Reminder>): (qs: seq<Request>)
    ensures |qs| == |rs| && forall i :: 0 <= i < |rs| ==> qs[i] == AsRequest(rs[i])
  {
    seq(|rs|, i requires 0 <= i < |rs| => AsRequest(rs[i]))
  }

  /**
   * Where every expiry date parses and the platform takes every request, the loop as written
   * submits exactly the reminders of the corrected loop, in order, and never stops early.
   */
  lemma {:induction false} WrittenAgreesOnValidDates(foods: seq<FoodDate>, now: int, offset: int,
                                                     parse: string -> Option<int>, accepts: Request -> bool)
    requires forall i :: 0 <= i < |foods| ==> parse(foods[i].expiryDate).Some?
    requires forall q: Request :: accepts(q)
    ensures RunAsWritten(foods, now, offset, parse, accepts) == Run(AsRequests(Reminders(foods, now, offset, parse)), false)
    decreases |foods|
  {
    if foods != [] {
      var init, food := foods[..|foods| - 1], foods[|foods| - 1];
      assert foods == init + [food];
      WrittenAgreesOnValidDates(init, now, offset, parse, accepts);
      RunSnoc(init, food, now, offset, parse, accepts);
      RemindersSnoc(init, food, now, offset, parse);
      GuardCorrection(parse(food.expiryDate), now, offset);
      var rs := Reminders(init, now, offset, parse);
      if WillFire(food, now, offset, parse) {
        assert AsRequests(rs + [ReminderFor(food, offset, parse)]) == AsRequests(rs) + [RequestFor(food, offset, parse)];
      } else {
        assert rs + [] == rs;
      }
    }
  }

  /** The platform's pending notifications as the code submits them, Invalid Date triggers included. */
  class SchedulerAsWritten {
    var requests: seq<Request>

    constructor ()
      ensures requests == []
    {
      requests := [];
    }

    /** `scheduleFoodReminder` as written: a rejected request is reported, and nothing is added. */
    method ScheduleFoodReminder(food: FoodDate, now: int, offset: int, parse: string -> Option<int>,
                                accepts: Request -> bool) returns (rejected: bool)
      modifies this
      ensures rejected <==> SubmitsAsWritten(food, now, offset, parse) && !accepts(RequestFor(food, offset, parse))
      ensures requests == old(requests)
                          + if SubmitsAsWritten(food, now, offset, parse) && accepts(RequestFor(food, offset, parse))
                            then [RequestFor(food, offset, parse)] else []
    {
      var expiry := parse(food.expiryDate);
      var trigger := if expiry.Some? then Some(FireTime(expiry.value, offset)) else None;
      if trigger.Some? && trigger.value <= now {
        return false;
      }
      var q := Request(ReminderTitle, ReminderBody(food.name), trigger);
      if !accepts(q) {
        return true;
      }
      requests := requests + [q];
      return false;
    }

    /** `scheduleAllReminders` as written: the foods in order, ending at the first rejected request. */
    method ScheduleAllReminders(foods: seq<FoodDate>, now: int, offset: int, parse: string -> Option<int>,
                                accepts: Request -> bool) returns (rejected: bool)
      modifies this
      ensures requests == old(requests) + RunAsWritten(foods, now, offset, parse, accepts).accepted
      ensures rejected == RunAsWritten(foods, now, offset, parse, accepts).rejected
    {
      rejected := false;
      var i := 0;
      while i < |foods| && !rejected
        invariant 0 <= i <= |foods|
        invariant requests == old(requests) + RunAsWritten(foods[..i], now, offset, parse, accepts).accepted
        invariant rejected == RunAsWritten(foods[..i], now, offset, parse, accepts).rejected
      {
        RunSnoc(foods[..i], foods[i], now, offset, parse, accepts);
        assert foods[..i + 1] == foods[..i] + [foods[i]];
        rejected := ScheduleFoodReminder(foods[i], now, offset, parse, accepts);
        i := i + 1;
      }
      if rejected {
        RejectionEndsTheRun(foods, i, now, offset, parse, accepts);
      } else {
        assert foods[..i] == foods;
      }
    }
  }

  /** The platform's schedule of pending notifications. */
  class Scheduler {
    var scheduled: seq<Reminder>

    constructor ()
      ensures scheduled == []
    {
      scheduled := [];
    }

    /** `scheduleFoodReminder`: add the reminder when its fire time is valid and still ahead. */
    method ScheduleFoodReminder(food: FoodDate, now: int, offset: int, parse: string -> Option<int>)
      modifies this
      ensures scheduled == old(scheduled) + if WillFire(food, now, offset, parse) then [ReminderFor(food, offset, parse)] else []
    {
      var expiry := parse(food.expiryDate);
      if expiry.None? || FireTime(expiry.value, offset) <= now {
        return;
      }
      scheduled := scheduled + [Reminder(ReminderTitle, ReminderBody(food.name), FireTime(expiry.value, offset))];
    }

    /** `scheduleAllReminders`: the foods one at a time, in order, with no de-duplication. */
    method ScheduleAllReminders(foods: seq<FoodDate>, now: int, offset: int, parse: string -> Option<int>)
      modifies this
      ensures scheduled == old(scheduled) + Reminders(foods, now, offset, parse)
    {
      for i := 0 to |foods|
        invariant scheduled == old(scheduled) + Reminders(foods[..i], now, offset, parse)
      {
        RemindersSnoc(foods[..i], foods[i], now, offset, parse);
        assert foods[..i + 1] == foods[..i] + [foods[i]];
        ScheduleFoodReminder(foods[i], now, offset, parse);
      }
      assert foods[..|foods|] == foods;
    }

    /** `cancelAllReminders`: nothing stays pending. */
    method CancelAllReminders()
      modifies this
      ensures scheduled == []
    {
      scheduled := [];
    }
  }

  /**
   * Not a routine of the service: a client of `CancelAllReminders` and `ScheduleAllReminders`
   * that checks their contracts compose. Cancelling and then scheduling all reminders, done
   * twice with the same list and the same clock, leaves the same schedule as doing it once.
   */
  method CancelThenScheduleIsRepeatable(s: Scheduler, foods: seq<FoodDate>, now: int, offset: int, parse: string -> Option<int>)
    modifies s
    ensures s.scheduled == Reminders(foods, now, offset, parse)
  {
    s.CancelAllReminders();
    s.ScheduleAllReminders(foods, now, offset, parse);
    var once := s.scheduled;
    s.CancelAllReminders();
    s.ScheduleAllReminders(foods, now, offset, parse);
    assert s.scheduled == once;
  }
}
