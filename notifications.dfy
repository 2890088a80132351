/**
 * `NotificationService`: the paging of a user's notifications and the sweep
 * that writes a watering reminder for every plant whose next watering has
 * passed.  The notification repository is the `created` field of the service
 * object; the paging query is a function given to the read.
 */
module Notifications {
  import opened Wrappers
  import opened Uuids
  import opened Models
  import opened Faults

  const DefaultPageSize := 10

  const GetNotificationsError := "failed to get notifications"
  const FetchDueError := "failed to get plants for watering check"
  const CreateNotificationError := "failed to create watering notification"

  /** The text in front of the plant name in a watering reminder. */
  const ReminderPrefix := "Пора полить ваше растение "
  const ReminderSuffix := "!"

  /** The rows the repository is asked for: skip `offset`, return at most `limit`. */
  datatype Window = Window(offset: int, limit: int)

  /** `NotificationResponse`. */
  datatype NotificationPage = NotificationPage(notifications: seq<Notification>, total: int)

  /** The repository's paged read: the rows of a user in a window, with the user's total, or a failure. */
  type NotificationQuery = (Uuid, Window) -> Option<NotificationPage>

  /** The page and page size after clamping, turned into an offset and a limit. */
  function PageWindow(page: int, pageSize: int): (w: Window)
    ensures w.limit == (if pageSize < 1 then DefaultPageSize else pageSize)
    ensures w.offset == (if page < 1 then 0 else (page - 1) * w.limit)
    ensures w.limit >= 1 && w.offset >= 0
  {
    var p := if page < 1 then 1 else page;
    var size := if pageSize < 1 then DefaultPageSize else pageSize;
    Window((p - 1) * size, size)
  }

  /** `GetUserNotifications`: what the repository returned for the clamped window, or the wrapped failure. */
  function GetUserNotifications(query: NotificationQuery, userId: Uuid, page: int, pageSize: int)
    : (r: Result<NotificationPage, string>)
    ensures r.Ok? <==> query(userId, PageWindow(page, pageSize)).Some?
    ensures r.Ok? ==> r.value == query(userId, PageWindow(page, pageSize)).value
    ensures r.Err? ==> r.error == GetNotificationsError
  {
    match query(userId, PageWindow(page, pageSize))
    case None => Err(GetNotificationsError)
    case Some(found) => Ok(found)
  }

  /** A page number below one reads the first page; a size below one reads ten rows. */
  lemma ClampedPages(page: int, pageSize: int)
    ensures page < 1 ==> PageWindow(page, pageSize) == PageWindow(1, pageSize)
    ensures pageSize < 1 ==> PageWindow(page, pageSize) == PageWindow(page, DefaultPageSize)
  {
  }

  /** Page `p + 1` starts where page `p` ends. */
  lemma NextPageFollows(page: int, pageSize: int)
    requires page >= 1
    ensures PageWindow(page + 1, pageSize).offset
            == PageWindow(page, pageSize).offset + PageWindow(page, pageSize).limit
  {
    var size := PageWindow(page, pageSize).limit;
    calc {
      PageWindow(page + 1, pageSize).offset;
      page * size;
      (page - 1) * size + size;
    }
  }

  /** The page a row position lands on for a page size. */
  function PageOf(row: nat, pageSize: int): (page: int)
    ensures page >= 1
    ensures PageWindow(page, pageSize).offset <= row < PageWindow(page, pageSize).offset + PageWindow(page, pageSize).limit
  {
    var size := PageWindow(1, pageSize).limit;
    var q := row / size;
    assert q * size <= row < q * size + size;
    q + 1
  }

  /** No other page holds that row. */
  lemma PageOfUnique(row: nat, pageSize: int, page: int)
    requires page >= 1
    requires PageWindow(page, pageSize).offset <= row < PageWindow(page, pageSize).offset + PageWindow(page, pageSize).limit
    ensures page == PageOf(row, pageSize)
  {
    var size := PageWindow(1, pageSize).limit;
    OnePageHolds(row, size, page - 1, PageOf(row, pageSize) - 1);
  }

  /** The quotient is the only whole number of pages that brackets the row. */
  lemma OnePageHolds(row: nat, size: int, k: int, q: int)
    requires size >= 1 && k >= 0 && q >= 0
    requires k * size <= row < k * size + size
    requires q * size <= row < q * size + size
    ensures k == q
  {
    if k < q {
      MulMonotone(k + 1, q, size);
    } else if q < k {
      MulMonotone(q + 1, k, size);
    }
  }

  lemma MulMonotone(a: int, b: int, size: int)
    requires 0 <= a <= b && size >= 1
    ensures a * size <= b * size
  {
  }

  /** One row of the watering check: a user's plant, its name, and its next watering time if any. */
  datatype WateringEntry = WateringEntry(
    userId: Uuid,
    plantId: Uuid,
    plantName: string,
    nextWatering: Option<int>)

  /** A plant is due when its next watering is set and strictly before `now`. */
  predicate Due(e: WateringEntry, now: int)
  {
    e.nextWatering.Some? && e.nextWatering.value < now
  }

  /** The watering reminder for one plant. */
  function Reminder(e: WateringEntry): (n: Notification)
    ensures n.userId == e.userId && n.plantId == e.plantId
    ensures n.kind == Watering && !n.isRead
    ensures n.message == ReminderPrefix + e.plantName + ReminderSuffix
  {
    Notification(e.userId, e.plantId, Watering, ReminderPrefix + e.plantName + ReminderSuffix, false)
  }

  /** The reminders a full sweep writes, in the order of the rows. */
  function Reminders(entries: seq<WateringEntry>, now: int): (r: seq<Notification>)
    ensures |r| <= |entries|
    ensures forall k :: 0 <= k < |r| ==> r[k].kind == Watering && !r[k].isRead
    decreases |entries|
  {
    if entries == [] then []
    else
      var last := entries[|entries| - 1];
      Reminders(entries[..|entries| - 1], now) + (if Due(last, now) then [Reminder(last)] else [])
  }

  /** The reminder names its plant: the name reads back from the message. */
  lemma ReminderNamesPlant(e: WateringEntry)
    ensures var m := Reminder(e).message;
            |m| == |ReminderPrefix| + |e.plantName| + 1
            && m[|ReminderPrefix|..|m| - 1] == e.plantName
  {
    var m := Reminder(e).message;
    assert m == (ReminderPrefix + e.plantName) + ReminderSuffix;
    assert m[..|m| - 1] == ReminderPrefix + e.plantName;
  }

  lemma RemindersSnoc(entries: seq<WateringEntry>, e: WateringEntry, now: int)
    ensures Reminders(entries + [e], now) == Reminders(entries, now) + (if Due(e, now) then [Reminder(e)] else [])
  {
    assert (entries + [e])[..|entries|] == entries;
  }

  /** A reminder is written for a row exactly when that row is due. */
  lemma {:induction false} RemindersIff(entries: seq<WateringEntry>, now: int, n: Notification)
    ensures n in Reminders(entries, now) <==> exists e :: e in entries && Due(e, now) && n == Reminder(e)
    decreases |entries|
  {
    if entries != [] {
      var init := entries[..|entries| - 1];
      var last := entries[|entries| - 1];
      RemindersIff(init, now, n);
      assert entries == init + [last];
      if e :| e in entries && Due(e, now) && n == Reminder(e) && e != last {
        assert e in init;
      }
    }
  }

  /** Sweeping one batch of rows and then another writes the reminders of both, in order. */
  lemma {:induction false} RemindersAppend(a: seq<WateringEntry>, b: seq<WateringEntry>, now: int)
    ensures Reminders(a + b, now) == Reminders(a, now) + Reminders(b, now)
    decreases |b|
  {
    if b == [] {
      assert a + b == a;
    } else {
      var init := b[..|b| - 1];
      var last := b[|b| - 1];
      RemindersAppend(a, init, now);
      assert a + b == (a + init) + [last];
      RemindersSnoc(a + init, last, now);
      RemindersSnoc(init, last, now);
      assert init + [last] == b;
    }
  }

  /** A sweep whose write for the due row `i` fails has written the reminders of the rows before `i`, and no more. */
  lemma SweepStopsAt(entries: seq<WateringEntry>, i: nat, now: int, failing: set<nat>)
    requires i < |entries| && Due(entries[i], now)
    requires |Reminders(entries[..i], now)| in failing
    requires forall j :: 0 <= j < |Reminders(entries[..i], now)| ==> j !in failing
    ensures var due := Reminders(entries, now);
            var k := |Reminders(entries[..i], now)|;
            k < |due| && SavedCount(|due|, failing) == k && due[..k] == Reminders(entries[..i], now)
  {
    var before := Reminders(entries[..i], now);
    RemindersSnoc(entries[..i], entries[i], now);
    assert entries[..i + 1] == entries[..i] + [entries[i]];
    RemindersAppend(entries[..i + 1], entries[i + 1..], now);
    assert entries[..i + 1] + entries[i + 1..] == entries;
    var due := Reminders(entries, now);
    assert due == before + [Reminder(entries[i])] + Reminders(entries[i + 1..], now);
    assert due[..|before|] == before;
    StoppedAt(|due|, failing, |before|);
  }

  class NotificationService {
    /** The notifications written so far, oldest first. */
    var created: seq<Notification>

    constructor (created: seq<Notification>)
      ensures this.created == created
    {
      this.created := created;
    }

    /**
     * `CheckAndCreateWateringNotifications`: `rows` is the repository's answer
     * (`None` when it fails) and `failing` numbers the writes that fail.
     * The reminders of the due rows are written in order up to the first
     * failing write.
     */
    method CheckAndCreateWateringNotifications(rows: Option<seq<WateringEntry>>, now: int, failing: set<nat>)
      returns (r: Result<(), string>)
      modifies this`created
      ensures rows.None? ==> r == Err(FetchDueError) && created == old(created)
      ensures rows.Some? ==>
                var due := Reminders(rows.value, now);
                var k := SavedCount(|due|, failing);
                created == old(created) + due[..k]
                && r == (if k == |due| then Ok(()) else Err(CreateNotificationError))
    {
      if rows.None? {
        return Err(FetchDueError);
      }
      var entries := rows.value;
      var i := 0;
      var writes := 0;
      assert entries[..0] == [];
      while i < |entries|
        invariant 0 <= i <= |entries|
        invariant writes == |Reminders(entries[..i], now)|
        invariant created == old(created) + Reminders(entries[..i], now)
        invariant forall j :: 0 <= j < writes ==> j !in failing
      {
        var entry := entries[i];
        assert entries[..i + 1] == entries[..i] + [entry];
        RemindersSnoc(entries[..i], entry, now);
        if entry.nextWatering.Some? && entry.nextWatering.value < now {
          if writes in failing {
            SweepStopsAt(entries, i, now, failing);
            return Err(CreateNotificationError);
          }
          created := created + [Reminder(entry)];
          writes := writes + 1;
        }
        i := i + 1;
      }
      assert entries[..i] == entries;
      assert Reminders(entries, now)[..writes] == Reminders(entries, now);
      return Ok(());
    }
  }
}
