/** Snapshot selection and naming.

    `get_all_snapshots` keeps, from the folder's listing, the snapshots taken
    of the instance's boot disk; `get_old_snapshots` keeps, from those, the
    ones at least `lifetime` whole days old.  `create_snapshot` names a new
    snapshot after the instance and the local time (`call_time`).

    Timestamps are whole seconds: `createdAt` is the snapshot's creation time
    and `now` the current UTC time, both as integers. */
module Snapshots {
  import opened Base

  /** The fields of a listed snapshot that the tool reads. */
  datatype Snapshot = Snapshot(id: string, name: string, sourceDiskId: string, createdAt: int)

  /** Seconds in a day. */
  const Day := 86400

  /** `snapshot['sourceDiskId'] == boot_disk` */
  function OnDisk(disk: string): Snapshot -> bool
  {
    (s: Snapshot) => s.sourceDiskId == disk
  }

  /** `int((today - created_at).total_seconds()) // 86400`: whole days, floored. */
  function AgeDays(now: int, createdAt: int): int
  {
    (now - createdAt) / Day
  }

  /** `age >= lifetime` */
  function IsOld(now: int, lifetime: int): Snapshot -> bool
  {
    (s: Snapshot) => AgeDays(now, s.createdAt) >= lifetime
  }

  /** The filtering loop of `get_all_snapshots`: the snapshots of `disk`, in
      listing order. */
  method SelectOnDisk(snapshots: seq<Snapshot>, disk: string) returns (result: seq<Snapshot>)
    ensures result == Filter(snapshots, OnDisk(disk))
  {
    result := [];
    for i := 0 to |snapshots|
      invariant result == Filter(snapshots[..i], OnDisk(disk))
    {
      FilterAppend(snapshots[..i], [snapshots[i]], OnDisk(disk));
      assert snapshots[..i + 1] == snapshots[..i] + [snapshots[i]];
      if snapshots[i].sourceDiskId == disk {
        result := result + [snapshots[i]];
      }
    }
    assert snapshots[..|snapshots|] == snapshots;
  }

  /** `get_old_snapshots` after the listing: `None` when the listing is missing
      or empty, otherwise the snapshots old enough, in listing order. */
  method SelectOld(all: Option<seq<Snapshot>>, now: int, lifetime: int) returns (result: Option<seq<Snapshot>>)
    ensures result == None <==> all == None || all.value == []
    ensures result != None ==> result.value == Filter(all.value, IsOld(now, lifetime))
  {
    if all == None || all.value == [] {
      return None;
    }
    var snapshots := all.value;
    var kept: seq<Snapshot> := [];
    for i := 0 to |snapshots|
      invariant kept == Filter(snapshots[..i], IsOld(now, lifetime))
    {
      FilterAppend(snapshots[..i], [snapshots[i]], IsOld(now, lifetime));
      assert snapshots[..i + 1] == snapshots[..i] + [snapshots[i]];
      var age := (now - snapshots[i].createdAt) / Day;
      if age >= lifetime {
        kept := kept + [snapshots[i]];
      }
    }
    assert snapshots[..|snapshots|] == snapshots;
    return Some(kept);
  }

  /** A snapshot is kept by the boot-disk filter exactly as often as it is
      listed if it was taken of that disk, and never otherwise. */
  lemma OnDiskExactly(snapshots: seq<Snapshot>, disk: string, s: Snapshot)
    ensures multiset(Filter(snapshots, OnDisk(disk)))[s] ==
      if s.sourceDiskId == disk then multiset(snapshots)[s] else 0
    ensures s in Filter(snapshots, OnDisk(disk)) <==> s in snapshots && s.sourceDiskId == disk
  {
    FilterCount(snapshots, OnDisk(disk), s);
    FilterMembers(snapshots, OnDisk(disk), s);
  }

  /** The age test in seconds: a snapshot is old exactly when at least
      `lifetime` whole days of seconds have passed since it was taken; the
      boundary is inclusive. */
  lemma OldExactly(now: int, lifetime: int, s: Snapshot)
    ensures IsOld(now, lifetime)(s) <==> now - s.createdAt >= lifetime * Day
  {
    var d := now - s.createdAt;
    assert d == Day * (d / Day) + d % Day && 0 <= d % Day < Day;
    if d >= lifetime * Day {
      assert d / Day >= lifetime;
    } else {
      assert d / Day < lifetime;
    }
  }

  /** A snapshot exactly `lifetime` days old is deleted; one a second younger
      is kept. */
  lemma OldBoundary(now: int, lifetime: int, s: Snapshot)
    ensures s.createdAt == now - lifetime * Day ==> IsOld(now, lifetime)(s)
    ensures s.createdAt == now - lifetime * Day + 1 ==> !IsOld(now, lifetime)(s)
  {
    OldExactly(now, lifetime, s);
  }

  /** The old snapshots of a listing are exactly the listed ones old enough,
      each as often as it is listed. */
  lemma OldExactlyKept(snapshots: seq<Snapshot>, now: int, lifetime: int, s: Snapshot)
    ensures multiset(Filter(snapshots, IsOld(now, lifetime)))[s] ==
      if now - s.createdAt >= lifetime * Day then multiset(snapshots)[s] else 0
  {
    FilterCount(snapshots, IsOld(now, lifetime), s);
    OldExactly(now, lifetime, s);
  }

  type Year = y: int | 1000 <= y <= 9999 witness 1000
  type Month = m: int | 1 <= m <= 12 witness 1
  type MonthDay = d: int | 1 <= d <= 31 witness 1
  type Hour = h: int | 0 <= h < 24
  type Minute = m: int | 0 <= m < 60
  type Second = s: int | 0 <= s < 60

  /** A local date and time, as `datetime.now()` gives it. */
  datatype DateTime = DateTime(year: Year, month: Month, day: MonthDay, hour: Hour, minute: Minute, second: Second)

  /** `strftime('%d-%m-%Y-%H-%M-%S')` */
  function CallTime(t: DateTime): string
  {
    Padded(t.day, 2) + "-" + Padded(t.month, 2) + "-" + Padded(t.year, 4) + "-"
      + Padded(t.hour, 2) + "-" + Padded(t.minute, 2) + "-" + Padded(t.second, 2)
  }

  /** The name `create_snapshot` requests: `{name}-{call_time}`. */
  function SnapshotName(name: string, t: DateTime): string
  {
    name + "-" + CallTime(t)
  }

  predicate AllDigits(s: string)
  {
    forall k | 0 <= k < |s| :: IsDigit(s[k])
  }

  /** Reads a `call_time` stamp back: two-digit day, month, hour, minute and
      second and a four-digit year, separated by dashes. */
  function ParseCallTime(s: string): Option<DateTime>
  {
    if |s| != 19 || s[2] != '-' || s[5] != '-' || s[10] != '-' || s[13] != '-' || s[16] != '-' then None
    else if !(AllDigits(s[0..2]) && AllDigits(s[3..5]) && AllDigits(s[6..10])
              && AllDigits(s[11..13]) && AllDigits(s[14..16]) && AllDigits(s[17..19])) then None
    else
      var day, month, year := Number(s[0..2]), Number(s[3..5]), Number(s[6..10]);
      var hour, minute, second := Number(s[11..13]), Number(s[14..16]), Number(s[17..19]);
      if 1000 <= year <= 9999 && 1 <= month <= 12 && 1 <= day <= 31 && hour < 24 && minute < 60 && second < 60
      then Some(DateTime(year, month, day, hour, minute, second))
      else None
  }

  /** Where the six fields sit in a stamp. */
  lemma StampLayout(day: string, month: string, year: string, hour: string, minute: string, second: string)
    requires |day| == |month| == |hour| == |minute| == |second| == 2 && |year| == 4
    ensures var s := day + "-" + month + "-" + year + "-" + hour + "-" + minute + "-" + second;
      && |s| == 19
      && s[2] == s[5] == s[10] == s[13] == s[16] == '-'
      && s[0..2] == day && s[3..5] == month && s[6..10] == year
      && s[11..13] == hour && s[14..16] == minute && s[17..19] == second
  {
  }

  /** A `call_time` stamp is 19 characters long and reads back as the time it
      was made from, so every field is recoverable from a snapshot's name. */
  lemma CallTimeRoundTrip(t: DateTime)
    ensures |CallTime(t)| == 19
    ensures ParseCallTime(CallTime(t)) == Some(t)
  {
    NumberOfPadded(t.day, 2);
    NumberOfPadded(t.month, 2);
    NumberOfPadded(t.year, 4);
    NumberOfPadded(t.hour, 2);
    NumberOfPadded(t.minute, 2);
    NumberOfPadded(t.second, 2);
    StampLayout(Padded(t.day, 2), Padded(t.month, 2), Padded(t.year, 4),
                Padded(t.hour, 2), Padded(t.minute, 2), Padded(t.second, 2));
  }

  /** A snapshot's name is the instance's name, a dash and the stamp, so both
      can be read back from it. */
  lemma SnapshotNameParts(name: string, t: DateTime)
    ensures var n := SnapshotName(name, t);
      && |n| == |name| + 20
      && n[..|name|] == name
      && n[|name|] == '-'
      && ParseCallTime(n[|name| + 1..]) == Some(t)
  {
    CallTimeRoundTrip(t);
    var n := SnapshotName(name, t);
    assert n[|name| + 1..] == CallTime(t);
  }
}
