/**
 * The debug listing of every assignment: each collected record goes to
 * `no_date` when it has no due date, is dropped when its date does not
 * parse, and otherwise, with its parsed instant and local date attached,
 * to `overdue` (due before now), `upcoming` (at most 30 local days ahead)
 * or `future`. Overdue is then sorted latest first and upcoming soonest
 * first. The zone is a fixed offset in seconds.
 */
module DebugBuckets {
  import opened Wrappers
  import opened Text
  import opened Timestamps
  import opened Sorting
  import opened CanvasData
  import Seqs

  /** A collected assignment: its name, `due_at`, course and instance. */
  datatype DebugRecord = DebugRecord(name: Option<string>, dueAt: Option<string>, courseName: string, instanceName: string)

  /** A record with the `due_datetime_parsed` (an instant) and `due_date_parsed` (a local day) attached. */
  datatype Dated = Dated(rec: DebugRecord, due: int, localDate: int)

  datatype Bucket = Overdue | Upcoming | Future | NoDate | Unparsed

  const UpcomingDays: int := 30

  function DueOf(d: Dated): int {
    d.due
  }

  /** The key of `sort(..., reverse=True)`: the latest instant first. */
  function LatestFirst(d: Dated): int {
    -d.due
  }

  /** Where the loop puts one record. */
  function BucketOf(a: DebugRecord, now: Clock, offset: int): (b: Bucket)
    ensures b == NoDate <==> !Truthy(a.dueAt)
    ensures b == Unparsed <==> Truthy(a.dueAt) && ParseInstant(a.dueAt.value).None?
    ensures b == Overdue ==> BeforeNow(ParseInstant(a.dueAt.value).value, now)
    ensures b == Upcoming ==> var due := ParseInstant(a.dueAt.value).value;
              !BeforeNow(due, now) && LocalDate(due, offset) - LocalDate(now.seconds, offset) <= UpcomingDays
    ensures b == Future ==> var due := ParseInstant(a.dueAt.value).value;
              !BeforeNow(due, now) && LocalDate(due, offset) - LocalDate(now.seconds, offset) > UpcomingDays
  {
    if !Truthy(a.dueAt) then NoDate
    else
      match ParseInstant(a.dueAt.value)
      case None => Unparsed
      case Some(due) =>
        if BeforeNow(due, now) then Overdue
        else if LocalDate(due, offset) - LocalDate(now.seconds, offset) <= UpcomingDays then Upcoming
        else Future
  }

  /** The parsed fields attached to a record whose date parses. */
  function DatedOf(a: DebugRecord, offset: int): Dated
    requires Truthy(a.dueAt) && ParseInstant(a.dueAt.value).Some?
  {
    var due := ParseInstant(a.dueAt.value).value;
    Dated(a, due, LocalDate(due, offset))
  }

  /** The records the loop appends to the bucket `b` (one of the three dated ones), in order. */
  function Picks(records: seq<DebugRecord>, b: Bucket, now: Clock, offset: int): seq<Dated>
    requires b == Overdue || b == Upcoming || b == Future
  {
    if records == [] then []
    else
      var a := records[|records| - 1];
      Picks(records[..|records| - 1], b, now, offset)
        + (if BucketOf(a, now, offset) == b then [DatedOf(a, offset)] else [])
  }

  function NoDates(records: seq<DebugRecord>): seq<DebugRecord> {
    if records == [] then []
    else
      var a := records[|records| - 1];
      NoDates(records[..|records| - 1]) + (if !Truthy(a.dueAt) then [a] else [])
  }

  /** The records whose date does not parse; they are reported and kept nowhere. */
  function UnparsedCount(records: seq<DebugRecord>, now: Clock, offset: int): nat {
    if records == [] then 0
    else
      UnparsedCount(records[..|records| - 1], now, offset)
        + (if BucketOf(records[|records| - 1], now, offset) == Unparsed then 1 else 0)
  }

  datatype Buckets = Buckets(overdue: seq<Dated>, upcoming: seq<Dated>, future: seq<Dated>, noDate: seq<DebugRecord>)

  /** The four lists after the loop and the two sorts. */
  function Categorize(records: seq<DebugRecord>, now: Clock, offset: int): Buckets {
    Buckets(
      SortBy(Picks(records, Overdue, now, offset), LatestFirst),
      SortBy(Picks(records, Upcoming, now, offset), DueOf),
      Picks(records, Future, now, offset),
      NoDates(records))
  }

  /** What record `i` adds to each list. */
  lemma CategorizeStep(records: seq<DebugRecord>, i: nat, now: Clock, offset: int)
    requires i < |records|
    ensures forall b :: b == Overdue || b == Upcoming || b == Future ==>
      Picks(records[..i + 1], b, now, offset) == Picks(records[..i], b, now, offset)
        + (if BucketOf(records[i], now, offset) == b then [DatedOf(records[i], offset)] else [])
    ensures NoDates(records[..i + 1]) == NoDates(records[..i]) + (if !Truthy(records[i].dueAt) then [records[i]] else [])
  {
    assert records[..i + 1][..i] == records[..i];
  }

  /** The categorising loop and the two sorts. */
  method CategorizeLoop(records: seq<DebugRecord>, now: Clock, offset: int) returns (b: Buckets)
    ensures b == Categorize(records, now, offset)
  {
    var overdue: seq<Dated> := [];
    var upcoming: seq<Dated> := [];
    var future: seq<Dated> := [];
    var noDate: seq<DebugRecord> := [];
    for i := 0 to |records|
      invariant overdue == Picks(records[..i], Overdue, now, offset)
      invariant upcoming == Picks(records[..i], Upcoming, now, offset)
      invariant future == Picks(records[..i], Future, now, offset)
      invariant noDate == NoDates(records[..i])
    {
      CategorizeStep(records, i, now, offset);
      var a := records[i];
      if !Truthy(a.dueAt) {
        noDate := noDate + [a];
        continue;
      }
      match ParseInstant(a.dueAt.value) {
        case None =>
        case Some(due) =>
          var d := Dated(a, due, LocalDate(due, offset));
          if BeforeNow(due, now) {
            overdue := overdue + [d];
          } else if LocalDate(due, offset) - LocalDate(now.seconds, offset) <= UpcomingDays {
            upcoming := upcoming + [d];
          } else {
            future := future + [d];
          }
      }
    }
    assert records[..|records|] == records;
    overdue := SortBy(overdue, LatestFirst);
    upcoming := SortBy(upcoming, DueOf);
    b := Buckets(overdue, upcoming, future, noDate);
  }

  /**
   * Every record is counted once: the four lists and the dropped records
   * together make up the input, so the summary's bucket counts fall short
   * of the total by the number of unparsable dates.
   */
  lemma {:induction false} BucketCounts(records: seq<DebugRecord>, now: Clock, offset: int)
    ensures |Picks(records, Overdue, now, offset)| + |Picks(records, Upcoming, now, offset)|
            + |Picks(records, Future, now, offset)| + |NoDates(records)| + UnparsedCount(records, now, offset)
            == |records|
  {
    if records != [] {
      BucketCounts(records[..|records| - 1], now, offset);
    }
  }

  lemma SummaryCounts(records: seq<DebugRecord>, now: Clock, offset: int)
    ensures var b := Categorize(records, now, offset);
            |b.overdue| + |b.upcoming| + |b.future| + |b.noDate| == |records| - UnparsedCount(records, now, offset)
  {
    BucketCounts(records, now, offset);
  }

  /** The record `a` goes to bucket `b` as `d`. */
  predicate Lands(a: DebugRecord, b: Bucket, now: Clock, offset: int, d: Dated)
    requires b == Overdue || b == Upcoming || b == Future
  {
    BucketOf(a, now, offset) == b && d == DatedOf(a, offset)
  }

  lemma PicksLast(records: seq<DebugRecord>, b: Bucket, now: Clock, offset: int, d: Dated)
    requires records != []
    requires b == Overdue || b == Upcoming || b == Future
    ensures var a := records[|records| - 1];
            d in Picks(records, b, now, offset) <==>
            d in Picks(records[..|records| - 1], b, now, offset) || (d.rec == a && Lands(a, b, now, offset, d))
  {
  }

  /** A record is in a dated bucket exactly when its date parses and the rule picks that bucket. */
  lemma {:induction false} PicksMembers(records: seq<DebugRecord>, b: Bucket, now: Clock, offset: int, d: Dated)
    requires b == Overdue || b == Upcoming || b == Future
    ensures d in Picks(records, b, now, offset) <==> d.rec in records && Lands(d.rec, b, now, offset, d)
  {
    if records != [] {
      PicksMembers(records[..|records| - 1], b, now, offset, d);
      PicksLast(records, b, now, offset, d);
      Seqs.InFrontOrLast(records, d.rec);
    }
  }

  lemma MultisetMember(s: seq<Dated>, t: seq<Dated>, d: Dated)
    requires multiset(s) == multiset(t)
    ensures d in s <==> d in t
  {
    assert d in s <==> d in multiset(s);
    assert d in t <==> d in multiset(t);
  }

  /**
   * Overdue holds exactly the records due before now, latest first; every
   * record there carries its parsed instant and local date.
   */
  lemma OverdueExactly(records: seq<DebugRecord>, now: Clock, offset: int, d: Dated)
    ensures d in Categorize(records, now, offset).overdue <==>
            d.rec in records && Truthy(d.rec.dueAt) && ParseInstant(d.rec.dueAt.value) == Some(d.due)
            && BeforeNow(d.due, now) && d.localDate == LocalDate(d.due, offset)
  {
    MultisetMember(Categorize(records, now, offset).overdue, Picks(records, Overdue, now, offset), d);
    PicksMembers(records, Overdue, now, offset, d);
  }

  /**
   * Upcoming holds exactly the records due from now on whose local date is at
   * most 30 days after today's; a record there is never due before today.
   */
  lemma UpcomingExactly(records: seq<DebugRecord>, now: Clock, offset: int, d: Dated)
    ensures d in Categorize(records, now, offset).upcoming <==>
            d.rec in records && Truthy(d.rec.dueAt) && ParseInstant(d.rec.dueAt.value) == Some(d.due)
            && !BeforeNow(d.due, now) && d.localDate == LocalDate(d.due, offset)
            && d.localDate - LocalDate(now.seconds, offset) <= UpcomingDays
    ensures d in Categorize(records, now, offset).upcoming ==> 0 <= d.localDate - LocalDate(now.seconds, offset)
  {
    MultisetMember(Categorize(records, now, offset).upcoming, Picks(records, Upcoming, now, offset), d);
    PicksMembers(records, Upcoming, now, offset, d);
    if !BeforeNow(d.due, now) {
      LocalDateMonotone(now.seconds, d.due, offset);
    }
  }

  /** Future holds exactly the records due more than 30 local days ahead. */
  lemma FutureExactly(records: seq<DebugRecord>, now: Clock, offset: int, d: Dated)
    ensures d in Categorize(records, now, offset).future <==>
            d.rec in records && Truthy(d.rec.dueAt) && ParseInstant(d.rec.dueAt.value) == Some(d.due)
            && !BeforeNow(d.due, now) && d.localDate == LocalDate(d.due, offset)
            && d.localDate - LocalDate(now.seconds, offset) > UpcomingDays
  {
    PicksMembers(records, Future, now, offset, d);
  }

  /**
   * Overdue is sorted latest first and upcoming soonest first; records due
   * at the same instant keep their collection order in both.
   */
  lemma BucketOrder(records: seq<DebugRecord>, now: Clock, offset: int)
    ensures var b := Categorize(records, now, offset);
            (forall i, j :: 0 <= i < j < |b.overdue| ==> b.overdue[i].due >= b.overdue[j].due)
            && (forall i, j :: 0 <= i < j < |b.upcoming| ==> b.upcoming[i].due <= b.upcoming[j].due)
    ensures forall k :: WithKey(Categorize(records, now, offset).overdue, LatestFirst, k)
                        == WithKey(Picks(records, Overdue, now, offset), LatestFirst, k)
    ensures forall k :: WithKey(Categorize(records, now, offset).upcoming, DueOf, k)
                        == WithKey(Picks(records, Upcoming, now, offset), DueOf, k)
  {
    var o := Picks(records, Overdue, now, offset);
    var u := Picks(records, Upcoming, now, offset);
    SortSorted(o, LatestFirst);
    SortSorted(u, DueOf);
    forall k ensures WithKey(SortBy(o, LatestFirst), LatestFirst, k) == WithKey(o, LatestFirst, k) {
      SortStable(o, LatestFirst, k);
    }
    forall k ensures WithKey(SortBy(u, DueOf), DueOf, k) == WithKey(u, DueOf, k) {
      SortStable(u, DueOf, k);
    }
  }

  /** The marker of an upcoming line. */
  datatype Marker = Red | Yellow | Green | Blue | White

  /** The `emoji` and `time_str` of an upcoming line. */
  function UpcomingLabel(daysUntil: int): (r: (Marker, string))
    ensures r.0 == Red <==> daysUntil == 0
    ensures r.0 == Yellow <==> daysUntil == 1
    ensures r.0 == Green <==> daysUntil <= 3 && daysUntil != 0 && daysUntil != 1
    ensures r.0 == Blue <==> 3 < daysUntil <= 7
    ensures r.0 == White <==> 7 < daysUntil
  {
    if daysUntil == 0 then (Red, "DUE TODAY")
    else if daysUntil == 1 then (Yellow, "DUE TOMORROW")
    else if daysUntil <= 3 then (Green, "DUE IN " + IntString(daysUntil) + " DAYS")
    else if daysUntil <= 7 then (Blue, "Due in " + IntString(daysUntil) + " days")
    else (White, "Due in " + IntString(daysUntil) + " days")
  }

  function Rank(m: Marker): nat {
    match m
    case Red => 0
    case Yellow => 1
    case Green => 2
    case Blue => 3
    case White => 4
  }

  /** From today on, a later day never gets a more urgent marker. */
  lemma LabelMonotone(a: int, b: int)
    requires 0 <= a <= b
    ensures Rank(UpcomingLabel(a).0) <= Rank(UpcomingLabel(b).0)
  {
  }

  /**
   * Every upcoming record gets a label for a day count between 0 and 30:
   * the negative counts the ladder would also accept never reach it.
   */
  lemma UpcomingLabelRange(records: seq<DebugRecord>, now: Clock, offset: int, d: Dated)
    requires d in Categorize(records, now, offset).upcoming
    ensures 0 <= d.localDate - LocalDate(now.seconds, offset) <= UpcomingDays
    ensures UpcomingLabel(d.localDate - LocalDate(now.seconds, offset)).0 != Green
            || 2 <= d.localDate - LocalDate(now.seconds, offset) <= 3
  {
    UpcomingExactly(records, now, offset, d);
  }

  /**
   * A record due in the second the listing runs is overdue exactly when the
   * clock is past that second, and upcoming otherwise.
   */
  lemma DueThisSecond(a: DebugRecord, now: Clock, offset: int)
    requires Truthy(a.dueAt) && ParseInstant(a.dueAt.value) == Some(now.seconds)
    ensures BucketOf(a, now, offset) == (if now.pastSecond then Overdue else Upcoming)
  {
    SameSecond(now);
  }
}
