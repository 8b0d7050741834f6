/**
 * The digest of `main` in the daily planner: the items due soon are grouped
 * by local due date in a `defaultdict(list)`, the dates are visited in
 * `sorted` order, and within a date the items keep their order.
 */
module PlannerDigest {
  import opened Timestamps
  import opened Sorting
  import opened PlannerCollect
  import opened DueWindow
  import Seqs

  /** The grouping `assignments_by_date[date].append(assignment)` over a list. */
  function Groups(s: seq<Scheduled>): map<int, seq<Scheduled>> {
    if s == [] then map[]
    else
      var g := Groups(s[..|s| - 1]);
      var x := s[|s| - 1];
      g[x.localDate := (if x.localDate in g then g[x.localDate] else []) + [x]]
  }

  /** The distinct dates of `s` in order of first appearance: the key order of the grouping dict. */
  function DatesInOrder(s: seq<Scheduled>): seq<int> {
    if s == [] then []
    else
      var ds := DatesInOrder(s[..|s| - 1]);
      if s[|s| - 1].localDate in ds then ds else ds + [s[|s| - 1].localDate]
  }

  /**
   * The grouping loop of `main`: `groups` is the dict and `order` the order
   * in which its keys were first inserted.
   */
  method GroupByDate(dueSoon: seq<Scheduled>) returns (groups: map<int, seq<Scheduled>>, order: seq<int>)
    ensures groups == Groups(dueSoon) && order == DatesInOrder(dueSoon)
  {
    groups := map[];
    order := [];
    var i := 0;
    while i < |dueSoon|
      invariant 0 <= i <= |dueSoon|
      invariant groups == Groups(dueSoon[..i])
      invariant order == DatesInOrder(dueSoon[..i])
      invariant forall d :: d in order <==> d in groups
    {
      assert dueSoon[..i + 1][..i] == dueSoon[..i];
      var a := dueSoon[i];
      assert dueSoon[..i + 1][i] == a;
      var day := a.localDate;
      if day in groups {
        groups := groups[day := groups[day] + [a]];
      } else {
        assert [] + [a] == [a];
        groups := groups[day := [a]];
        order := order + [day];
      }
      assert groups == Groups(dueSoon[..i + 1]);
      i := i + 1;
    }
    assert dueSoon[..|dueSoon|] == dueSoon;
  }

  /** Reference definition: the items of `s` due on local date `d`, in order. */
  function OnDate(s: seq<Scheduled>, d: int): seq<Scheduled> {
    if s == [] then []
    else OnDate(s[..|s| - 1], d) + (if s[|s| - 1].localDate == d then [s[|s| - 1]] else [])
  }

  /** Each group holds exactly the items due that day, in list order; no other date has a group. */
  lemma {:induction false} GroupsOnDate(s: seq<Scheduled>, d: int)
    ensures d in Groups(s) ==> Groups(s)[d] == OnDate(s, d)
    ensures d !in Groups(s) <==> OnDate(s, d) == []
  {
    if s != [] {
      GroupsOnDate(s[..|s| - 1], d);
    }
  }

  predicate Increasing(r: seq<int>) {
    forall i, j :: 0 <= i < j < |r| ==> r[i] < r[j]
  }

  /** The groups of the dates `ds`, one after the other. */
  function Flatten(ds: seq<int>, g: map<int, seq<Scheduled>>): seq<Scheduled>
    requires forall d :: d in ds ==> d in g
  {
    if ds == [] then []
    else
      var last := ds[|ds| - 1];
      assert last in ds;
      Flatten(ds[..|ds| - 1], g) + g[last]
  }

  /** The dict's keys are exactly the dates of the items, each inserted once. */
  lemma {:induction false} GroupKeys(s: seq<Scheduled>)
    ensures forall d :: d in DatesInOrder(s) <==> d in Groups(s)
    ensures forall d :: d in DatesInOrder(s) <==> exists i :: 0 <= i < |s| && s[i].localDate == d
    ensures forall i, j :: 0 <= i < j < |DatesInOrder(s)| ==> DatesInOrder(s)[i] != DatesInOrder(s)[j]
  {
    if s != [] {
      var t := s[..|s| - 1];
      GroupKeys(t);
      forall d ensures d in DatesInOrder(s) <==> exists i :: 0 <= i < |s| && s[i].localDate == d {
        if exists i :: 0 <= i < |t| && t[i].localDate == d {
          var i :| 0 <= i < |t| && t[i].localDate == d;
          assert s[i] == t[i];
        }
        if exists i :: 0 <= i < |s| && s[i].localDate == d {
          var i :| 0 <= i < |s| && s[i].localDate == d;
          if i < |t| {
            assert t[i] == s[i];
          }
        }
      }
    }
  }

  function DateKey(d: int): int {
    d
  }

  /** `sorted(assignments_by_date.keys())`: the key order, sorted by date. */
  function SortedDates(s: seq<Scheduled>): (r: seq<int>)
    ensures forall d :: d in r ==> d in Groups(s)
  {
    var r := SortBy(DatesInOrder(s), DateKey);
    GroupKeys(s);
    assert forall d :: d in r ==> d in multiset(DatesInOrder(s)) by {
      forall d | d in r ensures d in multiset(DatesInOrder(s)) {
        assert d in multiset(r);
      }
    }
    r
  }

  /** The items in the order the digest lists them: dates ascending, each date's group in order. */
  function Digest(s: seq<Scheduled>): seq<Scheduled> {
    Flatten(SortedDates(s), Groups(s))
  }

  predicate DateSorted(s: seq<Scheduled>) {
    forall i, j :: 0 <= i < j < |s| ==> s[i].localDate <= s[j].localDate
  }

  lemma {:induction false} FlattenFrame(ds: seq<int>, g: map<int, seq<Scheduled>>, d: int, v: seq<Scheduled>)
    requires forall e :: e in ds ==> e in g
    requires d !in ds
    ensures Flatten(ds, g[d := v]) == Flatten(ds, g)
  {
    if ds != [] {
      FlattenFrame(ds[..|ds| - 1], g, d, v);
    }
  }

  lemma {:induction false} DatesFacts(s: seq<Scheduled>)
    requires DateSorted(s)
    ensures Increasing(DatesInOrder(s))
    ensures forall d :: d in DatesInOrder(s) <==> d in Groups(s)
    ensures s != [] ==> DatesInOrder(s) != [] && DatesInOrder(s)[|DatesInOrder(s)| - 1] == s[|s| - 1].localDate
  {
    if s != [] {
      var t := s[..|s| - 1];
      var x := s[|s| - 1];
      assert DateSorted(t);
      DatesFacts(t);
      var ds := DatesInOrder(t);
      if t != [] {
        assert t[|t| - 1].localDate <= x.localDate;
      }
    }
  }

  /** What appending one item does to the grouping dict and its key order. */
  lemma GroupsAppend(t: seq<Scheduled>, x: Scheduled)
    ensures DatesInOrder(t + [x]) == (if x.localDate in DatesInOrder(t) then DatesInOrder(t) else DatesInOrder(t) + [x.localDate])
    ensures Groups(t + [x]) == Groups(t)[x.localDate := (if x.localDate in Groups(t) then Groups(t)[x.localDate] else []) + [x]]
  {
    Seqs.FrontOfSnoc(t, x);
    assert (t + [x])[|t|] == x;
  }

  lemma GroupsAppendSame(t: seq<Scheduled>, x: Scheduled)
    requires x.localDate in DatesInOrder(t) && x.localDate in Groups(t)
    ensures DatesInOrder(t + [x]) == DatesInOrder(t)
    ensures Groups(t + [x]) == Groups(t)[x.localDate := Groups(t)[x.localDate] + [x]]
  {
    GroupsAppend(t, x);
  }

  lemma GroupsAppendNew(t: seq<Scheduled>, x: Scheduled)
    requires x.localDate !in DatesInOrder(t) && x.localDate !in Groups(t)
    ensures DatesInOrder(t + [x]) == DatesInOrder(t) + [x.localDate]
    ensures Groups(t + [x]) == Groups(t)[x.localDate := [x]]
  {
    GroupsAppend(t, x);
    assert [] + [x] == [x];
  }

  /** Appending an item due on the last listed date extends that date's group. */
  lemma FlattenSameDate(t: seq<Scheduled>, x: Scheduled)
    requires DateSorted(t + [x])
    requires forall d :: d in DatesInOrder(t) ==> d in Groups(t)
    requires t != [] && Flatten(DatesInOrder(t), Groups(t)) == t
    requires x.localDate in DatesInOrder(t)
    ensures Flatten(DatesInOrder(t + [x]), Groups(t + [x])) == t + [x]
  {
    DateSortedFront(t, x);
    DatesFacts(t);
    var ds, g, d := DatesInOrder(t), Groups(t), x.localDate;
    GroupsAppendSame(t, x);
    LastDate(ds, d);
    FlattenExtend(ds, g, [x]);
  }

  /** Extending the group of the last listed date extends the flattened list by the same items. */
  lemma FlattenExtend(ds: seq<int>, g: map<int, seq<Scheduled>>, v: seq<Scheduled>)
    requires ds != [] && forall e :: e in ds ==> e in g
    requires ds[|ds| - 1] in g && ds[|ds| - 1] !in ds[..|ds| - 1]
    ensures Flatten(ds, g[ds[|ds| - 1] := g[ds[|ds| - 1]] + v]) == Flatten(ds, g) + v
  {
    var d := ds[|ds| - 1];
    var init := ds[..|ds| - 1];
    var g2 := g[d := g[d] + v];
    FlattenLast(ds, g);
    FlattenFrame(init, g, d, g[d] + v);
    FlattenLast(ds, g2);
    var a := Flatten(init, g);
    assert a + (g[d] + v) == (a + g[d]) + v;
  }

  lemma DateSortedFront(t: seq<Scheduled>, x: Scheduled)
    requires DateSorted(t + [x])
    ensures DateSorted(t)
    ensures t != [] ==> t[|t| - 1].localDate <= x.localDate
  {
    forall i, j | 0 <= i < j < |t| ensures t[i].localDate <= t[j].localDate {
      assert (t + [x])[i] == t[i] && (t + [x])[j] == t[j];
    }
    if t != [] {
      assert (t + [x])[|t| - 1] == t[|t| - 1] && (t + [x])[|t|] == x;
    }
  }

  /** In increasing dates, a date no earlier than the last one that is listed is the last one. */
  lemma LastDate(ds: seq<int>, d: int)
    requires Increasing(ds) && d in ds && ds[|ds| - 1] <= d
    ensures d == ds[|ds| - 1] && d !in ds[..|ds| - 1]
  {
    var init := ds[..|ds| - 1];
    forall k | 0 <= k < |init| ensures init[k] < d {
      assert init[k] == ds[k];
    }
  }

  lemma FlattenLast(ds: seq<int>, g: map<int, seq<Scheduled>>)
    requires ds != [] && forall d :: d in ds ==> d in g
    ensures forall d :: d in ds[..|ds| - 1] ==> d in g
    ensures Flatten(ds, g) == Flatten(ds[..|ds| - 1], g) + g[ds[|ds| - 1]]
  {
    forall d | d in ds[..|ds| - 1] ensures d in g {
      var k :| 0 <= k < |ds| - 1 && ds[..|ds| - 1][k] == d;
      assert ds[k] == d;
    }
  }

  /** Appending an item due on a new date appends a group of its own. */
  lemma FlattenNewDate(t: seq<Scheduled>, x: Scheduled)
    requires DateSorted(t + [x])
    requires forall d :: d in DatesInOrder(t) ==> d in Groups(t)
    requires Flatten(DatesInOrder(t), Groups(t)) == t
    requires x.localDate !in DatesInOrder(t)
    ensures Flatten(DatesInOrder(t + [x]), Groups(t + [x])) == t + [x]
  {
    DateSortedFront(t, x);
    DatesFacts(t);
    var ds, g, d := DatesInOrder(t), Groups(t), x.localDate;
    GroupsAppendNew(t, x);
    FlattenFrame(ds, g, d, [x]);
    Seqs.FrontOfSnoc(ds, d);
    FlattenLast(ds + [d], g[d := [x]]);
  }

  /** Listing the groups by their dates in order gives the list back, when it is in date order. */
  lemma {:induction false} FlattenGroups(s: seq<Scheduled>)
    requires DateSorted(s)
    ensures forall d :: d in DatesInOrder(s) ==> d in Groups(s)
    ensures Flatten(DatesInOrder(s), Groups(s)) == s
  {
    DatesFacts(s);
    if s != [] {
      var t := s[..|s| - 1];
      var x := s[|s| - 1];
      assert t + [x] == s;
      assert DateSorted(t);
      FlattenGroups(t);
      if x.localDate in DatesInOrder(t) {
        FlattenSameDate(t, x);
      } else {
        FlattenNewDate(t, x);
      }
    }
  }

  /**
   * When the list is in date order (as the due-soon list is), the digest
   * lists every item exactly once and in list order.
   */
  lemma DigestKeepsOrder(s: seq<Scheduled>)
    requires DateSorted(s)
    ensures Digest(s) == s
  {
    DatesFacts(s);
    FlattenGroups(s);
    assert SortedBy(DatesInOrder(s), DateKey);
    SortIdentity(DatesInOrder(s), DateKey);
  }

  /** The due-soon list is in local-date order, because its instants ascend. */
  lemma DueSoonDateSorted(items: seq<WorkItem>, now: Clock, offset: int)
    ensures DateSorted(DueSoon(items, now, offset))
  {
    var s := DueSoon(items, now, offset);
    DueSoonOrdered(items, now, offset);
    forall i, j | 0 <= i < j < |s| ensures s[i].localDate <= s[j].localDate {
      DueSoonSound(items, now, offset, s[i]);
      DueSoonSound(items, now, offset, s[j]);
      LocalDateMonotone(s[i].due, s[j].due, offset);
    }
  }

  /** The digest lists the due-soon items exactly, in due order. */
  lemma DigestListsDueSoon(items: seq<WorkItem>, now: Clock, offset: int)
    ensures Digest(DueSoon(items, now, offset)) == DueSoon(items, now, offset)
  {
    DueSoonDateSorted(items, now, offset);
    DigestKeepsOrder(DueSoon(items, now, offset));
  }
}
