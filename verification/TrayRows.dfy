/**
 * The tray popover's rows: grouped by account under one comparator, with a
 * headline computed apart from the list.
 */
module TrayRows {
  import opened Options
  import opened StableSort

  datatype State = Fresh | Stale | Unknown

  datatype Snapshot = Snapshot(provider: string, accountId: Option<string>, meter: string, value: real)

  datatype Row = Row(provider: string, accountId: Option<string>, meter: string, value: Option<real>, live: bool)

  function ClampPercent(value: real): real {
    if value < 0.0 then 0.0 else if value > 100.0 then 100.0 else value
  }

  function BuildRow(s: Snapshot, state: State): Row {
    Row(s.provider, s.accountId, s.meter, if state.Unknown? then None else Some(ClampPercent(s.value)), state.Fresh?)
  }

  /** What the comparator is given: the locale's order of names, accounts and meters, and each window's cadence. */
  datatype Collation = Collation(name: string -> int, account: string -> int, meter: string -> int,
                                 rank: (string, string) -> int)

  type Key = (string, string)

  function Account(row: Row): string {
    if row.accountId.Some? then row.accountId.value else ""
  }

  function GroupKey(row: Row): Key {
    (row.provider, Account(row))
  }

  /** What a row adds to its account's pressure. */
  function Pressure(row: Row): real {
    if row.live && row.value.Some? then row.value.value else -1.0
  }

  function Max(a: real, b: real): real {
    if a < b then b else a
  }

  function Peak(rows: seq<Row>, key: Key): real {
    if rows == [] then -1.0
    else
      var rest := Peak(rows[..|rows| - 1], key);
      var last := rows[|rows| - 1];
      if GroupKey(last) == key then Max(rest, Pressure(last)) else rest
  }

  function Rank(c: Collation, row: Row): int {
    c.rank(row.meter, row.provider)
  }

  /** The comparator, case by case: negative, zero or positive. */
  function Compare(c: Collation, peak: Key -> real, left: Row, right: Row): real {
    if left.live != right.live then (if left.live then -1.0 else 1.0)
    else if GroupKey(left) != GroupKey(right) then
      var pressure := peak(GroupKey(right)) - peak(GroupKey(left));
      if pressure != 0.0 then pressure
      else
        var named := c.name(left.provider) - c.name(right.provider);
        if named != 0 then named as real else (c.account(Account(left)) - c.account(Account(right))) as real
    else
      var rank := Rank(c, left) - Rank(c, right);
      if rank != 0 then rank as real else (c.meter(left.meter) - c.meter(right.meter)) as real
  }

  function PeakOf(rows: seq<Row>): Key -> real {
    key => Peak(rows, key)
  }

  function Before(c: Collation, peak: Key -> real): StableSort.Order<Row> {
    (left, right) => Compare(c, peak, left, right) <= 0.0
  }

  function SortRows(c: Collation, rows: seq<Row>): seq<Row> {
    Sort(rows, Before(c, PeakOf(rows)))
  }

  /** Two accounts never read the same: their names or their accounts are told apart. */
  ghost predicate ToldApart(c: Collation, rows: seq<Row>) {
    forall a, b :: a in rows && b in rows && GroupKey(a) != GroupKey(b) ==>
                     c.name(a.provider) != c.name(b.provider) || c.account(Account(a)) != c.account(Account(b))
  }

  /** Rows as they are built: a live one has its number. */
  ghost predicate Built(rows: seq<Row>) {
    forall row :: row in rows && row.live ==> row.value.Some? && 0.0 <= row.value.value
  }

  /**
   * The rows as they are built, one a snapshot: an unknown reading has no percentage,
   * any other its own, brought between 0 and 100; a fresh one is live.
   */
  function BuildRows(snapshots: seq<(Snapshot, State)>): (rows: seq<Row>)
    ensures |rows| == |snapshots|
    ensures forall k :: 0 <= k < |rows| ==>
              var Snapshot(provider, accountId, meter, value) := snapshots[k].0;
              && rows[k].provider == provider && rows[k].accountId == accountId && rows[k].meter == meter
              && rows[k].live == (snapshots[k].1 == Fresh)
              && (rows[k].value.None? <==> snapshots[k].1 == Unknown)
              && (rows[k].value.Some? ==>
                    rows[k].value.value == if value > 100.0 then 100.0 else if value >= 0.0 then value else 0.0)
  {
    seq(|snapshots|, k requires 0 <= k < |snapshots| => BuildRow(snapshots[k].0, snapshots[k].1))
  }

  /** One account's rows; no account at all is the account without a name. */
  ghost predicate SameAccount(a: Row, b: Row) {
    a.provider == b.provider && (a.accountId == b.accountId || {a.accountId, b.accountId} == {None, Some("")})
  }

  lemma KeysAreAccounts(a: Row, b: Row)
    ensures GroupKey(a) == GroupKey(b) <==> SameAccount(a, b)
  {
    assert {None, Some("")} == {Some(""), None};
    if {a.accountId, b.accountId} == {None, Some("")} {
      assert a.accountId in {None, Some("")} && b.accountId in {None, Some("")};
    }
  }

  // -------------------------------------------------------------- one consistent order

  /** The same order as one list of keys, compared in turn. */
  ghost predicate LexBefore(c: Collation, peak: Key -> real, a: Row, b: Row) {
    var pa, pb := peak(GroupKey(a)), peak(GroupKey(b));
    var na, nb := c.name(a.provider), c.name(b.provider);
    var aa, ab := c.account(Account(a)), c.account(Account(b));
    var ra, rb := Rank(c, a), Rank(c, b);
    || (a.live && !b.live)
    || (a.live == b.live &&
        (|| pa > pb
         || (pa == pb &&
             (|| na < nb
              || (na == nb &&
                  (|| aa < ab
                   || (aa == ab && (ra < rb || (ra == rb && c.meter(a.meter) <= c.meter(b.meter))))))))))
  }

  lemma ComparesInTurn(c: Collation, peak: Key -> real, rows: seq<Row>, a: Row, b: Row)
    requires ToldApart(c, rows) && a in rows && b in rows
    ensures Compare(c, peak, a, b) <= 0.0 <==> LexBefore(c, peak, a, b)
  {
  }

  /** With accounts told apart the comparator is a consistent order, so the sort is what it says. */
  lemma ComparatorIsConsistent(c: Collation, peak: Key -> real, rows: seq<Row>)
    requires ToldApart(c, rows)
    ensures ConsistentOn(Before(c, peak), rows)
  {
    var le := Before(c, peak);
    forall a, b | a in rows && b in rows ensures le(a, b) || le(b, a) {
      ComparesInTurn(c, peak, rows, a, b);
      ComparesInTurn(c, peak, rows, b, a);
    }
    forall x, y, z | x in rows && y in rows && z in rows && le(x, y) && le(y, z) ensures le(x, z) {
      ComparesInTurn(c, peak, rows, x, y);
      ComparesInTurn(c, peak, rows, y, z);
      ComparesInTurn(c, peak, rows, x, z);
    }
  }

  // ------------------------------------------------------------------ the list

  lemma SortedRows(c: Collation, rows: seq<Row>)
    requires ToldApart(c, rows)
    ensures var r := SortRows(c, rows);
            && multiset(r) == multiset(rows) && |r| == |rows|
            && (forall row :: row in r <==> row in rows)
            && forall i, j :: 0 <= i < j < |r| ==> LexBefore(c, PeakOf(rows), r[i], r[j])
  {
    var r, le := SortRows(c, rows), Before(c, PeakOf(rows));
    ComparatorIsConsistent(c, PeakOf(rows), rows);
    SortPermutes(rows, le);
    SortSorts(rows, le);
    forall row ensures row in r <==> row in rows {
      SortMember(rows, le, row);
    }
    forall i, j | 0 <= i < j < |r| ensures LexBefore(c, PeakOf(rows), r[i], r[j]) {
      assert r[i] in r && r[j] in r && le(r[i], r[j]);
      ComparesInTurn(c, PeakOf(rows), rows, r[i], r[j]);
    }
  }

  /**
   * Every live row comes before every other and a more pressed account before a
   * less pressed one; each account's live rows stand together, a shorter cadence
   * first and, at one cadence, by name of the meter.
   */
  lemma RowsAreGrouped(c: Collation, rows: seq<Row>, i: nat, j: nat, k: nat)
    requires ToldApart(c, rows) && i <= j <= k < |rows|
    ensures var r := SortRows(c, rows);
            && |r| == |rows|
            && (r[k].live ==> r[j].live)
            && (r[i].live && r[k].live ==> Peak(rows, GroupKey(r[i])) >= Peak(rows, GroupKey(r[k])))
            && (r[i].live && r[k].live && SameAccount(r[i], r[k]) ==>
                  var first, last := c.rank(r[i].meter, r[i].provider), c.rank(r[k].meter, r[k].provider);
                  && SameAccount(r[i], r[j]) && first <= last
                  && (first == last ==> c.meter(r[i].meter) <= c.meter(r[k].meter)))
  {
    SortedRows(c, rows);
    var r := SortRows(c, rows);
    assert r[i] in rows && r[j] in rows && r[k] in rows;
    assert i < j ==> LexBefore(c, PeakOf(rows), r[i], r[j]);
    assert j < k ==> LexBefore(c, PeakOf(rows), r[j], r[k]);
    KeysAreAccounts(r[i], r[k]);
    KeysAreAccounts(r[i], r[j]);
  }

  // ---------------------------------------------------------------- the headline

  predicate Measured(row: Row) {
    row.live && row.value.Some?
  }

  /** The most pressed live row, towards the shorter cadence; the first row when none is live. */
  method LeadRow(c: Collation, rows: seq<Row>) returns (lead: Option<Row>)
    ensures (exists row :: row in rows && Measured(row)) ==>
              && lead.Some? && lead.value in rows && Measured(lead.value)
              && forall row :: row in rows && Measured(row) ==>
                   || row.value.value < lead.value.value.value
                   || (row.value == lead.value.value
                       && c.rank(lead.value.meter, lead.value.provider) <= c.rank(row.meter, row.provider))
    ensures !(exists row :: row in rows && Measured(row)) ==>
              lead == if rows == [] then None else Some(rows[0])
  {
    lead := None;
    for k := 0 to |rows|
      invariant lead.None? ==> forall j :: 0 <= j < k ==> !Measured(rows[j])
      invariant lead.Some? ==>
                  && lead.value in rows && Measured(lead.value)
                  && forall j :: 0 <= j < k && Measured(rows[j]) ==>
                       || rows[j].value.value < lead.value.value.value
                       || (rows[j].value == lead.value.value && Rank(c, lead.value) <= Rank(c, rows[j]))
    {
      var row := rows[k];
      if Measured(row) {
        if lead.None? || row.value.value > lead.value.value.value {
          lead := Some(row);
        } else if row.value.value == lead.value.value.value && Rank(c, row) < Rank(c, lead.value) {
          lead := Some(row);
        }
      }
    }
    if lead.None? && rows != [] {
      lead := Some(rows[0]);
    }
  }

  lemma {:induction false} PeakIsHighest(rows: seq<Row>, key: Key)
    ensures Peak(rows, key) >= -1.0
    ensures forall row :: row in rows && GroupKey(row) == key && row.live && row.value.Some? ==>
              row.value.value <= Peak(rows, key)
    ensures Peak(rows, key) == -1.0
            || exists row :: row in rows && GroupKey(row) == key && row.live && row.value == Some(Peak(rows, key))
  {
    if rows != [] {
      var last := rows[|rows| - 1];
      assert rows == rows[..|rows| - 1] + [last];
      PeakIsHighest(rows[..|rows| - 1], key);
    }
  }

  /**
   * The list and the headline agree: the first account listed is one whose
   * pressure is the headline's percentage, though the two are computed apart.
   */
  lemma FirstAccountIsHeadline(c: Collation, rows: seq<Row>, lead: Row)
    requires ToldApart(c, rows) && Built(rows)
    requires lead in rows && Measured(lead)
    requires forall row :: row in rows && Measured(row) ==> row.value.value <= lead.value.value
    ensures var r := SortRows(c, rows);
            && |r| == |rows| > 0 && r[0].live
            && Peak(rows, GroupKey(r[0])) == lead.value.value
  {
    SortedRows(c, rows);
    var r := SortRows(c, rows);
    var at :| 0 <= at < |r| && r[at] == lead;
    var first := r[0];
    assert first in rows;
    assert first.live by {
      if at > 0 {
        assert LexBefore(c, PeakOf(rows), first, lead);
      }
    }
    PeakIsHighest(rows, GroupKey(first));
    PeakIsHighest(rows, GroupKey(lead));
    assert PeakOf(rows)(GroupKey(first)) == Peak(rows, GroupKey(first));
    assert PeakOf(rows)(GroupKey(lead)) == Peak(rows, GroupKey(lead));
    if at > 0 {
      assert LexBefore(c, PeakOf(rows), first, lead);
    }
  }

  lemma FreshRows(snapshots: seq<(Snapshot, State)>)
    ensures Built(BuildRows(snapshots))
    ensures forall k :: 0 <= k < |snapshots| && snapshots[k].1 == Fresh ==>
              BuildRows(snapshots)[k] in BuildRows(snapshots) && Measured(BuildRows(snapshots)[k])
    ensures forall row :: row in BuildRows(snapshots) && Measured(row) ==> row.value.value <= 100.0
  {
  }

  /**
   * From the readings to the popover: whenever one is fresh the list opens on a live
   * row, and the account it opens on peaks at the very percentage of the headline,
   * which is the greatest fresh one, kept between 0 and 100.
   */
  method Popover(c: Collation, snapshots: seq<(Snapshot, State)>) returns (rows: seq<Row>, lead: Option<Row>)
    requires ToldApart(c, BuildRows(snapshots))
    ensures rows == SortRows(c, BuildRows(snapshots)) && |rows| == |snapshots|
    ensures (exists k :: 0 <= k < |snapshots| && snapshots[k].1 == Fresh) ==>
              && lead.Some? && lead.value in BuildRows(snapshots) && Measured(lead.value)
              && rows[0].live && Peak(BuildRows(snapshots), GroupKey(rows[0])) == lead.value.value.value <= 100.0
              && forall k :: 0 <= k < |snapshots| && snapshots[k].1 == Fresh ==>
                   (if snapshots[k].0.value > 100.0 then 100.0 else snapshots[k].0.value) <= lead.value.value.value
  {
    var built := BuildRows(snapshots);
    FreshRows(snapshots);
    SortedRows(c, built);
    rows := SortedCopy(c, built);
    lead := LeadRow(c, built);
    if k :| 0 <= k < |snapshots| && snapshots[k].1 == Fresh {
      assert built[k] in built && Measured(built[k]);
      FirstAccountIsHeadline(c, built, lead.value);
    }
  }

  // --------------------------------------------------------------- the shipped sort

  /** The map the shipped loop fills before it sorts. */
  method Peaks(rows: seq<Row>) returns (peak: map<Key, real>)
    ensures forall key :: key in peak <==> exists row :: row in rows && GroupKey(row) == key
    ensures forall key :: key in peak ==> peak[key] == Peak(rows, key)
  {
    peak := map[];
    for k := 0 to |rows|
      invariant forall key :: key in peak <==> exists j :: 0 <= j < k && GroupKey(rows[j]) == key
      invariant forall key :: key in peak ==> peak[key] == Peak(rows[..k], key)
      invariant forall key :: key !in peak ==> Peak(rows[..k], key) == -1.0
    {
      var row := rows[k];
      var key := GroupKey(row);
      assert rows[..k + 1][..k] == rows[..k];
      var held := if key in peak then peak[key] else -1.0;
      peak := peak[key := Max(held, Pressure(row))];
    }
    assert rows[..|rows|] == rows;
    forall key | exists row :: row in rows && GroupKey(row) == key ensures key in peak {
      var row :| row in rows && GroupKey(row) == key;
      var j :| 0 <= j < |rows| && rows[j] == row;
    }
  }

  /** The shipped sort: the peaks first, then a copy sorted with them. */
  method SortedCopy(c: Collation, rows: seq<Row>) returns (r: seq<Row>)
    ensures r == SortRows(c, rows)
  {
    var peak := Peaks(rows);
    var held := key => if key in peak then peak[key] else -1.0;
    forall row | row in rows ensures held(GroupKey(row)) == PeakOf(rows)(GroupKey(row)) {
      assert GroupKey(row) in peak;
    }
    SortAgrees(rows, Before(c, held), Before(c, PeakOf(rows)));
    r := Sort(rows, Before(c, held));
  }
}
