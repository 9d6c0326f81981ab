/** The operations on a user's list of saved estimates, newest first:
    saving a calculation result (App.tsx `handleSaveResult`) and the delete
    and toggle-status callbacks handed to the dashboard and history views. */
module Ledger {

  import opened Wrappers
  import opened Types

  /** The status a toggle gives: a paid record becomes pending, a pending one
      paid. */
  function Flip(s: Status): (t: Status)
    ensures t != s
  {
    if s == Paid then Pending else Paid
  }

  /** One record with its status flipped: every other field is kept. */
  function ToggleRecord(r: TaxRecord): (t: TaxRecord)
    ensures t.id == r.id && t.month == r.month
    ensures t.revenue == r.revenue && t.taxAmount == r.taxAmount
    ensures t.status != r.status
  {
    r.(status := Flip(r.status))
  }

  /** The delete callback: keeps every record with another id, in order, each
      as many times as it occurred, and no record with that id. */
  function Delete(records: seq<TaxRecord>, id: string): (r: seq<TaxRecord>)
    ensures forall k :: 0 <= k < |r| ==> r[k].id != id
    ensures forall x :: multiset(r)[x] == if x.id == id then 0 else multiset(records)[x]
    ensures |r| <= |records|
  {
    if |records| == 0 then []
    else
      assert records == [records[0]] + records[1..];
      if records[0].id != id then [records[0]] + Delete(records[1..], id)
      else Delete(records[1..], id)
  }

  /** The toggle callback: flips the status of every record with that id and
      leaves every other record, and every other field, as it was, in the same
      positions. */
  function Toggle(records: seq<TaxRecord>, id: string): (r: seq<TaxRecord>)
    ensures |r| == |records|
    ensures forall k :: 0 <= k < |records| ==>
              r[k] == if records[k].id == id then ToggleRecord(records[k]) else records[k]
  {
    if |records| == 0 then []
    else
      var head := if records[0].id == id then ToggleRecord(records[0]) else records[0];
      [head] + Toggle(records[1..], id)
  }

  /** The period part of a saved record's label: a quarter or a year, with the
      year 2026 fixed in the source. */
  function PeriodLabel(p: TaxPeriod): (name: string)
    ensures name == "Quý 2026" <==> p == Quarter
    ensures name == "Năm 2026" <==> p == Year
  {
    match p
    case Quarter => "Quý 2026"
    case Year => "Năm 2026"
  }

  /** The record `handleSaveResult` builds: `id` stands for the current time in
      milliseconds and `date` for the formatted day/month/year, both supplied
      by the caller. */
  function NewRecord(calcData: CalcData, finalTaxAmount: real, id: string, date: string)
    : (r: TaxRecord)
    ensures r.id == id && r.status == Pending
    ensures r.revenue == calcData.revenue && r.taxAmount == finalTaxAmount
  {
    TaxRecord(id, "Dự toán " + PeriodLabel(calcData.period) + " (" + date + ")",
              calcData.revenue, finalTaxAmount, Pending)
  }

  /** The description of a new record: `Dự toán `, then the period's label,
      then the date in parentheses. */
  lemma NewRecordDescription(calcData: CalcData, finalTaxAmount: real, id: string, date: string)
    ensures var m := NewRecord(calcData, finalTaxAmount, id, date).month;
            && |m| == |"Dự toán "| + |PeriodLabel(calcData.period)| + |date| + 3
            && m[..|"Dự toán "|] == "Dự toán "
            && m[|"Dự toán "|..|"Dự toán "| + |PeriodLabel(calcData.period)|] == PeriodLabel(calcData.period)
            && m[|m| - |date| - 3..] == " (" + date + ")"
  {
  }

  /** A record's description tells apart the period and the date it was
      saved for: two saves differ in description exactly when their periods
      or their dates differ. */
  lemma DescriptionDistinguishes(c1: CalcData, a1: real, id1: string, d1: string,
                                 c2: CalcData, a2: real, id2: string, d2: string)
    ensures NewRecord(c1, a1, id1, d1).month == NewRecord(c2, a2, id2, d2).month
            <==> c1.period == c2.period && d1 == d2
  {
    var m1 := NewRecord(c1, a1, id1, d1).month;
    var m2 := NewRecord(c2, a2, id2, d2).month;
    var n := |"Dự toán "|;
    NewRecordDescription(c1, a1, id1, d1);
    NewRecordDescription(c2, a2, id2, d2);
    if m1 == m2 {
      assert |PeriodLabel(c1.period)| == |PeriodLabel(c2.period)| == 8;
      assert PeriodLabel(c1.period) == m1[n..n + 8] == PeriodLabel(c2.period);
      assert |d1| == |d2|;
      assert " (" + d1 + ")" == m1[|m1| - |d1| - 3..] == " (" + d2 + ")";
      assert d1 == (" (" + d1 + ")")[2..|d1| + 2];
      assert d2 == (" (" + d2 + ")")[2..|d2| + 2];
    }
  }

  /** `handleSaveResult`: without pending calculation data nothing happens;
      otherwise one pending record carrying the calculated revenue and the
      given tax amount is put in front of the list. */
  function SaveResult(records: seq<TaxRecord>, calcData: Option<CalcData>,
                      finalTaxAmount: real, id: string, date: string): (r: seq<TaxRecord>)
    ensures calcData.None? ==> r == records
    ensures calcData.Some? ==>
              && |r| == |records| + 1
              && r[1..] == records
              && r[0].id == id
              && r[0].status == Pending
              && r[0].revenue == calcData.value.revenue
              && r[0].taxAmount == finalTaxAmount
  {
    match calcData
    case None => records
    case Some(c) => [NewRecord(c, finalTaxAmount, id, date)] + records
  }

  /** One save request, with the clock readings it needs. */
  datatype SaveRequest = SaveRequest(calcData: CalcData, finalTaxAmount: real, id: string, date: string)

  function RecordOf(q: SaveRequest): TaxRecord {
    NewRecord(q.calcData, q.finalTaxAmount, q.id, q.date)
  }

  /** The list after the requests are saved one after another, the last
      request being the latest save. */
  function SaveAll(records: seq<TaxRecord>, requests: seq<SaveRequest>): seq<TaxRecord>
    decreases |requests|
  {
    if |requests| == 0 then records
    else
      var q := requests[|requests| - 1];
      SaveResult(SaveAll(records, requests[..|requests| - 1]),
                 Some(q.calcData), q.finalTaxAmount, q.id, q.date)
  }

  /** The records of the requests, latest first. */
  function NewestFirst(requests: seq<SaveRequest>): seq<TaxRecord>
    decreases |requests|
  {
    if |requests| == 0 then []
    else [RecordOf(requests[|requests| - 1])] + NewestFirst(requests[..|requests| - 1])
  }

  lemma {:induction false} NewestFirstLength(requests: seq<SaveRequest>)
    ensures |NewestFirst(requests)| == |requests|
    decreases |requests|
  {
    if |requests| > 0 {
      NewestFirstLength(requests[..|requests| - 1]);
    }
  }

  lemma {:induction false} NewestFirstAt(requests: seq<SaveRequest>, k: nat)
    requires k < |requests|
    ensures |NewestFirst(requests)| == |requests|
    ensures NewestFirst(requests)[k] == RecordOf(requests[|requests| - 1 - k])
    decreases |requests|
  {
    NewestFirstLength(requests);
    if k > 0 {
      var n := |requests| - 1;
      var earlier := requests[..n];
      var j := n - k;
      NewestFirstAt(earlier, k - 1);
      NewestFirstTail(requests, k);
      assert earlier[j] == requests[j];
    }
  }

  /** Past the head, the records of the requests are those of all but the
      latest request. */
  lemma NewestFirstTail(requests: seq<SaveRequest>, k: nat)
    requires 0 < k < |requests|
    requires |NewestFirst(requests)| == |requests|
    ensures |NewestFirst(requests[..|requests| - 1])| == |requests| - 1
    ensures NewestFirst(requests)[k] == NewestFirst(requests[..|requests| - 1])[k - 1]
  {
  }

  lemma {:induction false} SaveAllIsNewestFirst(records: seq<TaxRecord>, requests: seq<SaveRequest>)
    ensures SaveAll(records, requests) == NewestFirst(requests) + records
    decreases |requests|
  {
    if |requests| > 0 {
      var n := |requests| - 1;
      SaveAllIsNewestFirst(records, requests[..n]);
      var r := RecordOf(requests[n]);
      assert [r] + (NewestFirst(requests[..n]) + records)
             == ([r] + NewestFirst(requests[..n])) + records;
    }
  }

  /** After N saves the list has grown by N, the latest save is at the head,
      the saved records appear newest first and the old list follows
      unchanged. */
  lemma SaveAllPrepends(records: seq<TaxRecord>, requests: seq<SaveRequest>)
    ensures |SaveAll(records, requests)| == |records| + |requests|
    ensures SaveAll(records, requests)[|requests|..] == records
    ensures forall k :: 0 <= k < |requests| ==>
              SaveAll(records, requests)[k] == RecordOf(requests[|requests| - 1 - k])
  {
    SaveAllIsNewestFirst(records, requests);
    NewestFirstLength(requests);
    var all := SaveAll(records, requests);
    assert all[|requests|..] == records;
    forall k | 0 <= k < |requests|
      ensures all[k] == RecordOf(requests[|requests| - 1 - k])
    {
      NewestFirstAt(requests, k);
      assert all[k] == NewestFirst(requests)[k];
    }
  }

  /** The latest of several saves is at the head of the list. */
  lemma LatestSaveFirst(records: seq<TaxRecord>, requests: seq<SaveRequest>)
    requires |requests| > 0
    ensures SaveAll(records, requests)[0] == RecordOf(requests[|requests| - 1])
  {
    SaveAllPrepends(records, requests);
  }

  /** Deleting an id no record carries leaves the list as it was. */
  lemma {:induction false} DeleteAbsent(records: seq<TaxRecord>, id: string)
    requires forall k :: 0 <= k < |records| ==> records[k].id != id
    ensures Delete(records, id) == records
  {
    if |records| > 0 {
      DeleteAbsent(records[1..], id);
    }
  }

  /** Deleting filters each part of a list separately: the survivors keep their
      relative order. */
  lemma {:induction false} DeleteAppend(a: seq<TaxRecord>, b: seq<TaxRecord>, id: string)
    ensures Delete(a + b, id) == Delete(a, id) + Delete(b, id)
  {
    if |a| > 0 {
      assert (a + b)[1..] == a[1..] + b;
      DeleteAppend(a[1..], b, id);
    } else {
      assert a + b == b;
    }
  }

  /** Deleting twice is deleting once. */
  lemma DeleteIdempotent(records: seq<TaxRecord>, id: string)
    ensures Delete(Delete(records, id), id) == Delete(records, id)
  {
    DeleteAbsent(Delete(records, id), id);
  }

  /** Toggling an id no record carries leaves the list as it was. */
  lemma ToggleAbsent(records: seq<TaxRecord>, id: string)
    requires forall k :: 0 <= k < |records| ==> records[k].id != id
    ensures Toggle(records, id) == records
  {
  }

  /** Toggling the same id twice restores the original list. */
  lemma ToggleInvolution(records: seq<TaxRecord>, id: string)
    ensures Toggle(Toggle(records, id), id) == records
  {
    var once := Toggle(records, id);
    var twice := Toggle(once, id);
    forall k | 0 <= k < |records|
      ensures twice[k] == records[k]
    {
      if records[k].id == id {
        assert Flip(Flip(records[k].status)) == records[k].status;
      }
    }
  }

  /** Toggling changes no id, so a later delete of that id removes the same
      records as it would have before the toggle. */
  lemma {:induction false} DeleteAfterToggle(records: seq<TaxRecord>, id: string)
    ensures Delete(Toggle(records, id), id) == Delete(records, id)
  {
    if |records| > 0 {
      var t := Toggle(records, id);
      assert t[1..] == Toggle(records[1..], id);
      DeleteAfterToggle(records[1..], id);
    }
  }

  /** Toggling two ids in either order gives the same list. */
  lemma ToggleCommutes(records: seq<TaxRecord>, a: string, b: string)
    ensures Toggle(Toggle(records, a), b) == Toggle(Toggle(records, b), a)
  {
  }
}
