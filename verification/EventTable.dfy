/** The events table as billing sees it: which rows a close gathers, and what it marks. */
module EventTable {
  import opened Options
  import opened Consumer

  /** A stored event and the invoice that billed it, if one has (migrations 000001 and 000006). */
  datatype Row = Row(event: Event, invoice: Option<nat>)

  /** The one predicate the gathering query and the marking update share. */
  predicate Due(row: Row, tenant: string, end: int) {
    row.event.tenant == tenant && row.invoice.None? && row.event.occurred < end
  }

  predicate Of(row: Row, tenant: string, meter: string) {
    row.event.tenant == tenant && row.event.meter == meter
  }

  /** All the usage stored for a tenant's meter. */
  function Stored(rows: seq<Row>, tenant: string, meter: string): int {
    if rows == [] then 0
    else
      var row := rows[|rows| - 1];
      Stored(rows[..|rows| - 1], tenant, meter) + if Of(row, tenant, meter) then row.event.quantity else 0
  }

  /** The part of it that is on no invoice. */
  function Unbilled(rows: seq<Row>, tenant: string, meter: string): int {
    if rows == [] then 0
    else
      var row := rows[|rows| - 1];
      Unbilled(rows[..|rows| - 1], tenant, meter)
      + if Of(row, tenant, meter) && row.invoice.None? then row.event.quantity else 0
  }

  /** The part of it that a close up to end gathers: SUM(quantity) ... GROUP BY meter. */
  function SumDue(rows: seq<Row>, tenant: string, end: int, meter: string): int {
    if rows == [] then 0
    else
      var row := rows[|rows| - 1];
      SumDue(rows[..|rows| - 1], tenant, end, meter)
      + if Due(row, tenant, end) && row.event.meter == meter then row.event.quantity else 0
  }

  /** The groups the gathering query returns. */
  function MetersDue(rows: seq<Row>, tenant: string, end: int): set<string> {
    set row | row in rows && Due(row, tenant, end) :: row.event.meter
  }

  /** markBilled: stamp the invoice on every row that is due. */
  function Mark(rows: seq<Row>, tenant: string, end: int, invoice: nat): (r: seq<Row>)
    ensures |r| == |rows|
    ensures forall i :: 0 <= i < |rows| ==>
              r[i] == if Due(rows[i], tenant, end) then Row(rows[i].event, Some(invoice)) else rows[i]
  {
    seq(|rows|, i requires 0 <= i < |rows| =>
      if Due(rows[i], tenant, end) then Row(rows[i].event, Some(invoice)) else rows[i])
  }

  lemma MarkSnoc(rows: seq<Row>, tenant: string, end: int, invoice: nat)
    requires rows != []
    ensures Mark(rows, tenant, end, invoice)[..|rows| - 1] == Mark(rows[..|rows| - 1], tenant, end, invoice)
  {
  }

  /** Marking takes what was due out of what is unbilled, for that tenant only, and loses nothing. */
  lemma {:induction false} MarkMovesDue(rows: seq<Row>, tenant: string, end: int, invoice: nat, t: string, meter: string)
    ensures var marked := Mark(rows, tenant, end, invoice);
            && Stored(marked, t, meter) == Stored(rows, t, meter)
            && Unbilled(marked, t, meter) == Unbilled(rows, t, meter) - if t == tenant then SumDue(rows, tenant, end, meter) else 0
  {
    if rows != [] {
      MarkSnoc(rows, tenant, end, invoice);
      MarkMovesDue(rows[..|rows| - 1], tenant, end, invoice, t, meter);
    }
  }

  lemma {:induction false} NotDue(rows: seq<Row>, tenant: string, end: int, meter: string)
    requires meter !in MetersDue(rows, tenant, end)
    ensures SumDue(rows, tenant, end, meter) == 0
  {
    if rows != [] {
      var row := rows[|rows| - 1];
      assert row in rows;
      NotDue(rows[..|rows| - 1], tenant, end, meter);
    }
  }
}
