/** Runs in which a close falls short of what it promises, each reachable from an empty database. */
module Anomalies {
  import opened Options
  import Consumer
  import opened Rating
  import opened Ledger
  import opened LedgerStore
  import opened EventTable
  import opened Invoicing
  import opened InvoicingRuns
  import opened InvoicingMoney
  import opened CloseOutcome
  import opened FlatPlan

  const NO_BOOKS := Books(map[], map[], [])

  lemma OpenIsSound(events: Rows, periods: seq<Period>)
    requires forall i :: 0 <= i < |events| ==> events[i].invoice.None?
    requires NamesUnique(periods) && forall i :: 0 <= i < |periods| ==> !periods[i].closed
    ensures var db := Database(events, periods, [], NO_BOOKS);
            Shape(db) && Kept(db.books) && Charted(db.books)
  {
  }

  lemma PeriodStep(s: State, tenant: string, name: string, registry: Registry, t: State)
    requires tenant != "" && name != "" && FindPeriod(s.db.periods, tenant, name).None?
    requires t == s.(db := s.db.(periods := s.db.periods + [Period(tenant, name, 1, 10, false)]))
    ensures Next(s, NewPeriod(tenant, name, 1, 10), t, registry)
  {
  }

  lemma InsertStep(s: State, event: Consumer.Event, registry: Registry, t: State)
    requires t == s.(db := s.db.(events := s.db.events + [EventTable.Row(event, None)]))
    ensures Next(s, Insert(event), t, registry)
  {
  }

  lemma BeginStep(s: State, pid: nat, registry: Registry, t: State)
    requires pid !in s.gathering && t == s.(gathering := s.gathering[pid := s.db.events])
    ensures Next(s, Begin(pid), t, registry)
  {
  }

  lemma FinishStep(s: State, pid: nat, plan: Plan, registry: Registry, t: State)
    requires pid in s.gathering && CloseOf(s.db, pid, plan, registry, s.gathering[pid]).Issued?
    requires t == State(CloseOf(s.db, pid, plan, registry, s.gathering[pid]).db, s.gathering - {pid})
    ensures Next(s, Finish(pid, plan), t, registry)
  {
    hide CloseOf;
  }

  /** A run in which one event lands between gathering and marking, and is billed to nobody. */
  lemma UsageCanBeLost() returns (states: seq<State>, steps: seq<Step>)
    ensures Run(states, steps, {"m"}) && |states| == 6
    ensures Excess(states[5].db, "t", "m") == -UNIT
  {
    hide CloseOf, Excess, Shape, Kept, Charted, Next, MetersDue, SumDue;
    var p := Period("t", "p", 1, 10, false);
    var db1 := Database([], [p], [], NO_BOOKS);
    var db2 := Database([UnitRow("t", "a")], [p], [], NO_BOOKS);
    var db3 := Database([UnitRow("t", "a"), UnitRow("t", "b")], [p], [], NO_BOOKS);
    OpenIsSound(db3.events, [p]);
    UnitIsDue("t", "a", 10);
    UnitClose(db3, 0, db2.events);
    var r := CloseOf(db3, 0, UNIT_PLAN, {"m"}, db2.events);
    steps := [NewPeriod("t", "p", 1, 10), Insert(UnitEvent("t", "a")), Begin(0), Insert(UnitEvent("t", "b")), Finish(0, UNIT_PLAN)];
    states := [START, State(db1, map[]), State(db2, map[]), State(db2, map[0 := db2.events]), State(db3, map[0 := db2.events]), State(r.db, map[])];
    assert FindPeriod([], "t", "p").None?;
    assert [] + [p] == [p] && [] + [UnitRow("t", "a")] == db2.events && db2.events + [UnitRow("t", "b")] == db3.events;
    assert map[][0 := db2.events] == map[0 := db2.events] && map[0 := db2.events] - {0} == map[];
    PeriodStep(states[0], "t", "p", {"m"}, states[1]);
    InsertStep(states[1], UnitEvent("t", "a"), {"m"}, states[2]);
    BeginStep(states[2], 0, {"m"}, states[3]);
    InsertStep(states[3], UnitEvent("t", "b"), {"m"}, states[4]);
    FinishStep(states[4], 0, UNIT_PLAN, {"m"}, states[5]);
    assert db3 == db2.(events := db2.events + [UnitRow("t", "b")]);
    ArrivalIsLost(db2, UnitEvent("t", "b"), 0, UNIT_PLAN, {"m"});
    UnitExcess([p]);
  }

  lemma UnitExcess(periods: seq<Period>)
    ensures Excess(Database([UnitRow("t", "a")], periods, [], NO_BOOKS), "t", "m") == 0
  {
    assert [UnitRow("t", "a")][..0] == [];
  }

  /** Two periods of one tenant, gathered at once and closed in turn: the second bills it all again. */
  lemma SecondUnitClose(db: Database)
    requires db == Database([UnitRow("t", "a")], [Period("t", "p", 1, 10, false), Period("t", "q", 1, 10, false)], [], NO_BOOKS)
    ensures CloseOf(db, 0, UNIT_PLAN, {"m"}, db.events).Issued?
    ensures var first := CloseOf(db, 0, UNIT_PLAN, {"m"}, db.events);
            var second := CloseOf(first.db, 1, UNIT_PLAN, {"m"}, db.events);
            second.Issued? && Excess(second.db, "t", "m") == UNIT
  {
    hide CloseOf, Issue, Excess, Shape, Kept, Charted, Gathered, RateOf, InvoiceFor, Mark, SumDue, MetersDue;
    OpenIsSound(db.events, db.periods);
    UnitIsDue("t", "a", 10);
    UnitClose(db, 0, db.events);
    var first := CloseOf(db, 0, UNIT_PLAN, {"m"}, db.events);
    IssuedIs(db, 0, UNIT_PLAN, {"m"}, db.events);
    IssueKeepsShape(db, 0, UNIT_PLAN, {"m"}, db.events);
    IssueKeepsChart(db, 0, first.invoice.lines);
    UnitClose(first.db, 1, db.events);
    UnitExcess(db.periods);
    OverlappingClosesBillTwice(db, 0, UNIT_PLAN, 1, UNIT_PLAN, {"m"}, "m");
  }

  lemma NoSuchPeriods()
    ensures FindPeriod([], "t", "p").None? && FindPeriod([Period("t", "p", 1, 10, false)], "t", "q").None?
  {
  }

  /** A run in which two overlapping closes bill one event twice. */
  lemma UsageCanBeBilledTwice() returns (states: seq<State>, steps: seq<Step>)
    ensures Run(states, steps, {"m"}) && |states| == 8
    ensures Excess(states[7].db, "t", "m") == UNIT
  {
    hide CloseOf, Excess, Next, FindPeriod;
    var p, q := Period("t", "p", 1, 10, false), Period("t", "q", 1, 10, false);
    var db1 := Database([], [p], [], NO_BOOKS);
    var db2 := Database([], [p, q], [], NO_BOOKS);
    var db3 := Database([UnitRow("t", "a")], [p, q], [], NO_BOOKS);
    var seen := db3.events;
    SecondUnitClose(db3);
    var first := CloseOf(db3, 0, UNIT_PLAN, {"m"}, seen);
    var second := CloseOf(first.db, 1, UNIT_PLAN, {"m"}, seen);
    steps := [NewPeriod("t", "p", 1, 10), NewPeriod("t", "q", 1, 10), Insert(UnitEvent("t", "a")), Begin(0), Begin(1),
              Finish(0, UNIT_PLAN), Finish(1, UNIT_PLAN)];
    states := [START, State(db1, map[]), State(db2, map[]), State(db3, map[]), State(db3, map[0 := seen]),
               State(db3, map[0 := seen, 1 := seen]), State(first.db, map[1 := seen]), State(second.db, map[])];
    NoSuchPeriods();
    assert [] + [p] == [p] && [p] + [q] == [p, q] && [] + [UnitRow("t", "a")] == seen;
    assert map[][0 := seen] == map[0 := seen] && map[0 := seen][1 := seen] == map[0 := seen, 1 := seen];
    assert map[0 := seen, 1 := seen] - {0} == map[1 := seen] && map[1 := seen] - {1} == map[];
    PeriodStep(states[0], "t", "p", {"m"}, states[1]);
    PeriodStep(states[1], "t", "q", {"m"}, states[2]);
    InsertStep(states[2], UnitEvent("t", "a"), {"m"}, states[3]);
    BeginStep(states[3], 0, {"m"}, states[4]);
    BeginStep(states[4], 1, {"m"}, states[5]);
    FinishStep(states[5], 0, UNIT_PLAN, {"m"}, states[6]);
    FinishStep(states[6], 1, UNIT_PLAN, {"m"}, states[7]);
  }

  // ---- ledger and invoices can disagree ----------------------------------------------------------

  const COLON_PERIODS := [Period("t", "u:v", 1, 10, false), Period("t:u", "v", 1, 10, false)]

  const COLON_ROWS := [UnitRow("t", "a"), UnitRow("t:u", "a")]

  lemma ColonRowsDue()
    ensures MetersDue(COLON_ROWS, "t", 10) == {"m"} && SumDue(COLON_ROWS, "t", 10, "m") == UNIT
    ensures var rest := Mark(COLON_ROWS, "t", 10, 0);
            MetersDue(rest, "t:u", 10) == {"m"} && SumDue(rest, "t:u", 10, "m") == UNIT
  {
    assert COLON_ROWS[0] in COLON_ROWS;
    assert COLON_ROWS[..1] == [COLON_ROWS[0]] && [COLON_ROWS[0]][..0] == [];
    var rest := Mark(COLON_ROWS, "t", 10, 0);
    assert rest[1] == COLON_ROWS[1] && rest[1] in rest;
    assert rest[..1] == [rest[0]] && [rest[0]][..0] == [];
    assert rest[0].event.tenant == "t" && |"t"| != |"t:u"|;
    assert SumDue([rest[0]], "t:u", 10, "m") == 0;
  }

  /** Two tenants whose keys collide: the second close issues an invoice the ledger knows nothing of. */
  lemma SecondColonClose(db: Database)
    requires db == Database(COLON_ROWS, COLON_PERIODS, [], NO_BOOKS)
    ensures CloseOf(db, 0, UNIT_PLAN, {"m"}, db.events).Issued?
    ensures var first := CloseOf(db, 0, UNIT_PLAN, {"m"}, db.events);
            var second := CloseOf(first.db, 1, UNIT_PLAN, {"m"}, first.db.events);
            second.Issued? && Agree(first.db) && !Agree(second.db)
  {
    hide CloseOf, Issue, Agree, Shape, Kept, Charted, Gathered, RateOf, InvoiceFor, Mark, SumDue, MetersDue, TransactionKey;
    OpenIsSound(db.events, db.periods);
    ColonRowsDue();
    UnitClose(db, 0, db.events);
    var first := CloseOf(db, 0, UNIT_PLAN, {"m"}, db.events);
    IssuedIs(db, 0, UNIT_PLAN, {"m"}, db.events);
    IssueKeepsShape(db, 0, UNIT_PLAN, {"m"}, db.events);
    IssueKeepsChart(db, 0, first.invoice.lines);
    IssueMoves(db, 0, first.invoice.lines, "");
    NothingBilledAgrees(db);
    IssueAgreesIff(db, 0, first.invoice.lines);
    UnitClose(first.db, 1, first.db.events);
    var second := CloseOf(first.db, 1, UNIT_PLAN, {"m"}, first.db.events);
    IssuedIs(first.db, 1, UNIT_PLAN, {"m"}, first.db.events);
    ColonKeysCollide();
    IssueAgreesIff(first.db, 1, second.invoice.lines);
  }

  lemma ColonKeysCollide()
    ensures TransactionKey("t", "u:v") == TransactionKey("t:u", "v")
  {
    KeysCollideIff("t", "u:v", "t:u", "v");
  }

  lemma NothingBilledAgrees(db: Database)
    requires db.invoices == [] && db.books == NO_BOOKS
    ensures Agree(db)
  {
  }

  /** A run in which ledger and invoices part, for tenants with a colon in their ids. */
  lemma LedgerCanDisagree() returns (states: seq<State>, steps: seq<Step>)
    ensures Run(states, steps, {"m"}) && |states| == 9
    ensures Agree(states[6].db) && !Agree(states[8].db)
  {
    hide CloseOf, Next, FindPeriod, Agree;
    var p, q := COLON_PERIODS[0], COLON_PERIODS[1];
    var db1 := Database([], [p], [], NO_BOOKS);
    var db2 := Database([], COLON_PERIODS, [], NO_BOOKS);
    var db3 := Database([COLON_ROWS[0]], COLON_PERIODS, [], NO_BOOKS);
    var db4 := Database(COLON_ROWS, COLON_PERIODS, [], NO_BOOKS);
    SecondColonClose(db4);
    var first := CloseOf(db4, 0, UNIT_PLAN, {"m"}, db4.events);
    var second := CloseOf(first.db, 1, UNIT_PLAN, {"m"}, first.db.events);
    steps := [NewPeriod("t", "u:v", 1, 10), NewPeriod("t:u", "v", 1, 10), Insert(UnitEvent("t", "a")), Insert(UnitEvent("t:u", "a")),
              Begin(0), Finish(0, UNIT_PLAN), Begin(1), Finish(1, UNIT_PLAN)];
    states := [START, State(db1, map[]), State(db2, map[]), State(db3, map[]), State(db4, map[]), State(db4, map[0 := db4.events]),
               State(first.db, map[]), State(first.db, map[1 := first.db.events]), State(second.db, map[])];
    NoSuchColonPeriods();
    assert [] + [p] == [p] && [p] + [q] == COLON_PERIODS;
    assert [] + [COLON_ROWS[0]] == db3.events && db3.events + [COLON_ROWS[1]] == COLON_ROWS;
    assert map[][0 := db4.events] == map[0 := db4.events] && map[0 := db4.events] - {0} == map[];
    assert map[][1 := first.db.events] == map[1 := first.db.events] && map[1 := first.db.events] - {1} == map[];
    PeriodStep(states[0], "t", "u:v", {"m"}, states[1]);
    PeriodStep(states[1], "t:u", "v", {"m"}, states[2]);
    InsertStep(states[2], UnitEvent("t", "a"), {"m"}, states[3]);
    InsertStep(states[3], UnitEvent("t:u", "a"), {"m"}, states[4]);
    BeginStep(states[4], 0, {"m"}, states[5]);
    FinishStep(states[5], 0, UNIT_PLAN, {"m"}, states[6]);
    BeginStep(states[6], 1, {"m"}, states[7]);
    FinishStep(states[7], 1, UNIT_PLAN, {"m"}, states[8]);
  }

  lemma NoSuchColonPeriods()
    ensures FindPeriod([], "t", "u:v").None? && FindPeriod([COLON_PERIODS[0]], "t:u", "v").None?
  {
  }
}
