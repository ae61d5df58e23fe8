/**
 * Ledger entries (`FinanceRecord`), the running totals `total_revenue` and
 * `total_cost`, the creation of an entry from the fields the model extracted,
 * and the in-memory ledger that keeps an entry only once the user answers `ok`.
 */
module Records {
  import opened Wrappers
  import opened Dates

  /** A `FinanceRecord`: revenue (`doanh_thu`), cost (`chi_phi`), note (`ghi_chu`)
      and creation time (`ngay_tao`). */
  datatype Rec = Rec(id: int, revenue: int, cost: int, note: string, createdAt: DateTime)

  /** Sum of the revenues, added up from the first record to the last. */
  function SumRevenue(s: seq<Rec>): int
  {
    if s == [] then 0 else SumRevenue(s[..|s| - 1]) + s[|s| - 1].revenue
  }

  /** Sum of the costs, added up from the first record to the last. */
  function SumCost(s: seq<Rec>): int
  {
    if s == [] then 0 else SumCost(s[..|s| - 1]) + s[|s| - 1].cost
  }

  /** Revenue is additive over a split of the ledger. */
  lemma {:induction false} SumRevenueAppend(a: seq<Rec>, b: seq<Rec>)
    ensures SumRevenue(a + b) == SumRevenue(a) + SumRevenue(b)
    decreases |b|
  {
    if b != [] {
      var b' := b[..|b| - 1];
      assert (a + b)[..|a + b| - 1] == a + b';
      SumRevenueAppend(a, b');
    } else {
      assert a + b == a;
    }
  }

  /** Cost is additive over a split of the ledger. */
  lemma {:induction false} SumCostAppend(a: seq<Rec>, b: seq<Rec>)
    ensures SumCost(a + b) == SumCost(a) + SumCost(b)
    decreases |b|
  {
    if b != [] {
      var b' := b[..|b| - 1];
      assert (a + b)[..|a + b| - 1] == a + b';
      SumCostAppend(a, b');
    } else {
      assert a + b == a;
    }
  }

  /** `total_revenue`. */
  method TotalRevenue(data: seq<Rec>) returns (total: int)
    ensures total == SumRevenue(data)
  {
    total := 0;
    for i := 0 to |data|
      invariant total == SumRevenue(data[..i])
    {
      assert data[..i + 1][..i] == data[..i];
      total := total + data[i].revenue;
    }
    assert data[..|data|] == data;
  }

  /** `total_cost`. */
  method TotalCost(data: seq<Rec>) returns (total: int)
    ensures total == SumCost(data)
  {
    total := 0;
    for i := 0 to |data|
      invariant total == SumCost(data[..i])
    {
      assert data[..i + 1][..i] == data[..i];
      total := total + data[i].cost;
    }
    assert data[..|data|] == data;
  }

  /** The fields the model extracts from a ledger statement. */
  datatype Extracted = Extracted(revenue: int, cost: int, note: string, date: string)

  /** The record built from extracted fields as the entry path writes it: the
      date handed to the normaliser is the sentinel, not the extracted one. */
  function EntryAsWritten(x: Extracted, now: DateTime, strptime: Strptime, fromIso: IsoParser): (r: Rec)
    ensures r.createdAt == now
    ensures r.id == 0 && r.revenue == x.revenue && r.cost == x.cost && r.note == x.note
  {
    Rec(0, x.revenue, x.cost, x.note, Normalize(Text(NowSentinel), now, strptime, fromIso))
  }

  /** The record built from extracted fields, dated by the extracted date. */
  function Entry(x: Extracted, now: DateTime, strptime: Strptime, fromIso: IsoParser): (r: Rec)
    ensures r.id == 0 && r.revenue == x.revenue && r.cost == x.cost && r.note == x.note
    ensures r.createdAt == Normalize(Text(x.date), now, strptime, fromIso)
  {
    Rec(0, x.revenue, x.cost, x.note, Normalize(Text(x.date), now, strptime, fromIso))
  }

  /** An entry keeps the extracted amounts and note, and is dated by the first
      accepted format that parses the extracted date. */
  lemma EntryDatedByExtractedDate(x: Extracted, now: DateTime, strptime: Strptime, fromIso: IsoParser, k: nat)
    requires x.date != NowSentinel
    requires k < |Formats| && strptime(x.date, Formats[k]).Some?
    requires forall j :: 0 <= j < k ==> strptime(x.date, Formats[j]).None?
    ensures Entry(x, now, strptime, fromIso)
            == Rec(0, x.revenue, x.cost, x.note, strptime(x.date, Formats[k]).value)
  {
    NormalizeText(x.date, now, strptime, fromIso);
  }

  /** Witness of the defect: a statement dated 2024-01-15, entered on 2025-07-10,
      is recorded on 2025-07-10. */
  lemma EntryAsWrittenLosesDate()
    ensures var now := DateTime(2025, 7, 10, 9, 0, 0, 0);
            var jan15 := DateTime(2024, 1, 15, 0, 0, 0, 0);
            var strptime: Strptime := (s, f) => if s == "2024-01-15" && f == "%Y-%m-%d" then Some(jan15) else None;
            var fromIso: IsoParser := s => None;
            var x := Extracted(500000, 300000, "", "2024-01-15");
            && Entry(x, now, strptime, fromIso).createdAt == jan15
            && EntryAsWritten(x, now, strptime, fromIso).createdAt == now
            && now != jan15
  {
    var now := DateTime(2025, 7, 10, 9, 0, 0, 0);
    var jan15 := DateTime(2024, 1, 15, 0, 0, 0, 0);
    var strptime: Strptime := (s, f) => if s == "2024-01-15" && f == "%Y-%m-%d" then Some(jan15) else None;
    var fromIso: IsoParser := s => None;
    var x := Extracted(500000, 300000, "", "2024-01-15");
    assert strptime(x.date, Formats[0]).None? && strptime(x.date, Formats[1]).None?;
    EntryDatedByExtractedDate(x, now, strptime, fromIso, 2);
  }

  /** The in-memory ledger: append-only, in insertion order. */
  class Ledger {
    var records: seq<Rec>

    constructor ()
      ensures records == []
    {
      records := [];
    }

    /** Keeps `r` exactly when the confirmation answer is `ok`. */
    method Confirm(r: Rec, answer: string) returns (added: bool)
      modifies this
      ensures added <==> answer == "ok"
      ensures records == if added then old(records) + [r] else old(records)
    {
      added := answer == "ok";
      if added {
        records := records + [r];
      }
    }

    /** The entry path as written: builds the record dated by the sentinel
        (so by the current time) and keeps it on `ok`. */
    method Submit(x: Extracted, answer: string, now: DateTime, strptime: Strptime, fromIso: IsoParser)
      returns (added: bool)
      modifies this
      ensures added <==> answer == "ok"
      ensures records == if added then old(records) + [EntryAsWritten(x, now, strptime, fromIso)] else old(records)
    {
      added := Confirm(EntryAsWritten(x, now, strptime, fromIso), answer);
    }

    /** The entry path with the extracted date normalised instead of the sentinel. */
    method SubmitCorrected(x: Extracted, answer: string, now: DateTime, strptime: Strptime, fromIso: IsoParser)
      returns (added: bool)
      modifies this
      ensures added <==> answer == "ok"
      ensures records == if added then old(records) + [Entry(x, now, strptime, fromIso)] else old(records)
    {
      added := Confirm(Entry(x, now, strptime, fromIso), answer);
    }
  }
}
