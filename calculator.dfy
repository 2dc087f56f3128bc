// The calculator page's own logic around the engine: the edits to the
// custom-asset and life-event lists, the dashboard metrics and the CSV
// export of the projection.

module Calculator {
  import opened JsMath
  import opened Plan
  import FireMath
  import Formatters
  import ProEngine

  // ---------------------------------------------------------------- list edits

  /** `xs.map(x => hit(x) ? edit(x) : x)`. */
  function MapWhere<T>(xs: seq<T>, hit: T -> bool, edit: T -> T): (r: seq<T>)
    ensures |r| == |xs|
  {
    if xs == [] then []
    else MapWhere(xs[..|xs| - 1], hit, edit) + [if hit(xs[|xs| - 1]) then edit(xs[|xs| - 1]) else xs[|xs| - 1]]
  }

  /** The edited list has the same length, edits exactly the hit elements
      and leaves the others in place. */
  lemma {:induction false} MapWhereAt<T>(xs: seq<T>, hit: T -> bool, edit: T -> T, i: int)
    requires 0 <= i < |xs|
    ensures MapWhere(xs, hit, edit)[i] == if hit(xs[i]) then edit(xs[i]) else xs[i]
  {
    if i < |xs| - 1 {
      MapWhereAt(xs[..|xs| - 1], hit, edit, i);
    }
  }

  /** Editing with nothing hit is the identity. */
  lemma {:induction false} MapWhereNoHit<T>(xs: seq<T>, hit: T -> bool, edit: T -> T)
    requires forall x :: x in xs ==> !hit(x)
    ensures MapWhere(xs, hit, edit) == xs
  {
    if xs != [] {
      MapWhereNoHit(xs[..|xs| - 1], hit, edit);
      assert xs[..|xs| - 1] + [xs[|xs| - 1]] == xs;
    }
  }

  function AssetIds(assets: seq<CustomAsset>): set<int>
  {
    set a | a in assets :: a.id
  }

  /** A new custom asset with the clock's millisecond time as its id, no
      name, no value, a 10% return and a 20% tax rate, appended. */
  function AddCustomAsset(assets: seq<CustomAsset>, now: int): (r: seq<CustomAsset>)
    ensures |r| == |assets| + 1 && r[..|assets|] == assets
    ensures r[|assets|] == CustomAsset(now, "", 0.0, 10.0, 20.0)
  {
    assets + [CustomAsset(now, "", 0.0, 10.0, 20.0)]
  }

  /** The one field an asset editor changes (`[field]: val`). */
  datatype AssetField = Name(name: string) | Value(value: real) | ReturnRate(returnRate: real) | TaxRate(taxRate: real)

  function SetAssetField(a: CustomAsset, f: AssetField): (r: CustomAsset)
    ensures r.id == a.id
  {
    match f
    case Name(v) => a.(name := v)
    case Value(v) => a.(value := v)
    case ReturnRate(v) => a.(returnRate := v)
    case TaxRate(v) => a.(taxRate := v)
  }

  function UpdateCustomAsset(assets: seq<CustomAsset>, id: int, f: AssetField): (r: seq<CustomAsset>)
    ensures |r| == |assets|
  {
    MapWhere(assets, (a: CustomAsset) => a.id == id, (a: CustomAsset) => SetAssetField(a, f))
  }

  /** Updating changes exactly the assets with the given id, in that one
      field, and keeps every asset's position and id. */
  lemma UpdateCustomAssetAt(assets: seq<CustomAsset>, id: int, f: AssetField, i: int)
    requires 0 <= i < |assets|
    ensures var r := UpdateCustomAsset(assets, id, f);
            r[i].id == assets[i].id
            && (assets[i].id == id ==> r[i] == SetAssetField(assets[i], f))
            && (assets[i].id != id ==> r[i] == assets[i])
  {
    MapWhereAt(assets, (a: CustomAsset) => a.id == id, (a: CustomAsset) => SetAssetField(a, f), i);
  }

  /** Updating an id no asset has changes nothing. */
  lemma UpdateAbsentAsset(assets: seq<CustomAsset>, id: int, f: AssetField)
    requires id !in AssetIds(assets)
    ensures UpdateCustomAsset(assets, id, f) == assets
  {
    MapWhereNoHit(assets, (a: CustomAsset) => a.id == id, (a: CustomAsset) => SetAssetField(a, f));
  }

  function RemoveCustomAsset(assets: seq<CustomAsset>, id: int): (r: seq<CustomAsset>)
    ensures id !in AssetIds(r)
    ensures forall a :: a in r <==> a in assets && a.id != id
  {
    FilterMembers(assets, (a: CustomAsset) => a.id != id);
    Filter(assets, (a: CustomAsset) => a.id != id)
  }

  /** Removal keeps the remaining assets in their order: an asset survives
      in place exactly when its id differs. */
  lemma RemoveAssetKeepsOrder(before: seq<CustomAsset>, a: CustomAsset, after: seq<CustomAsset>, id: int)
    ensures RemoveCustomAsset(before + [a] + after, id)
            == RemoveCustomAsset(before, id) + (if a.id != id then [a] else []) + RemoveCustomAsset(after, id)
  {
    var keep := (x: CustomAsset) => x.id != id;
    FilterAppend(before + [a], after, keep);
    FilterAppend(before, [a], keep);
    assert [a][..0] == [];
  }

  /** Removing an asset that was just added under a fresh id restores the
      list. */
  lemma RemoveAddedAsset(assets: seq<CustomAsset>, now: int)
    requires now !in AssetIds(assets)
    ensures RemoveCustomAsset(AddCustomAsset(assets, now), now) == assets
  {
    var added := AddCustomAsset(assets, now);
    var keep := (a: CustomAsset) => a.id != now;
    assert added[..|added| - 1] == assets;
    FilterKeepsAll(assets, keep);
  }

  function EventIds(events: seq<LifeEvent>): set<real>
  {
    set e | e in events :: e.id
  }

  /** A new goal five years from the current age costing 10,00,000 (no
      type, so one-time), appended; its id is the clock's millisecond time
      plus a random fraction. */
  function AddEvent(events: seq<LifeEvent>, id: real, currentAge: real): (r: seq<LifeEvent>)
    ensures |r| == |events| + 1 && r[..|events|] == events
    ensures var e := r[|events|];
            e.id == id && e.name == "New Goal" && e.age == currentAge + 5.0 && e.cost == 1000000.0
            && e.kind == OneTime && e.endAge.None? && !e.processed
  {
    events + [LifeEvent(id, "New Goal", currentAge + 5.0, 1000000.0, OneTime, None, false)]
  }

  /** The one field an event editor changes. */
  datatype EventField =
    | EventName(name: string) | EventAge(age: real) | EventCost(cost: real)
    | EventType(kind: EventKind) | EventEndAge(endAge: Option<real>)

  function SetEventField(e: LifeEvent, f: EventField): (r: LifeEvent)
    ensures r.id == e.id && r.processed == e.processed
  {
    match f
    case EventName(v) => e.(name := v)
    case EventAge(v) => e.(age := v)
    case EventCost(v) => e.(cost := v)
    case EventType(v) => e.(kind := v)
    case EventEndAge(v) => e.(endAge := v)
  }

  function UpdateEvent(events: seq<LifeEvent>, id: real, f: EventField): (r: seq<LifeEvent>)
    ensures |r| == |events|
  {
    MapWhere(events, (e: LifeEvent) => e.id == id, (e: LifeEvent) => SetEventField(e, f))
  }

  /** Updating changes exactly the events with the given id, in that one
      field, and keeps every event's position and id. */
  lemma UpdateEventAt(events: seq<LifeEvent>, id: real, f: EventField, i: int)
    requires 0 <= i < |events|
    ensures var r := UpdateEvent(events, id, f);
            r[i].id == events[i].id
            && (events[i].id == id ==> r[i] == SetEventField(events[i], f))
            && (events[i].id != id ==> r[i] == events[i])
  {
    MapWhereAt(events, (e: LifeEvent) => e.id == id, (e: LifeEvent) => SetEventField(e, f), i);
  }

  /** Updating an id no event has changes nothing. */
  lemma UpdateAbsentEvent(events: seq<LifeEvent>, id: real, f: EventField)
    requires id !in EventIds(events)
    ensures UpdateEvent(events, id, f) == events
  {
    MapWhereNoHit(events, (e: LifeEvent) => e.id == id, (e: LifeEvent) => SetEventField(e, f));
  }

  function RemoveEvent(events: seq<LifeEvent>, id: real): (r: seq<LifeEvent>)
    ensures id !in EventIds(r)
    ensures forall e :: e in r <==> e in events && e.id != id
  {
    FilterMembers(events, (e: LifeEvent) => e.id != id);
    Filter(events, (e: LifeEvent) => e.id != id)
  }

  /** Removal keeps the remaining goals in their order: a goal survives in
      place exactly when its id differs. */
  lemma RemoveEventKeepsOrder(before: seq<LifeEvent>, e: LifeEvent, after: seq<LifeEvent>, id: real)
    ensures RemoveEvent(before + [e] + after, id)
            == RemoveEvent(before, id) + (if e.id != id then [e] else []) + RemoveEvent(after, id)
  {
    var keep := (x: LifeEvent) => x.id != id;
    FilterAppend(before + [e], after, keep);
    FilterAppend(before, [e], keep);
    assert [e][..0] == [];
  }

  /** Removing a goal that was just added under a fresh id restores the list. */
  lemma RemoveAddedEvent(events: seq<LifeEvent>, id: real, currentAge: real)
    requires id !in EventIds(events)
    ensures RemoveEvent(AddEvent(events, id, currentAge), id) == events
  {
    var added := AddEvent(events, id, currentAge);
    var keep := (e: LifeEvent) => e.id != id;
    assert added[..|added| - 1] == events;
    FilterKeepsAll(events, keep);
  }

  // ---------------------------------------------------------------- metrics

  /** The dashboard figures; the coverage is null where the page shows
      "N/A" (its one-decimal rendering is left to the display). */
  datatype Metrics = Metrics(
    totalEquity: real, totalStable: real, totalCustom: real, totalNetWorth: real,
    monthlyIncome: real, monthlyExpenses: real, totalSip: real, netCashflow: real,
    isSurplus: bool, emergencyCoverageMonths: Option<real>)

  function ComputeMetrics(c: Config): (r: Metrics)
    ensures r.totalNetWorth == Sum(c.equityAssets) + Sum(c.stableAssets) + Sum(FireMath.CustomStart(c.customAssets))
                               + c.emergencyFund
    ensures r.isSurplus <==> c.annualIncome >= c.currentAnnualExpenses + 12.0 * (c.monthlySIP.equity + c.monthlySIP.stable)
    ensures r.emergencyCoverageMonths.None? <==> c.currentAnnualExpenses <= 0.0
    ensures r.emergencyCoverageMonths.Some? ==> r.emergencyCoverageMonths.value * r.monthlyExpenses == c.emergencyFund
  {
    var totalEquity := Sum(c.equityAssets);
    var totalStable := Sum(c.stableAssets);
    var totalCustom := Sum(FireMath.CustomStart(c.customAssets));
    var monthlyIncome := c.annualIncome / 12.0;
    var monthlyExpenses := c.currentAnnualExpenses / 12.0;
    var totalSip := c.monthlySIP.equity + c.monthlySIP.stable;
    var netCashflow := monthlyIncome - monthlyExpenses - totalSip;
    Metrics(totalEquity, totalStable, totalCustom, totalEquity + totalStable + totalCustom + c.emergencyFund,
            monthlyIncome, monthlyExpenses, totalSip, netCashflow, netCashflow >= 0.0,
            if monthlyExpenses > 0.0 then Some(c.emergencyFund / monthlyExpenses) else None)
  }

  // ---------------------------------------------------------------- CSV

  function Digit(d: nat): char
    requires d < 10
  {
    "0123456789"[d]
  }

  /** The decimal digits of a natural number, most significant first. */
  function NatText(n: nat): (s: string)
    ensures |s| > 0 && forall i :: 0 <= i < |s| ==> '0' <= s[i] <= '9'
  {
    if n < 10 then [Digit(n)] else NatText(n / 10) + [Digit(n % 10)]
  }

  /** `String(n)` for an integer. */
  function IntText(n: int): (s: string)
    ensures |s| > 0 && forall i :: 0 <= i < |s| ==> s[i] == '-' || '0' <= s[i] <= '9'
  {
    if n < 0 then "-" + NatText(-n) else NatText(n)
  }

  /** A value as `Array.prototype.join` renders it: null as the empty
      string. */
  function CellText(v: Option<int>): (s: string)
    ensures v.None? <==> s == ""
  {
    if v.Some? then IntText(v.value) else ""
  }

  /** The event cell: the number after `sanitizeCSV`, which leaves numbers
      alone, rendered as text. */
  function EventCell(event: int): string
  {
    match Formatters.SanitizeCsv(Formatters.Number(Finite(event as real)))
    case Number(_) => IntText(event)
    case Text(t) => t
  }

  /** Sanitising never quotes the event cell: it is the plain number. */
  lemma EventCellIsNumber(event: int)
    ensures EventCell(event) == IntText(event)
  {
    Formatters.SanitizeCsvKeepsNumbers(Finite(event as real));
  }

  const HeaderCells: seq<string> := ["Age", "Balance", "RealValue", "Equity", "Stable", "Alternative", "Target", "Event"]

  /** `parts.join(sep)`. */
  function Join(parts: seq<string>, sep: char): string
  {
    if parts == [] then ""
    else if |parts| == 1 then parts[0]
    else Join(parts[..|parts| - 1], sep) + [sep] + parts[|parts| - 1]
  }

  /** The header line. */
  function Header(): (h: string)
    ensures h == "Age,Balance,RealValue,Equity,Stable,Alternative,Target,Event"
  {
    assert Join(HeaderCells[..1], ',') == "Age";
    assert HeaderCells[..2][..1] == HeaderCells[..1];
    assert Join(HeaderCells[..2], ',') == "Age,Balance";
    assert HeaderCells[..3][..2] == HeaderCells[..2];
    assert Join(HeaderCells[..3], ',') == "Age,Balance,RealValue";
    assert HeaderCells[..4][..3] == HeaderCells[..3];
    assert Join(HeaderCells[..4], ',') == "Age,Balance,RealValue,Equity";
    assert HeaderCells[..5][..4] == HeaderCells[..4];
    assert Join(HeaderCells[..5], ',') == "Age,Balance,RealValue,Equity,Stable";
    assert HeaderCells[..6][..5] == HeaderCells[..5];
    assert Join(HeaderCells[..6], ',') == "Age,Balance,RealValue,Equity,Stable,Alternative";
    assert HeaderCells[..7][..6] == HeaderCells[..6];
    assert Join(HeaderCells[..7], ',') == "Age,Balance,RealValue,Equity,Stable,Alternative,Target";
    assert HeaderCells[..8][..7] == HeaderCells[..7];
    assert Join(HeaderCells[..8], ',') == "Age,Balance,RealValue,Equity,Stable,Alternative,Target,Event";
    assert HeaderCells[..8] == HeaderCells;
    Join(HeaderCells, ',')
  }

  /** One row's cells, in the header's column order (the withdrawals are
      not exported). */
  function Cells(d: ProEngine.Snapshot): (r: seq<string>)
    ensures |r| == |HeaderCells|
  {
    [IntText(d.age), IntText(d.balance), IntText(d.realBalance), IntText(d.equity), IntText(d.stable),
     IntText(d.custom), CellText(d.target), EventCell(d.event)]
  }

  function Row(d: ProEngine.Snapshot): string
  {
    Join(Cells(d), ',')
  }

  function Rows(data: seq<ProEngine.Snapshot>): (r: seq<string>)
    ensures |r| == |data|
  {
    if data == [] then [] else Rows(data[..|data| - 1]) + [Row(data[|data| - 1])]
  }

  lemma {:induction false} RowsAt(data: seq<ProEngine.Snapshot>, i: int)
    requires 0 <= i < |data|
    ensures Rows(data)[i] == Row(data[i])
  {
    if i < |data| - 1 {
      RowsAt(data[..|data| - 1], i);
    }
  }

  /** The downloaded file: the header line, then one line per snapshot. */
  function Csv(data: seq<ProEngine.Snapshot>): string
  {
    Join([Header()] + Rows(data), '\n')
  }

  // ---------------------------------------------------------------- CSV shape

  function Count(s: string, ch: char): nat
  {
    if s == [] then 0 else Count(s[..|s| - 1], ch) + (if s[|s| - 1] == ch then 1 else 0)
  }

  lemma {:induction false} CountAbsent(s: string, ch: char)
    requires ch !in s
    ensures Count(s, ch) == 0
  {
    if s != [] {
      assert s[|s| - 1] in s;
      assert forall x :: x in s[..|s| - 1] ==> x in s;
      CountAbsent(s[..|s| - 1], ch);
    }
  }

  lemma {:induction false} CountAppend(a: string, b: string, ch: char)
    ensures Count(a + b, ch) == Count(a, ch) + Count(b, ch)
  {
    if b != [] {
      assert (a + b)[..|a + b| - 1] == a + b[..|b| - 1];
      CountAppend(a, b[..|b| - 1], ch);
    } else {
      assert a + b == a;
    }
  }

  /** Joining parts that each hold `ch` exactly n times puts n times as
      many in the result, plus one per separator when `ch` is the
      separator. */
  lemma {:induction false} JoinCount(parts: seq<string>, sep: char, ch: char, n: nat)
    requires |parts| > 0
    requires forall i :: 0 <= i < |parts| ==> Count(parts[i], ch) == n
    ensures Count(Join(parts, sep), ch) == n * |parts| + if ch == sep then |parts| - 1 else 0
  {
    if |parts| > 1 {
      var init := parts[..|parts| - 1];
      var joined := Join(init, sep);
      var extra := if ch == sep then 1 else 0;
      JoinCount(init, sep, ch, n);
      CountAppend(joined + [sep], parts[|parts| - 1], ch);
      CountAppend(joined, [sep], ch);
      assert Count([sep], ch) == Count([], ch) + extra;
      assert Count(Join(parts, sep), ch) == Count(joined, ch) + extra + n;
      MulSucc(n, |init|);
    }
  }

  lemma MulSucc(n: nat, k: nat)
    ensures n * (k + 1) == n * k + n
  {
  }

  /** A character other than the separator that is in no part is not in
      the joined string. */
  lemma {:induction false} JoinFree(parts: seq<string>, sep: char, ch: char)
    requires ch != sep
    requires forall i :: 0 <= i < |parts| ==> ch !in parts[i]
    ensures ch !in Join(parts, sep)
  {
    if |parts| > 1 {
      JoinFree(parts[..|parts| - 1], sep, ch);
    }
  }

  /** Number text holds neither a comma nor a line break. */
  lemma NumberFree(n: int)
    ensures ',' !in IntText(n) && '\n' !in IntText(n)
  {
    var s := IntText(n);
    assert forall j :: 0 <= j < |s| ==> s[j] != ',' && s[j] != '\n';
  }

  /** A cell holds neither a comma nor a line break. */
  lemma CellFree(d: ProEngine.Snapshot, i: int, ch: char)
    requires 0 <= i < |HeaderCells| && (ch == ',' || ch == '\n')
    ensures ch !in Cells(d)[i]
  {
    var cells := Cells(d);
    if i == 6 {
      if d.target.Some? {
        NumberFree(d.target.value);
      }
    } else if i == 7 {
      EventCellIsNumber(d.event);
      NumberFree(d.event);
    } else {
      var n := [d.age, d.balance, d.realBalance, d.equity, d.stable, d.custom][i];
      assert cells[i] == IntText(n);
      NumberFree(n);
    }
  }

  /** Every row has the header's eight fields: seven commas and no line
      break, whatever the values (negatives and a null target included). */
  lemma RowShape(d: ProEngine.Snapshot)
    ensures Count(Row(d), ',') == |HeaderCells| - 1 && '\n' !in Row(d)
  {
    var cells := Cells(d);
    forall i | 0 <= i < |cells|
      ensures Count(cells[i], ',') == 0 && '\n' !in cells[i]
    {
      CellFree(d, i, ',');
      CellFree(d, i, '\n');
      CountAbsent(cells[i], ',');
    }
    JoinCount(cells, ',', ',', 0);
    JoinFree(cells, ',', '\n');
  }

  /** The header has the same eight fields and no line break. */
  lemma HeaderShape()
    ensures Count(Header(), ',') == |HeaderCells| - 1 && '\n' !in Header()
  {
    forall i | 0 <= i < |HeaderCells|
      ensures Count(HeaderCells[i], ',') == 0 && '\n' !in HeaderCells[i]
    {
      CountAbsent(HeaderCells[i], ',');
    }
    JoinCount(HeaderCells, ',', ',', 0);
    JoinFree(HeaderCells, ',', '\n');
  }

  /** The file has one line for the header and one per snapshot, and every
      line has the header's eight fields. */
  lemma CsvShape(data: seq<ProEngine.Snapshot>)
    ensures Count(Csv(data), '\n') == |data|
    ensures Count(Csv(data), ',') == (|HeaderCells| - 1) * (|data| + 1)
  {
    var lines := [Header()] + Rows(data);
    forall i | 0 <= i < |lines|
      ensures Count(lines[i], '\n') == 0 && Count(lines[i], ',') == |HeaderCells| - 1
    {
      if i == 0 {
        HeaderShape();
      } else {
        RowsAt(data, i - 1);
        RowShape(data[i - 1]);
      }
      CountAbsent(lines[i], '\n');
    }
    JoinCount(lines, '\n', '\n', 0);
    JoinCount(lines, '\n', ',', |HeaderCells| - 1);
  }
}
