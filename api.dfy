/** The legs of one poll cycle and how their results are joined
    (src/api.rs). A leg's page is the HTTP outcome: the body text, or the
    message of the transport error. A leg ends either by returning a
    `Result` or by panicking (an `unwrap` on a missing capture, a division
    by zero, an empty partition). */
module Api {
  import opened Wrappers
  import opened Ints
  import opened Scrape
  import opened Fields
  import opened Cells

  const MainKey := "Parametersatz"
  const TopologyKey := "PSet0"
  const CellsKey := "PSet"

  /** `api::Error` */
  datatype Error = Unexpected | Fetch(cause: FetchError)

  /** How a spawned leg ended, as `JoinHandle::join` reports it. */
  datatype TaskOutcome<T> = Returned(result: Result<T, FetchError>) | Panicked

  /** The HTTP response body, or the message of a `ureq` error. */
  type Page = Result<string, string>

  // ---------------------------------------------------------------------
  // Reference: a decode plan as data

  /** The error of the first position of `positions` that is missing or does
      not parse, reading in order; None when every position reads. */
  function FirstFailure<T>(fields: seq<string>, positions: seq<nat>, parse: string -> Option<T>): Option<FetchError>
  {
    if positions == [] then None
    else match FieldAt(fields, positions[0], parse)
      case Err(e) => Some(e)
      case Ok(_) => FirstFailure(fields, positions[1..], parse)
  }

  predicate AllRead<T>(fields: seq<string>, positions: seq<nat>, parse: string -> Option<T>) {
    forall k :: 0 <= k < |positions| ==> positions[k] < |fields| && parse(fields[positions[k]]).Some?
  }

  lemma {:induction false} FirstFailureNone<T>(fields: seq<string>, positions: seq<nat>, parse: string -> Option<T>)
    ensures FirstFailure(fields, positions, parse).None? <==> AllRead(fields, positions, parse)
  {
    if positions != [] {
      FirstFailureNone(fields, positions[1..], parse);
      assert AllRead(fields, positions, parse) <==>
        positions[0] < |fields| && parse(fields[positions[0]]).Some? && AllRead(fields, positions[1..], parse);
    }
  }

  /** A plan whose last position lies past the payload, and whose present
      positions all parse, fails with "Value not found". */
  lemma {:induction false} FirstFailureMissing<T>(fields: seq<string>, positions: seq<nat>, parse: string -> Option<T>)
    requires positions != [] && positions[|positions| - 1] >= |fields|
    requires forall k :: 0 <= k < |positions| && positions[k] < |fields| ==> parse(fields[positions[k]]).Some?
    ensures FirstFailure(fields, positions, parse) == Some(ValueNotFound)
  {
    if positions[0] < |fields| {
      assert parse(fields[positions[0]]).Some?;
      var rest := positions[1..];
      assert forall k :: 0 <= k < |rest| ==> rest[k] == positions[k + 1];
      FirstFailureMissing(fields, rest, parse);
    }
  }

  // ---------------------------------------------------------------------
  // Main leg (main_data)

  /** The main panel's numbers, as the raw integers on the wire; the source
      then divides voltage by 1000 and state of charge and temperatures by
      10 in f32. */
  datatype Main = Main(voltage: int, current: int, stateOfCharge: int,
                       tempAvg: int, tempMin: int, tempMax: int, tempMaster: int)

  /** The split indices `main_data` reads: skip 1, then skip 2 before each
      further value. */
  const MainPositions: seq<nat> := [1, 4, 7, 10, 13, 16, 19]

  function DecodeMain(fields: seq<string>): Result<Main, FetchError> {
    var voltage :- FieldAt(fields, 1, ParseInt);
    var current :- FieldAt(fields, 4, ParseInt);
    var stateOfCharge :- FieldAt(fields, 7, ParseInt);
    var tempAvg :- FieldAt(fields, 10, ParseInt);
    var tempMin :- FieldAt(fields, 13, ParseInt);
    var tempMax :- FieldAt(fields, 16, ParseInt);
    var tempMaster :- FieldAt(fields, 19, ParseInt);
    Ok(Main(voltage, current, stateOfCharge, tempAvg, tempMin, tempMax, tempMaster))
  }

  /** `main_data` reads exactly the fields at indices 1, 4, ..., 19, in that
      order, and fails with the error of the first one that is missing or
      does not parse. */
  lemma MainPlan(fields: seq<string>)
    ensures DecodeMain(fields).Err? <==> FirstFailure(fields, MainPositions, ParseInt).Some?
    ensures DecodeMain(fields).Err? ==> DecodeMain(fields).error == FirstFailure(fields, MainPositions, ParseInt).value
    ensures DecodeMain(fields).Ok? ==>
              |fields| >= 20 &&
              DecodeMain(fields).value ==
                Main(ParseInt(fields[1]).value, ParseInt(fields[4]).value, ParseInt(fields[7]).value,
                     ParseInt(fields[10]).value, ParseInt(fields[13]).value, ParseInt(fields[16]).value,
                     ParseInt(fields[19]).value)
  {
    var p := MainPositions;
    var ff := FirstFailure(fields, p, ParseInt);
    if FieldAt(fields, 1, ParseInt).Err? {
      assert ff == Some(FieldAt(fields, 1, ParseInt).error);
      return;
    }
    assert ff == FirstFailure(fields, p[1..], ParseInt);
    p := p[1..];
    assert p == [4, 7, 10, 13, 16, 19];
    if FieldAt(fields, 4, ParseInt).Err? {
      assert ff == Some(FieldAt(fields, 4, ParseInt).error);
      return;
    }
    assert ff == FirstFailure(fields, p[1..], ParseInt);
    p := p[1..];
    assert p == [7, 10, 13, 16, 19];
    if FieldAt(fields, 7, ParseInt).Err? {
      assert ff == Some(FieldAt(fields, 7, ParseInt).error);
      return;
    }
    assert ff == FirstFailure(fields, p[1..], ParseInt);
    p := p[1..];
    assert p == [10, 13, 16, 19];
    if FieldAt(fields, 10, ParseInt).Err? {
      assert ff == Some(FieldAt(fields, 10, ParseInt).error);
      return;
    }
    assert ff == FirstFailure(fields, p[1..], ParseInt);
    p := p[1..];
    assert p == [13, 16, 19];
    if FieldAt(fields, 13, ParseInt).Err? {
      assert ff == Some(FieldAt(fields, 13, ParseInt).error);
      return;
    }
    assert ff == FirstFailure(fields, p[1..], ParseInt);
    p := p[1..];
    assert p == [16, 19];
    if FieldAt(fields, 16, ParseInt).Err? {
      assert ff == Some(FieldAt(fields, 16, ParseInt).error);
      return;
    }
    assert ff == FirstFailure(fields, p[1..], ParseInt);
    p := p[1..];
    assert p == [19];
    if FieldAt(fields, 19, ParseInt).Err? {
      assert ff == Some(FieldAt(fields, 19, ParseInt).error);
      return;
    }
    assert ff == FirstFailure(fields, p[1..], ParseInt);
    assert p[1..] == [];
  }

  /** A payload with fewer than 20 fields never decodes; when every present
      field it reads parses, the error is "Value not found". */
  lemma MainShortPayload(fields: seq<string>)
    requires |fields| < 20
    ensures DecodeMain(fields).Err?
    ensures (forall k :: 0 <= k < |MainPositions| && MainPositions[k] < |fields| ==>
               ParseInt(fields[MainPositions[k]]).Some?) ==>
            DecodeMain(fields) == Err(ValueNotFound)
  {
    MainPlan(fields);
    if forall k :: 0 <= k < |MainPositions| && MainPositions[k] < |fields| ==>
         ParseInt(fields[MainPositions[k]]).Some? {
      FirstFailureMissing(fields, MainPositions, ParseInt);
    }
  }

  /** `main_data` on the page of one request. */
  function MainData(page: Page): (r: TaskOutcome<Main>)
    // a transport error is returned as a fetch error
    ensures page.Err? ==> r == Returned(Err(Transport(page.error)))
    // the leg panics exactly when the page has no `Parametersatz` payload
    ensures r.Panicked? <==> page.Ok? && Capture(page.value, MainKey).None?
  {
    match page
    case Err(message) => Returned(Err(Transport(message)))
    case Ok(text) =>
      match Capture(text, MainKey)
      case None => Panicked
      case Some(payload) => Returned(DecodeMain(Split(payload, ',')))
  }

  /** The decode plan of `main_data`, run over one shared cursor. */
  method ReadMain(fields: seq<string>) returns (r: Result<Main, FetchError>)
    ensures r == DecodeMain(fields)
  {
    var it := new FieldCursor(fields);
    it.Skip(1);
    var voltageField := it.ParseNext(ParseInt);
    if voltageField.Err? {
      return Err(voltageField.error);
    }
    var voltage := voltageField.value;
    assert it.pos == 2;
    it.Skip(2);
    var currentField := it.ParseNext(ParseInt);
    if currentField.Err? {
      return Err(currentField.error);
    }
    var current := currentField.value;
    assert it.pos == 5;
    it.Skip(2);
    var stateOfChargeField := it.ParseNext(ParseInt);
    if stateOfChargeField.Err? {
      return Err(stateOfChargeField.error);
    }
    var stateOfCharge := stateOfChargeField.value;
    assert it.pos == 8;
    r := ReadTemperatures(it, voltage, current, stateOfCharge);
  }

  /** The rest of `main_data`'s plan, from a cursor just past field 7. */
  method ReadTemperatures(it: FieldCursor, voltage: int, current: int, stateOfCharge: int)
    returns (r: Result<Main, FetchError>)
    requires it.Valid() && it.pos == 8
    requires FieldAt(it.fields, 1, ParseInt) == Ok(voltage) && FieldAt(it.fields, 4, ParseInt) == Ok(current)
    requires FieldAt(it.fields, 7, ParseInt) == Ok(stateOfCharge)
    modifies it
    ensures r == DecodeMain(it.fields)
  {
    it.Skip(2);
    var tempAvgField := it.ParseNext(ParseInt);
    if tempAvgField.Err? {
      return Err(tempAvgField.error);
    }
    var tempAvg := tempAvgField.value;
    assert it.pos == 11;
    it.Skip(2);
    var tempMinField := it.ParseNext(ParseInt);
    if tempMinField.Err? {
      return Err(tempMinField.error);
    }
    var tempMin := tempMinField.value;
    assert it.pos == 14;
    it.Skip(2);
    var tempMaxField := it.ParseNext(ParseInt);
    if tempMaxField.Err? {
      return Err(tempMaxField.error);
    }
    var tempMax := tempMaxField.value;
    assert it.pos == 17;
    it.Skip(2);
    var tempMasterField := it.ParseNext(ParseInt);
    if tempMasterField.Err? {
      return Err(tempMasterField.error);
    }
    var tempMaster := tempMasterField.value;
    r := Ok(Main(voltage, current, stateOfCharge, tempAvg, tempMin, tempMax, tempMaster));
  }

  /** `main_data` */
  method RunMainLeg(page: Page) returns (o: TaskOutcome<Main>)
    ensures o == MainData(page)
  {
    if page.Err? {
      return Returned(Err(Transport(page.error)));
    }
    var captured := Capture(page.value, MainKey);
    if captured.None? {
      return Panicked;
    }
    var decoded := ReadMain(Split(captured.value, ','));
    o := Returned(decoded);
  }

  // ---------------------------------------------------------------------
  // Cell-voltage leg (ucell)

  /** The first five `PSet0` fields. */
  datatype Topology = Topology(slaves: nat, cells: nat, cellsPerSlave: nat,
                               tempSensors: nat, safeResistors: nat)

  const TopologyPositions: seq<nat> := [0, 1, 2, 3, 4]

  function DecodeTopology(fields: seq<string>): Result<Topology, FetchError> {
    var slaves :- FieldAt(fields, 0, ParseUsize);
    var cells :- FieldAt(fields, 1, ParseUsize);
    var cellsPerSlave :- FieldAt(fields, 2, ParseUsize);
    var tempSensors :- FieldAt(fields, 3, ParseUsize);
    var safeResistors :- FieldAt(fields, 4, ParseUsize);
    Ok(Topology(slaves, cells, cellsPerSlave, tempSensors, safeResistors))
  }

  /** The topology is the first five fields, in order, as usize; the first
      that is missing or does not parse decides the error. */
  lemma TopologyPlan(fields: seq<string>)
    ensures DecodeTopology(fields).Err? <==> FirstFailure(fields, TopologyPositions, ParseUsize).Some?
    ensures DecodeTopology(fields).Err? ==>
              DecodeTopology(fields).error == FirstFailure(fields, TopologyPositions, ParseUsize).value
    ensures DecodeTopology(fields).Ok? ==>
              |fields| >= 5 &&
              DecodeTopology(fields).value ==
                Topology(ParseUsize(fields[0]).value, ParseUsize(fields[1]).value, ParseUsize(fields[2]).value,
                         ParseUsize(fields[3]).value, ParseUsize(fields[4]).value)
  {
    var p := TopologyPositions;
    var ff := FirstFailure(fields, p, ParseUsize);
    if FieldAt(fields, 0, ParseUsize).Err? {
      assert ff == Some(FieldAt(fields, 0, ParseUsize).error);
      return;
    }
    assert ff == FirstFailure(fields, p[1..], ParseUsize);
    p := p[1..];
    assert p == [1, 2, 3, 4];
    if FieldAt(fields, 1, ParseUsize).Err? {
      assert ff == Some(FieldAt(fields, 1, ParseUsize).error);
      return;
    }
    assert ff == FirstFailure(fields, p[1..], ParseUsize);
    p := p[1..];
    assert p == [2, 3, 4];
    if FieldAt(fields, 2, ParseUsize).Err? {
      assert ff == Some(FieldAt(fields, 2, ParseUsize).error);
      return;
    }
    assert ff == FirstFailure(fields, p[1..], ParseUsize);
    p := p[1..];
    assert p == [3, 4];
    if FieldAt(fields, 3, ParseUsize).Err? {
      assert ff == Some(FieldAt(fields, 3, ParseUsize).error);
      return;
    }
    assert ff == FirstFailure(fields, p[1..], ParseUsize);
    p := p[1..];
    assert p == [4];
    if FieldAt(fields, 4, ParseUsize).Err? {
      assert ff == Some(FieldAt(fields, 4, ParseUsize).error);
      return;
    }
    assert ff == FirstFailure(fields, p[1..], ParseUsize);
    assert p[1..] == [];
  }

  /** The topology read of `ucell`: five `parse_next` calls on one cursor. */
  method ReadTopology(fields: seq<string>) returns (r: Result<Topology, FetchError>)
    ensures r == DecodeTopology(fields)
  {
    var it := new FieldCursor(fields);
    var slavesField := it.ParseNext(ParseUsize);
    if slavesField.Err? {
      return Err(slavesField.error);
    }
    var slaves := slavesField.value;
    assert it.pos == 1;
    var cellsField := it.ParseNext(ParseUsize);
    if cellsField.Err? {
      return Err(cellsField.error);
    }
    var cells := cellsField.value;
    assert it.pos == 2;
    var cellsPerSlaveField := it.ParseNext(ParseUsize);
    if cellsPerSlaveField.Err? {
      return Err(cellsPerSlaveField.error);
    }
    var cellsPerSlave := cellsPerSlaveField.value;
    assert it.pos == 3;
    var tempSensorsField := it.ParseNext(ParseUsize);
    if tempSensorsField.Err? {
      return Err(tempSensorsField.error);
    }
    var tempSensors := tempSensorsField.value;
    assert it.pos == 4;
    var safeResistorsField := it.ParseNext(ParseUsize);
    if safeResistorsField.Err? {
      return Err(safeResistorsField.error);
    }
    var safeResistors := safeResistorsField.value;
    r := Ok(Topology(slaves, cells, cellsPerSlave, tempSensors, safeResistors));
  }

  datatype Ucell = Ucell(
    numSlaves: nat, numCells: nat, numCellsPerSlave: nat,
    numTempSensors: nat, numSafeResistors: nat,
    overall: VoltageStats, left: VoltageStats, right: VoltageStats,
    cellVoltage: seq<u16>)

  /** The raw cell list of a page: the `PSet` payload without its first
      two fields, one u16 per remaining field. */
  function RawCells(text: string): seq<u16>
    requires Capture(text, CellsKey).Some?
  {
    DecodeCells(Split(Capture(text, CellsKey).value, ','))
  }

  /** The voltage part of a `Ucell`. */
  datatype VoltageReport = VoltageReport(overall: VoltageStats, left: VoltageStats, right: VoltageStats,
                                         cells: seq<u16>)

  /** The raw average, the optional sanitising pass, the two partitions and
      `overall`; None where the source panics. */
  function CellVoltages(raw: seq<u16>, safe: bool): Option<VoltageReport> {
    if |raw| == 0 then None
    else
      var avg := Mean(raw);
      var voltage := if safe then Sanitized(raw, avg) else raw;
      SanitizedAt(raw, avg);
      if |voltage| <= RightCells then None
      else
        var right := Stats(voltage[..RightCells]);
        var left := Stats(voltage[RightCells..]);
        Some(VoltageReport(Combine(avg, right, left), left, right, voltage))
  }

  /** The report exists exactly when there are more than 72 cells: an
      empty list divides by zero, one of at most 72 leaves `left` empty. */
  lemma CellVoltagesDefined(raw: seq<u16>, safe: bool)
    ensures CellVoltages(raw, safe).Some? <==> |raw| > RightCells
  {
    if |raw| > 0 {
      SanitizedAt(raw, Mean(raw));
    }
  }

  /** A report's list is the raw list, sanitised with its own raw mean
      when `safe`; `right` and `left` are the stats of its first 72 cells
      and of the rest. */
  lemma CellVoltagesPartitions(raw: seq<u16>, safe: bool)
    ensures CellVoltages(raw, safe).Some? ==>
      var r := CellVoltages(raw, safe).value;
      && r.cells == (if safe then Sanitized(raw, Mean(raw)) else raw)
      && |r.cells| == |raw|
      && r.right == Stats(r.cells[..RightCells])
      && r.left == Stats(r.cells[RightCells..])
  {
    if |raw| > 0 {
      SanitizedAt(raw, Mean(raw));
    }
  }

  /** A report's `overall` is the raw mean with the min, max and delta of
      the whole stored list; without sanitising it is the stats of that
      list. */
  lemma CellVoltagesOverall(raw: seq<u16>, safe: bool)
    ensures CellVoltages(raw, safe).Some? ==>
      var r := CellVoltages(raw, safe).value;
      && r.overall == VoltageStats(Mean(raw), SeqMin(r.cells), SeqMax(r.cells), SeqMax(r.cells) - SeqMin(r.cells))
      && (!safe ==> r.overall == Stats(r.cells))
  {
    if CellVoltages(raw, safe).Some? {
      var r := CellVoltages(raw, safe).value;
      CellVoltagesPartitions(raw, safe);
      CombineCoversAll(Mean(raw), r.cells);
      assert r.overall == Combine(Mean(raw), r.right, r.left);
    }
  }

  /** The end of `ucell` once the voltage report is computed: the `PSet0`
      payload must be present, and its first five fields are the topology. */
  function AssembleUcell(report: Option<VoltageReport>, topology: Option<string>): TaskOutcome<Ucell> {
    match report
    case None => Panicked
    case Some(v) =>
      match topology
      case None => Panicked
      case Some(payload) =>
        match DecodeTopology(Split(payload, ','))
        case Err(e) => Returned(Err(e))
        case Ok(t) =>
          Returned(Ok(Ucell(t.slaves, t.cells, t.cellsPerSlave, t.tempSensors, t.safeResistors,
                            v.overall, v.left, v.right, v.cells)))
  }

  /** `ucell` on the page of one request. */
  function UcellData(page: Page, safe: bool): (r: TaskOutcome<Ucell>)
    // a transport error is returned as a fetch error; a panic needs a page
    ensures page.Err? ==> r == Returned(Err(Transport(page.error)))
    ensures page.Ok? && Capture(page.value, CellsKey).None? ==> r.Panicked?
  {
    match page
    case Err(message) => Returned(Err(Transport(message)))
    case Ok(text) =>
      if Capture(text, CellsKey).None? then Panicked
      else AssembleUcell(CellVoltages(RawCells(text), safe), Capture(text, TopologyKey))
  }

  /** The voltage part of `ucell` in place: the list becomes an array that
      the sanitising pass rewrites, and `voltage_stats` runs over each
      partition. The list is bounded so that no partition's u32 sum can
      overflow. */
  method ComputeCellVoltages(raw: seq<u16>, safe: bool) returns (r: Option<VoltageReport>)
    requires |raw| <= MaxCells
    ensures r == CellVoltages(raw, safe)
  {
    if |raw| == 0 {
      return None;
    }
    var avg := Mean(raw);
    var voltage := new u16[|raw|](k requires 0 <= k < |raw| => raw[k]);
    assert voltage[..] == raw;
    if safe {
      SanitizeInPlace(voltage, avg);
    }
    SanitizedAt(raw, avg);
    var cells := voltage[..];
    assert cells == if safe then Sanitized(raw, avg) else raw;
    var right := VoltageStatsOf(cells[..MinNat(RightCells, |cells|)]);
    if |cells| <= RightCells {
      return None;
    }
    var left := VoltageStatsOf(cells[RightCells..]);
    r := Some(VoltageReport(Combine(avg, right, left), left, right, cells));
  }

  /** `ucell`. The page is bounded by `MaxCells` characters, which bounds
      the number of cells. */
  method RunUcellLeg(page: Page, safe: bool) returns (o: TaskOutcome<Ucell>)
    requires page.Ok? && Capture(page.value, CellsKey).Some? ==> |RawCells(page.value)| <= MaxCells
    ensures o == UcellData(page, safe)
  {
    if page.Err? {
      return Returned(Err(Transport(page.error)));
    }
    var text := page.value;
    var captured := Capture(text, CellsKey);
    if captured.None? {
      return Panicked;
    }
    var raw := DecodeCells(Split(captured.value, ','));
    DecodeCellsPositional(Split(captured.value, ','));
    var report := ComputeCellVoltages(raw, safe);
    if report.None? {
      return Panicked;
    }
    var v := report.value;
    var topology := Capture(text, TopologyKey);
    if topology.None? {
      return Panicked;
    }
    var t := ReadTopology(Split(topology.value, ','));
    if t.Err? {
      return Returned(Err(t.error));
    }
    o := Returned(Ok(Ucell(t.value.slaves, t.value.cells, t.value.cellsPerSlave,
                           t.value.tempSensors, t.value.safeResistors,
                           v.overall, v.left, v.right, v.cells)));
  }

  /** When `ucell` panics: no `PSet` payload, at most 72 cells (an empty
      list divides by zero, a list of at most 72 leaves `left` empty), or no
      `PSet0` payload. Sanitising never changes which. */
  lemma UcellPanics(text: string, safe: bool)
    ensures UcellData(Ok(text), safe) == Panicked <==>
              Capture(text, CellsKey).None? || |RawCells(text)| <= RightCells ||
              Capture(text, TopologyKey).None?
  {
    if Capture(text, CellsKey).Some? {
      CellVoltagesDefined(RawCells(text), safe);
    }
  }

  lemma AssembleContents(report: Option<VoltageReport>, topology: Option<string>, u: Ucell)
    requires AssembleUcell(report, topology) == Returned(Ok(u))
    ensures report == Some(VoltageReport(u.overall, u.left, u.right, u.cellVoltage))
    ensures topology.Some? && DecodeTopology(Split(topology.value, ',')) ==
              Ok(Topology(u.numSlaves, u.numCells, u.numCellsPerSlave, u.numTempSensors, u.numSafeResistors))
  {
  }

  /** A decoded `Ucell` carries the voltage report of its raw list and the
      first five `PSet0` fields as its topology. */
  lemma UcellContents(text: string, safe: bool, u: Ucell)
    requires UcellData(Ok(text), safe) == Returned(Ok(u))
    ensures Capture(text, CellsKey).Some? && Capture(text, TopologyKey).Some?
    ensures CellVoltages(RawCells(text), safe) == Some(VoltageReport(u.overall, u.left, u.right, u.cellVoltage))
    ensures |u.cellVoltage| == |RawCells(text)| > RightCells
    ensures DecodeTopology(Split(Capture(text, TopologyKey).value, ',')) ==
              Ok(Topology(u.numSlaves, u.numCells, u.numCellsPerSlave, u.numTempSensors, u.numSafeResistors))
  {
    AssembleContents(CellVoltages(RawCells(text), safe), Capture(text, TopologyKey), u);
    CellVoltagesPartitions(RawCells(text), safe);
  }

  // ---------------------------------------------------------------------
  // Joining (join_task, Request)

  /** `join_task`: a returned value passes through, a returned error becomes
      `Fetch`, a panic becomes `Unexpected`. */
  function JoinTask<T>(o: TaskOutcome<T>): (r: Result<T, Error>)
    ensures r.Ok? <==> o.Returned? && o.result.Ok?
    ensures r.Ok? ==> r.value == o.result.value
    ensures r == Err(Unexpected) <==> o.Panicked?
    ensures o.Returned? && o.result.Err? ==> r == Err(Fetch(o.result.error))
  {
    match o
    case Returned(Ok(d)) => Ok(d)
    case Returned(Err(e)) => Err(Fetch(e))
    case Panicked => Err(Unexpected)
  }

  /** A page without the key makes its leg panic, which the join reports as
      `Unexpected`, not as a fetch failure. */
  lemma MissingKeyIsUnexpected(text: string, safe: bool)
    ensures (forall i: nat, v: string :: !MatchAt(text, MainKey, i, v)) ==>
              JoinTask(MainData(Ok(text))) == Err(Unexpected)
    ensures (forall i: nat, v: string :: !MatchAt(text, CellsKey, i, v)) ==>
              JoinTask(UcellData(Ok(text), safe)) == Err(Unexpected)
  {
    CaptureNoneIffNoMatch(text, MainKey);
    CaptureNoneIffNoMatch(text, CellsKey);
  }

  /** One spawned leg: whether its thread is done, and how it ends. */
  datatype Task<T> = Task(finished: bool, outcome: TaskOutcome<T>)

  /** `Request`: the three legs of one cycle. The temperature leg works in
      f32 and is kept abstract as `T`. */
  datatype Request<T> = Request(mainTask: Task<Main>, ucellTask: Task<Ucell>, tcellTask: Task<T>)

  /** `Data`: one complete snapshot. */
  datatype Data<T> = Data(main: Main, ucell: Ucell, tcell: T)

  /** `Request::is_finished` */
  function IsFinished<T>(r: Request<T>): (b: bool)
    ensures b <==> r.mainTask.finished && r.ucellTask.finished && r.tcellTask.finished
  {
    r.mainTask.finished && r.ucellTask.finished && r.tcellTask.finished
  }

  /** A leg as it runs: the step at which its thread completes, and how it
      ends. */
  datatype Leg<T> = Leg(doneAt: nat, outcome: TaskOutcome<T>)

  /** The handle of a leg at step `t`: `is_finished` turns true when the
      thread completes and stays true. */
  function TaskAt<T>(leg: Leg<T>, t: nat): Task<T> {
    Task(leg.doneAt <= t, leg.outcome)
  }

  /** The request of `fetch` at step `t`. */
  function RequestAt<T>(main: Leg<Main>, ucell: Leg<Ucell>, tcell: Leg<T>, t: nat): Request<T> {
    Request(TaskAt(main, t), TaskAt(ucell, t), TaskAt(tcell, t))
  }

  function Latest(a: nat, b: nat, c: nat): (m: nat)
    ensures a <= m && b <= m && c <= m
    ensures m == a || m == b || m == c
  {
    if a >= b && a >= c then a else if b >= c then b else c
  }

  /** A request is finished exactly from the step at which its last leg
      completes: false while any leg is outstanding. */
  lemma FinishedWhenAllDone<T>(main: Leg<Main>, ucell: Leg<Ucell>, tcell: Leg<T>, t: nat)
    ensures IsFinished(RequestAt(main, ucell, tcell, t)) <==> Latest(main.doneAt, ucell.doneAt, tcell.doneAt) <= t
  {
  }

  /** Once finished, a request stays finished. */
  lemma FinishedStays<T>(main: Leg<Main>, ucell: Leg<Ucell>, tcell: Leg<T>, t: nat, t': nat)
    requires t <= t'
    ensures IsFinished(RequestAt(main, ucell, tcell, t)) ==> IsFinished(RequestAt(main, ucell, tcell, t'))
  {
  }

  /** `Request::join`: all three legs must succeed; the legs are joined in
      the order main, ucell, tcell and the first failure is returned. */
  function Join<T>(r: Request<T>): (d: Result<Data<T>, Error>)
    ensures d.Ok? <==> JoinTask(r.mainTask.outcome).Ok? && JoinTask(r.ucellTask.outcome).Ok? &&
                       JoinTask(r.tcellTask.outcome).Ok?
    ensures d.Ok? ==> d.value == Data(r.mainTask.outcome.result.value, r.ucellTask.outcome.result.value,
                                      r.tcellTask.outcome.result.value)
  {
    var main :- JoinTask(r.mainTask.outcome);
    var ucell :- JoinTask(r.ucellTask.outcome);
    var tcell :- JoinTask(r.tcellTask.outcome);
    Ok(Data(main, ucell, tcell))
  }

  /** The error a leg contributes to a join, if any. */
  function Failure<T>(o: TaskOutcome<T>): Option<Error> {
    match JoinTask(o)
    case Ok(_) => None
    case Err(e) => Some(e)
  }

  /** Reference: the first error of a sequence, scanning from the front. */
  function FirstError(errors: seq<Option<Error>>): Option<Error> {
    if errors == [] then None else if errors[0].Some? then errors[0] else FirstError(errors[1..])
  }

  /** The join fails exactly when some leg fails, with the error of the
      first failing leg in the order main, ucell, tcell. */
  lemma JoinFirstFailure<T>(r: Request<T>)
    ensures var first := FirstError([Failure(r.mainTask.outcome), Failure(r.ucellTask.outcome),
                                     Failure(r.tcellTask.outcome)]);
            (Join(r).Err? <==> first.Some?) && (Join(r).Err? ==> Join(r).error == first.value)
  {
    var errors := [Failure(r.mainTask.outcome), Failure(r.ucellTask.outcome), Failure(r.tcellTask.outcome)];
    if errors[0].None? {
      assert FirstError(errors) == FirstError([errors[1], errors[2]]);
      if errors[1].None? {
        assert FirstError([errors[1], errors[2]]) == FirstError([errors[2]]);
        assert FirstError([errors[2]]) == if errors[2].Some? then errors[2] else FirstError([]);
      }
    }
  }
}
