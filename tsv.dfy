/**
 * `out_tsv` (src/temp_output_tsv.c): the bus table, a blank line, the
 * thermometer table, written to `<file>.tmp` one `write` per line and renamed
 * over `<file>` only when every write succeeded.
 *
 * Each `write` is one element of the sequence of writes; whether the n-th
 * `write` call fails, whether `open` succeeds and whether `rename` succeeds are
 * an oracle (`TsvIo`).
 */
module TsvOutput {
  import opened TempTypes
  import opened Format
  import opened Snapshot
  import opened Files

  const DEVICE_HEADER: string := "NUM\tDEVICE\tSTATUS\tTHERMO_COUNT\n"
  const THERMO_HEADER: string := "\nNUM\tDEVICE_NUM\tADDRESS\tSCRATCHPAD\tTEMPERATURE\n"
  /** Size of the line buffer `output`. */
  const BUF_SIZE: nat := 88
  /** Size of the temporary-name buffer. */
  const FNAME_SIZE: nat := 128

  /** The columns of the bus line for wire `i`. */
  function DeviceColumns(i: int, w: WireView): seq<string> {
    [IntString(i), w.device, IntString(w.status), IntString(|w.thermometers|)]
  }

  /** `"%d\t%s\t%d\t%d\n"` for wire `i`. */
  function DeviceLine(i: int, w: WireView): string {
    Join(DeviceColumns(i, w), '\t') + "\n"
  }

  /**
   * The columns of the thermometer line for global index `t` on wire `i`;
   * `fmt4` is the `%.4f` rendering of the temperature, which is not part of
   * this model.
   */
  function ThermoColumns(t: int, i: int, th: Thermometer, fmt4: real -> string): seq<string> {
    [IntString(t), IntString(i), AddressText(th.address), ScratchpadText(th.scratchpad),
     fmt4(th.temperature)]
  }

  /** `"%d\t%d\t%s\t%s\t%.4f\n"` */
  function ThermoLine(t: int, i: int, th: Thermometer, fmt4: real -> string): string {
    Join(ThermoColumns(t, i, th, fmt4), '\t') + "\n"
  }

  /**
   * The bytes `write(f, output, psize)` sends after `snprintf` into the 88-byte
   * buffer: the line itself when it is shorter than the buffer; a line of
   * exactly 88 characters loses its last one to the terminating NUL, which is
   * written in its place. Longer lines make `write` read past the buffer;
   * `OutTsv` requires that none occurs.
   */
  function Emitted(line: string): string {
    if |line| < BUF_SIZE then line else line[..BUF_SIZE - 1] + ['\0']
  }

  /** Every formatted line fits the 88-byte buffer (the writer does not check this). */
  predicate LinesFit(wires: seq<WireView>, fmt4: real -> string) {
    && (forall i :: 0 <= i < |wires| ==> |DeviceLine(i, wires[i])| <= BUF_SIZE)
    && (forall e :: e in Entries(wires) ==>
          |ThermoLine(e.num, e.deviceNum, e.thermometer, fmt4)| <= BUF_SIZE)
  }

  /** One `write` call of `out_tsv`, by what it prints. */
  datatype TsvWrite = DeviceHeader | DeviceRow(num: nat, wire: WireView) | ThermoHeader | ThermoRow(entry: Entry)

  /** The bytes one write sends. */
  function Rendered(w: TsvWrite, fmt4: real -> string): string {
    match w
    case DeviceHeader => DEVICE_HEADER
    case DeviceRow(i, wire) => Emitted(DeviceLine(i, wire))
    case ThermoHeader => THERMO_HEADER
    case ThermoRow(e) => Emitted(ThermoLine(e.num, e.deviceNum, e.thermometer, fmt4))
  }

  /** What a sequence of writes leaves in a fresh file. */
  function WrittenText(ws: seq<TsvWrite>, fmt4: real -> string): string
    decreases |ws|
  {
    if ws == [] then [] else WrittenText(ws[..|ws| - 1], fmt4) + Rendered(ws[|ws| - 1], fmt4)
  }

  function DeviceRows(wires: seq<WireView>): (r: seq<TsvWrite>)
    ensures |r| == |wires|
  {
    seq(|wires|, i requires 0 <= i < |wires| => DeviceRow(i, wires[i]))
  }

  function ThermoRows(es: seq<Entry>): (r: seq<TsvWrite>)
    ensures |r| == |es|
  {
    seq(|es|, k requires 0 <= k < |es| => ThermoRow(es[k]))
  }

  /** The writes of a complete run, in order. */
  function TsvWrites(wires: seq<WireView>): seq<TsvWrite> {
    [DeviceHeader] + DeviceRows(wires) + [ThermoHeader] + ThermoRows(Entries(wires))
  }

  /** The text of a complete run. */
  function TsvText(wires: seq<WireView>, fmt4: real -> string): string {
    WrittenText(TsvWrites(wires), fmt4)
  }

  /** Whether `open` succeeds, whether the n-th `write` call fails, whether `rename` succeeds. */
  datatype TsvIo = TsvIo(opens: bool, writeFails: nat -> bool, renames: bool)

  /** Index of the first failing write in `from .. n - 1`, or `n` when none fails. */
  function FirstFailure(fails: nat -> bool, from: nat, n: nat): (m: nat)
    ensures from <= n ==> from <= m <= n
    ensures m < n ==> fails(m)
    ensures forall k :: from <= k < m && k < n ==> !fails(k)
    decreases n - from
  {
    if from >= n then n else if fails(from) then from else FirstFailure(fails, from + 1, n)
  }

  /** A write index that no earlier write beat to failing is the first failure. */
  lemma {:induction false} FirstFailureAt(fails: nat -> bool, from: nat, n: nat, k: nat)
    requires from <= k <= n
    requires forall m :: from <= m < k ==> !fails(m)
    requires k < n ==> fails(k)
    ensures FirstFailure(fails, from, n) == k
    decreases k - from
  {
    if from < k {
      FirstFailureAt(fails, from + 1, n, k);
    }
  }

  /** A write that succeeds before the first failure leaves the first failure ahead. */
  lemma SucceededBefore(fails: nat -> bool, n: nat, w: nat)
    requires w <= FirstFailure(fails, 0, n) && w < n && !fails(w)
    ensures w < FirstFailure(fails, 0, n)
  {
  }

  /** The code `out_tsv` returns when write number `k` is the first to fail. */
  function ErrorCode(k: nat, wireCount: nat): int {
    if k == 0 then -1
    else if k <= wireCount then -2
    else if k == wireCount + 1 then -3
    else -4
  }

  datatype TsvResult = TsvResult(ret: int, fs: Fs<string>)

  /**
   * The whole effect of `out_tsv`: the return code and the file system after
   * it. The writes up to the first failing one reach `<file>.tmp`, which is
   * opened without `O_TRUNC`, so what it held before survives past the end
   * of what this run wrote; the rename happens only after the last write.
   */
  function TsvOutcome(fileName: string, wires: seq<WireView>, fmt4: real -> string,
                      fs: Fs<string>, io: TsvIo): TsvResult
  {
    var tmpName := TmpName(fileName, FNAME_SIZE);
    if !io.opens then TsvResult(-1, fs)
    else
      var writes := TsvWrites(wires);
      var k := FirstFailure(io.writeFails, 0, |writes|);
      var stale := if tmpName in fs then fs[tmpName] else [];
      var written := fs[tmpName := Overwrite(stale, WrittenText(writes[..k], fmt4))];
      if k < |writes| then TsvResult(ErrorCode(k, |wires|), written)
      else TsvResult(0, if io.renames then Rename(written, tmpName, fileName) else written)
  }

  /**
   * The nested loops of `out_tsv` over the wires and their thermometers, with
   * the running index `t`: the thermometer lines appended to the writes in
   * `head`, up to write number `stop`, the first that fails (any number past
   * the last write when none does).
   */
  method WriteThermoTable(wires: seq<WireView>, io: TsvIo, head: seq<TsvWrite>, ghost stop: nat)
    returns (sent: seq<TsvWrite>, failed: bool)
    requires |head| <= stop
    requires forall m :: 0 <= m < stop ==> !io.writeFails(m)
    requires stop < |head| + TotalCount(wires) ==> io.writeFails(stop)
    ensures var rows := ThermoRows(Entries(wires));
      && |sent| == (if stop < |head| + |rows| then stop else |head| + |rows|)
      && sent == head + rows[..|sent| - |head|]
      && (failed <==> stop < |head| + |rows|)
  {
    ghost var rows := ThermoRows(Entries(wires));
    sent := head;
    var t := 0;
    var i := 0;
    while i < |wires|
      invariant 0 <= i <= |wires|
      invariant t == CountUpTo(wires, i) <= |rows|
      invariant sent == head + rows[..t]
      invariant |sent| <= stop
    {
      CountMonotone(wires, i + 1, |wires|);
      var j := 0;
      while j < |wires[i].thermometers|
        invariant 0 <= j <= |wires[i].thermometers|
        invariant t == CountUpTo(wires, i) + j
        invariant sent == head + rows[..t]
        invariant |sent| <= stop
      {
        var row := ThermoRow(Entry(t, i, wires[i].thermometers[j]));
        if io.writeFails(|sent|) {
          return sent, true;
        }
        EntryAt(wires, i, j);
        PrefixSnoc(rows, t);
        sent := sent + [row];
        j := j + 1;
        t := t + 1;
      }
      i := i + 1;
    }
    assert rows[..t] == rows;
    failed := false;
  }

  /**
   * The writes of `out_tsv` up to its first failing one: `sent` is every write
   * that succeeded and `code` is what the function returns.
   */
  method WriteTables(wires: seq<WireView>, io: TsvIo) returns (sent: seq<TsvWrite>, code: int)
    ensures var writes := TsvWrites(wires);
      var k := FirstFailure(io.writeFails, 0, |writes|);
      && sent == writes[..k]
      && code == (if k < |writes| then ErrorCode(k, |wires|) else 0)
  {
    ghost var writes := TsvWrites(wires);
    ghost var k := FirstFailure(io.writeFails, 0, |writes|);
    ghost var rows := DeviceRows(wires);
    sent := [];
    if io.writeFails(|sent|) {
      return sent, -1;
    }
    SucceededBefore(io.writeFails, |writes|, |sent|);
    sent := sent + [DeviceHeader];

    var i := 0;
    while i < |wires|
      invariant 0 <= i <= |wires|
      invariant sent == [DeviceHeader] + rows[..i]
      invariant |sent| <= k
    {
      if io.writeFails(|sent|) {
        assert writes[..|sent|] == sent;
        return sent, -2;
      }
      SucceededBefore(io.writeFails, |writes|, |sent|);
      PrefixSnoc(rows, i);
      sent := sent + [DeviceRow(i, wires[i])];
      i := i + 1;
    }

    assert sent == [DeviceHeader] + rows;
    if io.writeFails(|sent|) {
      assert writes[..|sent|] == sent;
      return sent, -3;
    }
    SucceededBefore(io.writeFails, |writes|, |sent|);
    sent := sent + [ThermoHeader];

    var failed;
    sent, failed := WriteThermoTable(wires, io, sent, k);
    assert writes[..|sent|] == sent;
    code := if failed then -4 else 0;
  }

  /**
   * `out_tsv`: open the temporary file, write the tables, rename on success.
   * Every line must fit the 88-byte buffer, which the function itself does
   * not check.
   */
  method OutTsv(fileName: string, wires: seq<WireView>, fmt4: real -> string, fs: Fs<string>, io: TsvIo)
    returns (ret: int, fs': Fs<string>)
    requires LinesFit(wires, fmt4)
    ensures TsvResult(ret, fs') == TsvOutcome(fileName, wires, fmt4, fs, io)
  {
    var tmpName := TmpName(fileName, FNAME_SIZE);
    if !io.opens {
      return -1, fs;
    }
    var stale := if tmpName in fs then fs[tmpName] else [];
    var sent, code := WriteTables(wires, io);
    var written := fs[tmpName := Overwrite(stale, WrittenText(sent, fmt4))];
    if code != 0 {
      return code, written;
    }
    fs' := if io.renames then Rename(written, tmpName, fileName) else written;
    ret := 0;
  }

  // ---------------------------------------------------------------- layout

  /** A run's text is the texts of its writes, concatenated. */
  lemma {:induction false} WrittenTextAppend(a: seq<TsvWrite>, b: seq<TsvWrite>, fmt4: real -> string)
    ensures WrittenText(a + b, fmt4) == WrittenText(a, fmt4) + WrittenText(b, fmt4)
    decreases |b|
  {
    if b != [] {
      var b' := b[..|b| - 1];
      assert (a + b)[..|a + b| - 1] == a + b';
      WrittenTextAppend(a, b', fmt4);
    } else {
      assert a + b == a;
    }
  }

  /**
   * The writes of a complete run: the bus header, one line per wire in index
   * order, the thermometer header, then every thermometer of every wire
   * numbered by the running index and tagged with its wire.
   */
  lemma TsvLayout(wires: seq<WireView>)
    ensures |TsvWrites(wires)| == |wires| + 2 + TotalCount(wires)
    ensures TsvWrites(wires)[0] == DeviceHeader
    ensures forall i :: 0 <= i < |wires| ==> TsvWrites(wires)[1 + i] == DeviceRow(i, wires[i])
    ensures TsvWrites(wires)[|wires| + 1] == ThermoHeader
    ensures forall k :: 0 <= k < TotalCount(wires) ==>
      TsvWrites(wires)[|wires| + 2 + k] == ThermoRow(Entries(wires)[k])
  {
    EntriesOrigin(wires);
  }

  /**
   * Thermometer `j` of wire `i` is written as thermometer line
   * `CountUpTo(wires, i) + j`, carrying that number and wire index `i`.
   */
  lemma TsvThermoLineAt(wires: seq<WireView>, i: nat, j: nat)
    requires i < |wires| && j < |wires[i].thermometers|
    ensures |wires| + 2 + CountUpTo(wires, i) + j < |TsvWrites(wires)|
    ensures TsvWrites(wires)[|wires| + 2 + CountUpTo(wires, i) + j]
         == ThermoRow(Entry(CountUpTo(wires, i) + j, i, wires[i].thermometers[j]))
  {
    EntryAt(wires, i, j);
    TsvLayout(wires);
    EntriesOrigin(wires);
  }

  /** The file text is the bus header, the bus lines, the thermometer header and the thermometer lines. */
  lemma TsvTextSections(wires: seq<WireView>, fmt4: real -> string)
    ensures TsvText(wires, fmt4)
      == DEVICE_HEADER + WrittenText(DeviceRows(wires), fmt4)
         + THERMO_HEADER + WrittenText(ThermoRows(Entries(wires)), fmt4)
  {
    var d, th := DeviceRows(wires), ThermoRows(Entries(wires));
    WrittenTextAppend([DeviceHeader] + d + [ThermoHeader], th, fmt4);
    WrittenTextAppend([DeviceHeader] + d, [ThermoHeader], fmt4);
    WrittenTextAppend([DeviceHeader], d, fmt4);
    assert WrittenText([DeviceHeader], fmt4) == DEVICE_HEADER by {
      assert [DeviceHeader][..0] == [];
    }
    assert WrittenText([ThermoHeader], fmt4) == THERMO_HEADER by {
      assert [ThermoHeader][..0] == [];
    }
  }

  // ---------------------------------------------------------------- reading back

  /** The columns of a bus line. */
  datatype DeviceRecord = DeviceRecord(num: int, device: string, status: int, thermoCount: int)

  /** The columns of a thermometer line; the temperature stays text. */
  datatype ThermoRecord = ThermoRecord(num: int, deviceNum: int, address: seq<Byte>,
                                       scratchpad: seq<Byte>, temperature: string)

  /** Reads a newline-terminated bus line with four tab-separated columns. */
  function ParseDeviceLine(s: string): Option<DeviceRecord> {
    if |s| == 0 || s[|s| - 1] != '\n' then None
    else
      var f := Split(s[..|s| - 1], '\t');
      if |f| != 4 then None
      else
        match (ParseInt(f[0]), ParseInt(f[2]), ParseInt(f[3]))
        case (Some(num), Some(status), Some(count)) => Some(DeviceRecord(num, f[1], status, count))
        case _ => None
  }

  /** Reads a newline-terminated thermometer line with five tab-separated columns. */
  function ParseThermoLine(s: string): Option<ThermoRecord> {
    if |s| == 0 || s[|s| - 1] != '\n' then None
    else
      var f := Split(s[..|s| - 1], '\t');
      if |f| != 5 then None
      else
        match (ParseInt(f[0]), ParseInt(f[1]), ParseColonHex(f[2]), ParseColonHex(f[3]))
        case (Some(num), Some(dev), Some(addr), Some(scr)) => Some(ThermoRecord(num, dev, addr, scr, f[4]))
        case _ => None
  }

  /** The row before its newline. */
  lemma LineBody(fields: seq<string>)
    requires |fields| > 0
    ensures var s := Join(fields, '\t') + "\n";
      |s| > 0 && s[|s| - 1] == '\n' && s[..|s| - 1] == Join(fields, '\t')
  {
  }

  /**
   * A bus line that fits the buffer reads back as the wire's index, device
   * path, status and thermometer count, provided the path holds no tab.
   */
  lemma DeviceLineRoundTrip(i: nat, w: WireView, fmt4: real -> string)
    requires '\t' !in w.device
    requires |DeviceLine(i, w)| < BUF_SIZE
    ensures ParseDeviceLine(Rendered(DeviceRow(i, w), fmt4))
         == Some(DeviceRecord(i, w.device, w.status, |w.thermometers|))
  {
    var cols := DeviceColumns(i, w);
    LineBody(cols);
    NoSeparatorInInt(i, '\t');
    NoSeparatorInInt(w.status, '\t');
    NoSeparatorInInt(|w.thermometers|, '\t');
    SplitJoin(cols, '\t');
    IntStringRoundTrip(i);
    IntStringRoundTrip(w.status);
    IntStringRoundTrip(|w.thermometers|);
  }

  /**
   * A thermometer line that fits the buffer reads back as its global index,
   * wire index, ROM code, scratchpad and temperature text, provided the
   * temperature text holds no tab.
   */
  lemma ThermoLineRoundTrip(e: Entry, fmt4: real -> string)
    requires '\t' !in fmt4(e.thermometer.temperature)
    requires |ThermoLine(e.num, e.deviceNum, e.thermometer, fmt4)| < BUF_SIZE
    ensures ParseThermoLine(Rendered(ThermoRow(e), fmt4))
         == Some(ThermoRecord(e.num, e.deviceNum, e.thermometer.address, e.thermometer.scratchpad,
                              fmt4(e.thermometer.temperature)))
  {
    var th := e.thermometer;
    var cols := ThermoColumns(e.num, e.deviceNum, th, fmt4);
    LineBody(cols);
    NoSeparatorInInt(e.num, '\t');
    NoSeparatorInInt(e.deviceNum, '\t');
    NoSeparatorInColonHex(th.address, '\t');
    NoSeparatorInColonHex(ScratchpadFields(th.scratchpad), '\t');
    SplitJoin(cols, '\t');
    IntStringRoundTrip(e.num);
    IntStringRoundTrip(e.deviceNum);
    AddressTextRoundTrip(th.address);
    ScratchpadTextRoundTrip(th.scratchpad);
  }

  /**
   * A thermometer line is its two indices and the temperature text plus 54
   * characters: 23 for the ROM code, 26 for the scratchpad, four tabs and the
   * newline. It fits the 88-byte buffer exactly when those three take at most
   * 34 characters.
   */
  lemma ThermoLineLength(t: int, i: int, th: Thermometer, fmt4: real -> string)
    ensures |ThermoLine(t, i, th, fmt4)|
         == |IntString(t)| + |IntString(i)| + |fmt4(th.temperature)| + 54
  {
    var cols := ThermoColumns(t, i, th, fmt4);
    assert Join(cols[4..], '\t') == cols[4];
    assert Join(cols[3..], '\t') == cols[3] + ['\t'] + Join(cols[4..], '\t') by {
      assert cols[3..][1..] == cols[4..];
    }
    assert Join(cols[2..], '\t') == cols[2] + ['\t'] + Join(cols[3..], '\t') by {
      assert cols[2..][1..] == cols[3..];
    }
    assert Join(cols[1..], '\t') == cols[1] + ['\t'] + Join(cols[2..], '\t') by {
      assert cols[1..][1..] == cols[2..];
    }
  }

  // ---------------------------------------------------------------- outcome

  /** `out_tsv` returns 0 exactly when the file opened and every write succeeded. */
  lemma TsvSucceedsIff(fileName: string, wires: seq<WireView>, fmt4: real -> string,
                       fs: Fs<string>, io: TsvIo)
    ensures TsvOutcome(fileName, wires, fmt4, fs, io).ret == 0
      <==> io.opens && forall m :: 0 <= m < |wires| + 2 + TotalCount(wires) ==> !io.writeFails(m)
  {
    TsvLayout(wires);
  }

  /**
   * A failure's code names the first step that failed: -1 the open or the
   * bus header, -2 a bus line, -3 the thermometer header, -4 a thermometer
   * line.
   */
  lemma TsvErrorCodes(fileName: string, wires: seq<WireView>, fmt4: real -> string,
                      fs: Fs<string>, io: TsvIo)
    ensures var r := TsvOutcome(fileName, wires, fmt4, fs, io).ret;
      && (r == -1 <==> !io.opens || io.writeFails(0))
      && (r == -2 <==> io.opens && !io.writeFails(0)
                       && exists m :: 1 <= m <= |wires| && io.writeFails(m))
      && (r == -3 <==> io.opens && (forall m :: 0 <= m <= |wires| ==> !io.writeFails(m))
                       && io.writeFails(|wires| + 1))
      && (r == -4 <==> io.opens && (forall m :: 0 <= m <= |wires| + 1 ==> !io.writeFails(m))
                       && exists m :: |wires| + 1 < m < |wires| + 2 + TotalCount(wires) && io.writeFails(m))
  {
    TsvLayout(wires);
    var n := |wires| + 2 + TotalCount(wires);
    if io.opens {
      var k := FirstFailure(io.writeFails, 0, n);
      if k < n {
        assert io.writeFails(k);
      }
    }
  }

  /** A failed run leaves every path but `<file>.tmp` as it was, the target included. */
  lemma TsvFailureKeepsTarget(fileName: string, wires: seq<WireView>, fmt4: real -> string,
                              fs: Fs<string>, io: TsvIo)
    requires |fileName| + 4 < FNAME_SIZE
    ensures var r := TsvOutcome(fileName, wires, fmt4, fs, io);
      var tmpName := fileName + ".tmp";
      r.ret != 0 ==>
        && r.fs - {tmpName} == fs - {tmpName}
        && (fileName in r.fs <==> fileName in fs)
        && (fileName in fs ==> r.fs[fileName] == fs[fileName])
  {
  }

  /**
   * A run whose writes all succeed and whose rename succeeds moves the
   * temporary file onto the target. The target then holds the snapshot text
   * followed by whatever a longer, older `<file>.tmp` held past its end; with
   * no such leftover it holds exactly the snapshot text.
   */
  lemma TsvSuccessPublishes(fileName: string, wires: seq<WireView>, fmt4: real -> string,
                            fs: Fs<string>, io: TsvIo)
    requires |fileName| + 4 < FNAME_SIZE
    requires io.opens && io.renames
    requires forall m :: 0 <= m < |wires| + 2 + TotalCount(wires) ==> !io.writeFails(m)
    ensures var r := TsvOutcome(fileName, wires, fmt4, fs, io);
      var tmpName := fileName + ".tmp";
      var text := TsvText(wires, fmt4);
      && r.ret == 0
      && tmpName !in r.fs
      && fileName in r.fs
      && |text| <= |r.fs[fileName]| && r.fs[fileName][..|text|] == text
      && (tmpName !in fs ==> r.fs[fileName] == text)
      && (tmpName in fs && |fs[tmpName]| > |text| ==>
            r.fs[fileName] != text && r.fs[fileName][|text|..] == fs[tmpName][|text|..])
      && (forall p :: p != tmpName && p != fileName ==>
            (p in r.fs <==> p in fs) && (p in fs ==> r.fs[p] == fs[p]))
  {
    TsvLayout(wires);
    var writes := TsvWrites(wires);
    FirstFailureAt(io.writeFails, 0, |writes|, |writes|);
    assert writes[..|writes|] == writes;
  }

  /**
   * A run whose writes succeed but whose rename fails still returns 0; the
   * target keeps its old content and the text stays in `<file>.tmp`.
   */
  lemma TsvRenameFailureUnreported(fileName: string, wires: seq<WireView>, fmt4: real -> string,
                                   fs: Fs<string>, io: TsvIo)
    requires |fileName| + 4 < FNAME_SIZE
    requires io.opens && !io.renames
    requires forall m :: 0 <= m < |wires| + 2 + TotalCount(wires) ==> !io.writeFails(m)
    ensures var r := TsvOutcome(fileName, wires, fmt4, fs, io);
      var tmpName := fileName + ".tmp";
      && r.ret == 0
      && (fileName in r.fs <==> fileName in fs)
      && (fileName in fs ==> r.fs[fileName] == fs[fileName])
      && tmpName in r.fs
      && r.fs[tmpName] == Overwrite(if tmpName in fs then fs[tmpName] else [], TsvText(wires, fmt4))
  {
    TsvLayout(wires);
    var writes := TsvWrites(wires);
    FirstFailureAt(io.writeFails, 0, |writes|, |writes|);
    assert writes[..|writes|] == writes;
  }

  /**
   * A name of 127 characters leaves no room for ".tmp" in the name buffer:
   * the temporary name is the target itself. A run whose first bus line then
   * fails reports an error, yet the target already holds the bus header
   * written over its old content.
   */
  lemma TsvLongNameClobbersTarget(fileName: string, wires: seq<WireView>, fmt4: real -> string,
                                  fs: Fs<string>, io: TsvIo)
    requires |fileName| == FNAME_SIZE - 1
    requires io.opens && !io.writeFails(0) && io.writeFails(1)
    ensures TmpName(fileName, FNAME_SIZE) == fileName
    ensures var r := TsvOutcome(fileName, wires, fmt4, fs, io);
      && r.ret < 0
      && fileName in r.fs
      && r.fs[fileName] == Overwrite(if fileName in fs then fs[fileName] else [], DEVICE_HEADER)
  {
    assert (fileName + ".tmp")[..FNAME_SIZE - 1] == fileName;
    TsvLayout(wires);
    var writes := TsvWrites(wires);
    FirstFailureAt(io.writeFails, 0, |writes|, 1);
    assert writes[..1] == [DeviceHeader];
    assert WrittenText([DeviceHeader], fmt4) == DEVICE_HEADER by {
      assert [DeviceHeader][..0] == [];
    }
  }
}
