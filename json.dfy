/**
 * `out_json` (src/temp_output_json.c): builds one document with a `devices`
 * array (one object per wire) and a `thermometers` array (one object per
 * thermometer, numbered by the shared running index), dumps it to
 * `<file>.tmp` and renames that over `<file>`. Neither the dump nor the
 * rename is checked: the function always returns 0.
 *
 * The document is a value of `Json`; its rendering as indented text is the
 * oracle `JsonIo.dump`, and how much of that text reaches the file is
 * `JsonIo.dumped`.
 */
module JsonOutput {
  import opened TempTypes
  import opened Format
  import opened Snapshot
  import opened Files

  /** Size of the buffer that holds the formatted address, scratchpad and temporary name. */
  const BUF_SIZE: nat := 128

  /** A JSON value as the writer builds it; object members keep insertion order. */
  datatype Json =
    | JInt(i: int)
    | JReal(r: real)
    | JStr(s: string)
    | JArr(items: seq<Json>)
    | JObj(members: seq<(string, Json)>)

  /** The keys of an object's members, in order. */
  function Keys(members: seq<(string, Json)>): (ks: seq<string>)
    ensures |ks| == |members|
  {
    seq(|members|, k requires 0 <= k < |members| => members[k].0)
  }

  /** The value stored under `key`, the first such member when several share it. */
  function Lookup(members: seq<(string, Json)>, key: string): (r: Option<Json>)
    ensures r.Some? <==> key in Keys(members)
    decreases |members|
  {
    if members == [] then None
    else
      assert Keys(members) == [members[0].0] + Keys(members[1..]);
      if members[0].0 == key then Some(members[0].1) else Lookup(members[1..], key)
  }

  /** Every key appears once. */
  predicate DistinctKeys(members: seq<(string, Json)>) {
    forall k, l :: 0 <= k < l < |members| ==> members[k].0 != members[l].0
  }

  /** The object for wire `i`: `num`, `device`, `status`, `thermo_count`. */
  function DeviceObject(i: int, w: WireView): Json {
    JObj([("num", JInt(i)), ("device", JStr(w.device)), ("status", JInt(w.status)),
          ("thermo_count", JInt(|w.thermometers|))])
  }

  /**
   * The object for one step of the walk: `num`, `device_num`, `status`,
   * `address`, and `scratchpad` and `temperature` only when the status is not
   * the failure status.
   */
  function ThermoObject(e: Entry): Json {
    var th := e.thermometer;
    JObj([("num", JInt(e.num)), ("device_num", JInt(e.deviceNum)), ("status", JInt(th.status)),
          ("address", JStr(Truncate(AddressText(th.address), BUF_SIZE)))]
         + if th.status != TEMP_STATUS_FAIL then
             [("scratchpad", JStr(Truncate(ScratchpadText(th.scratchpad), BUF_SIZE))),
              ("temperature", JReal(th.temperature))]
           else [])
  }

  function DeviceObjects(wires: seq<WireView>): (r: seq<Json>)
    ensures |r| == |wires|
  {
    seq(|wires|, i requires 0 <= i < |wires| => DeviceObject(i, wires[i]))
  }

  function ThermoObjects(es: seq<Entry>): (r: seq<Json>)
    ensures |r| == |es|
  {
    seq(|es|, k requires 0 <= k < |es| => ThermoObject(es[k]))
  }

  /** The document `out_json` dumps. */
  function JsonDoc(wires: seq<WireView>): Json {
    JObj([("devices", JArr(DeviceObjects(wires))), ("thermometers", JArr(ThermoObjects(Entries(wires))))])
  }

  /**
   * `dump` is the text `json_dump_file` would produce; `opens` says whether it
   * could create the file, `dumped` how many bytes reached it before a write
   * error (at least the whole text when none occurred); `renames` whether
   * `rename` succeeds.
   */
  datatype JsonIo = JsonIo(dump: Json -> string, opens: bool, dumped: nat, renames: bool)

  /**
   * The file system after `out_json`. `json_dump_file` truncates the file it
   * opens, so the temporary file holds exactly what was dumped; the rename
   * follows whatever happened, so a partial dump, or an older `<file>.tmp`
   * when the dump could not open its file, is published as the target.
   */
  function JsonOutcome(fileName: string, wires: seq<WireView>, fs: Fs<string>, io: JsonIo): Fs<string> {
    var tmpName := TmpName(fileName, BUF_SIZE);
    var text := io.dump(JsonDoc(wires));
    var dumped := if io.opens then fs[tmpName := text[..if io.dumped < |text| then io.dumped else |text|]]
                  else fs;
    if io.renames then Rename(dumped, tmpName, fileName) else dumped
  }

  /**
   * The nested loops of `out_json`: one object per wire appended to `devices`,
   * and inside, one object per thermometer appended to `thermometers`, with
   * the running index `t`.
   */
  method BuildDocument(wires: seq<WireView>) returns (doc: Json)
    ensures doc == JsonDoc(wires)
  {
    ghost var es := Entries(wires);
    ghost var objs := ThermoObjects(es);
    var jdev: seq<Json> := [];
    var jtemp: seq<Json> := [];
    var t := 0;
    var i := 0;
    while i < |wires|
      invariant 0 <= i <= |wires|
      invariant jdev == DeviceObjects(wires)[..i]
      invariant t == CountUpTo(wires, i) <= |objs|
      invariant jtemp == objs[..t]
    {
      CountMonotone(wires, i + 1, |wires|);
      var jwire := DeviceObject(i, wires[i]);
      var j := 0;
      while j < |wires[i].thermometers|
        invariant 0 <= j <= |wires[i].thermometers|
        invariant t == CountUpTo(wires, i) + j
        invariant jtemp == objs[..t]
      {
        var jthermo := ThermoObject(Entry(t, i, wires[i].thermometers[j]));
        EntryAt(wires, i, j);
        PrefixSnoc(objs, t);
        jtemp := jtemp + [jthermo];
        j := j + 1;
        t := t + 1;
      }
      PrefixSnoc(DeviceObjects(wires), i);
      jdev := jdev + [jwire];
      i := i + 1;
    }
    assert objs[..t] == objs;
    assert DeviceObjects(wires)[..i] == DeviceObjects(wires);
    doc := JObj([("devices", JArr(jdev)), ("thermometers", JArr(jtemp))]);
  }

  /** `out_json`: build, dump to the temporary file, rename; always 0. */
  method OutJson(fileName: string, wires: seq<WireView>, fs: Fs<string>, io: JsonIo)
    returns (ret: int, fs': Fs<string>)
    ensures ret == 0
    ensures fs' == JsonOutcome(fileName, wires, fs, io)
  {
    var doc := BuildDocument(wires);
    var tmpName := TmpName(fileName, BUF_SIZE);
    var text := io.dump(doc);
    fs' := fs;
    if io.opens {
      var n := if io.dumped < |text| then io.dumped else |text|;
      fs' := fs'[tmpName := text[..n]];
    }
    if io.renames {
      fs' := Rename(fs', tmpName, fileName);
    }
    ret := 0;
  }

  // ---------------------------------------------------------------- document

  /** Every object of the document has distinct keys, so each lookup is unambiguous. */
  lemma JsonObjectsWellFormed(wires: seq<WireView>)
    ensures DistinctKeys(JsonDoc(wires).members)
    ensures forall i :: 0 <= i < |wires| ==> DistinctKeys(DeviceObject(i, wires[i]).members)
    ensures forall e :: DistinctKeys(ThermoObject(e).members)
  {
  }

  /** In an object with distinct keys, each member is found under its own key. */
  lemma {:induction false} LookupMember(members: seq<(string, Json)>, k: nat)
    requires DistinctKeys(members) && k < |members|
    ensures Lookup(members, members[k].0) == Some(members[k].1)
    decreases k
  {
    if k > 0 {
      assert members[0].0 != members[k].0;
      LookupMember(members[1..], k - 1);
    }
  }

  /** The document has exactly the keys `devices` and `thermometers`, holding the two arrays. */
  lemma JsonDocShape(wires: seq<WireView>)
    ensures Keys(JsonDoc(wires).members) == ["devices", "thermometers"]
    ensures Lookup(JsonDoc(wires).members, "devices") == Some(JArr(DeviceObjects(wires)))
    ensures Lookup(JsonDoc(wires).members, "thermometers") == Some(JArr(ThermoObjects(Entries(wires))))
  {
    assert Keys(JsonDoc(wires).members) == ["devices", "thermometers"];
  }

  /** A device object carries the wire's index, path, status and thermometer count. */
  lemma DeviceObjectFields(i: int, w: WireView)
    ensures var m := DeviceObject(i, w).members;
      && Keys(m) == ["num", "device", "status", "thermo_count"]
      && Lookup(m, "num") == Some(JInt(i))
      && Lookup(m, "device") == Some(JStr(w.device))
      && Lookup(m, "status") == Some(JInt(w.status))
      && Lookup(m, "thermo_count") == Some(JInt(|w.thermometers|))
  {
    var m := DeviceObject(i, w).members;
    assert Keys(m) == ["num", "device", "status", "thermo_count"];
    LookupMember(m, 1);
    LookupMember(m, 2);
    LookupMember(m, 3);
  }

  /**
   * A thermometer object always carries the walk step's number, wire index,
   * status and ROM code, and the code reads back to the eight bytes.
   */
  lemma ThermoObjectFields(e: Entry)
    ensures var m := ThermoObject(e).members;
      && Lookup(m, "num") == Some(JInt(e.num))
      && Lookup(m, "device_num") == Some(JInt(e.deviceNum))
      && Lookup(m, "status") == Some(JInt(e.thermometer.status))
      && Lookup(m, "address").Some? && Lookup(m, "address").value.JStr?
      && ParseColonHex(Lookup(m, "address").value.s) == Some(e.thermometer.address)
  {
    var th := e.thermometer;
    var m := ThermoObject(e).members;
    assert Truncate(AddressText(th.address), BUF_SIZE) == AddressText(th.address);
    AddressTextRoundTrip(th.address);
    LookupMember(m, 1);
    LookupMember(m, 2);
    LookupMember(m, 3);
  }

  /**
   * The scratchpad (which reads back to the nine bytes) and the temperature
   * are present exactly when the status is not the failure status.
   */
  lemma ThermoObjectReading(e: Entry)
    ensures var m := ThermoObject(e).members;
      var th := e.thermometer;
      && (Lookup(m, "scratchpad").Some? <==> th.status != TEMP_STATUS_FAIL)
      && (Lookup(m, "temperature").Some? <==> th.status != TEMP_STATUS_FAIL)
      && (th.status != TEMP_STATUS_FAIL ==>
            && Lookup(m, "temperature") == Some(JReal(th.temperature))
            && Lookup(m, "scratchpad").value.JStr?
            && ParseColonHex(Lookup(m, "scratchpad").value.s) == Some(th.scratchpad))
  {
    var th := e.thermometer;
    var m := ThermoObject(e).members;
    if th.status != TEMP_STATUS_FAIL {
      assert Truncate(ScratchpadText(th.scratchpad), BUF_SIZE) == ScratchpadText(th.scratchpad);
      ScratchpadTextRoundTrip(th.scratchpad);
      assert Keys(m) == ["num", "device_num", "status", "address", "scratchpad", "temperature"];
      LookupMember(m, 4);
      LookupMember(m, 5);
    } else {
      assert Keys(m) == ["num", "device_num", "status", "address"];
    }
  }

  /**
   * Object `k` of the `thermometers` array is the object of walk step `k`:
   * thermometer `j` of wire `i` sits at `CountUpTo(wires, i) + j`.
   */
  lemma JsonThermometerAt(wires: seq<WireView>, i: nat, j: nat)
    requires i < |wires| && j < |wires[i].thermometers|
    ensures var items := ThermoObjects(Entries(wires));
      && CountUpTo(wires, i) + j < |items|
      && items[CountUpTo(wires, i) + j]
           == ThermoObject(Entry(CountUpTo(wires, i) + j, i, wires[i].thermometers[j]))
  {
    EntryAt(wires, i, j);
  }

  // ---------------------------------------------------------------- files

  /**
   * With a name that fits the buffer, a complete dump and a successful rename
   * publish exactly the dumped document and remove the temporary file; no
   * other path changes.
   */
  lemma JsonPublishes(fileName: string, wires: seq<WireView>, fs: Fs<string>, io: JsonIo)
    requires |fileName| + 4 < BUF_SIZE
    requires io.opens && io.renames && io.dumped >= |io.dump(JsonDoc(wires))|
    ensures var r := JsonOutcome(fileName, wires, fs, io);
      && fileName in r && r[fileName] == io.dump(JsonDoc(wires))
      && fileName + ".tmp" !in r
      && forall p :: p != fileName && p != fileName + ".tmp" ==>
           (p in r <==> p in fs) && (p in fs ==> r[p] == fs[p])
  {
  }

  /**
   * Because the dump is not checked, a dump cut short by a write error is
   * still renamed over the target: the target then holds a strict prefix of
   * the document text.
   */
  lemma JsonPublishesPartialDump(fileName: string, wires: seq<WireView>, fs: Fs<string>, io: JsonIo)
    requires |fileName| + 4 < BUF_SIZE
    requires io.opens && io.renames && io.dumped < |io.dump(JsonDoc(wires))|
    ensures var r := JsonOutcome(fileName, wires, fs, io);
      var text := io.dump(JsonDoc(wires));
      fileName in r && r[fileName] == text[..io.dumped] && r[fileName] < text && r[fileName] != text
  {
  }

  /**
   * When the dump cannot create its file, the rename still runs: an older
   * `<file>.tmp` left from an earlier run replaces the target, and without
   * one the target is left as it was.
   */
  lemma JsonPublishesStaleTmp(fileName: string, wires: seq<WireView>, fs: Fs<string>, io: JsonIo)
    requires |fileName| + 4 < BUF_SIZE
    requires !io.opens && io.renames
    ensures var r := JsonOutcome(fileName, wires, fs, io);
      var tmpName := fileName + ".tmp";
      && (tmpName in fs ==> fileName in r && r[fileName] == fs[tmpName] && tmpName !in r)
      && (tmpName !in fs ==> r == fs)
  {
  }

  /**
   * A name of 127 characters leaves no room for ".tmp" in the buffer: the
   * dump goes straight to the target, and whatever part of the document
   * reached the file is what the target holds, rename or not.
   */
  lemma JsonLongNameDumpsOverTarget(fileName: string, wires: seq<WireView>, fs: Fs<string>, io: JsonIo)
    requires |fileName| == BUF_SIZE - 1
    requires io.opens
    ensures TmpName(fileName, BUF_SIZE) == fileName
    ensures var r := JsonOutcome(fileName, wires, fs, io);
      var text := io.dump(JsonDoc(wires));
      fileName in r && r[fileName] == text[..if io.dumped < |text| then io.dumped else |text|]
  {
    assert (fileName + ".tmp")[..BUF_SIZE - 1] == fileName;
  }
}
