/**
 * The daemon's registry of buses ("wires") and the two passes its worker runs
 * on one bus (src/main.c). The OneWire/Dallas driver is not part of this model:
 * what it answers is an oracle, a `Bus` value.
 */
module Daemon {
  import opened TempTypes

  /** What one `ds_read_scratchpad` / `ds_read_temp_only` call reports and leaves in the buffer. */
  datatype ReadReply = ReadReply(ok: bool, scratchpad: Scratchpad)

  /**
   * The driver of one bus as an oracle: whether `init_driver_linux_usart`
   * succeeds; the addresses successive `owu_search` calls yield after
   * `owu_reset_search` (the call after the last one returns false); whether
   * `ds_convert_all` succeeds; and the reply to the full-scratchpad or the
   * temperature-only read of the k-th thermometer of the pass.
   */
  datatype Bus = Bus(
    driverOpens: bool,
    search: seq<Address>,
    convertOk: bool,
    readScratchpad: (nat, Address) -> ReadReply,
    readTempOnly: (nat, Address) -> ReadReply)

  /** The read call the read pass makes for thermometer `k`, chosen by `opt_full_scratchpad`. */
  function Reply(bus: Bus, k: nat, address: Address, fullScratchpad: bool): ReadReply {
    if fullScratchpad then bus.readScratchpad(k, address) else bus.readTempOnly(k, address)
  }

  /**
   * One thermometer after its read: the buffer the driver filled; on success
   * the temperature `ds_get_temp_c` decodes from it and status 1, on failure
   * status 0 with the previous temperature kept.
   */
  function Refreshed(th: Thermometer, reply: ReadReply, tempC: Scratchpad -> real): Thermometer {
    if reply.ok then
      th.(scratchpad := reply.scratchpad, temperature := tempC(reply.scratchpad), status := TEMP_STATUS_OK)
    else
      th.(scratchpad := reply.scratchpad, status := TEMP_STATUS_FAIL)
  }

  /** One thermometer after the read pass: refreshed from its reply when the conversion succeeded, as it was otherwise. */
  function AfterRead(th: Thermometer, bus: Bus, k: nat, fullScratchpad: bool, tempC: Scratchpad -> real): Thermometer {
    if bus.convertOk then Refreshed(th, Reply(bus, k, th.address, fullScratchpad), tempC) else th
  }

  /**
   * The slots discovery as written can fill: the array it reallocates when
   * `thermo_max` is 0, otherwise the current one, which holds `thermo_max`.
   */
  function SearchCapacity(thermoMax: int): int {
    if thermoMax == 0 then THERMO_COUNT_STEP else thermoMax
  }

  /**
   * Discovery as written, on a wire as setup leaves it (`thermo_max` 5): with
   * six thermometers on the bus the search stores the sixth address at index
   * 5, one past the five slots, because the capacity is checked only once,
   * before the search starts.
   */
  lemma CollectOverrunsAfterSetup(w: Wire, bus: Bus)
    requires w.Valid() && w.thermoMax == THERMO_COUNT_STEP
    requires |bus.search| == THERMO_COUNT_STEP + 1
    ensures !w.SearchFits(bus)
    ensures |bus.search| - 1 == w.thermometers.Length
  {
  }

  /** `wire_t`: one bus, its driver handle, its worker's result and its thermometer array. */
  class Wire {
    const device: string
    var status: int
    var driverHeld: bool
    var tret: int
    var thermoCount: int
    var thermoMax: int
    var thermometers: array?<Thermometer>

    /** The entry `case 'd'` appends: the device path and no thermometer array yet. */
    constructor (device: string)
      ensures this.device == device && thermometers == null
    {
      this.device := device;
      thermometers := null;
    }

    /**
     * The array exists and both counters lie within it; a nonzero
     * `thermo_max` is the array's size (setup allocates exactly that many,
     * and discovery reallocates only while it is 0).
     */
    ghost predicate Valid()
      reads this
    {
      && thermometers != null
      && 0 <= thermoCount <= thermometers.Length
      && 0 <= thermoMax <= thermometers.Length
      && (thermoMax == 0 || thermoMax == thermometers.Length)
    }

    /** The wire as the writers read it: its first `thermo_count` thermometers. */
    function View(): WireView
      reads this, thermometers
      requires Valid()
    {
      WireView(device, status, thermometers[..thermoCount])
    }

    /**
     * The addresses the bus enumerates fit in the array discovery writes them to:
     * the current array, or the one the capacity check reallocates when
     * `thermo_max` is 0. The search loop itself has no bound.
     */
    ghost predicate SearchFits(bus: Bus)
      reads this
      requires Valid()
    {
      |bus.search| <= SearchCapacity(thermoMax)
    }

    /** `init_wire`: open the driver; on failure release it and report -1. */
    method InitWire(bus: Bus) returns (r: int)
      modifies this`driverHeld
      ensures driverHeld == bus.driverOpens
      ensures r == (if bus.driverOpens then 0 else -1)
    {
      driverHeld := true;
      if !bus.driverOpens {
        driverHeld := false;
        return -1;
      }
      return 0;
    }

    /**
     * `collect_thermometers`: restart the search and store the enumerated
     * addresses from index 0, overwriting what was there. The capacity check runs
     * once, while `thermo_count` is 0, and `thermo_max` is never raised.
     */
    method CollectThermometers(bus: Bus, reallocOk: bool) returns (r: int)
      requires Valid() && SearchFits(bus)
      modifies this`thermoCount, this`thermometers, thermometers
      ensures thermoMax == old(thermoMax)
      ensures r == (if old(thermoMax) == 0 && !reallocOk then -1 else 0)
      ensures r == -1 ==> thermometers == null && thermoCount == 0
      ensures r == 0 ==> Valid() && thermoCount == |bus.search|
      ensures r == 0 ==> forall k :: 0 <= k < thermoCount ==> thermometers[k].address == bus.search[k]
      ensures r == 0 && old(thermoMax) > 0 ==> thermoCount <= thermoMax
      ensures r == 0 && old(thermoMax) == 0 && |bus.search| > 0 ==> thermoCount > thermoMax
      ensures old(thermoMax) > 0 ==> thermometers == old(thermometers)
      ensures old(thermoMax) > 0 ==> forall k :: 0 <= k < thermometers.Length ==>
        thermometers[k] == if k < |bus.search| then old(thermometers[k]).(address := bus.search[k])
                           else old(thermometers[k])
      ensures old(thermoMax) == 0 && reallocOk ==>
        fresh(thermometers) && thermometers.Length == THERMO_COUNT_STEP
    {
      thermoCount := 0;
      // owu_reset_search: the search oracle starts from its first address
      if thermoCount >= thermoMax {
        if !reallocOk {
          thermometers := null;
          return -1;
        }
        var grown := new Thermometer[thermoMax + THERMO_COUNT_STEP];
        var kept := if thermometers.Length < grown.Length then thermometers.Length else grown.Length;
        forall k | 0 <= k < kept {
          grown[k] := thermometers[k];
        }
        thermometers := grown;
      }
      ghost var before := thermometers[..];
      ghost var filled := thermometers;
      while thermoCount < |bus.search|
        invariant thermometers == filled && |before| == thermometers.Length
        invariant old(thermoMax) > 0 ==> filled == old(thermometers)
        invariant old(thermoMax) == 0 ==> fresh(filled) && filled.Length == THERMO_COUNT_STEP
        invariant 0 <= thermoCount <= |bus.search| <= thermometers.Length
        invariant forall k :: 0 <= k < thermoCount ==>
          thermometers[k] == before[k].(address := bus.search[k])
        invariant forall k :: thermoCount <= k < thermometers.Length ==> thermometers[k] == before[k]
        decreases |bus.search| - thermoCount
      {
        thermometers[thermoCount] := thermometers[thermoCount].(address := bus.search[thermoCount]);
        thermoCount := thermoCount + 1;
      }
      return 0;
    }

    /**
     * Discovery as evidently intended: before each found address is stored
     * the capacity is checked, and each reallocation adds `THERMO_COUNT_STEP`
     * slots and raises `thermo_max` with them. No bus overruns the array, and
     * afterwards `thermo_count <= thermo_max`, the array's size. Growth is
     * needed exactly when the bus has more thermometers than `thermo_max`
     * (the search step that finds nothing writes nothing, as `SearchFits`
     * assumes for the code as written).
     */
    method CollectThermometersGrowing(bus: Bus, reallocOk: bool) returns (r: int)
      requires Valid()
      modifies this`thermoCount, this`thermoMax, this`thermometers, thermometers
      ensures r == (if !reallocOk && |bus.search| > old(thermoMax) then -1 else 0)
      ensures r == -1 ==> thermometers == null
      ensures r == 0 ==> Valid() && thermoCount == |bus.search| <= thermoMax
      ensures r == 0 ==> forall k :: 0 <= k < thermoCount ==> thermometers[k].address == bus.search[k]
    {
      thermoCount := 0;
      while thermoCount < |bus.search|
        invariant thermometers != null && (thermometers == old(thermometers) || fresh(thermometers))
        invariant 0 <= thermoCount <= thermoMax && (thermoMax == 0 || thermoMax == thermometers.Length)
        invariant thermoCount <= |bus.search|
        invariant !reallocOk ==> thermoMax == old(thermoMax)
        invariant forall k :: 0 <= k < thermoCount ==> thermometers[k].address == bus.search[k]
        decreases |bus.search| - thermoCount
      {
        if thermoCount >= thermoMax {
          if !reallocOk {
            thermometers := null;
            return -1;
          }
          var grown := new Thermometer[thermoMax + THERMO_COUNT_STEP];
          var kept := if thermometers.Length < grown.Length then thermometers.Length else grown.Length;
          forall k | 0 <= k < kept {
            grown[k] := thermometers[k];
          }
          thermometers := grown;
          thermoMax := thermoMax + THERMO_COUNT_STEP;
        }
        thermometers[thermoCount] := thermometers[thermoCount].(address := bus.search[thermoCount]);
        thermoCount := thermoCount + 1;
      }
      return 0;
    }

    /**
     * The corrected discovery accepts every bus the code as written handles
     * from a nonzero `thermo_max`: one that fits the array needs no growth,
     * so it succeeds even when reallocation would fail.
     */
    lemma GrowingAcceptsWhatFits(bus: Bus)
      requires Valid() && thermoMax > 0 && SearchFits(bus)
      ensures !(|bus.search| > thermoMax)
    {
    }

    /**
     * `read_temperatures`: one broadcast conversion; if it fails nothing is
     * touched and the result is -1. Otherwise every thermometer below
     * `thermo_count` is read in turn, none skipped, and the result is 0 when all
     * reads succeeded and -2 when at least one failed.
     */
    method ReadTemperatures(bus: Bus, fullScratchpad: bool, tempC: Scratchpad -> real) returns (r: int)
      requires Valid()
      modifies thermometers
      ensures !bus.convertOk ==> r == -1 && unchanged(thermometers)
      ensures bus.convertOk ==> forall k :: 0 <= k < thermoCount ==>
        thermometers[k] == Refreshed(old(thermometers[k]),
                                     Reply(bus, k, old(thermometers[k]).address, fullScratchpad), tempC)
      ensures forall k :: thermoCount <= k < thermometers.Length ==> thermometers[k] == old(thermometers[k])
      ensures bus.convertOk ==> r == 0 || r == -2
      ensures bus.convertOk ==>
        (r == 0 <==> forall k :: 0 <= k < thermoCount ==> thermometers[k].status == TEMP_STATUS_OK)
    {
      if !bus.convertOk {
        return -1;
      }
      // sleep(1) while the sensors convert
      r := 0;
      var i := 0;
      while i < thermoCount
        invariant 0 <= i <= thermoCount
        invariant forall k :: 0 <= k < i ==>
          thermometers[k] == Refreshed(old(thermometers[k]),
                                       Reply(bus, k, old(thermometers[k]).address, fullScratchpad), tempC)
        invariant forall k :: i <= k < thermometers.Length ==> thermometers[k] == old(thermometers[k])
        invariant r == 0 || r == -2
        invariant r == 0 <==> forall k :: 0 <= k < i ==> thermometers[k].status == TEMP_STATUS_OK
      {
        var th := thermometers[i];
        var reply;
        if fullScratchpad {
          reply := bus.readScratchpad(i, th.address);
        } else {
          reply := bus.readTempOnly(i, th.address);
        }
        if reply.ok {
          thermometers[i] := th.(scratchpad := reply.scratchpad, temperature := tempC(reply.scratchpad),
                                 status := TEMP_STATUS_OK);
        } else {
          thermometers[i] := th.(scratchpad := reply.scratchpad, status := TEMP_STATUS_FAIL);
          r := -2;
        }
        i := i + 1;
      }
    }

    /**
     * `temp_thread`, run sequentially: init (result ignored), discovery, and the
     * read pass unless discovery failed. `tret` is -1 exactly when discovery
     * failed and 0 otherwise, whatever init and the read pass reported.
     * Nothing else of the wire changes: `thermo_max` and `status` keep their
     * values and the slots above the new count keep their records.
     */
    method TempThread(bus: Bus, fullScratchpad: bool, reallocOk: bool, tempC: Scratchpad -> real)
      requires Valid() && SearchFits(bus)
      modifies this, thermometers
      ensures thermoMax == old(thermoMax) && status == old(status)
      ensures driverHeld == bus.driverOpens
      ensures tret == (if old(thermoMax) == 0 && !reallocOk then -1 else 0)
      ensures tret == -1 ==> thermometers == null && thermoCount == 0
      ensures tret == 0 ==> Valid() && thermoCount == |bus.search|
      ensures tret == 0 ==> forall k :: 0 <= k < thermoCount ==>
        var reply := Reply(bus, k, bus.search[k], fullScratchpad);
        && thermometers[k].address == bus.search[k]
        && (bus.convertOk ==> thermometers[k].scratchpad == reply.scratchpad)
        && (bus.convertOk ==> thermometers[k].status == if reply.ok then TEMP_STATUS_OK else TEMP_STATUS_FAIL)
        && (bus.convertOk && reply.ok ==> thermometers[k].temperature == tempC(reply.scratchpad))
      ensures tret == 0 ==> |View().thermometers| == |bus.search|
      ensures tret == 0 ==> forall k :: 0 <= k < |bus.search| ==> View().thermometers[k].address == bus.search[k]
      ensures tret == 0 && old(thermoMax) == 0 ==> fresh(thermometers) && thermometers.Length == THERMO_COUNT_STEP
      ensures tret == 0 && old(thermoMax) > 0 ==> thermometers == old(thermometers)
      ensures tret == 0 && old(thermoMax) > 0 ==> forall k :: 0 <= k < thermometers.Length ==>
        thermometers[k] == if k < |bus.search|
                           then AfterRead(old(thermometers[k]).(address := bus.search[k]), bus, k, fullScratchpad, tempC)
                           else old(thermometers[k])
    {
      var _ := InitWire(bus);
      var collectStatus := CollectThermometers(bus, reallocOk);
      if collectStatus != 0 {
        tret := -1;
        return;
      }
      var _ := ReadTemperatures(bus, fullScratchpad, tempC);
      tret := 0;
    }
  }

  /** The global bus list: `wires`, `wire_count`, `wire_max_count`. */
  class Registry {
    var wires: array<Wire?>
    var wireCount: int
    var wireMaxCount: int

    /** The capacity is the array length, the first `wire_count` slots hold distinct wires. */
    ghost predicate Valid()
      reads this, wires
    {
      && wires.Length == wireMaxCount
      && 0 <= wireCount <= wireMaxCount
      && (forall i :: 0 <= i < wireCount ==> wires[i] != null)
      && (forall i, j :: 0 <= i < j < wireCount ==> wires[i] != wires[j])
    }

    /** The device paths of the registered wires, in order. */
    ghost function Devices(): seq<string>
      reads this, wires
      requires Valid()
    {
      seq(wireCount, i reads this, wires requires 0 <= i < wireCount && Valid() => wires[i].device)
    }

    /** The registered wires as a set, for frames. */
    ghost function WireSet(): set<Wire?>
      reads this, wires
    {
      set i | 0 <= i < wireCount && i < wires.Length :: wires[i]
    }

    /** The initial allocation in `main`: room for `WIRE_COUNT_STEP` wires, none used. */
    constructor ()
      ensures Valid() && fresh(wires)
      ensures wireCount == 0 && wireMaxCount == WIRE_COUNT_STEP && Devices() == []
    {
      wires := new Wire?[WIRE_COUNT_STEP];
      wireCount := 0;
      wireMaxCount := WIRE_COUNT_STEP;
    }

    /**
     * `case 'd'`: append a device. The array is reallocated, `WIRE_COUNT_STEP`
     * slots larger, exactly when it is full; the earlier entries are kept and
     * the new one holds the path and no thermometer array.
     */
    method AppendDevice(device: string)
      requires Valid()
      modifies this, wires
      ensures Valid()
      ensures wireCount == old(wireCount) + 1
      ensures old(wireCount) == old(wireMaxCount) ==>
        wireMaxCount == old(wireMaxCount) + WIRE_COUNT_STEP && fresh(wires)
      ensures old(wireCount) < old(wireMaxCount) ==> wireMaxCount == old(wireMaxCount) && wires == old(wires)
      ensures forall i :: 0 <= i < old(wireCount) ==> wires[i] == old(wires[i])
      ensures fresh(wires[old(wireCount)]) && wires[old(wireCount)].thermometers == null
      ensures Devices() == old(Devices()) + [device]
    {
      if wireCount >= wireMaxCount {
        var grown := new Wire?[wireMaxCount + WIRE_COUNT_STEP];
        forall k | 0 <= k < wires.Length {
          grown[k] := wires[k];
        }
        wires := grown;
        wireMaxCount := wireMaxCount + WIRE_COUNT_STEP;
      }
      var w := new Wire(device);
      wires[wireCount] := w;
      wireCount := wireCount + 1;
    }

    /**
     * The per-wire setup before the workers start: every wire gets a fresh
     * array of `THERMO_COUNT_STEP` thermometers, `thermo_count` 0 and
     * `thermo_max` `THERMO_COUNT_STEP`.
     */
    method SetupThermometers()
      requires Valid()
      modifies WireSet()
      ensures Valid() && Devices() == old(Devices())
      ensures forall i :: 0 <= i < wireCount ==>
        && wires[i].status == old(wires[i].status)
        && wires[i].tret == old(wires[i].tret)
        && wires[i].driverHeld == old(wires[i].driverHeld)
      ensures forall i :: 0 <= i < wireCount ==>
        && wires[i].Valid()
        && fresh(wires[i].thermometers)
        && wires[i].thermometers.Length == THERMO_COUNT_STEP
        && wires[i].thermoCount == 0
        && wires[i].thermoMax == THERMO_COUNT_STEP
    {
      var i := 0;
      while i < wireCount
        invariant 0 <= i <= wireCount
        invariant forall k :: 0 <= k < wireCount ==>
          && wires[k].status == old(wires[k].status)
          && wires[k].tret == old(wires[k].tret)
          && wires[k].driverHeld == old(wires[k].driverHeld)
        invariant forall k :: 0 <= k < i ==>
          && wires[k].Valid()
          && fresh(wires[k].thermometers)
          && wires[k].thermometers.Length == THERMO_COUNT_STEP
          && wires[k].thermoCount == 0
          && wires[k].thermoMax == THERMO_COUNT_STEP
      {
        var arr := new Thermometer[THERMO_COUNT_STEP];
        wires[i].thermometers := arr;
        wires[i].thermoCount := 0;
        wires[i].thermoMax := THERMO_COUNT_STEP;
        i := i + 1;
      }
    }
  }
}
