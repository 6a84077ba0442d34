/** `CPUInfoService`: an overlay that shows the CPU temperature and, per CPU,
    its frequency and governor. A sampling thread reads sysfs and sends one
    text message `temp;id:freq:gov|id:freq:gov|…` to the view's handler,
    which parses it back into per-CPU arrays. Every file read goes through
    the `readOneLine` parameter: the first line of the named file, or `None`
    when the file cannot be read. */
module CpuInfo {
  import opened Common

  const NUMBER_OF_CPUS_PATH: string := "/sys/devices/system/cpu/present"
  const CPU_ROOT: string := "/sys/devices/system/cpu/cpu"
  const CPU_CURRENT_TAIL: string := "/cpufreq/scaling_cur_freq"
  const CPU_GOVERNOR_TAIL: string := "/cpufreq/scaling_governor"
  /** `Handler` message code of a sample. */
  const MSG_SAMPLE: int := 1

  function FreqPath(id: string): string { CPU_ROOT + id + CPU_CURRENT_TAIL }
  function GovPath(id: string): string { CPU_ROOT + id + CPU_GOVERNOR_TAIL }

  // ---------------------------------------------------------------------
  // Which CPUs are shown

  /** The CPU count read from the `present` file: a range `a-b` gives
      `b - a + 1` in 32-bit arithmetic, or 1 when that is negative; text
      without a '-' or with a bound that is not an integer gives 1. */
  function PresentCount(present: string): (n: int)
    ensures 0 <= n <= INT32_MAX
  {
    var parts := Split(present, '-');
    if |parts| > 1 then
      var cpuStart := ParseInt(parts[0]);
      var cpuEnd := ParseInt(parts[1]);
      if cpuStart.Some? && cpuEnd.Some? then
        var count := Wrap32(cpuEnd.value - cpuStart.value + 1);
        if count < 0 then 1 else count
      else 1
    else 1
  }

  /** The all-cores path: ids "0" … "n-1" for the `present` count, or `None`
      for the NullPointerException raised when the file cannot be read. */
  function AllCoreIds(present: Option<string>): Option<seq<string>> {
    if present.None? then None
    else Some(seq(PresentCount(present.value), i requires 0 <= i => NatToString(i)))
  }

  predicate AllIntegers(entries: seq<string>) {
    forall i :: 0 <= i < |entries| ==> ParseInt(entries[i]).Some?
  }

  /** The CPU ids `getCpus` settles on: the configured comma list when every
      entry is an integer, otherwise all cores. */
  function CpuIds(displayCpus: Option<string>, present: Option<string>): Option<seq<string>> {
    if displayCpus.Some? && AllIntegers(Split(displayCpus.value, ',')) then Some(Split(displayCpus.value, ','))
    else AllCoreIds(present)
  }

  /** A list of integers written with commas is taken as it is: as many CPUs
      as entries, each id reading back as its integer. */
  lemma {:induction false} CommaListIsKept(ids: seq<int>, present: Option<string>)
    requires 1 <= |ids|
    requires forall i :: 0 <= i < |ids| ==> IsInt32(ids[i])
    ensures var text := Join(seq(|ids|, i requires 0 <= i < |ids| => IntToString(ids[i])), ',');
            var r := CpuIds(Some(text), present);
            && r.Some? && |r.value| == |ids|
            && forall i :: 0 <= i < |ids| ==> ParseInt(r.value[i]) == Some(ids[i])
  {
    var rendered := seq(|ids|, i requires 0 <= i < |ids| => IntToString(ids[i]));
    forall i | 0 <= i < |rendered|
      ensures ',' !in rendered[i] && ParseInt(rendered[i]) == Some(ids[i])
    {
      IntToStringAvoids(ids[i], ',');
      IntToStringRoundTrip(ids[i]);
    }
    SplitJoin(rendered, ',');
  }

  /** A range `a-b` of natural numbers counts `b - a + 1` CPUs when that is
      not negative and 1 otherwise; an "empty" range `a-(a-1)` counts none. */
  lemma {:induction false} PresentRangeCount(a: nat, b: nat)
    requires a <= INT32_MAX && b <= INT32_MAX && b - a + 1 <= INT32_MAX
    ensures PresentCount(NatToString(a) + "-" + NatToString(b)) == if a <= b + 1 then b - a + 1 else 1
  {
    DigitsAvoid(NatToString(a), '-');
    DigitsAvoid(NatToString(b), '-');
    SplitAfterPiece(NatToString(a), '-', NatToString(b));
    SplitNoSeparator(NatToString(b), '-');
    IntToStringRoundTrip(a);
    IntToStringRoundTrip(b);
    assert NatToString(a) + "-" + NatToString(b) == NatToString(a) + ['-'] + NatToString(b);
  }

  /** Text without a '-' counts one CPU. */
  lemma PresentWithoutRange(present: string)
    requires '-' !in present
    ensures PresentCount(present) == 1
  {
    SplitNoSeparator(present, '-');
  }

  /** On the all-cores path the ids are the decimal numbers 0 … n-1 in order. */
  lemma {:induction false} AllCoreIdsCount(present: string)
    ensures var r := AllCoreIds(Some(present));
            && r.Some? && |r.value| == PresentCount(present)
            && forall i :: 0 <= i < |r.value| ==> ParseInt(r.value[i]) == Some(i)
  {
    var ids := AllCoreIds(Some(present)).value;
    forall i | 0 <= i < |ids|
      ensures ParseInt(ids[i]) == Some(i)
    {
      IntToStringRoundTrip(i);
    }
  }

  // ---------------------------------------------------------------------
  // The sample message

  /** The temperature field: the sensor's line, or "0" when it is missing. */
  function TempText(temp: Option<string>): string {
    if temp.None? then "0" else temp.value
  }

  /** `"$currCpu:$currFreq:$currGov"`: a missing frequency is written as "0"
      with an empty governor; a missing governor beside a frequency is
      rendered by the string template as "null". */
  function EntryFor(id: string, freq: Option<string>, gov: Option<string>): string {
    if freq.None? then id + ":0:"
    else id + ":" + freq.value + ":" + (if gov.None? then "null" else gov.value)
  }

  /** The entries of a sample, one per CPU id in order. */
  function Entries(readOneLine: string -> Option<string>, ids: seq<string>): (r: seq<string>)
    ensures |r| == |ids|
  {
    seq(|ids|, i requires 0 <= i < |ids| => EntryFor(ids[i], readOneLine(FreqPath(ids[i])), readOneLine(GovPath(ids[i]))))
  }

  /** The whole message: the temperature, ';' and the entries separated by
      '|'. Dropping the last character of the buffer removes the trailing
      '|' — or, with no CPU at all, the ';'. */
  function EncodeMessage(temp: Option<string>, entries: seq<string>): string {
    if |entries| == 0 then TempText(temp) else TempText(temp) + ";" + Join(entries, '|')
  }

  /** The frequency and governor a parsed entry yields: the second and third
      of exactly three ':'-separated fields, and otherwise "0" and "". */
  function EntryFields(entry: string): (string, string) {
    var parts := Split(entry, ':');
    if |parts| == 3 then (parts[1], parts[2]) else ("0", "")
  }

  /** The temperature field a handler reads: everything before the first ';'. */
  function MessageTemp(msg: string): string {
    Split(msg, ';')[0]
  }

  /** The CPU entries a handler reads (the second ';'-field split on '|'),
      or `None` when there is no second field and indexing it throws. */
  function MessageEntries(msg: string): Option<seq<string>> {
    var parts := Split(msg, ';');
    if |parts| < 2 then None else Some(Split(parts[1], '|'))
  }

  /** The frequency and governor a reading is expected to come back as. */
  function ReadingFields(freq: Option<string>, gov: Option<string>): (string, string) {
    if freq.None? then ("0", "") else (freq.value, if gov.None? then "null" else gov.value)
  }

  predicate NoSeparators(s: string) {
    ';' !in s && '|' !in s && ':' !in s
  }

  predicate NoSeparatorsOpt(s: Option<string>) {
    s.None? || NoSeparators(s.value)
  }

  /** Parsing an entry gives back the frequency and governor it was written with. */
  lemma {:induction false} EntryRoundTrip(id: string, freq: Option<string>, gov: Option<string>)
    requires NoSeparators(id) && NoSeparatorsOpt(freq) && NoSeparatorsOpt(gov)
    ensures EntryFields(EntryFor(id, freq, gov)) == ReadingFields(freq, gov)
  {
    var f := if freq.None? then "0" else freq.value;
    var g := if freq.None? then "" else if gov.None? then "null" else gov.value;
    assert Join([g], ':') == g;
    assert [f, g][1..] == [g];
    assert Join([f, g], ':') == f + [':'] + g;
    assert [id, f, g][1..] == [f, g];
    assert EntryFor(id, freq, gov) == Join([id, f, g], ':');
    SplitJoin([id, f, g], ':');
  }

  /** Parsing a sample of at least one CPU gives back the temperature and,
      for each CPU in order, the frequency and governor that were read, as
      long as no value contains ';', '|' or ':'. */
  lemma {:induction false} MessageRoundTrip(temp: Option<string>, ids: seq<string>, readOneLine: string -> Option<string>)
    requires 1 <= |ids|
    requires ';' !in TempText(temp)
    requires forall i :: 0 <= i < |ids| ==>
               NoSeparators(ids[i]) && NoSeparatorsOpt(readOneLine(FreqPath(ids[i]))) && NoSeparatorsOpt(readOneLine(GovPath(ids[i])))
    ensures var msg := EncodeMessage(temp, Entries(readOneLine, ids));
            && MessageTemp(msg) == TempText(temp)
            && MessageEntries(msg).Some?
            && |MessageEntries(msg).value| == |ids|
            && forall i :: 0 <= i < |ids| ==>
                 EntryFields(MessageEntries(msg).value[i]) == ReadingFields(readOneLine(FreqPath(ids[i])), readOneLine(GovPath(ids[i])))
  {
    var entries := Entries(readOneLine, ids);
    forall i | 0 <= i < |entries|
      ensures ';' !in entries[i] && '|' !in entries[i]
      ensures EntryFields(entries[i]) == ReadingFields(readOneLine(FreqPath(ids[i])), readOneLine(GovPath(ids[i])))
    {
      EntryRoundTrip(ids[i], readOneLine(FreqPath(ids[i])), readOneLine(GovPath(ids[i])));
    }
    var body := Join(entries, '|');
    JoinAvoids(entries, '|', ';');
    SplitAfterPiece(TempText(temp), ';', body);
    SplitNoSeparator(body, ';');
    assert EncodeMessage(temp, entries) == TempText(temp) + [';'] + body;
    SplitJoin(entries, '|');
  }

  /** With no CPU the message is only the temperature, and parsing it throws
      the index error the handler catches: such samples are never shown. */
  lemma NoCpuSampleIsDropped(temp: Option<string>)
    requires ';' !in TempText(temp)
    ensures MessageEntries(EncodeMessage(temp, [])).None?
  {
    SplitNoSeparator(TempText(temp), ';');
  }

  // ---------------------------------------------------------------------
  // Display text

  /** `toMHz`: the kHz reading divided by 1000 (rounding toward zero) and
      " MHz"; text that is not an integer throws, here `None`. */
  function ToMHz(khz: string): (r: Option<string>)
    ensures r.Some? <==> ParseInt(khz).Some?
  {
    match ParseInt(khz)
    case None => None
    case Some(v) => Some(IntToString(TruncDiv(v, 1000)) + " MHz")
  }

  /** The MHz text of a kHz reading ends in " MHz" after the quotient, which
      reads back as the reading divided by 1000. */
  lemma {:induction false} ToMHzReadsBack(khz: int)
    requires IsInt32(khz)
    ensures var r := ToMHz(IntToString(khz));
            && r.Some? && |r.value| > 4
            && r.value[|r.value| - 4..] == " MHz"
            && ParseInt(r.value[..|r.value| - 4]) == Some(TruncDiv(khz, 1000))
  {
    IntToStringRoundTrip(khz);
    var q := TruncDiv(khz, 1000);
    TruncDivShrinks(khz, 1000);
    IntToStringRoundTrip(q);
    var r := IntToString(q) + " MHz";
    assert r[..|r| - 4] == IntToString(q);
  }

  /** `getCpuTemp`: the reading divided by the configured divider when that
      is greater than 1 (throwing on a non-integer reading), otherwise the
      reading unchanged. */
  function CpuTemp(cpuTemp: string, divider: int): (r: Option<string>)
    ensures divider <= 1 ==> r == Some(cpuTemp)
    ensures divider > 1 ==> (r.Some? <==> ParseInt(cpuTemp).Some?)
  {
    if divider > 1 then
      match ParseInt(cpuTemp)
      case None => None
      case Some(v) => Some(IntToString(TruncDiv(v, divider)))
    else Some(cpuTemp)
  }

  /** A scaled temperature reads back as the reading divided by the divider. */
  lemma {:induction false} CpuTempScales(t: int, divider: int)
    requires IsInt32(t) && divider > 1
    ensures var r := CpuTemp(IntToString(t), divider);
            r.Some? && ParseInt(r.value) == Some(TruncDiv(t, divider))
  {
    IntToStringRoundTrip(t);
    TruncDivShrinks(t, divider);
    IntToStringRoundTrip(TruncDiv(t, divider));
  }

  // ---------------------------------------------------------------------
  // The service and its view

  class CpuInfoService {
    var numberOfCpus: int
    var cpu: array<string>
    var currentFreq: array<Option<string>>
    var currentGov: array<Option<string>>
    var cpuTempDivider: int
    var cpuTempSensor: string
    var cpuTempAvailable: bool
    /** Fields of the view: the last temperature text and whether any sample was shown. */
    var cpuTemperature: Option<string>
    var dataAvailable: bool

    /** One array slot per shown CPU, in three distinct arrays. */
    ghost predicate Valid()
      reads this
    {
      && numberOfCpus == cpu.Length == currentFreq.Length == currentGov.Length
      && currentFreq != currentGov
    }

    /** The field initialisers; the arrays are empty until `OnCreate`. */
    constructor ()
      ensures numberOfCpus == 2 && cpuTempDivider == 1 && cpuTempSensor == ""
      ensures !cpuTempAvailable && cpuTemperature.None? && !dataAvailable
    {
      numberOfCpus := 2;
      cpu := new string[0];
      currentFreq := new Option<string>[0];
      currentGov := new Option<string>[0];
      cpuTempDivider := 1;
      cpuTempSensor := "";
      cpuTempAvailable := false;
      cpuTemperature := None;
      dataAvailable := false;
    }

    /** `getCpus`: fills `cpu` with the ids to show and returns their count;
        `None` is the NullPointerException of an unreadable `present` file. */
    method GetCpus(displayCpus: Option<string>, readOneLine: string -> Option<string>) returns (count: Option<int>)
      modifies this
      ensures var ids := CpuIds(displayCpus, readOneLine(NUMBER_OF_CPUS_PATH));
              && (count.Some? <==> ids.Some?)
              && (count.Some? ==> fresh(cpu) && count.value == cpu.Length && cpu[..] == ids.value)
      ensures numberOfCpus == old(numberOfCpus) && currentFreq == old(currentFreq) && currentGov == old(currentGov)
      ensures cpuTempDivider == old(cpuTempDivider) && cpuTempSensor == old(cpuTempSensor)
      ensures cpuTempAvailable == old(cpuTempAvailable) && cpuTemperature == old(cpuTemperature)
      ensures dataAvailable == old(dataAvailable)
    {
      if displayCpus.None? {
        count := GetAllCpus(readOneLine);
        return;
      }
      var cpuList := Split(displayCpus.value, ',');
      // `cpuList` is never empty, so the source's branch for an empty list
      // cannot be taken.
      var numOfCpu := |cpuList|;
      cpu := new string[numOfCpu];
      var i := 0;
      while i < numOfCpu
        modifies cpu
        invariant 0 <= i <= numOfCpu
        invariant forall j :: 0 <= j < i ==> ParseInt(cpuList[j]).Some? && cpu[j] == cpuList[j]
      {
        if ParseInt(cpuList[i]).None? {
          break;
        }
        cpu[i] := cpuList[i];
        i := i + 1;
      }
      if i < numOfCpu {
        // The NumberFormatException handler: `getCpus(null)`.
        assert !AllIntegers(cpuList) by {
          assert ParseInt(cpuList[i]).None?;
        }
        count := GetAllCpus(readOneLine);
        return;
      }
      assert AllIntegers(cpuList);
      assert cpu[..] == cpuList;
      return Some(numOfCpu);
    }

    /** `getCpus(null)`, the all-cores path: ids "0" … "n-1" for the count in
        the `present` file; `None` when the file cannot be read. */
    method GetAllCpus(readOneLine: string -> Option<string>) returns (count: Option<int>)
      modifies this
      ensures var ids := AllCoreIds(readOneLine(NUMBER_OF_CPUS_PATH));
              && (count.Some? <==> ids.Some?)
              && (count.Some? ==> fresh(cpu) && count.value == cpu.Length && cpu[..] == ids.value)
      ensures numberOfCpus == old(numberOfCpus) && currentFreq == old(currentFreq) && currentGov == old(currentGov)
      ensures cpuTempDivider == old(cpuTempDivider) && cpuTempSensor == old(cpuTempSensor)
      ensures cpuTempAvailable == old(cpuTempAvailable) && cpuTemperature == old(cpuTemperature)
      ensures dataAvailable == old(dataAvailable)
    {
      var numOfCpus := readOneLine(NUMBER_OF_CPUS_PATH);
      if numOfCpus.None? {
        return None;
      }
      var numOfCpu := PresentCount(numOfCpus.value);
      cpu := CoreIdArray(numOfCpu);
      return Some(numOfCpu);
    }

    /** The loop of the all-cores path: "0" … "n-1". */
    static method CoreIdArray(n: nat) returns (ids: array<string>)
      ensures fresh(ids) && ids[..] == seq(n, i requires 0 <= i => NatToString(i))
    {
      ids := new string[n];
      for i := 0 to n
        invariant forall j :: 0 <= j < i ==> ids[j] == NatToString(j)
      {
        ids[i] := NatToString(i);
      }
    }

    /** `onCreate`: reads the configuration, settles the CPU list and
        allocates one frequency and one governor slot per CPU; `false` when
        `getCpus` throws. */
    method OnCreate(tempDivider: int, tempSensor: string, displayCpus: string, readOneLine: string -> Option<string>)
      returns (created: bool)
      modifies this
      ensures var ids := CpuIds(Some(displayCpus), readOneLine(NUMBER_OF_CPUS_PATH));
              && (created <==> ids.Some?)
              && (created ==>
                    && Valid() && cpu[..] == ids.value
                    && (forall i :: 0 <= i < numberOfCpus ==> currentFreq[i].None? && currentGov[i].None?)
                    && cpuTempAvailable == readOneLine(tempSensor).Some?)
      ensures cpuTempDivider == tempDivider && cpuTempSensor == tempSensor
      ensures cpuTemperature == old(cpuTemperature) && dataAvailable == old(dataAvailable)
    {
      cpuTempDivider := tempDivider;
      cpuTempSensor := tempSensor;
      var n := GetCpus(Some(displayCpus), readOneLine);
      if n.None? {
        return false;
      }
      numberOfCpus := n.value;
      currentFreq := new Option<string>[numberOfCpus](_ => None);
      currentGov := new Option<string>[numberOfCpus](_ => None);
      cpuTempAvailable := readOneLine(cpuTempSensor).Some?;
      return true;
    }

    /** One pass of the sampling thread's loop (without its sleep): the
        message it sends to the view. */
    method BuildMessage(readOneLine: string -> Option<string>) returns (msg: string)
      requires Valid()
      ensures msg == EncodeMessage(readOneLine(cpuTempSensor), Entries(readOneLine, cpu[..]))
    {
      var cpuTemp := readOneLine(cpuTempSensor);
      var sb := TempText(cpuTemp) + ";";
      ghost var ids := cpu[..];
      ghost var entries := Entries(readOneLine, ids);
      for i := 0 to numberOfCpus
        invariant sb == SampleBuffer(cpuTemp, entries[..i])
      {
        var entry := ReadEntry(cpu[i], readOneLine);
        assert entry == entries[i] by {
          assert ids[i] == cpu[i];
        }
        sb := sb + entry + "|";
        assert entries[..i + 1][..i] == entries[..i];
      }
      assert entries[..numberOfCpus] == entries;
      BufferIsMessage(cpuTemp, entries);
      msg := sb[..|sb| - 1];
    }

    /** The body of the sampling loop for one CPU: its frequency and
        governor, read and written as one entry. */
    method ReadEntry(currCpu: string, readOneLine: string -> Option<string>) returns (entry: string)
      ensures entry == EntryFor(currCpu, readOneLine(FreqPath(currCpu)), readOneLine(GovPath(currCpu)))
    {
      var currFreq := readOneLine(CPU_ROOT + currCpu + CPU_CURRENT_TAIL);
      var currGov := readOneLine(CPU_ROOT + currCpu + CPU_GOVERNOR_TAIL);
      if currFreq.None? {
        currFreq := Some("0");
        currGov := Some("");
      }
      var govText := if currGov.None? then "null" else currGov.value;
      entry := currCpu + ":" + currFreq.value + ":" + govText;
      SampleEntry(currCpu, readOneLine(FreqPath(currCpu)), readOneLine(GovPath(currCpu)));
    }

    /** The view handler's `handleMessage`. For a sample it stores the
        temperature field, then writes each entry's frequency and governor
        into the next slot; an index error (no second field, or more entries
        than slots) is caught, leaving the writes made so far. Only a
        complete pass marks data as available. */
    method HandleMessage(what: int, obj: Option<string>)
      requires Valid()
      modifies this, currentFreq, currentGov
      ensures Valid()
      ensures cpu == old(cpu) && currentFreq == old(currentFreq) && currentGov == old(currentGov)
      ensures numberOfCpus == old(numberOfCpus) && cpuTempSensor == old(cpuTempSensor)
      ensures cpuTempDivider == old(cpuTempDivider) && cpuTempAvailable == old(cpuTempAvailable)
      ensures obj.None? || what != MSG_SAMPLE ==>
                && cpuTemperature == old(cpuTemperature) && dataAvailable == old(dataAvailable)
                && currentFreq[..] == old(currentFreq[..]) && currentGov[..] == old(currentGov[..])
      ensures obj.Some? && what == MSG_SAMPLE ==>
                && cpuTemperature == Some(MessageTemp(obj.value))
                && var entries := MessageEntries(obj.value);
                && (entries.None? ==>
                      dataAvailable == old(dataAvailable)
                      && currentFreq[..] == old(currentFreq[..]) && currentGov[..] == old(currentGov[..]))
                && (entries.Some? ==>
                      && dataAvailable == (|entries.value| <= numberOfCpus || old(dataAvailable))
                      && forall i :: 0 <= i < numberOfCpus ==>
                           && currentFreq[i] == (if i < |entries.value| then Some(EntryFields(entries.value[i]).0) else old(currentFreq[i]))
                           && currentGov[i] == (if i < |entries.value| then Some(EntryFields(entries.value[i]).1) else old(currentGov[i])))
    {
      if obj.None? {
        return;
      }
      if what == MSG_SAMPLE {
        var msgData := obj.value;
        var parts := Split(msgData, ';');
        cpuTemperature := Some(parts[0]);
        if |parts| < 2 {
          return;
        }
        var cpuParts := Split(parts[1], '|');
        for i := 0 to |cpuParts|
          modifies currentFreq, currentGov
          invariant forall j :: 0 <= j < numberOfCpus ==>
                      && currentFreq[j] == (if j < i then Some(EntryFields(cpuParts[j]).0) else old(currentFreq[j]))
                      && currentGov[j] == (if j < i then Some(EntryFields(cpuParts[j]).1) else old(currentGov[j]))
          invariant i <= numberOfCpus
        {
          if i >= currentFreq.Length {
            return;
          }
          var cpuInfoParts := Split(cpuParts[i], ':');
          if |cpuInfoParts| == 3 {
            currentFreq[i] := Some(cpuInfoParts[1]);
            currentGov[i] := Some(cpuInfoParts[2]);
          } else {
            currentFreq[i] := Some("0");
            currentGov[i] := Some("");
          }
        }
        dataAvailable := true;
      }
    }

    /** A sample taken and delivered to the view: every shown CPU's slots
        then hold the frequency and governor that were read. */
    method SampleAndShow(readOneLine: string -> Option<string>)
      requires Valid() && numberOfCpus >= 1
      requires ';' !in TempText(readOneLine(cpuTempSensor))
      requires forall i :: 0 <= i < numberOfCpus ==>
                 NoSeparators(cpu[i]) && NoSeparatorsOpt(readOneLine(FreqPath(cpu[i]))) && NoSeparatorsOpt(readOneLine(GovPath(cpu[i])))
      modifies this, currentFreq, currentGov
      ensures Valid() && cpu == old(cpu) && cpu[..] == old(cpu[..])
      ensures dataAvailable && cpuTemperature == Some(TempText(readOneLine(cpuTempSensor)))
      ensures forall i :: 0 <= i < numberOfCpus ==>
                && currentFreq[i].Some? && currentGov[i].Some?
                && (currentFreq[i].value, currentGov[i].value) == ReadingFields(readOneLine(FreqPath(cpu[i])), readOneLine(GovPath(cpu[i])))
    {
      var msg := BuildMessage(readOneLine);
      MessageRoundTrip(readOneLine(cpuTempSensor), cpu[..], readOneLine);
      HandleMessage(MSG_SAMPLE, Some(msg));
    }
  }

  /** The entry text the sampling loop assembles from one CPU's readings. */
  lemma SampleEntry(id: string, freq: Option<string>, gov: Option<string>)
    ensures var f := if freq.None? then "0" else freq.value;
            var g := if freq.None? then "" else if gov.None? then "null" else gov.value;
            id + ":" + f + ":" + g == EntryFor(id, freq, gov)
  {
    if freq.None? {
      assert id + ":" + "0" + ":" + "" == id + ":0:";
    }
  }

  /** Every entry followed by the separator, as the sampling loop appends them. */
  function Terminated(entries: seq<string>, sep: char): string {
    if entries == [] then "" else Terminated(entries[..|entries| - 1], sep) + entries[|entries| - 1] + [sep]
  }

  /** The sampling loop's buffer: the temperature and ';', then every
      entry followed by '|'. */
  function SampleBuffer(temp: Option<string>, entries: seq<string>): string {
    if entries == [] then TempText(temp) + ";"
    else SampleBuffer(temp, entries[..|entries| - 1]) + entries[|entries| - 1] + "|"
  }

  lemma {:induction false} SampleBufferTerminated(temp: Option<string>, entries: seq<string>)
    ensures SampleBuffer(temp, entries) == TempText(temp) + ";" + Terminated(entries, '|')
    decreases |entries|
  {
    if entries != [] {
      SampleBufferTerminated(temp, entries[..|entries| - 1]);
    }
  }

  /** Dropping the last character of the sampling buffer gives the message:
      the trailing '|', or with no entry the ';'. */
  lemma BufferIsMessage(temp: Option<string>, entries: seq<string>)
    ensures var sb := SampleBuffer(temp, entries);
            sb[..|sb| - 1] == EncodeMessage(temp, entries)
  {
    var sb := SampleBuffer(temp, entries);
    SampleBufferTerminated(temp, entries);
    if entries == [] {
      assert sb == TempText(temp) + ";";
    } else {
      TerminatedIsJoin(entries, '|');
      assert sb == (TempText(temp) + ";" + Join(entries, '|')) + "|";
    }
  }

  /** Without its final separator, the terminated text is the joined text. */
  lemma {:induction false} TerminatedIsJoin(entries: seq<string>, sep: char)
    requires 1 <= |entries|
    ensures Terminated(entries, sep) == Join(entries, sep) + [sep]
  {
    if |entries| > 1 {
      var init := entries[..|entries| - 1];
      TerminatedIsJoin(init, sep);
      JoinSnoc(init, entries[|entries| - 1], sep);
      assert init + [entries[|entries| - 1]] == entries;
    }
  }

  lemma {:induction false} JoinSnoc(parts: seq<string>, e: string, sep: char)
    requires 1 <= |parts|
    ensures Join(parts + [e], sep) == Join(parts, sep) + [sep] + e
  {
    if |parts| > 1 {
      JoinSnoc(parts[1..], e, sep);
      assert (parts + [e])[1..] == parts[1..] + [e];
    } else {
      assert (parts + [e])[1..] == [e];
    }
  }
}
