/**
 * minimega's `host` command: the load average and memory figures read from
 * /proc, and the response that lists them.  The contents of /proc/loadavg and
 * the lines of /proc/meminfo are parameters; reading them is not modelled.
 */
module MinimegaStats {
  import opened Wrappers
  import opened GoText

  /** The preferred order of the columns of the all-fields table. */
  const HostInfoKeys: seq<string> := ["name", "cpus", "load", "memused", "memtotal", "bandwidth"]

  /** The parts of a minicli response that `host` fills in. */
  datatype CliResponse = CliResponse(
    Host: string,
    Response: string,
    Header: seq<string>,
    Tabular: seq<seq<string>>,
    Error: string)

  // ---------------------------------------------------------------------------
  // Load average

  /**
   * The first three load figures of /proc/loadavg, separated by single spaces.
   * `loadavg` is the outcome of reading the file.
   */
  function HostStatsLoad(loadavg: Result<string, string>): (r: Result<string, string>)
    ensures loadavg.Failure? ==> r == Failure(loadavg.error)
    ensures loadavg.Success? ==> (r.Success? <==> |Fields(loadavg.value)| == 5)
    ensures loadavg.Success? && r.Failure? ==> r.error == "could not read loadavg"
    ensures r.Success? ==> r.value == Join(Fields(loadavg.value)[..3], " ")
    ensures r.Success? ==> Fields(r.value) == Fields(loadavg.value)[..3]
  {
    match loadavg
    case Failure(e) => Failure(e)
    case Success(content) =>
      var f := Fields(content);
      if |f| != 5 then Failure("could not read loadavg")
      else
        FieldsOfJoin(f[..3]);
        Success(Join(f[..3], " "))
  }

  // ---------------------------------------------------------------------------
  // Memory

  /** The four accumulators of the meminfo scan, in KiB as /proc reports them. */
  datatype MemCounters = MemCounters(Total: Int64, Free: Int64, Buffers: Int64, Cached: Int64)

  /** A key that never appears counts as 0. */
  const Zero := MemCounters(0, 0, 0, 0)

  predicate IsMemKey(key: string) {
    key == "MemTotal:" || key == "MemFree:" || key == "Buffers:" || key == "Cached:"
  }

  /** A line has a first field, and a second one when the first is a recognised key. */
  predicate WellFormedLine(line: string) {
    |Fields(line)| >= 1 && (IsMemKey(Fields(line)[0]) ==> |Fields(line)| >= 2)
  }

  predicate WellFormedLines(lines: seq<string>) {
    forall i :: 0 <= i < |lines| ==> WellFormedLine(lines[i])
  }

  /**
   * The lines the scan reaches are well formed: every line up to and
   * including the first one whose value does not parse.
   */
  predicate ScanEvaluable(lines: seq<string>) {
    lines == [] || (WellFormedLine(lines[0]) && (!BadLine(lines[0]) ==> ScanEvaluable(lines[1..])))
  }

  /** Only the lines of a file that was opened, and only those the scan reaches, need to be well formed. */
  predicate WellFormedMemInfo(meminfo: Result<seq<string>, string>) {
    meminfo.Success? ==> ScanEvaluable(meminfo.value)
  }

  function Key(line: string): string
    requires WellFormedLine(line)
  {
    Fields(line)[0]
  }

  /** The text of the value of a line with a recognised key. */
  function ValueText(line: string): string
    requires WellFormedLine(line) && IsMemKey(Key(line))
  {
    Fields(line)[1]
  }

  /** A line with a recognised key whose value strconv.Atoi rejects. */
  predicate BadLine(line: string)
    requires WellFormedLine(line)
  {
    IsMemKey(Key(line)) && Atoi(ValueText(line)).None?
  }

  function ParseError(line: string): string
    requires WellFormedLine(line)
  {
    "cannot parse meminfo " + Key(line)
  }

  function Get(c: MemCounters, key: string): Int64
    requires IsMemKey(key)
  {
    if key == "MemTotal:" then c.Total
    else if key == "MemFree:" then c.Free
    else if key == "Buffers:" then c.Buffers
    else c.Cached
  }

  /** The counters with the one named by `key` replaced by `m`. */
  function Set(c: MemCounters, key: string, m: Int64): (d: MemCounters)
    requires IsMemKey(key)
    ensures Get(d, key) == m
    ensures forall k :: IsMemKey(k) && k != key ==> Get(d, k) == Get(c, k)
  {
    if key == "MemTotal:" then c.(Total := m)
    else if key == "MemFree:" then c.(Free := m)
    else if key == "Buffers:" then c.(Buffers := m)
    else c.(Cached := m)
  }

  /** One turn of the scan loop: unknown keys are skipped, a bad value stops the scan. */
  function ScanLine(c: MemCounters, line: string): Result<MemCounters, string>
    requires WellFormedLine(line)
  {
    if !IsMemKey(Key(line)) then Success(c)
    else
      match Atoi(ValueText(line))
      case None => Failure(ParseError(line))
      case Some(m) => Success(Set(c, Key(line), m))
  }

  /** The whole scan, line after line from the first. */
  function ScanLines(c: MemCounters, lines: seq<string>): Result<MemCounters, string>
    requires ScanEvaluable(lines)
    decreases lines
  {
    if lines == [] then Success(c)
    else
      match ScanLine(c, lines[0])
      case Failure(e) => Failure(e)
      case Success(c') => ScanLines(c', lines[1..])
  }

  /** The index of the last line whose key is `key`, or -1 when there is none. */
  function LastIndex(lines: seq<string>, key: string): (i: int)
    requires WellFormedLines(lines)
    ensures -1 <= i < |lines|
    ensures i >= 0 ==> Key(lines[i]) == key
    ensures forall j :: i < j < |lines| ==> Key(lines[j]) != key
  {
    if lines == [] then -1
    else if Key(lines[|lines| - 1]) == key then |lines| - 1
    else LastIndex(lines[..|lines| - 1], key)
  }

  /**
   * The two figures hostStatsMemory reports, in MiB: total, and total minus
   * free, buffers and cached.  Go's int arithmetic wraps around and its `/`
   * truncates toward zero.
   */
  function MemFigures(c: MemCounters): (int, int)
  {
    var total := GoDiv(c.Total, 1024);
    var used := GoDiv(Wrap64(c.Total - Wrap64(Wrap64(c.Free + c.Buffers) + c.Cached)), 1024);
    (total, used)
  }

  /**
   * What hostStatsMemory returns: (total, used, error).  `meminfo` is the
   * outcome of opening /proc/meminfo and the lines the scanner delivered.
   */
  function MemoryStats(meminfo: Result<seq<string>, string>): (int, int, Option<string>)
    requires WellFormedMemInfo(meminfo)
  {
    match meminfo
    case Failure(e) => (0, 0, Some(e))
    case Success(lines) =>
      match ScanLines(Zero, lines)
      case Failure(e) => (0, 0, Some(e))
      case Success(c) => (MemFigures(c).0, MemFigures(c).1, None)
  }

  /** hostStatsMemory: the scan loop over the lines, then the arithmetic. */
  method HostStatsMemory(meminfo: Result<seq<string>, string>) returns (total: int, used: int, err: Option<string>)
    requires WellFormedMemInfo(meminfo)
    ensures (total, used, err) == MemoryStats(meminfo)
  {
    if meminfo.Failure? {
      return 0, 0, Some(meminfo.error);
    }
    var lines := meminfo.value;
    var memTotal: Int64, memFree: Int64, memCached: Int64, memBuffers: Int64 := 0, 0, 0, 0;
    for i := 0 to |lines|
      invariant ScanEvaluable(lines[i..])
      invariant ScanLines(Zero, lines) == ScanLines(MemCounters(memTotal, memFree, memBuffers, memCached), lines[i..])
    {
      assert lines[i..][0] == lines[i];
      ghost var current := MemCounters(memTotal, memFree, memBuffers, memCached);
      var d := Fields(lines[i]);
      if IsMemKey(d[0]) {
        ScanKeyStep(current, lines, i);
      } else {
        ScanOtherStep(current, lines, i);
      }
      if d[0] == "MemTotal:" {
        var m := Atoi(d[1]);
        if m.None? {
          return 0, 0, Some("cannot parse meminfo " + d[0]);
        }
        memTotal := m.value;
      } else if d[0] == "MemFree:" {
        var m := Atoi(d[1]);
        if m.None? {
          return 0, 0, Some("cannot parse meminfo " + d[0]);
        }
        memFree := m.value;
      } else if d[0] == "Buffers:" {
        var m := Atoi(d[1]);
        if m.None? {
          return 0, 0, Some("cannot parse meminfo " + d[0]);
        }
        memBuffers := m.value;
      } else if d[0] == "Cached:" {
        var m := Atoi(d[1]);
        if m.None? {
          return 0, 0, Some("cannot parse meminfo " + d[0]);
        }
        memCached := m.value;
      }
    }
    assert lines[|lines|..] == [];
    ghost var final := MemCounters(memTotal, memFree, memBuffers, memCached);
    assert ScanLines(Zero, lines) == Success(final);
    used := GoDiv(Wrap64(memTotal - Wrap64(Wrap64(memFree + memBuffers) + memCached)), 1024);
    total := GoDiv(memTotal, 1024);
    err := None;
  }

  /** A line with a recognised key either stops the scan or sets that key's counter. */
  lemma ScanKeyStep(c: MemCounters, lines: seq<string>, i: int)
    requires 0 <= i < |lines| && ScanEvaluable(lines[i..])
    requires WellFormedLine(lines[i]) && IsMemKey(Key(lines[i]))
    ensures Atoi(ValueText(lines[i])).None? ==>
      ScanLines(c, lines[i..]) == Failure("cannot parse meminfo " + Key(lines[i]))
    ensures Atoi(ValueText(lines[i])).Some? ==> ScanEvaluable(lines[i + 1..])
    ensures Atoi(ValueText(lines[i])).Some? ==>
      ScanLines(c, lines[i..]) == ScanLines(Set(c, Key(lines[i]), Atoi(ValueText(lines[i])).value), lines[i + 1..])
  {
    assert lines[i..][0] == lines[i] && lines[i..][1..] == lines[i + 1..];
  }

  /** A line with any other key leaves the counters as they are. */
  lemma ScanOtherStep(c: MemCounters, lines: seq<string>, i: int)
    requires 0 <= i < |lines| && ScanEvaluable(lines[i..])
    requires WellFormedLine(lines[i]) && !IsMemKey(Key(lines[i]))
    ensures ScanEvaluable(lines[i + 1..])
    ensures ScanLines(c, lines[i..]) == ScanLines(c, lines[i + 1..])
  {
    assert lines[i..][0] == lines[i] && lines[i..][1..] == lines[i + 1..];
  }

  /** When every line is well formed, the scan can reach all of them. */
  lemma {:induction false} WellFormedScanEvaluable(lines: seq<string>)
    requires WellFormedLines(lines)
    ensures ScanEvaluable(lines)
    decreases lines
  {
    if lines != [] {
      var rest := lines[1..];
      assert WellFormedLines(rest) by {
        forall i | 0 <= i < |rest|
          ensures WellFormedLine(rest[i])
        {
          assert rest[i] == lines[i + 1];
        }
      }
      WellFormedScanEvaluable(rest);
    }
  }

  /** A scan that succeeds has read every line, so every line is well formed. */
  lemma {:induction false} ScanSuccessWellFormed(c: MemCounters, lines: seq<string>)
    requires ScanEvaluable(lines) && ScanLines(c, lines).Success?
    ensures WellFormedLines(lines)
    decreases lines
  {
    if lines != [] {
      var c1 := ScanLine(c, lines[0]).value;
      ScanSuccessWellFormed(c1, lines[1..]);
      forall i | 0 <= i < |lines|
        ensures WellFormedLine(lines[i])
      {
        if i > 0 {
          assert lines[i] == lines[1..][i - 1];
        }
      }
    }
  }

  /** Scanning one more line continues from where the shorter scan stopped. */
  lemma {:induction false} ScanLinesSnoc(c: MemCounters, lines: seq<string>, line: string)
    requires WellFormedLines(lines) && WellFormedLine(line)
    ensures WellFormedLines(lines + [line])
    ensures ScanEvaluable(lines) && ScanEvaluable(lines + [line])
    ensures ScanLines(c, lines + [line]) ==
      match ScanLines(c, lines)
      case Failure(e) => Failure(e)
      case Success(c') => ScanLine(c', line)
    decreases lines
  {
    var all := lines + [line];
    assert WellFormedLines(all) by {
      forall i | 0 <= i < |all|
        ensures WellFormedLine(all[i])
      {
        if i < |lines| {
          assert all[i] == lines[i];
        }
      }
    }
    WellFormedScanEvaluable(lines);
    WellFormedScanEvaluable(all);
    if lines == [] {
      assert all == [line];
    } else {
      assert all[0] == lines[0];
      assert all[1..] == lines[1..] + [line];
      assert WellFormedLines(lines[1..]) by {
        forall i | 0 <= i < |lines| - 1
          ensures WellFormedLine(lines[1..][i])
        {
          assert lines[1..][i] == lines[i + 1];
        }
      }
      match ScanLine(c, lines[0])
      case Failure(e) =>
      case Success(c1) =>
        ScanLinesSnoc(c1, lines[1..], line);
    }
  }

  /**
   * After a successful scan every line has been read, and every counter holds
   * the value of the last line carrying its key, or its starting value when
   * no line carries it: unknown keys are ignored and a later line overwrites
   * an earlier one.
   */
  lemma ScanLinesLastWins(c: MemCounters, lines: seq<string>, key: string)
    requires ScanEvaluable(lines) && ScanLines(c, lines).Success?
    requires IsMemKey(key)
    ensures WellFormedLines(lines)
    ensures LastIndex(lines, key) < 0 ==> Get(ScanLines(c, lines).value, key) == Get(c, key)
    ensures LastIndex(lines, key) >= 0 ==>
      Atoi(ValueText(lines[LastIndex(lines, key)])) == Some(Get(ScanLines(c, lines).value, key))
  {
    ScanSuccessWellFormed(c, lines);
    LastWinsOfWellFormed(c, lines, key);
  }

  /** ScanLinesLastWins, by induction on the lines read last to first. */
  lemma {:induction false} LastWinsOfWellFormed(c: MemCounters, lines: seq<string>, key: string)
    requires WellFormedLines(lines) && ScanEvaluable(lines) && ScanLines(c, lines).Success?
    requires IsMemKey(key)
    ensures LastIndex(lines, key) < 0 ==> Get(ScanLines(c, lines).value, key) == Get(c, key)
    ensures LastIndex(lines, key) >= 0 ==>
      Atoi(ValueText(lines[LastIndex(lines, key)])) == Some(Get(ScanLines(c, lines).value, key))
    decreases lines
  {
    if lines != [] {
      var init := lines[..|lines| - 1];
      var line := lines[|lines| - 1];
      assert lines == init + [line];
      assert WellFormedLines(init) by {
        forall i | 0 <= i < |init|
          ensures WellFormedLine(init[i])
        {
          assert init[i] == lines[i];
        }
      }
      ScanLinesSnoc(c, init, line);
      LastWinsOfWellFormed(c, init, key);
      LastWinsStep(c, ScanLines(c, init).value, init, line, key);
    }
  }

  /** One more line: a line with `key` overwrites the counter, any other line leaves it. */
  lemma LastWinsStep(c: MemCounters, c1: MemCounters, init: seq<string>, line: string, key: string)
    requires WellFormedLines(init) && WellFormedLine(line) && WellFormedLines(init + [line]) && IsMemKey(key)
    requires ScanLine(c1, line).Success?
    requires LastIndex(init, key) < 0 ==> Get(c1, key) == Get(c, key)
    requires LastIndex(init, key) >= 0 ==> Atoi(ValueText(init[LastIndex(init, key)])) == Some(Get(c1, key))
    ensures LastIndex(init + [line], key) < 0 ==> Get(ScanLine(c1, line).value, key) == Get(c, key)
    ensures LastIndex(init + [line], key) >= 0 ==>
      Atoi(ValueText((init + [line])[LastIndex(init + [line], key)])) == Some(Get(ScanLine(c1, line).value, key))
  {
    var lines := init + [line];
    assert lines[..|lines| - 1] == init && lines[|lines| - 1] == line;
    if Key(line) == key {
      assert LastIndex(lines, key) == |lines| - 1;
    } else {
      assert LastIndex(lines, key) == LastIndex(init, key);
      assert LastIndex(init, key) >= 0 ==> lines[LastIndex(init, key)] == init[LastIndex(init, key)];
    }
  }

  /** Line `i` is the first line whose value does not parse. */
  predicate FirstBadLine(lines: seq<string>, i: int)
    requires 0 <= i < |lines|
  {
    && (forall j :: 0 <= j < i ==> WellFormedLine(lines[j]) && !BadLine(lines[j]))
    && WellFormedLine(lines[i]) && BadLine(lines[i])
  }

  /**
   * The scan fails exactly when some line has a recognised key and a value that
   * is not an integer, and then with the message of the first such line.
   */
  lemma {:induction false} ScanLinesFailsIff(c: MemCounters, lines: seq<string>)
    requires ScanEvaluable(lines)
    ensures ScanLines(c, lines).Failure? <==> exists i :: 0 <= i < |lines| && FirstBadLine(lines, i)
    ensures ScanLines(c, lines).Failure? ==>
      exists i :: 0 <= i < |lines| && FirstBadLine(lines, i) && ScanLines(c, lines).error == ParseError(lines[i])
    decreases lines
  {
    if lines != [] {
      var rest := lines[1..];
      if BadLine(lines[0]) {
        assert FirstBadLine(lines, 0);
      } else {
        var c1 := ScanLine(c, lines[0]).value;
        ScanLinesFailsIff(c1, rest);
        assert ScanLines(c, lines) == ScanLines(c1, rest);
        if exists i :: 0 <= i < |lines| && FirstBadLine(lines, i) {
          var i :| 0 <= i < |lines| && FirstBadLine(lines, i);
          assert i > 0;
          assert FirstBadLine(rest, i - 1) by {
            forall j | 0 <= j < i - 1
              ensures WellFormedLine(rest[j]) && !BadLine(rest[j])
            {
              assert rest[j] == lines[j + 1];
            }
          }
        }
        if ScanLines(c1, rest).Failure? {
          var i :| 0 <= i < |rest| && FirstBadLine(rest, i) && ScanLines(c1, rest).error == ParseError(rest[i]);
          assert lines[i + 1] == rest[i];
          assert FirstBadLine(lines, i + 1) by {
            forall j | 0 <= j < i + 1
              ensures WellFormedLine(lines[j]) && !BadLine(lines[j])
            {
              if j > 0 {
                assert lines[j] == rest[j - 1];
              }
            }
          }
        }
      }
    }
  }

  /**
   * The scan stops at a value that does not parse: whatever follows that
   * line, even lines with no fields at all, is never read.
   */
  lemma UnparsableValueStopsScan(bad: string, rest: seq<string>)
    requires WellFormedLine(bad) && BadLine(bad)
    ensures WellFormedMemInfo(Success([bad] + rest))
    ensures MemoryStats(Success([bad] + rest)) == (0, 0, Some(ParseError(bad)))
  {
    assert ([bad] + rest)[0] == bad;
  }

  /**
   * With counters small enough that no sum wraps around, "used" is total
   * minus the other three, divided with truncation toward zero, and never
   * exceeds total when free, buffers and cached are non-negative.
   */
  lemma {:induction false} MemFiguresWithoutWrap(c: MemCounters)
    requires 0 <= c.Total < 0x1000_0000_0000_0000 && 0 <= c.Free < 0x1000_0000_0000_0000
    requires 0 <= c.Buffers < 0x1000_0000_0000_0000 && 0 <= c.Cached < 0x1000_0000_0000_0000
    ensures MemFigures(c).1 == GoDiv(c.Total - (c.Free + c.Buffers + c.Cached), 1024)
    ensures MemFigures(c).1 <= MemFigures(c).0
    ensures c.Free + c.Buffers + c.Cached <= c.Total ==> 0 <= MemFigures(c).1
    ensures c.Free + c.Buffers + c.Cached > c.Total ==> MemFigures(c).1 <= 0
  {
  }

  // ---------------------------------------------------------------------------
  // The host command

  /**
   * The outcomes the host command gathers: the host name, the number of CPUs,
   * reading /proc/loadavg, reading /proc/meminfo and the bandwidth figure.
   */
  datatype HostSources = HostSources(
    hostname: string,
    numCPU: Int64,
    loadavg: Result<string, string>,
    meminfo: Result<seq<string>, string>,
    bandwidth: Result<string, string>)

  /** A field the command can compute without indexing past the end of a meminfo line. */
  predicate Evaluable(src: HostSources, key: string) {
    key in HostInfoKeys && ((key == "memused" || key == "memtotal") ==> WellFormedMemInfo(src.meminfo))
  }

  /** The value shown for one field, or the error that computing it reports. */
  function HostInfo(src: HostSources, key: string): (r: Result<string, string>)
    requires Evaluable(src, key)
    ensures key == "name" ==> r == Success(src.hostname)
    ensures key == "cpus" ==> r == Success(Itoa(src.numCPU))
    ensures key == "cpus" ==> r.Success? && Atoi(r.value) == Some(src.numCPU as int)
    ensures key == "load" ==> r == HostStatsLoad(src.loadavg)
    ensures key == "bandwidth" ==> r == src.bandwidth
    ensures (key == "memused" || key == "memtotal") && MemoryStats(src.meminfo).2.Some? ==>
      r == Failure(MemoryStats(src.meminfo).2.value)
  {
    if key == "name" then Success(src.hostname)
    else if key == "cpus" then Success(Itoa(src.numCPU))
    else if key == "load" then HostStatsLoad(src.loadavg)
    else if key == "bandwidth" then src.bandwidth
    else
      var (total, used, err) := MemoryStats(src.meminfo);
      if err.Some? then Failure(err.value)
      else Success(Itoa(if key == "memtotal" then total else used) + " MB")
  }

  /**
   * A memory field is exactly "%v MB" of the figure hostStatsMemory computed,
   * so it reads as that number followed by "MB"; a memory field fails exactly
   * when hostStatsMemory does.
   */
  lemma HostInfoMemoryShown(src: HostSources, key: string)
    requires Evaluable(src, key) && (key == "memused" || key == "memtotal")
    ensures HostInfo(src, key).Failure? <==> MemoryStats(src.meminfo).2.Some?
    ensures HostInfo(src, key).Success? ==>
      HostInfo(src, key).value
      == Itoa(if key == "memtotal" then MemoryStats(src.meminfo).0 else MemoryStats(src.meminfo).1) + " MB"
    ensures HostInfo(src, key).Success? ==>
      && |Fields(HostInfo(src, key).value)| == 2
      && Fields(HostInfo(src, key).value)[1] == "MB"
      && Atoi(Fields(HostInfo(src, key).value)[0])
         == Some(if key == "memtotal" then MemoryStats(src.meminfo).0 else MemoryStats(src.meminfo).1)
  {
    var m := MemoryStats(src.meminfo);
    if m.2.None? {
      var n := if key == "memtotal" then m.0 else m.1;
      MemoryStatsInRange(src.meminfo);
      MegabytesFields(n);
    }
  }

  /** Both figures fit in a Go int. */
  lemma MemoryStatsInRange(meminfo: Result<seq<string>, string>)
    requires WellFormedMemInfo(meminfo)
    ensures Int64Min <= MemoryStats(meminfo).0 <= Int64Max
    ensures Int64Min <= MemoryStats(meminfo).1 <= Int64Max
  {
  }

  /** "%v MB" splits into the number, which reads back, and the unit. */
  lemma MegabytesFields(n: int)
    requires Int64Min <= n <= Int64Max
    ensures Fields(Itoa(n) + " MB") == [Itoa(n), "MB"]
    ensures Atoi(Itoa(n)) == Some(n)
  {
    assert Itoa(n) + " MB" == Join([Itoa(n), "MB"], " ");
    FieldsOfJoin([Itoa(n), "MB"]);
  }

  /**
   * The fields of `keys` can be computed in order up to the first one that
   * fails: the row loop never reaches a field it could not compute.
   */
  predicate RowEvaluable(src: HostSources, keys: seq<string>) {
    keys == [] || (Evaluable(src, keys[0]) && (HostInfo(src, keys[0]).Success? ==> RowEvaluable(src, keys[1..])))
  }

  /**
   * For the all-fields table only the memory fields look at meminfo, and the
   * loop reaches them only when the load field succeeded.
   */
  lemma HostRowReachesMemory(src: HostSources)
    ensures RowEvaluable(src, HostInfoKeys) <==>
      (HostStatsLoad(src.loadavg).Success? ==> WellFormedMemInfo(src.meminfo))
  {
    NameFieldEvaluable(src);
    assert HostInfoKeys == ["name", "cpus", "load", "memused", "memtotal", "bandwidth"];
  }

  /** The name field always succeeds, so it passes the question on to the cpus field. */
  lemma NameFieldEvaluable(src: HostSources)
    ensures RowEvaluable(src, ["name", "cpus", "load", "memused", "memtotal", "bandwidth"]) <==>
      (HostStatsLoad(src.loadavg).Success? ==> WellFormedMemInfo(src.meminfo))
  {
    CpusFieldEvaluable(src);
    RowEvaluableCons(src, "name", ["cpus", "load", "memused", "memtotal", "bandwidth"]);
    assert ["name"] + ["cpus", "load", "memused", "memtotal", "bandwidth"]
        == ["name", "cpus", "load", "memused", "memtotal", "bandwidth"];
  }

  /** The cpus field always succeeds, so it passes the question on to the load field. */
  lemma CpusFieldEvaluable(src: HostSources)
    ensures RowEvaluable(src, ["cpus", "load", "memused", "memtotal", "bandwidth"]) <==>
      (HostStatsLoad(src.loadavg).Success? ==> WellFormedMemInfo(src.meminfo))
  {
    LoadFieldEvaluable(src);
    RowEvaluableCons(src, "cpus", ["load", "memused", "memtotal", "bandwidth"]);
  }

  /** From the load field on, the row can be computed unless load succeeds and meminfo is malformed. */
  lemma LoadFieldEvaluable(src: HostSources)
    ensures RowEvaluable(src, ["load", "memused", "memtotal", "bandwidth"]) <==>
      (HostStatsLoad(src.loadavg).Success? ==> WellFormedMemInfo(src.meminfo))
  {
    MemoryFieldsEvaluable(src);
    RowEvaluableCons(src, "load", ["memused", "memtotal", "bandwidth"]);
  }

  /** The last three fields of the row can be computed exactly when meminfo is well formed. */
  lemma MemoryFieldsEvaluable(src: HostSources)
    ensures RowEvaluable(src, ["memused", "memtotal", "bandwidth"]) <==> WellFormedMemInfo(src.meminfo)
  {
    RowEvaluableCons(src, "bandwidth", []);
    RowEvaluableCons(src, "memtotal", ["bandwidth"]);
    RowEvaluableCons(src, "memused", ["memtotal", "bandwidth"]);
  }

  lemma RowEvaluableCons(src: HostSources, key: string, rest: seq<string>)
    ensures RowEvaluable(src, [key] + rest) <==>
      Evaluable(src, key) && (HostInfo(src, key).Success? ==> RowEvaluable(src, rest))
  {
    assert ([key] + rest)[0] == key && ([key] + rest)[1..] == rest;
  }

  /**
   * The row of the all-fields table: every field of `keys` in order, or the
   * error of the first field that fails.
   */
  method HostRow(src: HostSources, keys: seq<string>) returns (row: seq<string>, err: Option<string>)
    requires RowEvaluable(src, keys)
    ensures err.None? ==>
      && |row| == |keys|
      && forall i :: 0 <= i < |keys| ==> Evaluable(src, keys[i]) && HostInfo(src, keys[i]) == Success(row[i])
    ensures err.Some? ==>
      exists i :: && 0 <= i < |keys|
                  && (forall j :: 0 <= j < i ==> Evaluable(src, keys[j]) && HostInfo(src, keys[j]).Success?)
                  && Evaluable(src, keys[i]) && HostInfo(src, keys[i]) == Failure(err.value)
  {
    row := [];
    for i := 0 to |keys|
      invariant |row| == i
      invariant forall j :: 0 <= j < i ==> Evaluable(src, keys[j]) && HostInfo(src, keys[j]) == Success(row[j])
      invariant RowEvaluable(src, keys[i..])
    {
      assert keys[i..][0] == keys[i] && keys[i..][1..] == keys[i + 1..];
      var r := HostInfo(src, keys[i]);
      if r.Failure? {
        return row, Some(r.error);
      }
      row := row + [r.value];
    }
    err := None;
  }

  /**
   * The host command.  With a field selected, the response carries that
   * field's value or its error.  Otherwise the header is HostInfoKeys and the
   * one row holds every field in that order, unless a field fails: the first
   * failure becomes the error and there is no row.
   */
  method CliHost(src: HostSources, selected: set<string>) returns (resp: CliResponse)
    requires forall k :: k in selected ==> Evaluable(src, k)
    requires selected == {} ==> RowEvaluable(src, HostInfoKeys)
    ensures resp.Host == src.hostname
    ensures selected != {} ==>
      && resp.Header == [] && resp.Tabular == []
      && exists k :: k in selected
           && (HostInfo(src, k).Failure? ==> resp.Error == HostInfo(src, k).error && resp.Response == "")
           && (HostInfo(src, k).Success? ==> resp.Response == HostInfo(src, k).value && resp.Error == "")
    ensures selected == {} ==> resp.Header == HostInfoKeys && resp.Response == ""
    ensures selected == {} ==>
      || (&& resp.Error == ""
          && |resp.Tabular| == 1 && |resp.Tabular[0]| == |HostInfoKeys|
          && forall i :: 0 <= i < |HostInfoKeys| ==>
               Evaluable(src, HostInfoKeys[i]) && HostInfo(src, HostInfoKeys[i]) == Success(resp.Tabular[0][i]))
      || (&& resp.Tabular == []
          && exists i :: && 0 <= i < |HostInfoKeys|
                         && (forall j :: 0 <= j < i ==> Evaluable(src, HostInfoKeys[j]) && HostInfo(src, HostInfoKeys[j]).Success?)
                         && Evaluable(src, HostInfoKeys[i]) && HostInfo(src, HostInfoKeys[i]) == Failure(resp.Error))
  {
    resp := CliResponse(src.hostname, "", [], [], "");
    if selected != {} {
      var k :| k in selected;
      var r := HostInfo(src, k);
      if r.Failure? {
        resp := resp.(Error := r.error);
      } else {
        resp := resp.(Response := r.value);
      }
      return;
    }
    resp := resp.(Header := HostInfoKeys);
    var row, err := HostRow(src, HostInfoKeys);
    if err.Some? {
      resp := resp.(Error := err.value);
      return;
    }
    resp := resp.(Tabular := [row]);
  }
}
