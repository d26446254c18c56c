# igor reservation deletion and minimega host statistics, in Dafny

This project models two small pieces of the minimega tool suite and proves properties of them.

**igor `del`** (`IgorDel`, in `igor_del.dfy`). This is the workflow that deletes a cluster-node reservation. Users reach it through `igor del <name>`, which checks the owner. The expiry path calls the same workflow without the owner check.

- The reservation table (a map from ID to reservation) and the schedule grid (time slices of node slots holding reservation IDs) are fields of the class `Igor`.
- `DeleteReservation` updates those fields in place, in the same order as the Go code:
  1. validate the arguments;
  2. resolve the user;
  3. check the owner;
  4. remove every reservation of that name;
  5. zero the grid slots holding the ID;
  6. persist both files;
  7. clear network isolation;
  8. clean up boot configuration, either PXE files or Cobbler;
  9. remove the marker, initrd and kernel files;
  10. log `DELETED`.
- Actions outside memory are appended to a ghost `Trace` of events, in the order the workflow issues them. These are the two writes, the network clear, the Cobbler commands, the file removals and the log entry.
- Each `log.Fatal` in the source becomes a `DelError` result.

**minimega `host`** (`MinimegaStats`, in `minimega_stats.dfy`, with Go library pieces in `GoText`, `go_text.dfy`).

- `HostStatsLoad` checks that `/proc/loadavg` splits into five fields, then joins the first three.
- `HostStatsMemory` is the line-by-line scan of `/proc/meminfo` into four counters, followed by the used/total arithmetic:
  - Go's `int` is 64 bits, so the sums wrap around (`Wrap64`);
  - Go's `/` truncates toward zero (`GoDiv`).
- `CliHost` builds the response of the `host` command. It returns either one selected field, or the header `HostInfoKeys` and one row.
- The file contents are parameters.
- `GoText` models the library functions used:
  - `strings.Fields` splits on `unicode.IsSpace`;
  - `strings.Join`;
  - `strconv.Atoi`, with the int64 range;
  - `%v` of an int.

Go's map iteration order is unspecified. Loops over `Reservations` therefore pick the next key with `:|`, and every contract holds for every visiting order.

In the Cobbler back-end, the profile and distro `igor_<name>` are removed only when the reservation's `CobblerProfile` is empty (`del.go:106-110`): igor created them for that reservation. A reservation that names an existing profile keeps it.

## Model

| member | source | states |
|---|---|---|
| IgorDel.Igor.DeleteReservation | src/igor/del.go:35-124 | Each early failure leaves table, grid and trace unchanged: wrong argument count, no user, the caller does not own a reservation of that name while owners are checked, or no reservation of that name. The failures are checked in that order. Otherwise every entry called `args[0]` is removed and all other entries stay as they were. `deleted` is one of the removed entries. The grid is `Purge(old grid, deleted.ID)` and the trace gains `DeleteTrace`. The result is success exactly when the network clear succeeded. With the owner check, a success means the caller owns the deleted reservation. |
| IgorDel.Igor.RunDel | src/igor/del.go:27-29 | The command-line path is `DeleteReservation` with the owner check on, and its contract is the same: the four early failures in order, each leaving table, grid and trace unchanged; otherwise every entry of that name removed and the others kept, `deleted` one of the removed entries and owned by the caller, the grid `Purge(old grid, deleted.ID)`, the trace extended by `DeleteTrace`, and success exactly when the network clear succeeded. |
| IgorDel.Igor.OwnerConflict | src/igor/del.go:47-53 | Reports a conflict exactly when some reservation of that name has another owner, whatever order the map is visited in. |
| IgorDel.Igor.RemoveByName | src/igor/del.go:55-66 | Only the entries called `name` are removed, and kept entries are unchanged. `found` holds exactly when such an entry existed. `deleted` is one of the removed entries, filed under its own ID. Otherwise `deleted` is Go's zero value. |
| IgorDel.Igor.PurgeSchedule | src/igor/del.go:68-75 | The nested loops leave the grid equal to `Purge(old grid, id)`. |
| IgorDel.PurgeNodesAt | src/igor/del.go:70-74 | Purging a slice keeps its length. A slot becomes 0 exactly when it held the ID, and every other slot keeps its value. |
| IgorDel.PurgeAt | src/igor/del.go:69-75 | Purging the grid keeps the number of slices and purges each slice on its own. |
| IgorDel.PurgeClears | src/igor/del.go:68-75 | After the purge of a non-zero ID, no slot holds that ID. Every slot that held another value keeps it, and the grid keeps its shape. |
| IgorDel.PurgeIdempotent | src/igor/del.go:68-75 | Purging twice with the same ID is the same as purging once. |
| IgorDel.Igor.RemovePxeFiles | src/igor/del.go:87-91 | Without Cobbler, the trace gains one removal of `<TFTPRoot>/pxelinux.cfg/<name>` per PXE name, in order. |
| IgorDel.Igor.ResetHostsToDefault | src/igor/del.go:93-105 | With Cobbler, the trace gains one reset of each host to the default profile. The method returns only after all resets are in the trace, which is what the join barrier guarantees. |
| IgorDel.Igor.BootCleanupSteps | src/igor/del.go:87-121 | The trace gains the back-end clean-up, then the removal of the marker, initrd and kernel files. |
| IgorDel.DeleteTraceShape | src/igor/del.go:77-123 | The trace starts with the reservations write, the schedule write and the network clear of the reservation's hosts. If the clear fails, nothing follows. Otherwise the trace ends with the removal of the marker, initrd and kernel files, then the `DELETED` log entry of the deleted reservation. |
| IgorDel.CobblerOrdering | src/igor/del.go:92-111 | Every default-profile reset comes before any profile or distro removal, and the profile is removed before the distro. |
| IgorDel.CobblerRemovalsWhen | src/igor/del.go:106-110 | The removals of the profile and the distro `igor_<ResName>` happen exactly when Cobbler is in use, the network clear succeeded and `CobblerProfile` is empty. No removal names anything else. |
| IgorDel.CobblerEditPerHost | src/igor/del.go:93-105 | With Cobbler, each host gets as many default-profile resets as it has entries in `Hosts`. Without Cobbler, or when the network clear failed, no host gets one. This count does not depend on the order of the edits. |
| IgorDel.CobblerEditsAreResets | src/igor/del.go:96-98 | Every Cobbler edit in the trace resets a host of the reservation to the configured default profile. |
| IgorDel.PxeFileRemovedPerName | src/igor/del.go:87-91 | Without Cobbler, after a successful network clear, `<TFTPRoot>/pxelinux.cfg/<p>` is removed once per occurrence of `p` among the PXE names. With Cobbler it is never removed. |
| GoText.FieldsOfJoin | src/minimega/stats.go:107-111 | Splitting words joined by single spaces gives the words back. |
| GoText.Atoi | src/minimega/stats.go:134 | Only digit strings, optionally after one `+` or `-`, are accepted. Such a string is accepted exactly when its decimal value (negated after `-`) lies in the int64 range, and the result is that value. |
| GoText.Itoa | src/minimega/stats.go:48 | The decimal text of an int64 is one field with no leading zeros and no `+`, starting with `-` exactly when the number is negative, and `Atoi` reads it back to the same number. |
| GoText.GoDiv | src/minimega/stats.go:168-169 | Quotient truncated toward zero: the remainder takes the sign of the dividend and is smaller than the divisor in size. The quotient lies between 0 and the dividend. |
| GoText.Wrap64 | src/minimega/stats.go:168 | The result is an int64 congruent to the input modulo 2^64, and it equals the input when that fits. |
| MinimegaStats.HostStatsLoad | src/minimega/stats.go:99-114 | A read error passes through. The function succeeds exactly when the content has 5 fields; otherwise it fails with "could not read loadavg". On success the result is the first three fields of the content joined by single spaces, and it splits back into those fields. |
| MinimegaStats.HostStatsMemory | src/minimega/stats.go:116-172 | The loop over the lines, with its four accumulators, returns `MemoryStats` of the input. That is `(0, 0, error)` when the file could not be opened or a value does not parse, and otherwise `(total, used, no error)` computed from the counters the scan produced. |
| MinimegaStats.ScanLinesLastWins | src/minimega/stats.go:130-161 | A successful scan has read every line, so every line is well formed. Each counter holds the value of the last line with its key. When no line has the key, the counter keeps its starting value, which is 0 in hostStatsMemory. Lines with other keys are ignored. |
| MinimegaStats.ScanLinesFailsIff | src/minimega/stats.go:133-158 | The scan fails exactly when, among the lines it reaches, some line has a recognised key whose value strconv.Atoi rejects. The error names the key of the first such line. |
| MinimegaStats.UnparsableValueStopsScan | src/minimega/stats.go:130-136 | A first line whose value does not parse ends hostStatsMemory with `(0, 0, error)`, whatever follows, even lines without fields. |
| MinimegaStats.MemFiguresWithoutWrap | src/minimega/stats.go:168-171 | For non-negative counters below 2^60, used is `(total - (free + buffers + cached))` divided with truncation. It never exceeds total. It is non-negative when the three fit in total, and at most 0 when they do not. |
| MinimegaStats.MemoryStatsInRange | src/minimega/stats.go:168-171 | Both figures fit in a Go int. |
| MinimegaStats.MegabytesFields | src/minimega/stats.go:46-53 | `"%v MB"` of an int64 splits into the number, which reads back, and `MB`. |
| MinimegaStats.HostInfoMemoryShown | src/minimega/stats.go:46-53 | `memused` and `memtotal` fail exactly when hostStatsMemory does. Otherwise they show exactly `"%v MB"` of the figure hostStatsMemory computed, which splits into that number and `MB`. |
| MinimegaStats.HostInfo | src/minimega/stats.go:44-59 | `name` is the host name; `cpus` is exactly `%v` of the CPU count (canonical decimal, see `Itoa`), which reads back to the count; `load` is `HostStatsLoad`; `bandwidth` is its own outcome; a memory field fails with hostStatsMemory's error. The memory values are stated by `HostInfoMemoryShown`. |
| MinimegaStats.HostRowReachesMemory | src/minimega/stats.go:85-93 | The all-fields loop only needs a well-formed meminfo when the load field succeeds, because it stops at the first failing field. |
| MinimegaStats.HostRow | src/minimega/stats.go:85-93 | Fields are computed in order up to the first failure. Without error the row holds every field's value in key order; with an error, that error is the failure of the first field that fails, every field before it having succeeded. |
| MinimegaStats.CliHost | src/minimega/stats.go:66-97 | The response carries the host name. With a field selected, the response holds one selected field's value or its error, and no table. With none selected, the header is `HostInfoKeys`, and either every field succeeds and the one row lists them in that order, or the error is that of the first failing field and there is no row. |

## Left out

- Process exit. Each `log.Fatal`/`log.Fatalln` of `deleteReservation` becomes a `DelError` result, and the process exit itself is not modelled.
- Message formatting of the deletion errors is not modelled.
- Persisting the files. `putReservations` and `putSchedule` are recorded as events. Their file formats and any failure inside them are not part of this model.
- Outside calls. The outcomes of `getUser` and `networkClear` are parameters.
- Errors that the source ignores. `os.Remove` and `processWrapper` errors are ignored by the source, so their events carry no outcome.
- `emitReservationLog`. It is an event carrying the action and the reservation; the log format is not modelled.
- File paths. A removed file's path is the component list given to `filepath.Join`. The lexical cleaning that `filepath.Join` applies is not modelled.
- Goroutines. The Cobbler fan-out runs one goroutine per host, and the model issues the edits one after another. Edits that run at the same time, and the relative order of the edits, are not captured. The properties stated about them are the order-independent ones: per-host counts, all edits before the removals, and the join before the removals.
- `IgorDel.Igor.DeleteReservation`: when several reservations share the name, all of them are removed, and only the ID of one of them is purged from the grid. This mirrors Go's unordered map range. The contract says "one of them" rather than which one.
- IgorDel.Igor.Valid: the table is assumed keyed by each reservation's own ID. The source deletes by `r.ID` (del.go:60), so a table whose keys differ from the IDs is not modelled.
- Reservation and time-slice fields that deletion does not read (start/end times and others) are not modelled.
- The igor command table (`cmdDel`, its usage text and `init`) is not modelled.
- The `/proc/loadavg` and `/proc/meminfo` reads. Their outcomes are parameters. One meminfo outcome serves both `memused` and `memtotal`, whereas the source opens `/proc/meminfo` afresh for each (stats.go:47, 51); a file that changes between the two reads is not modelled.
- `runtime.NumCPU`. The CPU count is a parameter, an int64 as Go's `int` is here.
- hostStatsBandwidth. Its result is a parameter of `HostSources`. It uses float32 arithmetic, sleeps, reads `/proc/net/dev` and mutates package globals.
- Line splitting of the scanner. `bufio.Scanner` splitting, its 64 KiB token limit and `scanner.Err` are left out. The model takes the lines the scanner delivered. A scanner error only ends the scan and is logged, and the result is the same as for the delivered lines, which is what `HostStatsMemory` returns.
- Line shape. When a memory field is computed, every meminfo line the scan reaches must have a first field, and a recognised key a second one (`ScanEvaluable`, `WellFormedMemInfo`). The source indexes out of range otherwise. The scan stops at the first value that does not parse, so lines after it are unconstrained. In the all-fields table this is needed only when the fields before the memory fields succeed (`RowEvaluable`, `HostRowReachesMemory`).
- `MinimegaStats.HostStatsMemory`: the error message is `cannot parse meminfo <key>`. The strconv error text that the source appends after the key is not modelled.
- `log.Debugln` and `log.Error` calls are not modelled.
- CLI registration (`hostCLIHandlers`, `init`) and the handler wrapper are not modelled.
- Field names in `cliHost`. A selected field name must be one of `HostInfoKeys` (`Evaluable`). The CLI patterns admit only those, and any other name would call a nil function.
- The value part of a failing memory field. hostInfoFns returns `"%v MB"` together with the error, and `cliHost` never shows that value.
- `src/minimega/deploy.go` is not part of this model. It copies and launches binaries over scp/ssh.
- `src/minipresent/mega.go` is not part of this model. It reads a file and renders an HTML template.
