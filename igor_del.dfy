/**
 * igor's reservation deletion (`igor del <name>`, and the expiry path that
 * calls the same workflow without the owner check).
 *
 * The reservation table and the schedule grid are fields of a class that the
 * workflow updates in place. Everything the workflow does outside memory
 * (writing the two files, clearing network isolation, cobbler commands,
 * removing files, the reservation log) is recorded as an event in a ghost
 * trace, in the order the workflow issues it.
 */
module IgorDel {
  import opened Wrappers

  /** The fields of an igor reservation that deletion reads. */
  datatype Reservation = Reservation(
    ResName: string,
    ID: nat,
    Owner: string,
    Hosts: seq<string>,
    PXENames: seq<string>,
    CobblerProfile: string)

  /** Go's zero value of Reservation, held before any match is found. */
  const NoReservation: Reservation := Reservation("", 0, "", [], [], "")

  /** One time slice of the schedule: one slot per node, 0 meaning free. */
  datatype TimeSlice = TimeSlice(Nodes: seq<nat>)

  /** The parts of igor's configuration that deletion reads. */
  datatype IgorConfig = IgorConfig(UseCobbler: bool, TFTPRoot: string, CobblerDefaultProfile: string)

  /** An action the workflow takes outside its own memory. */
  datatype Event =
    | PersistReservations(table: map<nat, Reservation>)   // putReservations
    | PersistSchedule(schedule: seq<TimeSlice>)           // putSchedule
    | NetworkClear(hosts: seq<string>)                    // networkClear
    | CobblerEdit(host: string, profile: string)          // cobbler system edit
    | CobblerProfileRemove(name: string)                  // cobbler profile remove
    | CobblerDistroRemove(name: string)                   // cobbler distro remove
    | RemoveFile(path: seq<string>)                       // os.Remove of filepath.Join(path...)
    | ReservationLog(action: string, r: Reservation)      // emitReservationLog

  /** The conditions on which the workflow stops with log.Fatal. */
  datatype DelError =
    | InvalidArguments
    | CannotGetUser
    | NotOwner(name: string)
    | NotFound(name: string)
    | NetworkClearFailed

  /** Some reservation in `table` is called `name`. */
  ghost predicate HasName(table: map<nat, Reservation>, name: string) {
    exists id :: id in table && table[id].ResName == name
  }

  /** Some reservation in `table` called `name` belongs to someone other than `user`. */
  ghost predicate OwnedByOther(table: map<nat, Reservation>, name: string, user: string) {
    exists id :: id in table && table[id].ResName == name && table[id].Owner != user
  }

  /**
   * The checks before the removal pass: one argument, a known user, and, when
   * owners are checked, no reservation of that name owned by someone else.
   */
  ghost predicate Authorized(checkUser: bool, args: seq<string>, user: Option<string>, table: map<nat, Reservation>) {
    |args| == 1 && user.Some? && !(checkUser && OwnedByOther(table, args[0], user.value))
  }

  // ---------------------------------------------------------------------------
  // Purging an ID from the schedule grid

  /** The slots of one slice with every occurrence of `id` set to 0. */
  function PurgeNodes(nodes: seq<nat>, id: nat): seq<nat>
  {
    if nodes == [] then []
    else [if nodes[0] == id then 0 else nodes[0]] + PurgeNodes(nodes[1..], id)
  }

  /** The schedule with every slot holding `id` set to 0. */
  function Purge(schedule: seq<TimeSlice>, id: nat): seq<TimeSlice>
  {
    if schedule == [] then []
    else [schedule[0].(Nodes := PurgeNodes(schedule[0].Nodes, id))] + Purge(schedule[1..], id)
  }

  /** Purging a slice keeps its length and zeroes exactly the slots holding `id`. */
  lemma {:induction false} PurgeNodesAt(nodes: seq<nat>, id: nat)
    ensures |PurgeNodes(nodes, id)| == |nodes|
    ensures forall k :: 0 <= k < |nodes| ==>
      PurgeNodes(nodes, id)[k] == if nodes[k] == id then 0 else nodes[k]
  {
    if nodes != [] {
      PurgeNodesAt(nodes[1..], id);
    }
  }

  /** Purging the schedule keeps the number of slices and purges each slice. */
  lemma {:induction false} PurgeAt(schedule: seq<TimeSlice>, id: nat)
    ensures |Purge(schedule, id)| == |schedule|
    ensures forall i :: 0 <= i < |schedule| ==>
      Purge(schedule, id)[i] == schedule[i].(Nodes := PurgeNodes(schedule[i].Nodes, id))
  {
    if schedule != [] {
      PurgeAt(schedule[1..], id);
    }
  }

  /**
   * After the purge no slot holds `id` (a reservation ID is never the free
   * marker 0), every other slot keeps its value, and the grid keeps its shape.
   */
  lemma PurgeClears(schedule: seq<TimeSlice>, id: nat)
    requires id != 0
    ensures |Purge(schedule, id)| == |schedule|
    ensures forall i :: 0 <= i < |schedule| ==>
      |Purge(schedule, id)[i].Nodes| == |schedule[i].Nodes|
    ensures forall i, j :: 0 <= i < |schedule| && 0 <= j < |schedule[i].Nodes| ==>
      Purge(schedule, id)[i].Nodes[j] != id
    ensures forall i, j :: 0 <= i < |schedule| && 0 <= j < |schedule[i].Nodes| && schedule[i].Nodes[j] != id ==>
      Purge(schedule, id)[i].Nodes[j] == schedule[i].Nodes[j]
  {
    PurgeAt(schedule, id);
    forall i | 0 <= i < |schedule| {
      PurgeNodesAt(schedule[i].Nodes, id);
    }
  }

  /** Purging twice with the same ID is the same as purging once. */
  lemma {:induction false} PurgeIdempotent(schedule: seq<TimeSlice>, id: nat)
    ensures Purge(Purge(schedule, id), id) == Purge(schedule, id)
  {
    if schedule != [] {
      var p := Purge(schedule, id);
      PurgeNodesIdempotent(schedule[0].Nodes, id);
      assert p[1..] == Purge(schedule[1..], id);
      PurgeIdempotent(schedule[1..], id);
    }
  }

  lemma {:induction false} PurgeNodesIdempotent(nodes: seq<nat>, id: nat)
    ensures PurgeNodes(PurgeNodes(nodes, id), id) == PurgeNodes(nodes, id)
  {
    if nodes != [] {
      var p := PurgeNodes(nodes, id);
      assert p[1..] == PurgeNodes(nodes[1..], id);
      PurgeNodesIdempotent(nodes[1..], id);
    }
  }

  // ---------------------------------------------------------------------------
  // The actions issued after the table and grid are written

  /** The Cobbler name of the profile and distro igor creates for a reservation. */
  function CobblerName(r: Reservation): string {
    "igor_" + r.ResName
  }

  /** One removal of `<root>/pxelinux.cfg/<p>` per PXE name, in order. */
  function PxeRemovals(root: string, names: seq<string>): seq<Event>
  {
    if names == [] then []
    else PxeRemovals(root, names[..|names| - 1]) + [RemoveFile([root, "pxelinux.cfg", names[|names| - 1]])]
  }

  /** One `cobbler system edit --profile=<profile>` per host. */
  function CobblerResets(hosts: seq<string>, profile: string): seq<Event>
  {
    if hosts == [] then []
    else CobblerResets(hosts[..|hosts| - 1], profile) + [CobblerEdit(hosts[|hosts| - 1], profile)]
  }

  /** The profile and distro removals, issued only for a reservation without a Cobbler profile of its own. */
  function CobblerRemovals(r: Reservation): seq<Event>
  {
    if r.CobblerProfile == "" then [CobblerProfileRemove(CobblerName(r)), CobblerDistroRemove(CobblerName(r))]
    else []
  }

  /** The three removals both boot back-ends end with: marker entry, initrd, kernel. */
  function CommonRemovals(cfg: IgorConfig, r: Reservation): seq<Event>
  {
    [RemoveFile([cfg.TFTPRoot, "pxelinux.cfg", "igor", r.ResName]),
     RemoveFile([cfg.TFTPRoot, "igor", r.ResName + "-initrd"]),
     RemoveFile([cfg.TFTPRoot, "igor", r.ResName + "-kernel"])]
  }

  /** The back-end specific part of the boot clean-up. */
  function BackendCleanup(cfg: IgorConfig, r: Reservation): seq<Event> {
    if !cfg.UseCobbler then PxeRemovals(cfg.TFTPRoot, r.PXENames)
    else CobblerResets(r.Hosts, cfg.CobblerDefaultProfile) + CobblerRemovals(r)
  }

  /** The boot-configuration clean-up for the configured back-end. */
  function BootCleanup(cfg: IgorConfig, r: Reservation): seq<Event>
  {
    BackendCleanup(cfg, r) + CommonRemovals(cfg, r)
  }

  /** The actions before the boot clean-up: both writes, then the network clear. */
  function TraceHead(r: Reservation, table: map<nat, Reservation>, schedule: seq<TimeSlice>): seq<Event> {
    [PersistReservations(table), PersistSchedule(schedule), NetworkClear(r.Hosts)]
  }

  /** The actions after the back-end specific clean-up: the common removals, then the log entry. */
  function TraceTail(cfg: IgorConfig, r: Reservation): seq<Event> {
    CommonRemovals(cfg, r) + [ReservationLog("DELETED", r)]
  }

  /**
   * The actions of a deletion of `r` after the in-memory update: the table and
   * the schedule are written, in that order, then network isolation is cleared;
   * a failed clear ends the run; otherwise boot clean-up follows and the
   * DELETED log entry of `r` comes last, right after the marker, initrd and
   * kernel removals.
   */
  function DeleteTrace(cfg: IgorConfig, r: Reservation, table: map<nat, Reservation>,
                       schedule: seq<TimeSlice>, networkOk: bool): seq<Event>
  {
    if networkOk then TraceHead(r, table, schedule) + BackendCleanup(cfg, r) + TraceTail(cfg, r)
    else TraceHead(r, table, schedule)
  }

  /**
   * Positions in the trace: both writes, then the network clear; nothing more
   * when the clear failed; otherwise the DELETED log entry of `r` comes last,
   * right after the marker, initrd and kernel removals.
   */
  lemma {:induction false} DeleteTraceShape(cfg: IgorConfig, r: Reservation, table: map<nat, Reservation>,
                                            schedule: seq<TimeSlice>, networkOk: bool)
    ensures var t := DeleteTrace(cfg, r, table, schedule, networkOk);
      && |t| >= 3
      && t[0] == PersistReservations(table)
      && t[1] == PersistSchedule(schedule)
      && t[2] == NetworkClear(r.Hosts)
      && (!networkOk ==> |t| == 3)
      && (networkOk ==> |t| >= 7 && t[|t| - 1] == ReservationLog("DELETED", r))
      && (networkOk ==> t[|t| - 4..|t| - 1] == CommonRemovals(cfg, r))
  {
  }

  predicate IsCobblerRemoval(e: Event) {
    e.CobblerProfileRemove? || e.CobblerDistroRemove?
  }

  lemma {:induction false} CobblerResetsMembers(hosts: seq<string>, profile: string)
    ensures forall e :: e in CobblerResets(hosts, profile) ==>
      e.CobblerEdit? && e.profile == profile && e.host in hosts
  {
    if hosts != [] {
      var init := hosts[..|hosts| - 1];
      CobblerResetsMembers(init, profile);
      assert forall x :: x in init ==> x in hosts;
    }
  }

  lemma {:induction false} PxeRemovalsMembers(root: string, names: seq<string>)
    ensures forall e :: e in PxeRemovals(root, names) ==>
      e.RemoveFile? && |e.path| == 3 && e.path[1] == "pxelinux.cfg"
  {
    if names != [] {
      PxeRemovalsMembers(root, names[..|names| - 1]);
    }
  }

  /**
   * Positions in a trace cut into three parts such that only the middle part
   * holds Cobbler removals and only the first part holds Cobbler edits.
   */
  lemma SplitPositions(t: seq<Event>, pre: seq<Event>, mid: seq<Event>, post: seq<Event>)
    requires t == pre + mid + post
    requires forall e :: e in pre ==> !IsCobblerRemoval(e)
    requires forall e :: e in post ==> !IsCobblerRemoval(e)
    requires forall e :: e in mid + post ==> !e.CobblerEdit?
    ensures forall i :: 0 <= i < |t| && IsCobblerRemoval(t[i]) ==>
      |pre| <= i < |pre| + |mid| && t[i] == mid[i - |pre|]
    ensures forall i :: 0 <= i < |t| && t[i].CobblerEdit? ==> i < |pre|
  {
  }

  /**
   * The trace cut into three parts: Cobbler edits only in the first, Cobbler
   * removals only in the middle, which holds the profile and distro removals
   * exactly when Cobbler is in use and the network clear succeeded.
   */
  lemma CobblerParts(cfg: IgorConfig, r: Reservation, table: map<nat, Reservation>,
                     schedule: seq<TimeSlice>, networkOk: bool)
    returns (pre: seq<Event>, mid: seq<Event>, post: seq<Event>)
    ensures DeleteTrace(cfg, r, table, schedule, networkOk) == pre + mid + post
    ensures forall e :: e in pre ==> !IsCobblerRemoval(e)
    ensures forall e :: e in post ==> !IsCobblerRemoval(e)
    ensures forall e :: e in mid + post ==> !e.CobblerEdit?
    ensures mid == if networkOk && cfg.UseCobbler then CobblerRemovals(r) else []
  {
    CobblerResetsMembers(r.Hosts, cfg.CobblerDefaultProfile);
    PxeRemovalsMembers(cfg.TFTPRoot, r.PXENames);
    var head, tail := TraceHead(r, table, schedule), TraceTail(cfg, r);
    if !networkOk {
      pre, mid, post := head, [], [];
    } else if cfg.UseCobbler {
      pre, mid, post := head + CobblerResets(r.Hosts, cfg.CobblerDefaultProfile), CobblerRemovals(r), tail;
    } else {
      pre, mid, post := head + PxeRemovals(cfg.TFTPRoot, r.PXENames), [], tail;
    }
  }

  /**
   * Every default-profile edit comes before any profile or distro removal,
   * and the profile is removed before the distro.
   */
  lemma {:induction false} CobblerOrdering(cfg: IgorConfig, r: Reservation, table: map<nat, Reservation>,
                        schedule: seq<TimeSlice>, networkOk: bool)
    ensures var t := DeleteTrace(cfg, r, table, schedule, networkOk);
      forall i, j :: 0 <= i < |t| && 0 <= j < |t| && t[i].CobblerEdit? && IsCobblerRemoval(t[j]) ==> i < j
    ensures var t := DeleteTrace(cfg, r, table, schedule, networkOk);
      forall i, j :: 0 <= i < |t| && 0 <= j < |t| && t[i].CobblerProfileRemove? && t[j].CobblerDistroRemove? ==> i < j
  {
    var t := DeleteTrace(cfg, r, table, schedule, networkOk);
    var pre, mid, post := CobblerParts(cfg, r, table, schedule, networkOk);
    SplitPositions(t, pre, mid, post);
  }

  /**
   * The profile and distro removals, named `igor_<ResName>`, happen exactly
   * when Cobbler is in use, the network clear succeeded and the reservation
   * has no Cobbler profile of its own; no other removal is issued.
   */
  lemma {:induction false} CobblerRemovalsWhen(cfg: IgorConfig, r: Reservation, table: map<nat, Reservation>,
                            schedule: seq<TimeSlice>, networkOk: bool)
    ensures var t := DeleteTrace(cfg, r, table, schedule, networkOk);
      (CobblerProfileRemove(CobblerName(r)) in t) <==> (networkOk && cfg.UseCobbler && r.CobblerProfile == "")
    ensures var t := DeleteTrace(cfg, r, table, schedule, networkOk);
      (CobblerDistroRemove(CobblerName(r)) in t) <==> (networkOk && cfg.UseCobbler && r.CobblerProfile == "")
    ensures var t := DeleteTrace(cfg, r, table, schedule, networkOk);
      forall e :: e in t && IsCobblerRemoval(e) ==> e.name == CobblerName(r)
  {
    var t := DeleteTrace(cfg, r, table, schedule, networkOk);
    var pre, mid, post := CobblerParts(cfg, r, table, schedule, networkOk);
    assert forall e :: e in t ==> e in pre || e in mid || e in post;
  }

  lemma {:induction false} CobblerResetsCount(hosts: seq<string>, profile: string, h: string)
    ensures multiset(CobblerResets(hosts, profile))[CobblerEdit(h, profile)] == multiset(hosts)[h]
  {
    if hosts != [] {
      var init := hosts[..|hosts| - 1];
      assert hosts == init + [hosts[|hosts| - 1]];
      CobblerResetsCount(init, profile, h);
    }
  }

  lemma {:induction false} CobblerResetsHaveNoFile(hosts: seq<string>, profile: string, e: Event)
    requires e.RemoveFile?
    ensures multiset(CobblerResets(hosts, profile))[e] == 0
  {
    if hosts != [] {
      CobblerResetsHaveNoFile(hosts[..|hosts| - 1], profile, e);
    }
  }

  lemma {:induction false} PxeRemovalsCount(root: string, names: seq<string>, p: string)
    ensures multiset(PxeRemovals(root, names))[RemoveFile([root, "pxelinux.cfg", p])] == multiset(names)[p]
  {
    if names != [] {
      var init := names[..|names| - 1];
      var last := names[|names| - 1];
      assert names == init + [last];
      assert RemoveFile([root, "pxelinux.cfg", last]) == RemoveFile([root, "pxelinux.cfg", p]) ==> last == p by {
        if RemoveFile([root, "pxelinux.cfg", last]) == RemoveFile([root, "pxelinux.cfg", p]) {
          assert [root, "pxelinux.cfg", last][2] == [root, "pxelinux.cfg", p][2];
        }
      }
      PxeRemovalsCount(root, init, p);
    }
  }

  lemma {:induction false} PxeRemovalsHaveNoEdit(root: string, names: seq<string>, e: Event)
    requires e.CobblerEdit?
    ensures multiset(PxeRemovals(root, names))[e] == 0
  {
    if names != [] {
      PxeRemovalsHaveNoEdit(root, names[..|names| - 1], e);
    }
  }

  lemma CountSplit(t: seq<Event>, a: seq<Event>, b: seq<Event>, c: seq<Event>, e: Event)
    requires t == a + b + c
    ensures multiset(t)[e] == multiset(a)[e] + multiset(b)[e] + multiset(c)[e]
  {
  }

  lemma HeadAndTailHaveNoEdit(cfg: IgorConfig, r: Reservation, table: map<nat, Reservation>,
                              schedule: seq<TimeSlice>, e: Event)
    requires e.CobblerEdit?
    ensures multiset(TraceHead(r, table, schedule))[e] == 0
    ensures multiset(TraceTail(cfg, r))[e] == 0
  {
  }

  lemma {:induction false} HeadAndTailHaveNoPxeFile(cfg: IgorConfig, r: Reservation, table: map<nat, Reservation>,
                                                    schedule: seq<TimeSlice>, p: string)
    ensures multiset(TraceHead(r, table, schedule))[RemoveFile([cfg.TFTPRoot, "pxelinux.cfg", p])] == 0
    ensures multiset(TraceTail(cfg, r))[RemoveFile([cfg.TFTPRoot, "pxelinux.cfg", p])] == 0
  {
    var e := RemoveFile([cfg.TFTPRoot, "pxelinux.cfg", p]);
    var tail := TraceTail(cfg, r);
    forall k | 0 <= k < |tail|
      ensures tail[k] != e
    {
      if k == 0 {
        assert |tail[k].path| == 4;
      } else if k < 3 {
        assert tail[k].path[1] == "igor";
      }
    }
    assert e !in tail;
  }

  /**
   * In the Cobbler back-end each host of the reservation gets one reset to the
   * default profile (a host listed twice gets two); otherwise no host is edited.
   */
  lemma {:induction false} CobblerEditPerHost(cfg: IgorConfig, r: Reservation, table: map<nat, Reservation>,
                           schedule: seq<TimeSlice>, networkOk: bool, h: string)
    ensures multiset(DeleteTrace(cfg, r, table, schedule, networkOk))[CobblerEdit(h, cfg.CobblerDefaultProfile)]
      == if networkOk && cfg.UseCobbler then multiset(r.Hosts)[h] else 0
  {
    var t := DeleteTrace(cfg, r, table, schedule, networkOk);
    var e := CobblerEdit(h, cfg.CobblerDefaultProfile);
    var head, tail := TraceHead(r, table, schedule), TraceTail(cfg, r);
    HeadAndTailHaveNoEdit(cfg, r, table, schedule, e);
    if !networkOk {
      CountSplit(t, head, [], [], e);
    } else {
      CountSplit(t, head, BackendCleanup(cfg, r), tail, e);
      BackendCleanupEdits(cfg, r, h);
    }
  }

  lemma {:induction false} BackendCleanupEdits(cfg: IgorConfig, r: Reservation, h: string)
    ensures multiset(BackendCleanup(cfg, r))[CobblerEdit(h, cfg.CobblerDefaultProfile)]
      == if cfg.UseCobbler then multiset(r.Hosts)[h] else 0
  {
    var e := CobblerEdit(h, cfg.CobblerDefaultProfile);
    if cfg.UseCobbler {
      var resets := CobblerResets(r.Hosts, cfg.CobblerDefaultProfile);
      CobblerResetsCount(r.Hosts, cfg.CobblerDefaultProfile, h);
      assert multiset(CobblerRemovals(r))[e] == 0;
      CountSplit(BackendCleanup(cfg, r), resets, CobblerRemovals(r), [], e);
    } else {
      PxeRemovalsHaveNoEdit(cfg.TFTPRoot, r.PXENames, e);
    }
  }

  /** Every Cobbler edit in the trace resets a host of the reservation to the default profile. */
  lemma {:induction false} CobblerEditsAreResets(cfg: IgorConfig, r: Reservation, table: map<nat, Reservation>,
                              schedule: seq<TimeSlice>, networkOk: bool)
    ensures forall e :: e in DeleteTrace(cfg, r, table, schedule, networkOk) && e.CobblerEdit? ==>
      networkOk && cfg.UseCobbler && e.profile == cfg.CobblerDefaultProfile && e.host in r.Hosts
  {
    CobblerResetsMembers(r.Hosts, cfg.CobblerDefaultProfile);
    PxeRemovalsMembers(cfg.TFTPRoot, r.PXENames);
  }

  /**
   * Without Cobbler, `<TFTPRoot>/pxelinux.cfg/<p>` is removed once for each
   * occurrence of `p` among the PXE names; with Cobbler it is not removed.
   */
  lemma {:induction false} PxeFileRemovedPerName(cfg: IgorConfig, r: Reservation, table: map<nat, Reservation>,
                              schedule: seq<TimeSlice>, networkOk: bool, p: string)
    ensures multiset(DeleteTrace(cfg, r, table, schedule, networkOk))[RemoveFile([cfg.TFTPRoot, "pxelinux.cfg", p])]
      == if networkOk && !cfg.UseCobbler then multiset(r.PXENames)[p] else 0
  {
    var t := DeleteTrace(cfg, r, table, schedule, networkOk);
    var e := RemoveFile([cfg.TFTPRoot, "pxelinux.cfg", p]);
    var head, tail := TraceHead(r, table, schedule), TraceTail(cfg, r);
    HeadAndTailHaveNoPxeFile(cfg, r, table, schedule, p);
    if !networkOk {
      CountSplit(t, head, [], [], e);
    } else {
      CountSplit(t, head, BackendCleanup(cfg, r), tail, e);
      BackendCleanupPxeFiles(cfg, r, p);
    }
  }

  lemma {:induction false} BackendCleanupPxeFiles(cfg: IgorConfig, r: Reservation, p: string)
    ensures multiset(BackendCleanup(cfg, r))[RemoveFile([cfg.TFTPRoot, "pxelinux.cfg", p])]
      == if cfg.UseCobbler then 0 else multiset(r.PXENames)[p]
  {
    var e := RemoveFile([cfg.TFTPRoot, "pxelinux.cfg", p]);
    if cfg.UseCobbler {
      var resets := CobblerResets(r.Hosts, cfg.CobblerDefaultProfile);
      CobblerResetsHaveNoFile(r.Hosts, cfg.CobblerDefaultProfile, e);
      assert multiset(CobblerRemovals(r))[e] == 0;
      CountSplit(BackendCleanup(cfg, r), resets, CobblerRemovals(r), [], e);
    } else {
      PxeRemovalsCount(cfg.TFTPRoot, r.PXENames, p);
    }
  }

  // ---------------------------------------------------------------------------
  // The workflow over igor's in-memory state

  class Igor {
    /** The reservation table, keyed by reservation ID. */
    var Reservations: map<nat, Reservation>
    /** The schedule grid: time slices of node slots holding reservation IDs. */
    var Schedule: seq<TimeSlice>
    /** The actions issued so far, oldest first. */
    ghost var Trace: seq<Event>
    const Config: IgorConfig

    /** Every reservation is filed under its own ID. */
    ghost predicate Valid()
      reads this
    {
      forall id :: id in Reservations ==> Reservations[id].ID == id
    }

    /** The state as loaded from the reservation and schedule files. */
    constructor (config: IgorConfig, reservations: map<nat, Reservation>, schedule: seq<TimeSlice>)
      requires forall id :: id in reservations ==> reservations[id].ID == id
      ensures Valid()
      ensures Config == config && Reservations == reservations && Schedule == schedule && Trace == []
    {
      Config := config;
      Reservations := reservations;
      Schedule := schedule;
      Trace := [];
    }

    /** The owner check: is some reservation called `name` owned by someone other than `user`? */
    method OwnerConflict(name: string, user: string) returns (conflict: bool)
      ensures conflict <==> OwnedByOther(Reservations, name, user)
    {
      var keys := Reservations.Keys;
      while keys != {}
        invariant keys <= Reservations.Keys
        invariant forall id :: id in Reservations && id !in keys ==>
          !(Reservations[id].ResName == name && Reservations[id].Owner != user)
        decreases keys
      {
        var id :| id in keys;
        var r := Reservations[id];
        if r.ResName == name && r.Owner != user {
          return true;
        }
        keys := keys - {id};
      }
      return false;
    }

    /**
     * Removes every reservation called `name`, visiting the table in no
     * particular order; `deleted` is the last match visited.
     */
    method RemoveByName(name: string) returns (found: bool, deleted: Reservation)
      requires Valid()
      modifies this`Reservations
      ensures Valid()
      ensures forall id :: id in Reservations <==> id in old(Reservations) && old(Reservations)[id].ResName != name
      ensures forall id :: id in Reservations ==> Reservations[id] == old(Reservations)[id]
      ensures found <==> HasName(old(Reservations), name)
      ensures found ==> deleted.ID in old(Reservations) && old(Reservations)[deleted.ID] == deleted && deleted.ResName == name
      ensures !found ==> deleted == NoReservation
    {
      found, deleted := false, NoReservation;
      var keys := Reservations.Keys;
      while keys != {}
        invariant Valid()
        invariant keys <= Reservations.Keys <= old(Reservations).Keys
        invariant forall id :: id in Reservations ==> Reservations[id] == old(Reservations)[id]
        invariant forall id :: id in old(Reservations) ==>
          (id in Reservations <==> id in keys || old(Reservations)[id].ResName != name)
        invariant found <==> exists id :: id in old(Reservations) && id !in keys && old(Reservations)[id].ResName == name
        invariant found ==> deleted.ID in old(Reservations) && old(Reservations)[deleted.ID] == deleted && deleted.ResName == name
        invariant !found ==> deleted == NoReservation
        decreases keys
      {
        var id :| id in keys;
        var r := Reservations[id];
        if r.ResName == name {
          deleted := r;
          Reservations := Reservations - {r.ID};
          found := true;
        }
        keys := keys - {id};
      }
    }

    /** Sets to 0 every slot of every slice that holds `id`. */
    method PurgeSchedule(id: nat)
      modifies this`Schedule
      ensures Schedule == Purge(old(Schedule), id)
    {
      ghost var s0 := Schedule;
      PurgeAt(s0, id);
      var i := 0;
      while i < |Schedule|
        invariant |Schedule| == |s0|
        invariant 0 <= i <= |Schedule|
        invariant forall k :: 0 <= k < i ==> Schedule[k] == Purge(s0, id)[k]
        invariant forall k :: i <= k < |Schedule| ==> Schedule[k] == s0[k]
      {
        ghost var outer := Schedule;
        ghost var nodes0 := Schedule[i].Nodes;
        PurgeNodesAt(nodes0, id);
        var j := 0;
        while j < |Schedule[i].Nodes|
          invariant |Schedule| == |s0|
          invariant |Schedule[i].Nodes| == |nodes0|
          invariant 0 <= j <= |nodes0|
          invariant forall m :: 0 <= m < j ==> Schedule[i].Nodes[m] == PurgeNodes(nodes0, id)[m]
          invariant forall m :: j <= m < |nodes0| ==> Schedule[i].Nodes[m] == nodes0[m]
          invariant Schedule[i] == s0[i].(Nodes := Schedule[i].Nodes)
          invariant forall k :: 0 <= k < |Schedule| && k != i ==> Schedule[k] == outer[k]
        {
          if Schedule[i].Nodes[j] == id {
            Schedule := Schedule[i := Schedule[i].(Nodes := Schedule[i].Nodes[j := 0])];
          }
          j := j + 1;
        }
        assert Schedule[i].Nodes == PurgeNodes(nodes0, id);
        i := i + 1;
      }
      assert Schedule == Purge(s0, id);
    }

    /** Without Cobbler: removes the boot file of each PXE name under `<TFTPRoot>/pxelinux.cfg`. */
    method RemovePxeFiles(names: seq<string>)
      modifies this`Trace
      ensures Trace == old(Trace) + PxeRemovals(Config.TFTPRoot, names)
    {
      var k := 0;
      while k < |names|
        invariant 0 <= k <= |names|
        invariant Trace == old(Trace) + PxeRemovals(Config.TFTPRoot, names[..k])
      {
        assert names[..k + 1][..k] == names[..k];
        Trace := Trace + [RemoveFile([Config.TFTPRoot, "pxelinux.cfg", names[k]])];
        k := k + 1;
      }
      assert names[..k] == names;
    }

    /**
     * With Cobbler: resets every host to the default profile. The source runs
     * one goroutine per host and then waits for one completion per host; here
     * the edits are issued one after another, and the method returns only
     * once all of them are in the trace, which is what the join guarantees.
     */
    method ResetHostsToDefault(hosts: seq<string>)
      modifies this`Trace
      ensures Trace == old(Trace) + CobblerResets(hosts, Config.CobblerDefaultProfile)
    {
      var k := 0;
      while k < |hosts|
        invariant 0 <= k <= |hosts|
        invariant Trace == old(Trace) + CobblerResets(hosts[..k], Config.CobblerDefaultProfile)
      {
        assert hosts[..k + 1][..k] == hosts[..k];
        Trace := Trace + [CobblerEdit(hosts[k], Config.CobblerDefaultProfile)];
        k := k + 1;
      }
      assert hosts[..k] == hosts;
    }

    /**
     * The boot clean-up: per-host PXE files, or Cobbler resets followed by the
     * removal of the reservation's own profile and distro; then, for both
     * back-ends, the marker entry, the initrd and the kernel.
     */
    method BootCleanupSteps(r: Reservation)
      modifies this`Trace
      ensures Trace == old(Trace) + BootCleanup(Config, r)
    {
      if !Config.UseCobbler {
        RemovePxeFiles(r.PXENames);
      } else {
        ResetHostsToDefault(r.Hosts);
        if r.CobblerProfile == "" {
          Trace := Trace + [CobblerProfileRemove(CobblerName(r))];
          Trace := Trace + [CobblerDistroRemove(CobblerName(r))];
        }
      }

      Trace := Trace + [RemoveFile([Config.TFTPRoot, "pxelinux.cfg", "igor", r.ResName])];
      Trace := Trace + [RemoveFile([Config.TFTPRoot, "igor", r.ResName + "-initrd"])];
      Trace := Trace + [RemoveFile([Config.TFTPRoot, "igor", r.ResName + "-kernel"])];
    }

    /**
     * deleteReservation. `user` is what getUser returned (None for its error)
     * and `networkOk` whether networkClear succeeded. A failure before the
     * removal leaves table, grid and trace as they were. Once some
     * reservation called args[0] is removed, the grid is purged of the ID of
     * `deleted` (the last match visited) and the trace gains DeleteTrace.
     */
    method DeleteReservation(checkUser: bool, args: seq<string>, user: Option<string>, networkOk: bool)
      returns (result: Result<Reservation, DelError>, ghost deleted: Reservation)
      requires Valid()
      modifies this
      ensures Valid()
      ensures |args| != 1 ==> result == Failure(InvalidArguments) && unchanged(this)
      ensures |args| == 1 && user.None? ==> result == Failure(CannotGetUser) && unchanged(this)
      ensures |args| == 1 && user.Some? && checkUser && OwnedByOther(old(Reservations), args[0], user.value) ==>
        result == Failure(NotOwner(args[0])) && unchanged(this)
      ensures Authorized(checkUser, args, user, old(Reservations)) && !HasName(old(Reservations), args[0]) ==>
        result == Failure(NotFound(args[0])) && unchanged(this)
      ensures Authorized(checkUser, args, user, old(Reservations)) && HasName(old(Reservations), args[0]) ==>
        && deleted.ID in old(Reservations) && old(Reservations)[deleted.ID] == deleted
        && deleted.ResName == args[0]
        && (forall id :: id in Reservations <==> id in old(Reservations) && old(Reservations)[id].ResName != args[0])
        && (forall id :: id in Reservations ==> Reservations[id] == old(Reservations)[id])
        && Schedule == Purge(old(Schedule), deleted.ID)
        && Trace == old(Trace) + DeleteTrace(Config, deleted, Reservations, Schedule, networkOk)
        && result == (if networkOk then Success(deleted) else Failure(NetworkClearFailed))
      ensures checkUser && result.Success? ==> user.Some? && result.value.Owner == user.value
    {
      deleted := NoReservation;
      if |args| != 1 {
        return Failure(InvalidArguments), deleted;
      }
      if user.None? {
        return Failure(CannotGetUser), deleted;
      }
      var name := args[0];
      if checkUser {
        var conflict := OwnerConflict(name, user.value);
        if conflict {
          return Failure(NotOwner(name)), deleted;
        }
      }

      var found, r := RemoveByName(name);
      if !found {
        assert Reservations == old(Reservations);
        return Failure(NotFound(name)), deleted;
      }
      deleted := r;

      PurgeSchedule(r.ID);

      ghost var t0 := Trace;
      Trace := Trace + [PersistReservations(Reservations)];
      Trace := Trace + [PersistSchedule(Schedule)];

      Trace := Trace + [NetworkClear(r.Hosts)];
      assert Trace == t0 + TraceHead(r, Reservations, Schedule);
      if !networkOk {
        return Failure(NetworkClearFailed), deleted;
      }

      BootCleanupSteps(r);
      ghost var head := t0 + TraceHead(r, Reservations, Schedule);
      assert Trace == head + BackendCleanup(Config, r) + CommonRemovals(Config, r);

      Trace := Trace + [ReservationLog("DELETED", r)];
      assert Trace == head + BackendCleanup(Config, r) + TraceTail(Config, r);
      assert Trace == t0 + DeleteTrace(Config, r, Reservations, Schedule, networkOk);
      result := Success(r);
    }

    /**
     * runDel: the command-line path, which is deleteReservation with the
     * owner check switched on.
     */
    method RunDel(args: seq<string>, user: Option<string>, networkOk: bool)
      returns (result: Result<Reservation, DelError>, ghost deleted: Reservation)
      requires Valid()
      modifies this
      ensures Valid()
      ensures |args| != 1 ==> result == Failure(InvalidArguments) && unchanged(this)
      ensures |args| == 1 && user.None? ==> result == Failure(CannotGetUser) && unchanged(this)
      ensures |args| == 1 && user.Some? && OwnedByOther(old(Reservations), args[0], user.value) ==>
        result == Failure(NotOwner(args[0])) && unchanged(this)
      ensures Authorized(true, args, user, old(Reservations)) && !HasName(old(Reservations), args[0]) ==>
        result == Failure(NotFound(args[0])) && unchanged(this)
      ensures Authorized(true, args, user, old(Reservations)) && HasName(old(Reservations), args[0]) ==>
        && deleted.ID in old(Reservations) && old(Reservations)[deleted.ID] == deleted
        && deleted.ResName == args[0] && deleted.Owner == user.value
        && (forall id :: id in Reservations <==> id in old(Reservations) && old(Reservations)[id].ResName != args[0])
        && (forall id :: id in Reservations ==> Reservations[id] == old(Reservations)[id])
        && Schedule == Purge(old(Schedule), deleted.ID)
        && Trace == old(Trace) + DeleteTrace(Config, deleted, Reservations, Schedule, networkOk)
        && result == (if networkOk then Success(deleted) else Failure(NetworkClearFailed))
      ensures result.Success? ==> user.Some? && result.value.Owner == user.value
    {
      result, deleted := DeleteReservation(true, args, user, networkOk);
    }
  }
}
