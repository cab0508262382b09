/**
  The alarm state the gateway keeps from the controller's log: the state of
  each of the 64 zones, whether partition 1 is armed, whether the siren
  sounds, the siren latch (the time the siren was last asserted, 0 when
  clear) and the significant-event counter that triggers a broadcast to all
  users.  The pure functions on Panel say what each event does; the class
  AlarmState holds the same state in place, as the C globals do, and its methods
  are proved to follow those functions.  The status report, rendered from
  the state, closes the module.
*/
module Alarm {
  import opened CText

  const MaxZones: nat := 64
  /** A siren that sounds this many seconds or more is significant. */
  const SirenDebounce: int := 10

  datatype ZoneState = Unknown | Normal | Fault

  /** The state word of a zone report, compared case-sensitively. */
  function WordState(word: string): ZoneState {
    if word == "FAULT" then Fault else if word == "NORMAL" then Normal else Unknown
  }

  /** armed: 1 armed, 0 not armed, -1 unknown.  siren: 1 sounding, 0 off,
      -1 unknown.  sirenOnTime: when the siren was asserted, 0 when the
      latch is clear.  event: significant events not yet broadcast. */
  datatype Panel = Panel(zones: seq<ZoneState>, armed: int, siren: int, sirenOnTime: int, event: int)

  predicate WellFormed(p: Panel) {
    |p.zones| == MaxZones
  }

  /** The state at start-up: every zone unknown, nothing known of the alarm. */
  function Initial(): (p: Panel)
    ensures WellFormed(p)
  {
    Panel(seq(MaxZones, _ => Unknown), -1, -1, 0, 0)
  }

  /** A zone report: a zone number outside the table is ignored. */
  function ZoneEvent(p: Panel, zone: int, word: string): Panel
    requires WellFormed(p)
  {
    if 0 <= zone < MaxZones then p.(zones := p.zones[zone := WordState(word)]) else p
  }

  /** A partition report: only partition 1 counts, and only its exact texts
      "armed" and "not armed". */
  function PartitionEvent(p: Panel, partition: int, text: string): Panel {
    if partition == 1 && text == "armed" then p.(armed := 1)
    else if partition == 1 && text == "not armed" then p.(armed := 0)
    else p
  }

  /** The siren is de-asserted: the event counter rises only when the latch
      is already clear. */
  function SirenOffEvent(p: Panel): Panel {
    p.(event := if p.sirenOnTime == 0 then p.event + 1 else p.event, siren := 0, sirenOnTime := 0)
  }

  /** The siren is asserted at time now. */
  function SirenOnEvent(p: Panel, now: int): Panel {
    p.(sirenOnTime := now, siren := 1)
  }

  /** The check of each pass of the main loop: a siren latched for the
      debounce time or longer sets the event and clears the latch. */
  function TickEvent(p: Panel, now: int): Panel {
    if p.sirenOnTime != 0 && now - p.sirenOnTime >= SirenDebounce then p.(event := 1, sirenOnTime := 0) else p
  }

  /** Whether a broadcast is due, and the state once it is taken. */
  function DrainEvent(p: Panel): (bool, Panel) {
    if p.event != 0 then (true, p.(event := 0)) else (false, p)
  }

  // ---------------------------------------------------------------------
  // What the events promise.

  /** A zone report in range sets that zone to the state its word names and
      changes nothing else; out of range it changes nothing at all. */
  lemma {:induction false} ZoneEventExact(p: Panel, zone: int, word: string)
    requires WellFormed(p)
    ensures WellFormed(ZoneEvent(p, zone, word))
    ensures forall i :: 0 <= i < MaxZones && i != zone ==> ZoneEvent(p, zone, word).zones[i] == p.zones[i]
    ensures 0 <= zone < MaxZones ==> ZoneEvent(p, zone, word).zones[zone] == WordState(word)
    ensures !(0 <= zone < MaxZones) ==> ZoneEvent(p, zone, word) == p
    ensures ZoneEvent(p, zone, word).(zones := p.zones) == p
  {
  }

  /** The same zone report twice has the effect of one. */
  lemma {:induction false} ZoneEventIdempotent(p: Panel, zone: int, word: string)
    requires WellFormed(p)
    ensures ZoneEvent(ZoneEvent(p, zone, word), zone, word) == ZoneEvent(p, zone, word)
  {
  }

  /** Only partition 1 with one of the two exact texts changes the armed state. */
  lemma {:induction false} PartitionEventExact(p: Panel, partition: int, text: string)
    ensures var q := PartitionEvent(p, partition, text);
      && q.zones == p.zones && q.siren == p.siren && q.sirenOnTime == p.sirenOnTime && q.event == p.event
      && (q.armed != p.armed ==> partition == 1 && (text == "armed" || text == "not armed"))
      && (partition == 1 && text == "armed" ==> q.armed == 1)
      && (partition == 1 && text == "not armed" ==> q.armed == 0)
  {
  }

  /** A tick that fires clears the latch, so the next tick does not fire again. */
  lemma {:induction false} TickFiresOnce(p: Panel, now: int, later: int)
    requires p.sirenOnTime != 0 && now - p.sirenOnTime >= SirenDebounce
    ensures TickEvent(p, now).event == 1
    ensures TickEvent(TickEvent(p, now), later) == TickEvent(p, now)
  {
  }

  /** A siren that is asserted and de-asserted before the debounce time has
      passed raises no event (the latch is set when the de-assertion comes). */
  lemma {:induction false} ShortSirenSilent(p: Panel, on: int, tick: int)
    requires on != 0 && tick - on < SirenDebounce
    ensures SirenOffEvent(TickEvent(SirenOnEvent(p, on), tick)).event == p.event
  {
  }

  /** A siren that is still sounding once the debounce time has passed raises
      the event at that tick, and once it is broadcast, the de-assertion
      raises another. */
  lemma {:induction false} LongSirenTwoAlerts(p: Panel, on: int, tick: int)
    requires on != 0 && tick - on >= SirenDebounce
    ensures var q := TickEvent(SirenOnEvent(p, on), tick);
      && q.event == 1 && q.sirenOnTime == 0
      && DrainEvent(q).0
      && SirenOffEvent(DrainEvent(q).1).event == 1
  {
  }

  /** A de-assertion with no assertion latched raises the event. */
  lemma {:induction false} UnlatchedSirenOffAlerts(p: Panel)
    requires p.sirenOnTime == 0
    ensures SirenOffEvent(p).event == p.event + 1 && SirenOffEvent(p).siren == 0
  {
  }

  /** Draining leaves no event pending, and a second drain does not fire. */
  lemma {:induction false} DrainOnce(p: Panel)
    ensures var q := DrainEvent(p).1;
      q.event == 0 && !DrainEvent(q).0 && (DrainEvent(p).0 <==> p.event != 0)
  {
  }

  // ---------------------------------------------------------------------
  // The status report.

  function ArmedLine(armed: int): string {
    if armed == 0 then "Alarm is NOT armed\n"
    else if armed == 1 then "Alarm IS armed.\n"
    else "Alarm state unknown (arm or disarm to be sure).\n"
  }

  function SirenLine(siren: int): string {
    if siren == 1 then "Siren IS sounding.\n"
    else if siren == 0 then "Siren is OFF.\n"
    else "I don't know if the siren is on or off.\n"
  }

  /** The numbers of the faulted zones, in the order the report lists them. */
  function Faults(zs: seq<ZoneState>): seq<nat>
    decreases |zs|
  {
    if zs == [] then []
    else Faults(zs[..|zs| - 1]) + (if zs[|zs| - 1] == Fault then [|zs| - 1] else [])
  }

  /** The report lists exactly the faulted zones, each once, in ascending order. */
  lemma {:induction false} FaultsExact(zs: seq<ZoneState>)
    ensures forall k :: 0 <= k < |Faults(zs)| ==> Faults(zs)[k] < |zs| && zs[Faults(zs)[k]] == Fault
    ensures forall i :: 0 <= i < |zs| && zs[i] == Fault ==> i in Faults(zs)
    ensures forall j, k :: 0 <= j < k < |Faults(zs)| ==> Faults(zs)[j] < Faults(zs)[k]
  {
    FaultsAreFaults(zs);
    FaultsCover(zs);
    FaultsAscend(zs);
  }

  lemma {:induction false} FaultsAreFaults(zs: seq<ZoneState>)
    ensures forall k :: 0 <= k < |Faults(zs)| ==> Faults(zs)[k] < |zs| && zs[Faults(zs)[k]] == Fault
    decreases |zs|
  {
    if zs != [] {
      var init := zs[..|zs| - 1];
      var last := zs[|zs| - 1];
      FaultsAreFaults(init);
      FaultsSnoc(init, last);
      assert init + [last] == zs;
      var before := Faults(init);
      var ids := Faults(zs);
      forall k | 0 <= k < |ids|
        ensures ids[k] < |zs| && zs[ids[k]] == Fault
      {
        if k < |before| {
          assert ids[k] == before[k] && zs[before[k]] == init[before[k]];
        }
      }
    }
  }

  lemma {:induction false} FaultsCover(zs: seq<ZoneState>)
    ensures forall i :: 0 <= i < |zs| && zs[i] == Fault ==> i in Faults(zs)
    decreases |zs|
  {
    if zs != [] {
      var init := zs[..|zs| - 1];
      var last := zs[|zs| - 1];
      FaultsCover(init);
      FaultsSnoc(init, last);
      assert init + [last] == zs;
      var before := Faults(init);
      var ids := Faults(zs);
      forall i | 0 <= i < |zs| && zs[i] == Fault
        ensures i in ids
      {
        if i < |init| {
          assert init[i] == Fault && i in before;
        } else {
          assert ids[|ids| - 1] == i;
        }
      }
    }
  }

  lemma {:induction false} FaultsAscend(zs: seq<ZoneState>)
    ensures forall k :: 0 <= k < |Faults(zs)| ==> Faults(zs)[k] < |zs|
    ensures forall j, k :: 0 <= j < k < |Faults(zs)| ==> Faults(zs)[j] < Faults(zs)[k]
    decreases |zs|
  {
    if zs != [] {
      var init := zs[..|zs| - 1];
      var last := zs[|zs| - 1];
      FaultsAscend(init);
      FaultsSnoc(init, last);
      assert init + [last] == zs;
      var before := Faults(init);
      var ids := Faults(zs);
      forall j, k | 0 <= j < k < |ids|
        ensures ids[j] < ids[k]
      {
        if k < |before| {
          assert ids[j] == before[j] && ids[k] == before[k];
        } else {
          assert ids[j] == before[j] && ids[k] == |init|;
        }
      }
    }
  }

  lemma {:induction false} FaultsBound(zs: seq<ZoneState>)
    ensures |Faults(zs)| <= |zs|
    ensures forall k :: 0 <= k < |Faults(zs)| ==> Faults(zs)[k] < |zs|
    decreases |zs|
  {
    if zs != [] {
      FaultsBound(zs[..|zs| - 1]);
    }
  }

  /** " #a #b ..." for the given zone numbers. */
  function FaultEntries(ids: seq<nat>): string
    decreases |ids|
  {
    if ids == [] then [] else FaultEntries(ids[..|ids| - 1]) + FaultEntry(ids[|ids| - 1])
  }

  /** How the report names one faulted zone in a list. */
  function FaultEntry(id: nat): string {
    " #" + IntToString(id)
  }

  function FaultsLine(zs: seq<ZoneState>): string {
    var ids := Faults(zs);
    if |ids| == 0 then "No zones have faults.\n"
    else if |ids| == 1 then "Zone FAULT in zone #" + IntToString(ids[0]) + "\n"
    else "The following zones have faults: " + FaultEntries(ids) + "\n"
  }

  /** The report generate_status_message writes: one line on the armed
      state, one on the siren, one on the faulted zones. */
  function StatusText(p: Panel): string {
    ArmedLine(p.armed) + SirenLine(p.siren) + FaultsLine(p.zones)
  }

  lemma {:induction false} FaultEntriesLength(ids: seq<nat>)
    requires forall k :: 0 <= k < |ids| ==> ids[k] < 100
    ensures |FaultEntries(ids)| <= 4 * |ids|
    decreases |ids|
  {
    if ids != [] {
      FaultEntriesLength(ids[..|ids| - 1]);
    }
  }

  lemma {:induction false} FaultsLineFits(zs: seq<ZoneState>)
    requires |zs| == MaxZones
    ensures |FaultsLine(zs)| <= 300
  {
    var ids := Faults(zs);
    FaultsBound(zs);
    if |ids| == 1 {
      assert |IntToString(ids[0])| <= 2;
    } else if |ids| > 1 {
      FaultEntriesLength(ids);
    }
  }

  /** The report fits the 8192-byte buffer with the broadcast's prefix in
      front of it, so snprintf never truncates it. */
  lemma {:induction false} StatusFits(p: Panel)
    requires WellFormed(p)
    ensures |StatusText(p)| <= 400
  {
    assert |ArmedLine(p.armed)| <= 48;
    assert |SirenLine(p.siren)| <= 40;
    FaultsLineFits(p.zones);
  }

  /** With no zone faulted the report says so. */
  lemma {:induction false} NoFaultReport(p: Panel)
    requires forall i :: 0 <= i < |p.zones| ==> p.zones[i] != Fault
    ensures FaultsLine(p.zones) == "No zones have faults.\n"
  {
    NoFaults(p.zones);
  }

  lemma {:induction false} FaultsSnoc(zs: seq<ZoneState>, z: ZoneState)
    ensures Faults(zs + [z]) == Faults(zs) + (if z == Fault then [|zs|] else [])
  {
    assert (zs + [z])[..|zs|] == zs;
  }

  lemma {:induction false} FaultEntriesSnoc(ids: seq<nat>, x: nat)
    ensures FaultEntries(ids + [x]) == FaultEntries(ids) + FaultEntry(x)
  {
    assert (ids + [x])[..|ids|] == ids;
  }

  /** One more zone examined by the listing loop. */
  lemma {:induction false} ListStep(zs: seq<ZoneState>, i: nat)
    requires i < |zs|
    ensures FaultEntries(Faults(zs[..i + 1]))
      == FaultEntries(Faults(zs[..i])) + (if zs[i] == Fault then FaultEntry(i) else "")
  {
    var init := zs[..i];
    assert zs[..i + 1] == init + [zs[i]];
    FaultsSnoc(init, zs[i]);
    if zs[i] == Fault {
      assert Faults(zs[..i + 1]) == Faults(init) + [i];
      FaultEntriesSnoc(Faults(init), i);
    } else {
      assert Faults(zs[..i + 1]) == Faults(init);
    }
  }

  lemma {:induction false} NoFaults(zs: seq<ZoneState>)
    requires forall i :: 0 <= i < |zs| ==> zs[i] != Fault
    ensures Faults(zs) == []
    decreases |zs|
  {
    if zs != [] {
      NoFaults(zs[..|zs| - 1]);
    }
  }

  lemma {:induction false} FaultsOfOne(zs: seq<ZoneState>, zone: nat)
    requires zone < |zs| && zs[zone] == Fault
    requires forall i :: 0 <= i < |zs| && i != zone ==> zs[i] != Fault
    ensures Faults(zs) == [zone]
    decreases |zs|
  {
    var init := zs[..|zs| - 1];
    FaultsSnoc(init, zs[|zs| - 1]);
    assert init + [zs[|zs| - 1]] == zs;
    assert forall i :: 0 <= i < |init| ==> init[i] == zs[i];
    if zone == |zs| - 1 {
      NoFaults(init);
    } else {
      FaultsOfOne(init, zone);
    }
  }

  /** With exactly one zone faulted the report names it. */
  lemma {:induction false} OneFaultReport(p: Panel, zone: nat)
    requires zone < |p.zones| && p.zones[zone] == Fault
    requires forall i :: 0 <= i < |p.zones| && i != zone ==> p.zones[i] != Fault
    ensures FaultsLine(p.zones) == "Zone FAULT in zone #" + IntToString(zone) + "\n"
  {
    FaultsOfOne(p.zones, zone);
  }

  /** With several zones faulted, the report lists every faulted zone. */
  lemma {:induction false} EveryFaultListed(ids: seq<nat>, k: nat)
    requires k < |ids|
    ensures Contains(FaultEntries(ids), FaultEntry(ids[k]))
    decreases |ids|
  {
    var init := ids[..|ids| - 1];
    var entry := FaultEntry(ids[|ids| - 1]);
    assert FaultEntries(ids) == FaultEntries(init) + entry;
    if k == |ids| - 1 {
      ContainsMiddle(FaultEntries(init), entry, []);
      assert FaultEntries(init) + entry + [] == FaultEntries(ids);
    } else {
      assert init[k] == ids[k];
      EveryFaultListed(init, k);
      ContainsPrefix(FaultEntries(init), entry, FaultEntry(ids[k]));
    }
  }

  /** Three pieces appended one after another with snprintf. */
  lemma {:induction false} AppendThree(prefix: string, a: string, b: string, c: string, size: nat)
    requires |prefix| < size
    ensures |SnAppend(prefix, a, size)| < size
    ensures |SnAppend(SnAppend(prefix, a, size), b, size)| < size
    ensures SnAppend(SnAppend(SnAppend(prefix, a, size), b, size), c, size)
      == Clip(prefix + (a + b + c), size)
  {
    SnAppendClip(prefix, a, size);
    assert Clip(prefix, size) == prefix;
    SnAppendClip(prefix + a, b, size);
    SnAppendClip(prefix + a + b, c, size);
    assert prefix + a + b + c == prefix + (a + b + c);
  }

  // ---------------------------------------------------------------------
  // The state in place.

  class AlarmState {
    var zones: array<ZoneState>
    var armed: int
    var siren: int
    var sirenOnTime: int
    var event: int

    predicate Valid()
      reads this
    {
      zones.Length == MaxZones
    }

    /** The state as a value. */
    function Snapshot(): Panel
      reads this, zones
    {
      Panel(zones[..], armed, siren, sirenOnTime, event)
    }

    constructor()
      ensures Valid() && fresh(zones)
      ensures Snapshot() == Initial()
    {
      zones := new ZoneState[MaxZones](_ => Unknown);
      armed := -1;
      siren := -1;
      sirenOnTime := 0;
      event := 0;
    }

    method ApplyZone(zone: int, word: string)
      requires Valid()
      modifies zones
      ensures Valid()
      ensures Snapshot() == ZoneEvent(old(Snapshot()), zone, word)
    {
      if 0 <= zone < MaxZones {
        zones[zone] := WordState(word);
      }
    }

    method ApplyPartition(partition: int, text: string)
      requires Valid()
      modifies this
      ensures Valid() && zones == old(zones)
      ensures Snapshot() == PartitionEvent(old(Snapshot()), partition, text)
    {
      if partition == 1 && text == "armed" {
        armed := 1;
      } else if partition == 1 && text == "not armed" {
        armed := 0;
      }
    }

    method SirenOff()
      requires Valid()
      modifies this
      ensures Valid() && zones == old(zones)
      ensures Snapshot() == SirenOffEvent(old(Snapshot()))
    {
      if sirenOnTime == 0 {
        event := event + 1;
      }
      siren := 0;
      sirenOnTime := 0;
    }

    method SirenOn(now: int)
      requires Valid()
      modifies this
      ensures Valid() && zones == old(zones)
      ensures Snapshot() == SirenOnEvent(old(Snapshot()), now)
    {
      sirenOnTime := now;
      siren := 1;
    }

    method Tick(now: int)
      requires Valid()
      modifies this
      ensures Valid() && zones == old(zones)
      ensures Snapshot() == TickEvent(old(Snapshot()), now)
    {
      if sirenOnTime != 0 && now - sirenOnTime >= SirenDebounce {
        event := 1;
        sirenOnTime := 0;
      }
    }

    method Drain() returns (fired: bool)
      requires Valid()
      modifies this
      ensures Valid() && zones == old(zones)
      ensures (fired, Snapshot()) == DrainEvent(old(Snapshot()))
    {
      fired := event != 0;
      if fired {
        event := 0;
      }
    }

    /** The first pass of generate_status_message over the zones: how many
        are faulted, and the last of them. */
    method CountFaults() returns (faults: nat, faultZone: int)
      requires Valid()
      ensures faults == |Faults(zones[..])|
      ensures faults == 0 ==> faultZone == -1
      ensures faults > 0 ==> faultZone == Faults(zones[..])[faults - 1]
    {
      ghost var zs := zones[..];
      faults := 0;
      faultZone := -1;
      var i := 0;
      while i < MaxZones
        invariant 0 <= i <= MaxZones
        invariant faults == |Faults(zs[..i])|
        invariant faults == 0 ==> faultZone == -1
        invariant faults > 0 ==> faultZone == Faults(zs[..i])[faults - 1]
      {
        assert zs[..i + 1] == zs[..i] + [zs[i]];
        FaultsSnoc(zs[..i], zs[i]);
        if zones[i] == Fault {
          faults := faults + 1;
          faultZone := i;
        }
        i := i + 1;
      }
      assert zs[..MaxZones] == zs;
    }

    /** The second pass, when several zones are faulted: " #i" for each. */
    method ListFaults() returns (entries: string)
      requires Valid()
      ensures entries == FaultEntries(Faults(zones[..]))
    {
      ghost var zs := zones[..];
      entries := "";
      var i := 0;
      while i < MaxZones
        invariant 0 <= i <= MaxZones
        invariant entries == FaultEntries(Faults(zs[..i]))
      {
        ListStep(zs, i);
        if zones[i] == Fault {
          entries := entries + FaultEntry(i);
        }
        i := i + 1;
      }
      assert zs[..MaxZones] == zs;
    }

    /** The fault line of the report. */
    method FaultsPiece() returns (piece: string)
      requires Valid()
      ensures piece == FaultsLine(zones[..])
    {
      var faults, faultZone := CountFaults();
      if faults == 0 {
        piece := "No zones have faults.\n";
      } else if faults == 1 {
        piece := "Zone FAULT in zone #" + IntToString(faultZone) + "\n";
      } else {
        var entries := ListFaults();
        piece := "The following zones have faults: " + entries + "\n";
      }
    }

    /** generate_status_message: the report appended, piece by piece, to
        prefix in a buffer of size bytes. */
    method WriteStatus(prefix: string, size: nat) returns (out: string)
      requires Valid() && |prefix| < size
      ensures out == Clip(prefix + StatusText(Snapshot()), size)
    {
      var armedPiece := ArmedLine(armed);
      var sirenPiece := SirenLine(siren);
      var faultsPiece := FaultsPiece();
      out := SnAppend(prefix, armedPiece, size);
      AppendThree(prefix, armedPiece, sirenPiece, faultsPiece, size);
      out := SnAppend(out, sirenPiece, size);
      out := SnAppend(out, faultsPiece, size);
      assert StatusText(Snapshot()) == armedPiece + sirenPiece + faultsPiece;
    }
  }
}
