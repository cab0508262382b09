/**
  The line classifier of parse_line: the zone, partition and siren messages
  of the alarm controller's log (in its timestamped form with ',' or '.'
  before the milliseconds, and in the short "INFO:controller:" form), the
  timestamped chatter that is ignored, and the rest, which is handed to the
  command engine.
*/
module Classifier {
  import opened Wrappers
  import opened CText
  import opened Scan

  /** The literal text after each number of "%d-%d-%d %d:%d:". */
  const DateSeps: seq<string> := ["-", "-", " ", ":", ":"]

  const LogTag: string := "controller INFO "
  const StampTag: string := " controller INFO "

  /** The literal text after the seconds and after the milliseconds of a
      timestamped controller message. */
  function StampSeps(sep: char): seq<string> {
    [[sep], StampTag]
  }

  const ShortPrefix: string := "INFO:controller:"

  const SirenOffText: string := "System de-asserts Global Siren on"
  const SirenOnText: string := "System asserts Global Siren on"
  const DeassertLog: string := LogTag + SirenOffText
  const DeassertShort: string := ShortPrefix + SirenOffText
  const AssertLog: string := LogTag + SirenOnText
  const AssertShort: string := ShortPrefix + SirenOnText

  /** "%d-%d-%d %d:%d:%d": the input after the date and time. */
  function ReadDateTime(s: string): Option<string> {
    match ReadInts(s, DateSeps)
    case None => None
    case Some(r) =>
      match ReadInt(r)
      case None => None
      case Some((_, r2)) => Some(r2)
  }

  /** "%d-%d-%d %d:%d:%d<sep>%d controller INFO ": the input after the prefix
      of a timestamped controller message. */
  function ReadStamp(s: string, sep: char): Option<string> {
    match ReadInts(s, DateSeps)
    case None => None
    case Some(r) => ReadInts(r, StampSeps(sep))
  }

  /** "Zone %d (": the zone number. */
  function ReadZoneNumber(s: string): Option<(int, string)> {
    match ReadText("Zone ", 0, s)
    case None => None
    case Some(s1) =>
      match ReadInt(s1)
      case None => None
      case Some((zone, s2)) =>
        match ReadText(" (", 0, s2)
        case None => None
        case Some(s3) => Some((zone, s3))
  }

  /** "%*[^)]) state is %s": the zone name is skipped, the state word kept. */
  function ReadZoneState(s: string): Option<string> {
    match ReadRun(s, NotAmong({')'}))
    case None => None
    case Some((_, s1)) =>
      match ReadText(") state is ", 0, s1)
      case None => None
      case Some(s2) =>
        match ReadWord(s2)
        case None => None
        case Some((state, _)) => Some(state)
  }

  /** "Zone %d (%*[^)]) state is %s" */
  function ReadZoneTail(s: string): Option<(int, string)> {
    match ReadZoneNumber(s)
    case None => None
    case Some((zone, r)) =>
      match ReadZoneState(r)
      case None => None
      case Some(state) => Some((zone, state))
  }

  /** "Partition %d": the partition number. */
  function ReadPartitionNumber(s: string): Option<(int, string)> {
    match ReadText("Partition ", 0, s)
    case None => None
    case Some(s1) => ReadInt(s1)
  }

  /** "%*[ ]%[^\n\r]": at least one space, then the rest of the line. */
  function ReadPartitionState(s: string): Option<string> {
    match ReadRun(s, Among({' '}))
    case None => None
    case Some((_, s1)) =>
      match ReadRun(s1, NotAmong({'\n', '\r'}))
      case None => None
      case Some((state, _)) => Some(state)
  }

  /** "Partition %d%*[ ]%[^\n\r]" */
  function ReadPartitionTail(s: string): Option<(int, string)> {
    match ReadPartitionNumber(s)
    case None => None
    case Some((partition, r)) =>
      match ReadPartitionState(r)
      case None => None
      case Some(state) => Some((partition, state))
  }

  /** A zone report in the timestamped form with sep before the milliseconds. */
  function LoggedZone(line: string, sep: char): Option<(int, string)> {
    match ReadStamp(line, sep)
    case None => None
    case Some(r) => ReadZoneTail(r)
  }

  /** "INFO:controller:Zone %d (%*[^)]) state is %s" */
  function ShortZone(line: string): Option<(int, string)> {
    match ReadText(ShortPrefix, 0, line)
    case None => None
    case Some(r) => ReadZoneTail(r)
  }

  function LoggedPartition(line: string, sep: char): Option<(int, string)> {
    match ReadStamp(line, sep)
    case None => None
    case Some(r) => ReadPartitionTail(r)
  }

  /** "INFO:controller:Partition %d%*[ ]%[^\n\r]" */
  function ShortPartition(line: string): Option<(int, string)> {
    match ReadText(ShortPrefix, 0, line)
    case None => None
    case Some(r) => ReadPartitionTail(r)
  }

  /** What parse_line makes of a line before it touches any state. */
  datatype LineKind =
    | ZoneReport(zone: int, state: string)           // "Zone N (name) state is S"
    | PartitionReport(partition: int, state: string) // "Partition N text"
    | SirenOff                                       // "System de-asserts Global Siren on"
    | SirenOn                                        // "System asserts Global Siren on"
    | Chatter                                        // any other line opening with a date and time
    | Command                                        // everything else

  predicate IsDeassert(line: string) {
    Contains(line, DeassertLog) || Contains(line, DeassertShort)
  }

  predicate IsAssert(line: string) {
    Contains(line, AssertLog) || Contains(line, AssertShort)
  }

  /** The six report formats in the order parse_line tries them: the zone
      formats first, then the partition formats; the first that matches in
      full decides.  What each format yields is stated by LoggedZoneReport,
      ShortZoneReport, LoggedPartitionReport and ShortPartitionReport. */
  function Report(line: string): (r: Option<LineKind>)
    ensures r.Some? ==> r.value.ZoneReport? || r.value.PartitionReport?
  {
    var zc := LoggedZone(line, ',');
    var zd := LoggedZone(line, '.');
    var zs := ShortZone(line);
    var pd := LoggedPartition(line, '.');
    var pc := LoggedPartition(line, ',');
    var ps := ShortPartition(line);
    if zc.Some? then Some(ZoneReport(zc.value.0, zc.value.1))
    else if zd.Some? then Some(ZoneReport(zd.value.0, zd.value.1))
    else if zs.Some? then Some(ZoneReport(zs.value.0, zs.value.1))
    else if pd.Some? then Some(PartitionReport(pd.value.0, pd.value.1))
    else if pc.Some? then Some(PartitionReport(pc.value.0, pc.value.1))
    else if ps.Some? then Some(PartitionReport(ps.value.0, ps.value.1))
    else None
  }

  /** A line that is no report: the siren messages, de-assertion first, then
      timestamped chatter, then everything else. */
  function Unreported(line: string): LineKind {
    if IsDeassert(line) then SirenOff
    else if IsAssert(line) then SirenOn
    else if ReadDateTime(line).Some? then Chatter
    else Command
  }

  /** What parse_line makes of a line, in the order it tries the formats and patterns. */
  function Classify(line: string): LineKind {
    match Report(line)
    case Some(k) => k
    case None => Unreported(line)
  }

  // ---------------------------------------------------------------------
  // The lines the alarm controller writes, built from their parts.

  /** A log timestamp as the controller prints it, e.g. 2019-05-01 10:00:00,000:
      the digits of year, month, day, hour and minute, of the seconds and of
      the milliseconds. */
  datatype Stamp = Stamp(date: seq<string>, second: string, millis: string)

  predicate ValidStamp(st: Stamp) {
    && |st.date| == |DateSeps|
    && (forall i :: 0 <= i < |st.date| ==> Numeral(st.date[i]))
    && Numeral(st.second)
    && Numeral(st.millis)
  }

  /** year-month-day hour:minute: */
  function DateText(st: Stamp): string
    requires ValidStamp(st)
  {
    Interleave(st.date, DateSeps)
  }

  /** <seconds><sep><millis> controller INFO */
  function SecondsText(st: Stamp, sep: char): string {
    Interleave([st.second, st.millis], StampSeps(sep))
  }

  /** The prefix every timestamped controller message shares. */
  function StampText(st: Stamp, sep: char): string
    requires ValidStamp(st)
  {
    DateText(st) + SecondsText(st, sep)
  }

  function ZoneText(zone: int, name: string, state: string): string {
    "Zone " + (IntToString(zone) + (" (" + (name + (") state is " + state))))
  }

  function PartitionText(partition: int, state: string): string {
    "Partition " + (IntToString(partition) + (" " + state))
  }

  /** A zone name fits between the parentheses. */
  predicate ValidName(name: string) {
    name != [] && ')' !in name
  }

  /** A state word is what %s reads: nonempty, no white space. */
  predicate ValidWord(w: string) {
    w != [] && forall i :: 0 <= i < |w| ==> !IsSpace(w[i])
  }

  /** A partition state is the rest of the line after one run of spaces. */
  predicate ValidPartitionState(s: string) {
    s != [] && s[0] != ' ' && '\n' !in s && '\r' !in s
  }

  // ---------------------------------------------------------------------
  // Each format reads back the text written for it.

  lemma {:induction false} DateSepsFit()
    ensures forall i :: 0 <= i < |DateSeps| ==> Separator(DateSeps[i])
  {
    assert Separator(DateSeps[0]) && Separator(DateSeps[1]) && Separator(DateSeps[2]);
    assert Separator(DateSeps[3]) && Separator(DateSeps[4]);
  }

  lemma {:induction false} StampSepsFit(sep: char)
    requires !IsDigit(sep) && !IsSpace(sep)
    ensures forall i :: 0 <= i < 2 ==> Separator(StampSeps(sep)[i])
  {
    SpacedWhere(StampTag, 0);
  }

  /** The date and time read up to the seconds. */
  lemma {:induction false} DateReads(st: Stamp, rest: string)
    requires ValidStamp(st)
    requires rest == [] || !IsSpace(rest[0])
    ensures ReadInts(DateText(st) + rest, DateSeps) == Some(rest)
  {
    DateSepsFit();
    ReadIntsBack(st.date, DateSeps, rest);
  }

  lemma {:induction false} SecondsShape(st: Stamp, sep: char, tail: string)
    ensures SecondsText(st, sep) + tail == st.second + ([sep] + (st.millis + (StampTag + tail)))
  {
    assert [st.second, st.millis][1..] == [st.millis];
    assert StampSeps(sep)[1..] == [StampTag];
    assert Interleave([st.millis], [StampTag]) == st.millis + (StampTag + []) by {
      assert [st.millis][1..] == [];
    }
    assert SecondsText(st, sep) == st.second + ([sep] + (st.millis + StampTag));
  }

  lemma {:induction false} TagShape()
    ensures StampTag == " " + LogTag
  {
  }

  /** The stamp is read in full by the format with the same separator before
      the milliseconds, and refused by the other. */
  lemma {:induction false} StampReads(st: Stamp, sep: char, fsep: char, tail: string)
    requires ValidStamp(st)
    requires !IsDigit(sep) && !IsSpace(sep) && !IsSpace(fsep)
    requires tail == [] || !IsSpace(tail[0])
    ensures ReadStamp(StampText(st, sep) + tail, fsep) == if fsep == sep then Some(tail) else None
  {
    var r := SecondsText(st, sep) + tail;
    assert StampText(st, sep) + tail == DateText(st) + r;
    assert r == [] || !IsSpace(r[0]) by {
      SecondsShape(st, sep, tail);
      assert r[0] == st.second[0];
    }
    DateReads(st, r);
    if fsep == sep {
      StampSepsFit(sep);
      ReadIntsBack([st.second, st.millis], StampSeps(sep), tail);
    } else {
      var after := [sep] + (st.millis + (StampTag + tail));
      SecondsShape(st, sep, tail);
      ReadDigits(st.second, after);
      ReadTextFails([fsep], after);
    }
  }

  /** "Zone %d (" reads the zone number. */
  lemma {:induction false} ZoneNumberReads(zone: int, more: string)
    ensures ReadZoneNumber("Zone " + (IntToString(zone) + (" (" + more))) == Some((zone, more))
  {
    var s2 := " (" + more;
    var s1 := IntToString(zone) + s2;
    assert ReadText("Zone ", 0, "Zone " + s1) == Some(s1) by {
      assert s1[0] == IntToString(zone)[0];
      ReadTextBack("Zone ", s1);
    }
    assert ReadInt(s1) == Some((zone, s2)) by {
      ReadIntBack(zone, s2);
    }
    assert ReadText(" (", 0, s2) == Some(more) by {
      ReadTextBack(" (", more);
    }
  }

  /** "%*[^)]) state is %s" skips the name and reads the state word. */
  lemma {:induction false} ZoneStateReads(name: string, state: string)
    requires ValidName(name) && ValidWord(state)
    ensures ReadZoneState(name + (") state is " + state)) == Some(state)
  {
    var s1 := ") state is " + state;
    ReadRunBack(name, s1, NotAmong({')'}));
    ReadTextBack(") state is ", state);
    assert state + [] == state;
    ReadWordBack(state, []);
  }

  /** "Zone %d (%*[^)]) state is %s" reads a zone report back. */
  lemma {:induction false} ZoneTailReads(zone: int, name: string, state: string)
    requires ValidName(name) && ValidWord(state)
    ensures ReadZoneTail(ZoneText(zone, name, state)) == Some((zone, state))
  {
    ZoneNumberReads(zone, name + (") state is " + state));
    ZoneStateReads(name, state);
  }

  /** "Partition %d" reads the partition number. */
  lemma {:induction false} PartitionNumberReads(partition: int, more: string)
    requires more == [] || !IsDigit(more[0])
    ensures ReadPartitionNumber("Partition " + (IntToString(partition) + more)) == Some((partition, more))
  {
    var s1 := IntToString(partition) + more;
    assert ReadText("Partition ", 0, "Partition " + s1) == Some(s1) by {
      assert s1[0] == IntToString(partition)[0];
      ReadTextBack("Partition ", s1);
    }
    ReadIntBack(partition, more);
  }

  /** "%*[ ]%[^\n\r]" reads the rest of the line after one run of spaces. */
  lemma {:induction false} PartitionStateReads(state: string)
    requires ValidPartitionState(state)
    ensures ReadPartitionState(" " + state) == Some(state)
  {
    ReadRunBack(" ", state, Among({' '}));
    assert state + [] == state;
    ReadRunBack(state, [], NotAmong({'\n', '\r'}));
  }

  /** "Partition %d%*[ ]%[^\n\r]" reads a partition report back. */
  lemma {:induction false} PartitionTailReads(partition: int, state: string)
    requires ValidPartitionState(state)
    ensures ReadPartitionTail(PartitionText(partition, state)) == Some((partition, state))
  {
    PartitionNumberReads(partition, " " + state);
    PartitionStateReads(state);
  }

  /** A text that opens with some other word is not a zone tail. */
  lemma {:induction false} ZoneTailRefuses(s: string)
    requires s == [] || s[0] != 'Z'
    ensures ReadZoneTail(s) == None
  {
    ReadTextFails("Zone ", s);
  }

  /** A text that opens with some other word is not a partition tail. */
  lemma {:induction false} PartitionTailRefuses(s: string)
    requires s == [] || s[0] != 'P'
    ensures ReadPartitionTail(s) == None
  {
    ReadTextFails("Partition ", s);
  }

  /** A line that opens with neither white space, a sign nor a digit fails every
      timestamped format at its first number. */
  lemma {:induction false} UnstampedRefused(line: string)
    requires line == [] || (!IsSpace(line[0]) && !IsDigit(line[0]) && line[0] != '-' && line[0] != '+')
    ensures ReadDateTime(line) == None
    ensures forall sep :: ReadStamp(line, sep) == None
  {
    ReadIntFails(line);
  }

  /** A line that opens with a digit fails the short formats at once. */
  lemma {:induction false} StampedNotShort(line: string)
    requires line != [] && IsDigit(line[0])
    ensures ShortZone(line) == None && ShortPartition(line) == None
  {
    ReadTextFails(ShortPrefix, line);
  }

  // ---------------------------------------------------------------------
  // What the classifier makes of each kind of line.

  /** A timestamped zone report, with either separator, is a zone report. */
  lemma {:induction false} LoggedZoneReport(st: Stamp, sep: char, zone: int, name: string, state: string)
    requires ValidStamp(st) && (sep == ',' || sep == '.')
    requires ValidName(name) && ValidWord(state)
    ensures Classify(StampText(st, sep) + ZoneText(zone, name, state)) == ZoneReport(zone, state)
  {
    var tail := ZoneText(zone, name, state);
    var line := StampText(st, sep) + tail;
    ZoneTailReads(zone, name, state);
    StampReads(st, sep, ',', tail);
    StampReads(st, sep, '.', tail);
  }

  /** The short zone report is a zone report. */
  lemma {:induction false} ShortZoneReport(zone: int, name: string, state: string)
    requires ValidName(name) && ValidWord(state)
    ensures Classify(ShortPrefix + ZoneText(zone, name, state)) == ZoneReport(zone, state)
  {
    var line := ShortPrefix + ZoneText(zone, name, state);
    assert Report(line) == Some(ZoneReport(zone, state)) by {
      UnstampedRefused(line);
      ReadTextBack(ShortPrefix, ZoneText(zone, name, state));
      ZoneTailReads(zone, name, state);
    }
  }

  /** A timestamped partition report, with either separator, is a partition report. */
  lemma {:induction false} LoggedPartitionReport(st: Stamp, sep: char, partition: int, state: string)
    requires ValidStamp(st) && (sep == ',' || sep == '.')
    requires ValidPartitionState(state)
    ensures Classify(StampText(st, sep) + PartitionText(partition, state)) == PartitionReport(partition, state)
  {
    var tail := PartitionText(partition, state);
    var line := StampText(st, sep) + tail;
    PartitionTailReads(partition, state);
    ZoneTailRefuses(tail);
    StampReads(st, sep, ',', tail);
    StampReads(st, sep, '.', tail);
    assert line[0] == st.date[0][0];
    StampedNotShort(line);
  }

  /** The short partition report is a partition report. */
  lemma {:induction false} ShortPartitionReport(partition: int, state: string)
    requires ValidPartitionState(state)
    ensures Classify(ShortPrefix + PartitionText(partition, state)) == PartitionReport(partition, state)
  {
    var tail := PartitionText(partition, state);
    var line := ShortPrefix + tail;
    assert Report(line) == Some(PartitionReport(partition, state)) by {
      UnstampedRefused(line);
      ReadTextBack(ShortPrefix, tail);
      ZoneTailRefuses(tail);
      PartitionTailReads(partition, state);
    }
  }

  /** A timestamped line whose message is neither a zone nor a partition
      report is refused by all six report formats. */
  lemma {:induction false} LoggedNotReport(st: Stamp, sep: char, msg: string)
    requires ValidStamp(st) && (sep == ',' || sep == '.')
    requires msg == [] || (msg[0] != 'Z' && msg[0] != 'P' && !IsSpace(msg[0]))
    ensures var line := StampText(st, sep) + msg;
      && LoggedZone(line, ',') == None && LoggedZone(line, '.') == None && ShortZone(line) == None
      && LoggedPartition(line, '.') == None && LoggedPartition(line, ',') == None && ShortPartition(line) == None
  {
    var line := StampText(st, sep) + msg;
    ZoneTailRefuses(msg);
    PartitionTailRefuses(msg);
    StampReads(st, sep, ',', msg);
    StampReads(st, sep, '.', msg);
    assert line[0] == st.date[0][0];
    StampedNotShort(line);
  }

  lemma {:induction false} SirenShape(st: Stamp, sep: char, msg: string, post: string)
    requires ValidStamp(st)
    ensures StampText(st, sep) + (msg + post) == (DateText(st) + (st.second + ([sep] + (st.millis + " ")))) + (LogTag + msg) + post
  {
    var a := DateText(st);
    var x := st.second + ([sep] + (st.millis + " "));
    var y := (LogTag + msg) + post;
    SecondsShape(st, sep, msg + post);
    TagShape();
    assert StampTag + (msg + post) == " " + y;
    assert st.millis + (" " + y) == (st.millis + " ") + y;
    assert [sep] + ((st.millis + " ") + y) == ([sep] + (st.millis + " ")) + y;
    assert st.second + (([sep] + (st.millis + " ")) + y) == x + y;
    assert (a + SecondsText(st, sep)) + (msg + post) == a + (x + y);
    assert (a + x) + y == (a + x) + (LogTag + msg) + post;
  }

  /** The controller's timestamped "siren off" message silences the siren. */
  lemma {:induction false} LoggedSirenOff(st: Stamp, sep: char, post: string)
    requires ValidStamp(st) && (sep == ',' || sep == '.')
    ensures Classify(StampText(st, sep) + (SirenOffText + post)) == SirenOff
  {
    LoggedNotReport(st, sep, SirenOffText + post);
    SirenShape(st, sep, SirenOffText, post);
    ContainsMiddle(DateText(st) + (st.second + ([sep] + (st.millis + " "))), DeassertLog, post);
  }

  /** The controller's timestamped "siren on" message sounds it, unless the
      line also carries the "siren off" message, which parse_line tries first. */
  lemma {:induction false} LoggedSirenOn(st: Stamp, sep: char, post: string)
    requires ValidStamp(st) && (sep == ',' || sep == '.')
    requires !IsDeassert(StampText(st, sep) + (SirenOnText + post))
    ensures Classify(StampText(st, sep) + (SirenOnText + post)) == SirenOn
  {
    LoggedNotReport(st, sep, SirenOnText + post);
    SirenShape(st, sep, SirenOnText, post);
    ContainsMiddle(DateText(st) + (st.second + ([sep] + (st.millis + " "))), AssertLog, post);
  }

  /** No line that opens with a date and time ever reaches the command engine:
      the controller's log is never taken for an SMS command. */
  lemma {:induction false} TimestampedNeverCommand(st: Stamp, rest: string)
    requires ValidStamp(st)
    requires rest == [] || !IsDigit(rest[0])
    ensures Classify(DateText(st) + (st.second + rest)) != Command
  {
    var line := DateText(st) + (st.second + rest);
    assert ReadDateTime(line).Some? by {
      var r := st.second + rest;
      assert r[0] == st.second[0];
      DateReads(st, r);
      ReadDigits(st.second, rest);
    }
    ChatterNotCommand(line);
  }

  lemma {:induction false} ChatterNotCommand(line: string)
    requires ReadDateTime(line).Some?
    ensures Classify(line) != Command
  {
  }

  /** A line that opens with a letter other than 'I' and carries no siren
      message goes to the command engine: that is how typed and texted
      commands get there. */
  lemma {:induction false} WordsReachEngine(line: string)
    requires line != [] && !IsSpace(line[0]) && !IsDigit(line[0])
    requires line[0] != '-' && line[0] != '+' && line[0] != 'I'
    requires !IsDeassert(line) && !IsAssert(line)
    ensures Classify(line) == Command
  {
    UnstampedRefused(line);
    ReadTextFails(ShortPrefix, line);
  }
}
