/**
  The gateway around the engines: parse_line, which routes a line to the
  alarm state or to the command engine and sends the replies; the main
  loop's per-source line buffer; the siren check and the broadcast of each
  significant event; and the reading of the modem's message listing.
*/
module Gateway {
  import opened Wrappers
  import opened CText
  import opened Scan
  import opened Classifier
  import opened Alarm
  import opened Users
  import opened Commands

  /** What parse_line reports about the source a line came from. */
  const UnknownInput := 0
  const ServerLog := 2
  const TextCommands := 3

  /** The size of each source's line buffer. */
  const BufferSize := 8192

  /** The alarm state and the list of users, with the configuration file. */
  datatype State = State(entries: seq<Entry>, saved: string, panel: Panel)

  predicate Good(s: State) {
    WellFormed(s.panel)
  }

  /** The console: no origin, or "-".  Any other origin is a telephone
      number, whatever it looks like. */
  predicate Local(origin: Option<string>) {
    origin.None? || origin == Some("-")
  }

  /** The sender parse_textcommand is given. */
  function Actor(origin: Option<string>): Option<string> {
    if Local(origin) then None else origin
  }

  /** What parse_line leaves: what it returns, the new state, the text
      written back to the source, and the messages sent. */
  datatype LineOutcome = LineOutcome(kind: int, after: State, echo: Option<string>, sent: seq<Sms>)

  /** The outcome of a command line from actor (None for the console):
      the reply is echoed to the source when it has a descriptor, and sent
      by SMS to a telephone number. */
  function CommandLine(s: State, actor: Option<string>, fd: int, line: string, exit: int): LineOutcome {
    var r := Respond(s.entries, s.panel, line, actor, exit);
    var after := State(r.entries, if r.sent != [] then SaveText(r.entries) else s.saved, s.panel);
    if r.code != 0 then LineOutcome(UnknownInput, after, None, [])
    else LineOutcome(TextCommands, after,
                     if fd > -1 then Some(r.reply + "\r\n") else None,
                     r.sent + (if actor.Some? then [Sms(actor.value, r.reply)] else []))
  }

  /** The alarm state after a line from the controller; what each event
      does is stated by ZoneEventExact, PartitionEventExact,
      ShortSirenSilent, LongSirenTwoAlerts and UnlatchedSirenOffAlerts. */
  function Track(p: Panel, k: LineKind, now: int): (q: Panel)
    requires WellFormed(p)
    ensures WellFormed(q)
  {
    match k
    case ZoneReport(zone, state) => ZoneEvent(p, zone, state)
    case PartitionReport(n, text) => PartitionEvent(p, n, text)
    case SirenOff => SirenOffEvent(p)
    case SirenOn => SirenOnEvent(p, now)
    case _ => p
  }

  /** parse_line, given the time and the alarm client's exit status. */
  function Handle(s: State, origin: Option<string>, fd: int, line: string, now: int, exit: int): (r: LineOutcome)
    requires Good(s)
    ensures Good(r.after)
  {
    var k := Classify(line);
    if k == Command then CommandLine(s, Actor(origin), fd, line, exit)
    else LineOutcome(ServerLog, s.(panel := Track(s.panel, k, now)), None, [])
  }

  /** A line from the controller touches only the alarm state, and sends
      and echoes nothing. */
  lemma {:induction false} ControllerLinesOnlyTouchAlarm(s: State, origin: Option<string>, fd: int, line: string, now: int, exit: int)
    requires Good(s) && Classify(line) != Command
    ensures var r := Handle(s, origin, fd, line, now, exit);
      && r.kind == ServerLog && r.echo.None? && r.sent == []
      && r.after.entries == s.entries && r.after.saved == s.saved
  {
  }

  /** A short zone report sets exactly the zone it names, whatever the source. */
  lemma {:induction false} ZoneLineSetsZone(s: State, origin: Option<string>, fd: int, zone: int, name: string, state: string, now: int, exit: int)
    requires Good(s) && ValidName(name) && ValidWord(state)
    ensures var p := Handle(s, origin, fd, ShortPrefix + ZoneText(zone, name, state), now, exit).after.panel;
      && (forall i :: 0 <= i < MaxZones && i != zone ==> p.zones[i] == s.panel.zones[i])
      && (0 <= zone < MaxZones ==> p.zones[zone] == WordState(state))
      && p.(zones := s.panel.zones) == s.panel
    ensures Handle(s, origin, fd, ShortPrefix + ZoneText(zone, name, state), now, exit).kind == ServerLog
  {
    ShortZoneReport(zone, name, state);
    ZoneEventExact(s.panel, zone, state);
  }

  /** Only "-" and no origin at all are the console: both behave alike. */
  lemma {:induction false} DashIsConsole(s: State, fd: int, line: string, now: int, exit: int)
    requires Good(s)
    ensures Handle(s, Some("-"), fd, line, now, exit) == Handle(s, None, fd, line, now, exit)
  {
  }

  /** A command from a telephone number is answered by SMS to that number,
      after any welcome message the command sent. */
  lemma {:induction false} ReplyGoesToSender(s: State, origin: Option<string>, fd: int, line: string, now: int, exit: int)
    requires Good(s) && !Local(origin)
    requires Classify(line) == Command
    requires Respond(s.entries, s.panel, line, origin, exit).code == 0
    ensures var r := Handle(s, origin, fd, line, now, exit);
      var reply := Respond(s.entries, s.panel, line, origin, exit).reply;
      r.kind == TextCommands && |r.sent| >= 1 && r.sent[|r.sent| - 1] == Sms(origin.value, reply)
  {
  }

  /** No line leaves a live slot without a number. */
  lemma {:induction false} HandleKeepsLive(s: State, origin: Option<string>, fd: int, line: string, now: int, exit: int)
    requires Good(s) && Live(s.entries)
    ensures Live(Handle(s, origin, fd, line, now, exit).after.entries)
  {
    if Classify(line) == Command {
      RespondKeepsLive(s.entries, s.panel, line, Actor(origin), exit);
    }
  }

  /** A number not on the list changes nothing. */
  lemma {:induction false} StrangersChangeNothing(s: State, origin: Option<string>, fd: int, line: string, now: int, exit: int)
    requires Good(s) && !Local(origin) && !Authorised(s.entries, origin)
    requires Classify(line) == Command
    ensures Handle(s, origin, fd, line, now, exit).after == s
  {
    StrangersKeepList(s.entries, s.panel, line, origin, exit);
    assert Handle(s, origin, fd, line, now, exit) == CommandLine(s, origin, fd, line, exit);
  }

  function StateOf(alarm: AlarmState, store: UserStore): State
    requires store.Valid()
    reads alarm, alarm.zones, store, store.slots
  {
    State(store.Entries(), store.saved, alarm.Snapshot())
  }

  /** parse_line, on the alarm and the list in place.  The origin is None
      when the C origin is NULL. */
  method ParseLine(alarm: AlarmState, store: UserStore, origin: Option<string>, fd: int, line: string, now: int, exit: int)
    returns (kind: int, echo: Option<string>, sent: seq<Sms>)
    requires alarm.Valid() && store.Valid()
    modifies alarm, alarm.zones, store, store.slots
    ensures alarm.Valid() && store.Valid()
    ensures alarm.zones == old(alarm.zones) && store.slots == old(store.slots)
    ensures var r := Handle(old(StateOf(alarm, store)), origin, fd, line, now, exit);
      kind == r.kind && echo == r.echo && sent == r.sent && StateOf(alarm, store) == r.after
  {
    match Classify(line)
    case ZoneReport(zone, state) =>
      alarm.ApplyZone(zone, state);
      kind, echo, sent := ServerLog, None, [];
    case PartitionReport(n, text) =>
      alarm.ApplyPartition(n, text);
      kind, echo, sent := ServerLog, None, [];
    case SirenOff =>
      alarm.SirenOff();
      kind, echo, sent := ServerLog, None, [];
    case SirenOn =>
      alarm.SirenOn(now);
      kind, echo, sent := ServerLog, None, [];
    case Chatter =>
      kind, echo, sent := ServerLog, None, [];
    case Command =>
      var actor := if origin.None? || origin.value == "-" then None else origin;
      var code, reply, welcome := ParseTextCommand(store, alarm, line, actor, exit);
      if code == 0 {
        echo := if fd > -1 then Some(reply + "\r\n") else None;
        sent := welcome + (if actor.Some? then [Sms(actor.value, reply)] else []);
        kind := TextCommands;
      } else {
        kind, echo, sent := UnknownInput, None, [];
      }
  }

  // ---------------------------------------------------------------------
  // The line buffer of one source.

  /** One pass of the main loop over a source whose buffer holds contents,
      when the next byte the source would yield is next (None: nothing to
      read): whether a byte was taken, the line it completed, and the
      buffer afterwards.  A full buffer reads nothing. */
  function Step(contents: string, next: Option<char>): (bool, Option<string>, string) {
    if |contents| >= BufferSize - 1 || next.None? then (false, None, contents)
    else if next.value == '\n' || next.value == '\r' then (true, Some(CStr(contents)), [])
    else (true, None, contents + [next.value])
  }

  predicate NoBreaks(s: string) {
    forall i :: 0 <= i < |s| ==> s[i] != '\n' && s[i] != '\r'
  }

  /** The buffer never overflows, and never holds a line ending. */
  lemma {:induction false} StepKeeps(contents: string, next: Option<char>)
    requires |contents| <= BufferSize - 1 && NoBreaks(contents)
    ensures var after := Step(contents, next).2;
      |after| <= BufferSize - 1 && NoBreaks(after)
  {
  }

  /** The bytes of a stream, taken one pass at a time: the lines completed,
      the buffer at the end, and the bytes never taken. */
  function Feed(contents: string, input: string): (string, seq<string>, string)
    decreases |input|
  {
    if input == [] then (contents, [], [])
    else
      var (taken, line, after) := Step(contents, Some(input[0]));
      if !taken then (contents, [], input)
      else
        var (last, lines, left) := Feed(after, input[1..]);
        (last, (if line.Some? then [line.value] else []) + lines, left)
  }

  /** Once 8191 bytes are buffered without a line ending, that source is
      never read again. */
  lemma {:induction false} FullBufferStuck(contents: string, input: string)
    requires |contents| == BufferSize - 1
    ensures Feed(contents, input) == (contents, [], input)
  {
  }

  predicate PlainLine(w: string) {
    NoBreaks(w) && '\0' !in w && |w| < BufferSize - 1
  }

  lemma {:induction false} CStrPlain(w: string)
    requires '\0' !in w
    ensures CStr(w) == w
  {
  }

  /** The bytes of a line, then its ending, complete that line. */
  lemma {:induction false} FeedLine(contents: string, w: string, ending: char, rest: string)
    requires NoBreaks(w) && |contents| + |w| < BufferSize - 1
    requires ending == '\n' || ending == '\r'
    ensures var (last, lines, left) := Feed([], rest);
      Feed(contents, w + [ending] + rest) == (last, [CStr(contents + w)] + lines, left)
    decreases |w|
  {
    var input := w + [ending] + rest;
    if w == [] {
      assert input[0] == ending && input[1..] == rest;
      assert contents + w == contents;
      assert Step(contents, Some(input[0])) == (true, Some(CStr(contents)), []);
      var (last, lines, left) := Feed([], rest);
      var done: seq<string> := [CStr(contents)] + lines;
      assert Feed(contents, input) == (last, done, left);
    } else {
      var c := contents + [w[0]];
      assert input[0] == w[0] && w[0] != '\n' && w[0] != '\r';
      assert Step(contents, Some(input[0])) == (true, None, c);
      assert input[1..] == w[1..] + [ending] + rest;
      assert c + w[1..] == contents + w;
      FeedLine(c, w[1..], ending, rest);
      var (last, lines, left) := Feed([], rest);
      assert Feed(c, input[1..]) == (last, [CStr(contents + w)] + lines, left);
      var done: seq<string> := [CStr(contents + w)] + lines;
      assert Feed(contents, input) == (last, [] + done, left);
      assert [] + done == done;
    }
  }

  /** Lines of the usual length, each ended by a newline, come out of the
      buffer as they went in, and leave it empty. */
  lemma {:induction false} FramingRoundTrip(lines: seq<string>)
    requires forall k :: 0 <= k < |lines| ==> PlainLine(lines[k])
    ensures Feed([], Framed(lines)) == ([], lines, [])
    decreases |lines|
  {
    if lines != [] {
      assert Framed(lines) == lines[0] + ['\n'] + Framed(lines[1..]);
      assert PlainLine(lines[0]);
      FeedLine([], lines[0], '\n', Framed(lines[1..]));
      assert [] + lines[0] == lines[0];
      CStrPlain(lines[0]);
      FramingRoundTrip(lines[1..]);
      assert [lines[0]] + lines[1..] == lines;
    }
  }

  function Framed(lines: seq<string>): string
    decreases |lines|
  {
    if lines == [] then [] else lines[0] + ['\n'] + Framed(lines[1..])
  }

  /** buffers[i] and buffer_lens[i] of one source. */
  class LineBuffer {
    var buf: array<char>
    var len: int

    predicate Valid()
      reads this, buf
    {
      buf.Length == BufferSize && 0 <= len <= BufferSize - 1 && NoBreaks(buf[..len])
    }

    function Contents(): string
      requires Valid()
      reads this, buf
    {
      buf[..len]
    }

    constructor()
      ensures Valid() && fresh(buf) && Contents() == []
    {
      buf := new char[BufferSize](_ => '\0');
      len := 0;
    }

    /** One pass of the main loop over this source. */
    method Poll(next: Option<char>) returns (taken: bool, line: Option<string>)
      requires Valid()
      modifies this, buf
      ensures Valid() && buf == old(buf)
      ensures (taken, line, Contents()) == Step(old(Contents()), next)
    {
      if len < BufferSize - 1 && next.Some? {
        buf[len] := next.value;
        if buf[len] == '\n' || buf[len] == '\r' {
          buf[len] := '\0';
          line := Some(CStr(buf[..len]));
          assert buf[..len] == old(Contents());
          buf[0] := '\0';
          len := 0;
        } else {
          len := len + 1;
          assert buf[..len] == old(Contents()) + [next.value];
          line := None;
        }
        taken := true;
      } else {
        taken, line := false, None;
      }
    }
  }

  /** The reading half of the main loop for one source: a completed line is
      handed to parse_line. */
  method PollSource(buffer: LineBuffer, alarm: AlarmState, store: UserStore, origin: Option<string>, fd: int,
                    next: Option<char>, now: int, exit: int)
    returns (taken: bool, kind: Option<int>, echo: Option<string>, sent: seq<Sms>)
    requires buffer.Valid() && alarm.Valid() && store.Valid()
    modifies buffer, buffer.buf, alarm, alarm.zones, store, store.slots
    ensures buffer.Valid() && alarm.Valid() && store.Valid()
    ensures buffer.buf == old(buffer.buf) && alarm.zones == old(alarm.zones) && store.slots == old(store.slots)
    ensures var (t, line, contents) := Step(old(buffer.Contents()), next);
      && taken == t && buffer.Contents() == contents
      && (line.None? ==> kind.None? && echo.None? && sent == [] && StateOf(alarm, store) == old(StateOf(alarm, store)))
      && (line.Some? ==>
            var r := Handle(old(StateOf(alarm, store)), origin, fd, line.value, now, exit);
            kind == Some(r.kind) && echo == r.echo && sent == r.sent && StateOf(alarm, store) == r.after)
  {
    var line;
    taken, line := buffer.Poll(next);
    if line.Some? {
      var k;
      k, echo, sent := ParseLine(alarm, store, origin, fd, line.value, now, exit);
      kind := Some(k);
    } else {
      kind, echo, sent := None, None, [];
    }
  }

  // ---------------------------------------------------------------------
  // Escalation.

  const AlertPrefix := "UNEXPECTED ALARM ACTIVITY: "

  /** The message each user gets, given the report and the number of users. */
  function AlertText(report: string, users: int): string {
    report + ". You and " + IntToString(users - 1)
      + " other(s) have been sent this message. Reply with help for a reminder of commands."
  }

  /** The same text to every live slot, in list order. */
  function Alerts(es: seq<Entry>, text: string): (r: seq<Sms>)
    ensures |r| == |es|
    ensures forall i :: 0 <= i < |es| ==> r[i] == Sms(PhoneText(es[i].phone), text)
  {
    seq(|es|, i requires 0 <= i < |es| => Sms(PhoneText(es[i].phone), text))
  }

  /** The broadcast carries the whole status report. */
  lemma {:induction false} AlertCarriesReport(p: Panel)
    requires WellFormed(p)
    ensures Clip(AlertPrefix + StatusText(p), BufferSize) == AlertPrefix + StatusText(p)
  {
    StatusFits(p);
  }

  /** What each pass of the main loop does after reading: the siren check,
      then the broadcast if an event is due. */
  function Escalation(p: Panel, es: seq<Entry>, now: int): (Panel, seq<Sms>) {
    var (fire, after) := DrainEvent(TickEvent(p, now));
    (after, if fire then Alerts(es, AlertText(Clip(AlertPrefix + StatusText(after), BufferSize), |es|)) else [])
  }

  /** A broadcast is not repeated: the next pass, at the same time or
      later while no new event arrives, is silent. */
  lemma {:induction false} BroadcastOnce(p: Panel, es: seq<Entry>, now: int)
    ensures var after := Escalation(p, es, now).0;
      after.event == 0 && (after.sirenOnTime == 0 || now - after.sirenOnTime < SirenDebounce)
      && Escalation(after, es, now) == (after, [])
  {
  }

  /** A siren sounding for the debounce time reaches every user once. */
  lemma {:induction false} LongSirenReachesEveryone(p: Panel, es: seq<Entry>, on: int, now: int)
    requires on != 0 && now - on >= SirenDebounce
    ensures |Escalation(SirenOnEvent(p, on), es, now).1| == |es|
  {
  }

  /** The loop over the users that sends one alert each. */
  method Broadcast(store: UserStore, text: string) returns (sent: seq<Sms>)
    requires store.Valid()
    ensures sent == Alerts(store.Entries(), text)
  {
    sent := [];
    var i := 0;
    while i < store.count
      invariant 0 <= i <= store.count
      invariant |sent| == i
      invariant forall k :: 0 <= k < i ==> sent[k] == Sms(PhoneText(store.slots[k].phone), text)
    {
      sent := sent + [Sms(PhoneText(store.slots[i].phone), text)];
      i := i + 1;
    }
  }

  /** The siren check and the broadcast, on the alarm in place. */
  method Escalate(alarm: AlarmState, store: UserStore, now: int) returns (sent: seq<Sms>)
    requires alarm.Valid() && store.Valid()
    modifies alarm
    ensures alarm.Valid() && alarm.zones == old(alarm.zones)
    ensures (alarm.Snapshot(), sent) == Escalation(old(alarm.Snapshot()), store.Entries(), now)
  {
    alarm.Tick(now);
    var fire := alarm.Drain();
    sent := [];
    if fire {
      var report := alarm.WriteStatus(AlertPrefix, BufferSize);
      sent := Broadcast(store, AlertText(report, store.count));
    }
  }

  // ---------------------------------------------------------------------
  // The modem's message listing.

  /** A message found in the listing: its location, its sender and its
      text, as fgets returned the line. */
  datatype Message = Message(location: string, sender: string, body: string)

  /** The variables of the listing loop. */
  datatype Reader = Reader(isSms: int, gotSender: bool, location: string, sender: string)

  /** sscanf(line, "Location %[^,]", location) */
  function ReadLocation(line: string): Option<string> {
    match ReadText("Location ", 0, line)
    case None => None
    case Some(r) =>
      match ReadRun(r, NotAmong({','}))
      case None => None
      case Some((w, _)) => Some(w)
  }

  /** sscanf(line, "Remote number%*[ ]: \"%[^\"]\"", sender) == 1 */
  function ReadSender(line: string): Option<string> {
    match ReadText("Remote number", 0, line)
    case None => None
    case Some(r) =>
      match ReadRun(r, Among({' '}))
      case None => None
      case Some((_, r2)) =>
        match ReadText(": \"", 0, r2)
        case None => None
        case Some(r3) =>
          match ReadRun(r3, NotAmong({'"'}))
          case None => None
          case Some((w, _)) => Some(w)
  }

  /** One line of the listing: the reader afterwards, and the message the
      line completes, if any. */
  function ReadListing(rd: Reader, line: string): (Reader, Option<Message>) {
    if rd.isSms == 1 && rd.gotSender then
      (Reader(0, false, [], rd.sender), Some(Message(rd.location, rd.sender, line)))
    else
      var location := match ReadLocation(line) case Some(l) => l case None => rd.location;
      var header := |line| >= 11 && line[..11] == "SMS message";
      var isSms := if header then 2 else rd.isSms;
      var gotSender := if header then false else rd.gotSender;
      var sender := ReadSender(line);
      var gotSender2 := if sender.Some? then true else gotSender;
      var sender2 := match sender case Some(x) => x case None => rd.sender;
      var isSms2 := if line == "\n" && isSms != 0 then isSms - 1 else isSms;
      (Reader(isSms2, if isSms2 == 0 then false else gotSender2, location, sender2), None)
  }

  /** The messages of a listing, read from a given reader. */
  function Listing(rd: Reader, lines: seq<string>): seq<Message>
    decreases |lines|
  {
    if lines == [] then []
    else
      var (next, m) := ReadListing(rd, lines[0]);
      (if m.Some? then [m.value] else []) + Listing(next, lines[1..])
  }

  const Start := Reader(0, false, [], [])

  /** The body of the listing loop, on its variables. */
  method ReadLine(rd0: Reader, line: string) returns (rd: Reader, m: Option<Message>)
    ensures (rd, m) == ReadListing(rd0, line)
  {
    rd, m := rd0, None;
    if rd.isSms == 1 && rd.gotSender {
      m := Some(Message(rd.location, rd.sender, line));
      rd := rd.(isSms := 0, gotSender := false, location := []);
    } else {
      var location := ReadLocation(line);
      if location.Some? {
        rd := rd.(location := location.value);
      }
      if |line| >= 11 && line[..11] == "SMS message" {
        rd := rd.(isSms := 2, gotSender := false);
      }
      var sender := ReadSender(line);
      if sender.Some? {
        rd := rd.(sender := sender.value, gotSender := true);
      }
      if line == "\n" && rd.isSms != 0 {
        rd := rd.(isSms := rd.isSms - 1);
      }
      if rd.isSms == 0 {
        rd := rd.(gotSender := false);
      }
    }
  }

  /** One more line read moves its message, if any, from what is left to
      read to what has been found. */
  lemma {:induction false} ListingStep(msgs: seq<Message>, rd: Reader, lines: seq<string>, i: nat)
    requires i < |lines|
    ensures var (next, m) := ReadListing(rd, lines[i]);
      msgs + Listing(rd, lines[i..]) == (msgs + (if m.Some? then [m.value] else [])) + Listing(next, lines[i + 1..])
  {
    var (next, m) := ReadListing(rd, lines[i]);
    var piece := if m.Some? then [m.value] else [];
    assert lines[i..][1..] == lines[i + 1..];
    assert Listing(rd, lines[i..]) == piece + Listing(next, lines[i + 1..]);
    assert msgs + (piece + Listing(next, lines[i + 1..])) == (msgs + piece) + Listing(next, lines[i + 1..]);
  }

  /** The listing loop of the main loop, over the lines fgets returns. */
  method ReadMessages(lines: seq<string>) returns (msgs: seq<Message>)
    ensures msgs == Listing(Start, lines)
  {
    var rd := Start;
    msgs := [];
    var i := 0;
    while i < |lines|
      invariant 0 <= i <= |lines|
      invariant Listing(Start, lines) == msgs + Listing(rd, lines[i..])
    {
      ListingStep(msgs, rd, lines, i);
      var m;
      rd, m := ReadLine(rd, lines[i]);
      msgs := msgs + (if m.Some? then [m.value] else []);
      i := i + 1;
    }
  }

  /** The lines the modem prints for one received message, reduced to those
      the reader looks at. */
  function Entry4(location: string, sender: string, body: string): seq<string> {
    ["Location " + location + ", folder \"Inbox\"\n",
     "SMS message\n",
     "Remote number        : \"" + sender + "\"\n",
     "\n",
     body + "\n"]
  }

  predicate Field(s: string, stop: char) {
    s != [] && forall i :: 0 <= i < |s| ==> s[i] != stop && s[i] != '\n'
  }

  lemma {:induction false} LocationReads(location: string)
    requires Field(location, ',') && !IsSpace(location[0])
    ensures ReadLocation("Location " + location + ", folder \"Inbox\"\n") == Some(location)
  {
    var rest := location + ", folder \"Inbox\"\n";
    assert "Location " + location + ", folder \"Inbox\"\n" == "Location " + rest;
    assert ReadText("Location ", 0, "Location " + rest) == Some(rest) by {
      assert SingleSpaced("Location ", rest);
      ReadTextBack("Location ", rest);
    }
    assert rest == location + ", folder \"Inbox\"\n";
    ReadRunBack(location, ", folder \"Inbox\"\n", NotAmong({','}));
  }

  lemma {:induction false} SenderReads(sender: string)
    requires Field(sender, '"')
    ensures ReadSender("Remote number        : \"" + sender + "\"\n") == Some(sender)
  {
    var pad := "        ";
    var tail := ": \"" + sender + "\"\n";
    var line := "Remote number        : \"" + sender + "\"\n";
    assert line == "Remote number" + (pad + tail);
    assert ReadText("Remote number", 0, line) == Some(pad + tail) by {
      ReadTextBack("Remote number", pad + tail);
    }
    ReadRunBack(pad, tail, Among({' '}));
    var after := sender + "\"\n";
    assert tail == ": \"" + after;
    assert ReadText(": \"", 0, tail) == Some(after) by {
      ReadTextBack(": \"", after);
    }
    ReadRunBack(sender, "\"\n", NotAmong({'"'}));
  }

  lemma {:induction false} LocationLine(location: string, last: string)
    requires Field(location, ',') && !IsSpace(location[0])
    ensures ReadListing(Reader(0, false, [], last), Entry4(location, last, [])[0])
      == (Reader(0, false, location, last), None)
  {
    var line := Entry4(location, last, [])[0];
    LocationReads(location);
    assert line[0] == 'L';
    assert line[..11] != "SMS message" by {
      assert line[..11][0] == 'L';
    }
  }

  lemma {:induction false} HeaderLine(location: string, last: string)
    ensures ReadListing(Reader(0, false, location, last), "SMS message\n")
      == (Reader(2, false, location, last), None)
  {
    var line := "SMS message\n";
    assert line[..11] == "SMS message";
  }

  lemma {:induction false} SenderLine(location: string, sender: string, last: string)
    requires Field(sender, '"')
    ensures ReadListing(Reader(2, false, location, last), Entry4(location, sender, [])[2])
      == (Reader(2, true, location, sender), None)
  {
    var line := Entry4(location, sender, [])[2];
    SenderReads(sender);
    assert line[0] == 'R';
    assert line[..11] != "SMS message" by {
      assert line[..11][0] == 'R';
    }
  }

  lemma {:induction false} BlankLine(location: string, sender: string)
    ensures ReadListing(Reader(2, true, location, sender), "\n")
      == (Reader(1, true, location, sender), None)
  {
  }

  /** The reader after a run of lines. */
  function Run(rd: Reader, lines: seq<string>): Reader
    decreases |lines|
  {
    if lines == [] then rd else Run(ReadListing(rd, lines[0]).0, lines[1..])
  }

  /** Reading two runs of lines one after the other finds the messages of
      the first, then those of the second read on from where the first
      left the reader. */
  lemma {:induction false} ListingAppend(rd: Reader, a: seq<string>, b: seq<string>)
    ensures Listing(rd, a + b) == Listing(rd, a) + Listing(Run(rd, a), b)
    ensures Run(rd, a + b) == Run(Run(rd, a), b)
    decreases |a|
  {
    if a == [] {
      assert a + b == b;
    } else {
      var (next, m) := ReadListing(rd, a[0]);
      var piece := if m.Some? then [m.value] else [];
      assert (a + b)[0] == a[0];
      assert (a + b)[1..] == a[1..] + b;
      ListingAppend(next, a[1..], b);
      assert piece + (Listing(next, a[1..]) + Listing(Run(next, a[1..]), b))
          == (piece + Listing(next, a[1..])) + Listing(Run(next, a[1..]), b);
    }
  }

  /** A message in the modem's listing is found with its location, its
      sender and its text, whatever sender the reader kept from the message
      before, and the reader is then ready for the next one. */
  lemma {:induction false} OneMessageRead(location: string, sender: string, body: string, last: string)
    requires Field(location, ',') && !IsSpace(location[0])
    requires Field(sender, '"')
    ensures Listing(Reader(0, false, [], last), Entry4(location, sender, body))
      == [Message(location, sender, body + "\n")]
    ensures Run(Reader(0, false, [], last), Entry4(location, sender, body)) == Reader(0, false, [], sender)
  {
    var ls := Entry4(location, sender, body);
    var r0 := Reader(0, false, [], last);
    var r1 := Reader(0, false, location, last);
    var r2 := Reader(2, false, location, last);
    var r3 := Reader(2, true, location, sender);
    var r4 := Reader(1, true, location, sender);
    var r5 := Reader(0, false, [], sender);
    var msg := Message(location, sender, body + "\n");
    LocationLine(location, last);
    HeaderLine(location, last);
    SenderLine(location, sender, last);
    BlankLine(location, sender);
    assert ls[0] == Entry4(location, last, [])[0] && ls[2] == Entry4(location, sender, [])[2];
    assert ReadListing(r4, ls[4]) == (r5, Some(msg));
    assert ls[4..][1..] == [];
    assert Listing(r4, ls[4..]) == [msg] && Run(r4, ls[4..]) == r5;
    assert ls[3..][1..] == ls[4..];
    assert Listing(r3, ls[3..]) == [msg] && Run(r3, ls[3..]) == r5;
    assert ls[2..][1..] == ls[3..];
    assert Listing(r2, ls[2..]) == [msg] && Run(r2, ls[2..]) == r5;
    assert ls[1..][1..] == ls[2..];
    assert Listing(r1, ls[1..]) == [msg] && Run(r1, ls[1..]) == r5;
  }

  /** A message the listing prints in a form the reader recognises. */
  predicate Readable(m: Message) {
    Field(m.location, ',') && !IsSpace(m.location[0]) && Field(m.sender, '"')
  }

  /** The lines the modem prints for a run of received messages. */
  function Inbox(ms: seq<Message>): seq<string>
    decreases |ms|
  {
    if ms == [] then [] else Entry4(ms[0].location, ms[0].sender, ms[0].body) + Inbox(ms[1..])
  }

  /** Every message of a listing is found, in order, with its location, its
      sender and its text; from Start (an empty last sender) this is what
      the listing loop finds in the modem's whole inbox. */
  lemma {:induction false} InboxRead(ms: seq<Message>, last: string)
    requires forall k :: 0 <= k < |ms| ==> Readable(ms[k])
    ensures var found := Listing(Reader(0, false, [], last), Inbox(ms));
      |found| == |ms| && forall k :: 0 <= k < |ms| ==> found[k] == ms[k].(body := ms[k].body + "\n")
    decreases |ms|
  {
    if ms != [] {
      var m := ms[0];
      var rd := Reader(0, false, [], last);
      var head := Entry4(m.location, m.sender, m.body);
      assert Readable(ms[0]);
      OneMessageRead(m.location, m.sender, m.body, last);
      ListingAppend(rd, head, Inbox(ms[1..]));
      assert forall k :: 0 <= k < |ms[1..]| ==> Readable(ms[1..][k]) by {
        forall k | 0 <= k < |ms[1..]| ensures Readable(ms[1..][k]) {
          assert ms[1..][k] == ms[k + 1];
        }
      }
      InboxRead(ms[1..], m.sender);
      var found := Listing(rd, Inbox(ms));
      var rest := Listing(Reader(0, false, [], m.sender), Inbox(ms[1..]));
      assert found == [m.(body := m.body + "\n")] + rest;
      forall k | 0 <= k < |ms|
        ensures found[k] == ms[k].(body := ms[k].body + "\n")
      {
        if k > 0 {
          assert found[k] == rest[k - 1];
          assert ms[1..][k - 1] == ms[k];
        }
      }
    }
  }

  // ---------------------------------------------------------------------
  // Acting on the messages found.

  /** The text of a message without its trailing newlines. */
  function Trimmed(s: string): (r: string)
    ensures r <= s
    ensures r == [] || r[|r| - 1] != '\n'
    ensures forall i :: |r| <= i < |s| ==> s[i] == '\n'
    decreases |s|
  {
    if s != [] && s[|s| - 1] == '\n' then Trimmed(s[..|s| - 1]) else s
  }

  /** A message from an authorised number is handled as a line from that
      number; any other is dropped. */
  function Deliver(s: State, m: Message, now: int, exit: int): (r: (State, seq<Sms>))
    requires Good(s)
    ensures Good(r.0)
  {
    if !Authorised(s.entries, Some(m.sender)) then (s, [])
    else
      var body := Trimmed(m.body);
      if body == [] then (s, [])
      else
        var r := Handle(s, Some(m.sender), -1, body, now, exit);
        (r.after, r.sent)
  }

  /** Messages are acted on in the order of the listing. */
  function DeliverAll(s: State, msgs: seq<Message>, now: int, exit: int): (r: (State, seq<Sms>))
    requires Good(s)
    ensures Good(r.0)
    decreases |msgs|
  {
    if msgs == [] then (s, [])
    else
      var (mid, sent) := DeliverAll(s, msgs[..|msgs| - 1], now, exit);
      var (last, more) := Deliver(mid, msgs[|msgs| - 1], now, exit);
      (last, sent + more)
  }

  /** Messages from numbers not on the list change nothing and are not
      answered, even when their text looks like the controller's log. */
  lemma {:induction false} StrangersIgnored(s: State, msgs: seq<Message>, now: int, exit: int)
    requires Good(s)
    requires forall k :: 0 <= k < |msgs| ==> !Authorised(s.entries, Some(msgs[k].sender))
    ensures DeliverAll(s, msgs, now, exit) == (s, [])
    decreases |msgs|
  {
    if msgs != [] {
      var init := msgs[..|msgs| - 1];
      assert forall k :: 0 <= k < |init| ==> init[k] == msgs[k];
      StrangersIgnored(s, init, now, exit);
      assert Deliver(s, msgs[|msgs| - 1], now, exit) == (s, []);
      var none: seq<Sms> := [];
      assert none + none == none;
    }
  }

  /** One message of the listing, on the alarm and the list in place. */
  method DeliverOne(alarm: AlarmState, store: UserStore, m: Message, now: int, exit: int)
    returns (sent: seq<Sms>)
    requires alarm.Valid() && store.Valid()
    modifies alarm, alarm.zones, store, store.slots
    ensures alarm.Valid() && store.Valid()
    ensures alarm.zones == old(alarm.zones) && store.slots == old(store.slots)
    ensures (StateOf(alarm, store), sent) == Deliver(old(StateOf(alarm, store)), m, now, exit)
  {
    sent := [];
    var known := store.IsAuthorised(Some(m.sender));
    if known {
      var body := Trimmed(m.body);
      if body != [] {
        var kind, echo;
        kind, echo, sent := ParseLine(alarm, store, Some(m.sender), -1, body, now, exit);
      }
    }
  }

  /** The inbox half of the main loop: every message found is handled. */
  method DeliverMessages(alarm: AlarmState, store: UserStore, msgs: seq<Message>, now: int, exit: int)
    returns (sent: seq<Sms>)
    requires alarm.Valid() && store.Valid()
    modifies alarm, alarm.zones, store, store.slots
    ensures alarm.Valid() && store.Valid()
    ensures alarm.zones == old(alarm.zones) && store.slots == old(store.slots)
    ensures (StateOf(alarm, store), sent) == DeliverAll(old(StateOf(alarm, store)), msgs, now, exit)
  {
    ghost var s0 := StateOf(alarm, store);
    sent := [];
    var i := 0;
    while i < |msgs|
      invariant 0 <= i <= |msgs|
      invariant alarm.Valid() && store.Valid()
      invariant alarm.zones == old(alarm.zones) && store.slots == old(store.slots)
      invariant (StateOf(alarm, store), sent) == DeliverAll(s0, msgs[..i], now, exit)
    {
      assert msgs[..i + 1][..i] == msgs[..i];
      var more := DeliverOne(alarm, store, msgs[i], now, exit);
      sent := sent + more;
      i := i + 1;
    }
    assert msgs[..|msgs|] == msgs;
  }
}
