/**
  parse_textcommand: the commands an SMS or the console may send.  The verb
  is matched without regard to case, in a fixed order; managing the list of
  users needs an administrator (or the console), the alarm commands need an
  authorised number, and help needs nobody.  The exit status of the
  nx584_client run for arm and disarm is a parameter.
*/
module Commands {
  import opened Wrappers
  import opened CText
  import opened Alarm
  import opened Users

  /** The size of the reply buffer. */
  const ReplyBuffer := 8192

  /** The reply to help, one line at a time. */
  const HelpLines: seq<string> := [
    "Valid commands:\n",
    "    arm - arm alarm\n",
    " disarm - disarm alarm\n",
    " status - list faulted zones, and if alarm is armed\n",
    " add <phone number> - add phone number to list of authorised users.\n",
    " admin <phone number> - add phone number to list of authorised users, with the ability to add and delete others\n",
    " del <phone number> - delete phone number from list of authorised users.\n",
    " list - list authorised numbers.\n"
  ]

  /** The lines laid end to end. */
  function Join(ls: seq<string>): string {
    if ls == [] then [] else ls[0] + Join(ls[1..])
  }

  const HelpText := Join(HelpLines)

  /** A text message to send. */
  datatype Sms = Sms(to: string, text: string)

  datatype Verb =
    | Help
    | AddUser(phone: string)
    | AddAdmin(phone: string)
    | DelUser(phone: string)
    | ListUsers
    | Disarm
    | Arm
    | Status
    | NoVerb

  /** The verb the text names, whoever sent it. */
  function TextVerb(line: string): Verb {
    if EqualsIgnoringCase(line, "help") then Help
    else if StartsWithIgnoringCase(line, "add ") then AddUser(line[4..])
    else if StartsWithIgnoringCase(line, "admin ") then AddAdmin(line[6..])
    else if StartsWithIgnoringCase(line, "del ") then DelUser(line[4..])
    else if EqualsIgnoringCase(line, "list") then ListUsers
    else if EqualsIgnoringCase(line, "disarm") then Disarm
    else if EqualsIgnoringCase(line, "arm") then Arm
    else if EqualsIgnoringCase(line, "status") then Status
    else NoVerb
  }

  /** Who may use a verb. */
  predicate Permitted(es: seq<Entry>, actor: Option<string>, v: Verb) {
    match v
    case Help => true
    case AddUser(_) => AdminOrLocal(es, actor)
    case AddAdmin(_) => AdminOrLocal(es, actor)
    case DelUser(_) => AdminOrLocal(es, actor)
    case ListUsers => AdminOrLocal(es, actor)
    case NoVerb => true
    case _ => Authorised(es, actor)
  }

  /** The chain of tests parse_textcommand makes, each verb behind its gate. */
  function Select(es: seq<Entry>, line: string, actor: Option<string>): Verb {
    if EqualsIgnoringCase(line, "help") then Help
    else if AdminOrLocal(es, actor) && StartsWithIgnoringCase(line, "add ") then AddUser(line[4..])
    else if AdminOrLocal(es, actor) && StartsWithIgnoringCase(line, "admin ") then AddAdmin(line[6..])
    else if AdminOrLocal(es, actor) && StartsWithIgnoringCase(line, "del ") then DelUser(line[4..])
    else if AdminOrLocal(es, actor) && EqualsIgnoringCase(line, "list") then ListUsers
    else if Authorised(es, actor) && EqualsIgnoringCase(line, "disarm") then Disarm
    else if Authorised(es, actor) && EqualsIgnoringCase(line, "arm") then Arm
    else if Authorised(es, actor) && EqualsIgnoringCase(line, "status") then Status
    else NoVerb
  }

  /** The verbs do not overlap, so a gate that refuses never lets a later
      verb match instead: a command is carried out exactly when its sender
      may use it, and is otherwise ignored. */
  lemma {:induction false} SelectGated(es: seq<Entry>, line: string, actor: Option<string>)
    ensures Select(es, line, actor) == if Permitted(es, actor, TextVerb(line)) then TextVerb(line) else NoVerb
  {
    if StartsWithIgnoringCase(line, "add ") || StartsWithIgnoringCase(line, "admin ") || StartsWithIgnoringCase(line, "del ") {
      assert ToLower(line[0]) == 'a' || ToLower(line[0]) == 'd';
      assert |line| >= 4;
      assert !EqualsIgnoringCase(line, "list") && !EqualsIgnoringCase(line, "disarm") by {
        if |line| == 4 {
          assert ToLower(line[0]) != 'l';
        } else if |line| == 6 {
          assert ToLower(line[3]) == ' ' || ToLower(line[3]) == 'i';
        }
      }
      assert !EqualsIgnoringCase(line, "arm") && !EqualsIgnoringCase(line, "status");
    }
    if StartsWithIgnoringCase(line, "admin ") {
      assert !StartsWithIgnoringCase(line, "add ") by {
        assert ToLower(line[2]) == 'm';
      }
    }
  }

  /** The console may use every verb. */
  lemma {:induction false} ConsoleMayDoAnything(es: seq<Entry>, line: string)
    ensures Select(es, line, None) == TextVerb(line)
  {
    SelectGated(es, line, None);
  }

  /** A number not on the list can only ask for help. */
  lemma {:induction false} StrangersOnlyGetHelp(es: seq<Entry>, line: string, actor: Option<string>)
    requires !Authorised(es, actor)
    ensures Select(es, line, actor) == Help || Select(es, line, actor) == NoVerb
  {
    if AdminOrLocal(es, actor) {
      AdminIsAuthorised(es, actor);
    }
  }

  /** What a stranger sends changes no list and sends no message. */
  lemma {:induction false} StrangersKeepList(es: seq<Entry>, p: Panel, line: string, actor: Option<string>, exit: int)
    requires !Authorised(es, actor)
    ensures var r := Respond(es, p, line, actor, exit);
      r.entries == es && r.sent == []
  {
    StrangersOnlyGetHelp(es, line, actor);
  }

  /** A user who is not an administrator cannot change or see the list. */
  lemma {:induction false} UsersCannotManage(es: seq<Entry>, line: string, actor: Option<string>)
    requires !AdminOrLocal(es, actor)
    ensures !Select(es, line, actor).AddUser? && !Select(es, line, actor).AddAdmin?
    ensures !Select(es, line, actor).DelUser? && Select(es, line, actor) != ListUsers
  {
  }

  /** help is answered for anyone, whatever its case. */
  lemma {:induction false} HelpForAnyone(es: seq<Entry>, line: string, actor: Option<string>)
    ensures Select(es, line, actor) == Help <==> EqualsIgnoringCase(line, "help")
  {
  }

  function DisarmReply(exit: int): string {
    if exit == 0 then "Commanded alarm to DISARM."
    else "Error #" + IntToString(exit) + " requesting alarm to disarm"
  }

  function ArmReply(exit: int): string {
    if exit == 0 then "Commanded alarm to ARM."
    else "Error #" + IntToString(exit) + " requesting alarm to arm"
  }

  /** The welcome message an add sends, addressed to the new number. */
  function Welcome(phone: string, text: Option<string>): seq<Sms> {
    if text.Some? then [Sms(phone, text.value)] else []
  }

  /** What a command leaves: the return code, the reply, the new list and
      the messages sent along the way. */
  datatype Outcome = Outcome(code: int, reply: string, entries: seq<Entry>, sent: seq<Sms>)

  /** parse_textcommand, given the list, the alarm state, the text, the
      sender (None for the console) and the exit status of the alarm client. */
  function Respond(es: seq<Entry>, p: Panel, line: string, actor: Option<string>, exit: int): Outcome {
    Answer(es, p, Select(es, line, actor), actor, exit)
  }

  /** What carrying out a verb leaves. */
  function Answer(es: seq<Entry>, p: Panel, v: Verb, actor: Option<string>, exit: int): Outcome {
    match v
    case Help => Outcome(0, HelpText, es, [])
    case AddUser(phone) =>
      var r := Add(es, phone, false);
      Outcome(0, r.reply, r.entries, Welcome(phone, r.welcome))
    case AddAdmin(phone) =>
      var r := Add(es, phone, true);
      Outcome(0, r.reply, r.entries, Welcome(phone, r.welcome))
    case DelUser(phone) =>
      var r := Del(es, phone, actor);
      Outcome(0, r.reply, r.entries, [])
    case ListUsers => Outcome(0, Clip(ListText(es), ReplyBuffer), es, [])
    case Disarm => Outcome(0, DisarmReply(exit), es, [])
    case Arm => Outcome(0, ArmReply(exit), es, [])
    case Status => Outcome(0, Clip(StatusText(p), ReplyBuffer), es, [])
    case NoVerb => Outcome(-1, "", es, [])
  }

  /** The command returns -1 exactly when nothing matched, and only the
      list-managing verbs change the list. */
  lemma {:induction false} RespondCode(es: seq<Entry>, p: Panel, line: string, actor: Option<string>, exit: int)
    ensures var r := Respond(es, p, line, actor, exit);
      && (r.code == -1 <==> Select(es, line, actor) == NoVerb)
      && (r.code == 0 || r.code == -1)
      && (r.entries != es ==> AdminOrLocal(es, actor))
  {
  }

  /** No command leaves a live slot without a number. */
  lemma {:induction false} RespondKeepsLive(es: seq<Entry>, p: Panel, line: string, actor: Option<string>, exit: int)
    requires Live(es)
    ensures Live(Respond(es, p, line, actor, exit).entries)
  {
    var v := Select(es, line, actor);
    assert Respond(es, p, line, actor, exit) == Answer(es, p, v, actor, exit);
    match v
    case AddUser(phone) => AddKeepsLive(es, phone, false);
    case AddAdmin(phone) => AddKeepsLive(es, phone, true);
    case DelUser(phone) => DelKeepsLive(es, phone, actor);
    case _ =>
  }

  /** The status reply is the whole report: it never reaches the end of the
      buffer. */
  lemma {:induction false} StatusReplyWhole(p: Panel)
    requires WellFormed(p)
    ensures Clip(StatusText(p), ReplyBuffer) == StatusText(p)
  {
    StatusFits(p);
  }

  /** The tests of parse_textcommand, in their order, against the list in
      place. */
  method ChooseVerb(store: UserStore, line: string, actor: Option<string>) returns (v: Verb)
    requires store.Valid()
    ensures v == Select(store.Entries(), line, actor)
  {
    var admin := store.IsAdminOrLocal(actor);
    var authorised := store.IsAuthorised(actor);
    if EqualsIgnoringCase(line, "help") {
      v := Help;
    } else if admin && StartsWithIgnoringCase(line, "add ") {
      v := AddUser(line[4..]);
    } else if admin && StartsWithIgnoringCase(line, "admin ") {
      v := AddAdmin(line[6..]);
    } else if admin && StartsWithIgnoringCase(line, "del ") {
      v := DelUser(line[4..]);
    } else if admin && EqualsIgnoringCase(line, "list") {
      v := ListUsers;
    } else if authorised && EqualsIgnoringCase(line, "disarm") {
      v := Disarm;
    } else if authorised && EqualsIgnoringCase(line, "arm") {
      v := Arm;
    } else if authorised && EqualsIgnoringCase(line, "status") {
      v := Status;
    } else {
      v := NoVerb;
    }
  }

  /** parse_textcommand, on the list and the alarm in place. */
  method ParseTextCommand(store: UserStore, alarm: AlarmState, line: string, actor: Option<string>, exit: int)
    returns (code: int, reply: string, sent: seq<Sms>)
    requires store.Valid() && alarm.Valid()
    modifies store, store.slots
    ensures store.Valid() && store.slots == old(store.slots)
    ensures var r := Respond(old(store.Entries()), alarm.Snapshot(), line, actor, exit);
      && code == r.code && reply == r.reply && sent == r.sent
      && store.Entries() == r.entries
      && store.saved == if r.sent != [] then SaveText(r.entries) else old(store.saved)
  {
    var verb := ChooseVerb(store, line, actor);
    code, reply, sent := Carry(store, alarm, verb, actor, exit);
  }

  /** Carrying out the verb chosen. */
  method Carry(store: UserStore, alarm: AlarmState, verb: Verb, actor: Option<string>, exit: int)
    returns (code: int, reply: string, sent: seq<Sms>)
    requires store.Valid() && alarm.Valid()
    modifies store, store.slots
    ensures store.Valid() && store.slots == old(store.slots)
    ensures var r := Answer(old(store.Entries()), alarm.Snapshot(), verb, actor, exit);
      && code == r.code && reply == r.reply && sent == r.sent
      && store.Entries() == r.entries
      && store.saved == if r.sent != [] then SaveText(r.entries) else old(store.saved)
  {
    if verb.AddUser? || verb.AddAdmin? || verb.DelUser? || verb.ListUsers? {
      code, reply, sent := Manage(store, alarm, verb, actor, exit);
    } else if verb.Status? {
      reply := StatusReply(alarm);
      code, sent := 0, [];
    } else {
      code, reply, sent := Report(store, alarm, verb, actor, exit);
    }
  }

  /** The verbs that manage the list of users. */
  method Manage(store: UserStore, alarm: AlarmState, verb: Verb, actor: Option<string>, exit: int)
    returns (code: int, reply: string, sent: seq<Sms>)
    requires store.Valid() && alarm.Valid()
    requires verb.AddUser? || verb.AddAdmin? || verb.DelUser? || verb.ListUsers?
    modifies store, store.slots
    ensures store.Valid() && store.slots == old(store.slots)
    ensures var r := Answer(old(store.Entries()), alarm.Snapshot(), verb, actor, exit);
      && code == r.code && reply == r.reply && sent == r.sent
      && store.Entries() == r.entries
      && store.saved == if r.sent != [] then SaveText(r.entries) else old(store.saved)
  {
    match verb
    case AddUser(phone) =>
      var welcome;
      code, reply, welcome := store.AddUser(phone, false);
      code, sent := 0, Welcome(phone, welcome);
    case AddAdmin(phone) =>
      var welcome;
      code, reply, welcome := store.AddUser(phone, true);
      code, sent := 0, Welcome(phone, welcome);
    case DelUser(phone) =>
      code, reply := store.DelUser(phone, actor);
      code, sent := 0, [];
    case ListUsers =>
      reply := store.ListUsers();
      code, sent := 0, [];
  }

  /** The verbs that leave the list alone. */
  method Report(store: UserStore, alarm: AlarmState, verb: Verb, actor: Option<string>, exit: int)
    returns (code: int, reply: string, sent: seq<Sms>)
    requires store.Valid() && alarm.Valid()
    requires verb.Help? || verb.Disarm? || verb.Arm? || verb.NoVerb?
    ensures var r := Answer(store.Entries(), alarm.Snapshot(), verb, actor, exit);
      && code == r.code && reply == r.reply && sent == r.sent && r.entries == store.Entries()
  {
    match verb
    case Help =>
      code, reply, sent := 0, HelpText, [];
    case Disarm =>
      code, reply, sent := 0, DisarmReply(exit), [];
    case Arm =>
      code, reply, sent := 0, ArmReply(exit), [];
    case NoVerb =>
      code, reply, sent := -1, "", [];
  }

  /** status: the report, written into the reply buffer. */
  method StatusReply(alarm: AlarmState) returns (reply: string)
    requires alarm.Valid()
    ensures reply == Clip(StatusText(alarm.Snapshot()), ReplyBuffer)
  {
    reply := alarm.WriteStatus("", ReplyBuffer);
    assert "" + StatusText(alarm.Snapshot()) == StatusText(alarm.Snapshot());
  }
}
