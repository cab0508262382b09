/**
  The list of telephone numbers allowed to use the gateway.  The C program
  keeps two parallel arrays, users[] (a string, or NULL once a slot has been
  cleared) and is_admin[], of which the first user_count slots are live;
  here each slot is one Entry.  The list is saved to, and loaded from, a
  configuration file of "admin <number>" and "user <number>" lines.
*/
module Users {
  import opened Wrappers
  import opened CText
  import opened Scan

  const MaxUsers := 256
  /** The size of the reply buffer add_user, add_admin and del_user write. */
  const ReplySize := 1024
  /** The size of the buffer the list command writes. */
  const ListSize := 8192

  datatype Entry = Entry(phone: Option<string>, admin: bool)

  /** printf("%s") of a slot: glibc prints a NULL pointer as "(null)". */
  function PhoneText(phone: Option<string>): string {
    if phone.Some? then phone.value else "(null)"
  }

  // ---------------------------------------------------------------------
  // Who may do what.  An absent actor (None) is the local console.  A
  // cleared slot matches nobody.

  /** is_authorised */
  predicate Authorised(es: seq<Entry>, who: Option<string>) {
    who.None? || exists i :: 0 <= i < |es| && es[i].phone == who
  }

  /** is_admin_or_local */
  predicate AdminOrLocal(es: seq<Entry>, who: Option<string>) {
    who.None? || exists i :: 0 <= i < |es| && es[i].phone == who && es[i].admin
  }

  /** The number of slots flagged as administrator. */
  function AdminCount(es: seq<Entry>): (n: nat)
    ensures n <= |es|
    decreases |es|
  {
    if es == [] then 0 else AdminCount(es[..|es| - 1]) + (if es[|es| - 1].admin then 1 else 0)
  }

  /** Whatever an administrator may do, an authorised user may be asked to. */
  lemma {:induction false} AdminIsAuthorised(es: seq<Entry>, who: Option<string>)
    requires AdminOrLocal(es, who)
    ensures Authorised(es, who)
  {
  }

  lemma {:induction false} AdminCountSnoc(es: seq<Entry>, e: Entry)
    ensures AdminCount(es + [e]) == AdminCount(es) + (if e.admin then 1 else 0)
  {
    assert (es + [e])[..|es|] == es;
  }

  lemma {:induction false} AdminCountAppend(a: seq<Entry>, b: seq<Entry>)
    ensures AdminCount(a + b) == AdminCount(a) + AdminCount(b)
    decreases |b|
  {
    if b == [] {
      assert a + b == a;
    } else {
      var init := b[..|b| - 1];
      var last := b[|b| - 1];
      assert a + b == (a + init) + [last];
      assert b == init + [last];
      AdminCountSnoc(a + init, last);
      AdminCountSnoc(init, last);
      AdminCountAppend(a, init);
    }
  }

  /** A slot flagged as administrator is counted. */
  lemma {:induction false} AdminCounted(es: seq<Entry>, i: nat)
    requires i < |es| && es[i].admin
    ensures AdminCount(es) >= 1
  {
    assert es == es[..i] + [es[i]] + es[i + 1..];
    AdminCountAppend(es[..i] + [es[i]], es[i + 1..]);
    AdminCountSnoc(es[..i], es[i]);
  }

  // ---------------------------------------------------------------------
  // add_user and add_admin.

  const FormatHint := "Telephone numbers must be in international format, e.g., +614567898901234567"
  const TooMany := "Too many users. Delete one or more and try again."
  const WelcomeUser := "You are now authorised to remotely control the alarm.  Reply HELP for more information."
  const WelcomeAdmin := "You are now authorised to remotely control and administer the alarm.  With great power comes great responsibility. Reply HELP for more information."

  /** What an add leaves: its return code, its reply, the new list, and the
      SMS sent to the new number, if any. */
  datatype AddOutcome = AddOutcome(code: int, reply: string, entries: seq<Entry>, welcome: Option<string>)

  function AlreadyText(phone: string, admin: bool): string {
    Clip(phone + (if admin then " is already authorised. Delete and re-add as admin." else " is already authorised."), ReplySize)
  }

  function AddedText(phone: string, admin: bool): string {
    Clip("Added " + phone + (if admin then " to list of administrators." else " to list of authorised users."), ReplySize)
  }

  /** add_user (admin false) and add_admin (admin true). */
  function Add(es: seq<Entry>, phone: string, admin: bool): AddOutcome {
    if phone == [] || phone[0] != '+' then AddOutcome(1, FormatHint, es, None)
    else if Authorised(es, Some(phone)) then AddOutcome(0, AlreadyText(phone, admin), es, None)
    else if |es| >= MaxUsers then AddOutcome(-1, TooMany, es, None)
    else AddOutcome(0, AddedText(phone, admin), es + [Entry(Some(phone), admin)],
                    Some(if admin then WelcomeAdmin else WelcomeUser))
  }

  /** The checks come in a fixed order, each refusal leaves the list as it
      was, and otherwise the number is appended with the requested role. */
  lemma {:induction false} AddCases(es: seq<Entry>, phone: string, admin: bool)
    ensures var r := Add(es, phone, admin);
      && (r.code == 1 <==> phone == [] || phone[0] != '+')
      && (r.code == -1 <==> phone != [] && phone[0] == '+' && !Authorised(es, Some(phone)) && |es| >= MaxUsers)
      && (r.welcome.Some? <==> phone != [] && phone[0] == '+' && !Authorised(es, Some(phone)) && |es| < MaxUsers)
      && (r.welcome.None? ==> r.entries == es)
      && (r.welcome.Some? ==> r.code == 0 && r.entries == es + [Entry(Some(phone), admin)])
  {
  }

  /** After a successful add the number is authorised, and an administrator
      if it was added as one. */
  lemma {:induction false} AddGrants(es: seq<Entry>, phone: string, admin: bool)
    requires Add(es, phone, admin).code == 0
    ensures Authorised(Add(es, phone, admin).entries, Some(phone))
    ensures Add(es, phone, admin).welcome.Some? && admin ==> AdminOrLocal(Add(es, phone, admin).entries, Some(phone))
  {
    var r := Add(es, phone, admin);
    if r.welcome.Some? {
      assert r.entries[|es|] == Entry(Some(phone), admin);
    }
  }

  /** Adding never takes anyone's rights away, and never overfills the list. */
  lemma {:induction false} AddKeeps(es: seq<Entry>, phone: string, admin: bool, who: Option<string>)
    ensures Authorised(es, who) ==> Authorised(Add(es, phone, admin).entries, who)
    ensures AdminOrLocal(es, who) ==> AdminOrLocal(Add(es, phone, admin).entries, who)
    ensures |es| <= MaxUsers ==> |Add(es, phone, admin).entries| <= MaxUsers
  {
    var r := Add(es, phone, admin);
    if Authorised(es, who) && who.Some? {
      var i :| 0 <= i < |es| && es[i].phone == who;
      assert r.entries[i] == es[i];
    }
    if AdminOrLocal(es, who) && who.Some? {
      var i :| 0 <= i < |es| && es[i].phone == who && es[i].admin;
      assert r.entries[i] == es[i];
    }
  }

  /** Adding the same number again changes nothing and says it is already there. */
  lemma {:induction false} AddTwice(es: seq<Entry>, phone: string, admin: bool)
    requires Add(es, phone, admin).code == 0
    ensures var again := Add(Add(es, phone, admin).entries, phone, admin);
      again.entries == Add(es, phone, admin).entries && again.code == 0 && again.welcome.None?
  {
    AddGrants(es, phone, admin);
  }

  // ---------------------------------------------------------------------
  // del_user.

  const SelfText := "You can't remove yourself as admin user via SMS"
  const LastAdminText := "You can't remove the last admin user via SMS"

  datatype DelOutcome = DelOutcome(code: int, reply: string, entries: seq<Entry>)

  /** The first slot holding the number. */
  function FirstMatch(es: seq<Entry>, phone: string): (i: nat)
    requires Authorised(es, Some(phone))
    ensures i < |es| && es[i].phone == Some(phone)
    ensures forall j :: 0 <= j < i ==> es[j].phone != Some(phone)
    decreases |es|
  {
    if es[0].phone == Some(phone) then 0
    else
      assert Authorised(es[1..], Some(phone)) by {
        var k :| 0 <= k < |es| && es[k].phone == Some(phone);
        assert es[1..][k - 1] == es[k];
      }
      1 + FirstMatch(es[1..], phone)
  }

  /** Slot i taken out of the list, the later slots moving down by one. */
  function Removed(es: seq<Entry>, i: nat): (r: seq<Entry>)
    requires i < |es|
    ensures |r| == |es| - 1
    ensures forall j :: 0 <= j < i ==> r[j] == es[j]
    ensures forall j :: i <= j < |es| - 1 ==> r[j] == es[j + 1]
  {
    es[..i] + es[i + 1..]
  }

  /** The slots as del_user's loop leaves them: slot i is cleared and the
      later slots move down over it, but the count is not lowered, so the
      last live slot is still there.  It still points at the string the
      slot before it now holds, or, if slot i was the last, it is the
      cleared slot, with its administrator flag. */
  function Shifted(es: seq<Entry>, i: nat): (r: seq<Entry>)
    requires i < |es|
    ensures |r| == |es|
    ensures r[..|es| - 1] == Removed(es, i)
    ensures forall j :: 0 <= j < i ==> r[j] == es[j]
    ensures forall j :: i <= j < |es| - 1 ==> r[j] == es[j + 1]
    ensures r[|es| - 1] == if i == |es| - 1 then Entry(None, es[i].admin) else es[|es| - 1]
  {
    Removed(es, i) + [if i == |es| - 1 then Entry(None, es[i].admin) else es[|es| - 1]]
  }

  /** del_user, with the number of live slots lowered by one when a slot is
      removed; actor is the number the command came from, None for the
      local console. */
  function Del(es: seq<Entry>, phone: string, actor: Option<string>): DelOutcome {
    if !Authorised(es, Some(phone)) then
      DelOutcome(-1, Clip(phone + " was not authorised. Nothing to do.", ReplySize), es)
    else if actor == Some(phone) then DelOutcome(-1, SelfText, es)
    else if actor.Some? && AdminCount(es) == 1 && AdminOrLocal(es, Some(phone)) then
      DelOutcome(-1, LastAdminText, es)
    else DelOutcome(0, Clip("Removed " + phone, ReplySize), Removed(es, FirstMatch(es, phone)))
  }

  /** del_user as written: the same checks and reply, but the count of live
      slots is left as it was. */
  function DelAsWritten(es: seq<Entry>, phone: string, actor: Option<string>): DelOutcome {
    var r := Del(es, phone, actor);
    if r.code == 0 then r.(entries := Shifted(es, FirstMatch(es, phone))) else r
  }

  /** Whether the search of is_authorised for who, which stops at the first
      slot holding who, passes a cleared slot on the way and so hands strcmp
      a NULL pointer. */
  predicate SearchMeetsNull(es: seq<Entry>, who: string) {
    exists i :: 0 <= i < |es| && es[i].phone.None? && forall j :: 0 <= j < i ==> es[j].phone != Some(who)
  }

  /** As written, removing the number in the last live slot leaves that slot
      cleared but still counted, and the next search for any number that
      the earlier slots do not hold reaches it. */
  lemma {:induction false} DelLastMeetsNull(es: seq<Entry>, phone: string, actor: Option<string>, who: string)
    requires |es| >= 1 && es[|es| - 1].phone == Some(phone)
    requires forall j :: 0 <= j < |es| - 1 ==> es[j].phone != Some(phone) && es[j].phone != Some(who)
    requires Del(es, phone, actor).code == 0
    ensures |DelAsWritten(es, phone, actor).entries| == |es|
    ensures SearchMeetsNull(DelAsWritten(es, phone, actor).entries, who)
  {
    var x := FirstMatch(es, phone);
    assert x == |es| - 1;
    var r := DelAsWritten(es, phone, actor).entries;
    assert r == Shifted(es, x);
    forall j | 0 <= j < |es| - 1
      ensures r[j].phone != Some(who)
    {
      assert r[j] == r[..|es| - 1][j] == es[j];
    }
    assert r[|es| - 1].phone.None?;
  }

  /** One concrete case: the administrator +1 removes +2 by SMS, and a
      message from +3 then reaches the cleared slot. */
  lemma {:induction false} DelLastExample()
    ensures var es := [Entry(Some("+1"), true), Entry(Some("+2"), false)];
      SearchMeetsNull(DelAsWritten(es, "+2", Some("+1")).entries, "+3")
  {
    var es := [Entry(Some("+1"), true), Entry(Some("+2"), false)];
    assert es[1].phone == Some("+2");
    assert !AdminOrLocal(es, Some("+2")) by {
      assert es[0].phone != Some("+2");
    }
    DelLastMeetsNull(es, "+2", Some("+1"), "+3");
  }

  /** Every live slot holds a number. */
  predicate Live(es: seq<Entry>) {
    forall i :: 0 <= i < |es| ==> es[i].phone.Some?
  }

  /** With every live slot holding a number, no search meets a NULL. */
  lemma {:induction false} LiveMeetsNoNull(es: seq<Entry>, who: string)
    requires Live(es)
    ensures !SearchMeetsNull(es, who)
  {
  }

  /** Removing a number keeps every live slot holding a number. */
  lemma {:induction false} DelKeepsLive(es: seq<Entry>, phone: string, actor: Option<string>)
    requires Live(es)
    ensures Live(Del(es, phone, actor).entries)
  {
  }

  /** Adding a number keeps every live slot holding a number. */
  lemma {:induction false} AddKeepsLive(es: seq<Entry>, phone: string, admin: bool)
    requires Live(es)
    ensures Live(Add(es, phone, admin).entries)
  {
  }

  /** A delete is refused, with the list untouched, exactly when the number
      is absent, is the sender's own, or is the last administrator and the
      request came by SMS; otherwise the first slot holding it goes. */
  lemma {:induction false} DelCases(es: seq<Entry>, phone: string, actor: Option<string>)
    ensures var r := Del(es, phone, actor);
      && (r.code == 0 || r.code == -1)
      && (r.code == -1 <==>
            || !Authorised(es, Some(phone))
            || actor == Some(phone)
            || (actor.Some? && AdminCount(es) == 1 && AdminOrLocal(es, Some(phone))))
      && (r.code == -1 ==> r.entries == es)
      && (r.code == 0 ==> |r.entries| == |es| - 1 && r.entries == Removed(es, FirstMatch(es, phone)))
  {
  }

  /** From the console, any authorised number can be deleted. */
  lemma {:induction false} LocalDelete(es: seq<Entry>, phone: string)
    ensures Del(es, phone, None).code == 0 <==> Authorised(es, Some(phone))
  {
  }

  /** The entries that stay keep their order, and every other number keeps
      its rights. */
  lemma {:induction false} DelKeepsOthers(es: seq<Entry>, phone: string, actor: Option<string>, who: Option<string>)
    requires who != Some(phone)
    ensures Authorised(es, who) ==> Authorised(Del(es, phone, actor).entries, who)
    ensures AdminOrLocal(es, who) ==> AdminOrLocal(Del(es, phone, actor).entries, who)
  {
    var r := Del(es, phone, actor);
    if r.code == 0 && who.Some? {
      var x := FirstMatch(es, phone);
      if Authorised(es, who) {
        var i :| 0 <= i < |es| && es[i].phone == who;
        assert i != x;
        if i < x { assert r.entries[i] == es[i]; } else { assert r.entries[i - 1] == es[i]; }
      }
      if AdminOrLocal(es, who) {
        var i :| 0 <= i < |es| && es[i].phone == who && es[i].admin;
        assert i != x;
        if i < x { assert r.entries[i] == es[i]; } else { assert r.entries[i - 1] == es[i]; }
      }
    }
  }

  /** Deleting a number held in one slot only revokes it. */
  lemma {:induction false} DelRevokes(es: seq<Entry>, phone: string, actor: Option<string>)
    requires forall i, j :: 0 <= i < j < |es| && es[i].phone == Some(phone) ==> es[j].phone != Some(phone)
    requires Del(es, phone, actor).code == 0
    ensures !Authorised(Del(es, phone, actor).entries, Some(phone))
  {
    var x := FirstMatch(es, phone);
    var r := Removed(es, x);
    forall k | 0 <= k < |r|
      ensures r[k].phone != Some(phone)
    {
      if k < x {
        assert r[k] == es[k];
      } else {
        assert r[k] == es[k + 1];
      }
    }
  }

  /** Taking slot x out drops its flag from the count. */
  lemma {:induction false} AdminCountRemoved(es: seq<Entry>, x: nat)
    requires x < |es|
    ensures AdminCount(es) == AdminCount(Removed(es, x)) + (if es[x].admin then 1 else 0)
  {
    var a := es[..x];
    var b := es[x + 1..];
    var upto := es[..x + 1];
    assert upto == a + [es[x]];
    assert es == upto + b;
    assert Removed(es, x) == a + b;
    AdminCountAppend(upto, b);
    AdminCountSnoc(a, es[x]);
    AdminCountAppend(a, b);
  }

  /** A request by SMS from an administrator never takes away the rights of
      that administrator, so the list is never left without one. */
  lemma {:induction false} SmsKeepsAnAdmin(es: seq<Entry>, phone: string, actor: Option<string>)
    requires actor.Some? && AdminOrLocal(es, actor)
    ensures AdminOrLocal(Del(es, phone, actor).entries, actor)
    ensures AdminCount(Del(es, phone, actor).entries) >= 1
  {
    var r := Del(es, phone, actor);
    if r.code == 0 {
      assert actor != Some(phone);
      DelKeepsOthers(es, phone, actor, actor);
    }
    var i :| 0 <= i < |r.entries| && r.entries[i].phone == actor && r.entries[i].admin;
    AdminCounted(r.entries, i);
  }

  // ---------------------------------------------------------------------
  // The list command.

  /** The entries flagged admin (admin true) or not (admin false), in list
      order. */
  function WithRole(es: seq<Entry>, admin: bool): seq<Entry>
    decreases |es|
  {
    if es == [] then []
    else WithRole(es[..|es| - 1], admin) + (if es[|es| - 1].admin == admin then [es[|es| - 1]] else [])
  }

  /** " n1 n2 ..." */
  function Names(es: seq<Entry>): string
    decreases |es|
  {
    if es == [] then [] else Names(es[..|es| - 1]) + NameEntry(es[|es| - 1])
  }

  function NameEntry(e: Entry): string {
    " " + PhoneText(e.phone)
  }

  /** The reply to "list": the administrators, then the other users, each in
      list order. */
  function ListText(es: seq<Entry>): string {
    "Administrators: " + Names(WithRole(es, true)) + ".\n\nUsers: " + Names(WithRole(es, false)) + ".\n"
  }

  /** One step of a listing loop: " n" appended when the entry has the role
      listed. */
  method AppendName(out0: string, ghost before: string, ghost names0: string, e: Entry, admin: bool)
    returns (out: string, ghost names: string)
    requires out0 == Clip(before + names0, ListSize)
    ensures names == names0 + (if e.admin == admin then NameEntry(e) else [])
    ensures out == Clip(before + names, ListSize)
  {
    out, names := out0, names0;
    if e.admin == admin {
      var piece := NameEntry(e);
      SnAppendAfter(before, names0, piece, ListSize);
      out := SnAppend(out0, piece, ListSize);
      names := names0 + piece;
    } else {
      assert names0 + [] == names0;
    }
  }

  /** Each half of the listing holds only entries of its role. */
  lemma {:induction false} RoleFlags(es: seq<Entry>, admin: bool)
    ensures forall k :: 0 <= k < |WithRole(es, admin)| ==> WithRole(es, admin)[k].admin == admin
    decreases |es|
  {
    if es != [] {
      RoleFlags(es[..|es| - 1], admin);
    }
  }

  /** Together the two halves hold every entry exactly once. */
  lemma {:induction false} RolesSplit(es: seq<Entry>)
    ensures multiset(WithRole(es, true)) + multiset(WithRole(es, false)) == multiset(es)
    decreases |es|
  {
    if es != [] {
      var init := es[..|es| - 1];
      var last := es[|es| - 1];
      RolesSplit(init);
      assert es == init + [last];
      assert multiset(es) == multiset(init) + multiset{last};
      var mine := WithRole(init, last.admin);
      var other := WithRole(init, !last.admin);
      assert WithRole(es, last.admin) == mine + [last];
      assert WithRole(es, !last.admin) == other;
      assert multiset(mine + [last]) == multiset(mine) + multiset{last};
    }
  }

  lemma {:induction false} NamesSnoc(es: seq<Entry>, e: Entry)
    ensures Names(es + [e]) == Names(es) + NameEntry(e)
  {
    assert (es + [e])[..|es|] == es;
  }

  /** One more entry examined by a listing loop. */
  lemma {:induction false} NamesStep(es: seq<Entry>, i: nat, admin: bool)
    requires i < |es|
    ensures Names(WithRole(es[..i + 1], admin))
      == Names(WithRole(es[..i], admin)) + (if es[i].admin == admin then NameEntry(es[i]) else [])
  {
    var xs := WithRole(es[..i], admin);
    assert es[..i + 1][..i] == es[..i];
    if es[i].admin == admin {
      assert WithRole(es[..i + 1], admin) == xs + [es[i]];
      NamesSnoc(xs, es[i]);
    } else {
      assert WithRole(es[..i + 1], admin) == xs;
      assert Names(xs) + [] == Names(xs);
    }
  }

  lemma {:induction false} NamesContain(es: seq<Entry>, k: nat)
    requires k < |es|
    ensures Contains(Names(es), NameEntry(es[k]))
    decreases |es|
  {
    var init := es[..|es| - 1];
    var entry := NameEntry(es[|es| - 1]);
    assert Names(es) == Names(init) + entry;
    if k == |es| - 1 {
      ContainsMiddle(Names(init), entry, []);
      assert Names(init) + entry + [] == Names(es);
    } else {
      assert init[k] == es[k];
      NamesContain(init, k);
      ContainsPrefix(Names(init), entry, NameEntry(es[k]));
    }
  }

  lemma {:induction false} RoleHolds(es: seq<Entry>, k: nat)
    requires k < |es|
    ensures exists j :: 0 <= j < |WithRole(es, es[k].admin)| && WithRole(es, es[k].admin)[j] == es[k]
    decreases |es|
  {
    var init := es[..|es| - 1];
    var role := WithRole(es, es[k].admin);
    if k < |es| - 1 {
      assert init[k] == es[k];
      RoleHolds(init, k);
      var j :| 0 <= j < |WithRole(init, es[k].admin)| && WithRole(init, es[k].admin)[j] == es[k];
      assert role[j] == es[k];
    } else {
      assert role[|role| - 1] == es[k];
    }
  }

  /** Every administrator is named in the first half of the listing, every
      other user in the second. */
  lemma {:induction false} EveryoneListed(es: seq<Entry>, k: nat)
    requires k < |es|
    ensures Contains(Names(WithRole(es, es[k].admin)), NameEntry(es[k]))
  {
    RoleHolds(es, k);
    var j :| 0 <= j < |WithRole(es, es[k].admin)| && WithRole(es, es[k].admin)[j] == es[k];
    NamesContain(WithRole(es, es[k].admin), j);
  }

  // ---------------------------------------------------------------------
  // The configuration file.

  function SaveLine(e: Entry): string {
    (if e.admin then "admin " else "user ") + PhoneText(e.phone) + "\n"
  }

  /** What save_user_list writes. */
  function SaveText(es: seq<Entry>): string
    decreases |es|
  {
    if es == [] then [] else SaveLine(es[0]) + SaveText(es[1..])
  }

  lemma {:induction false} SaveTextSnoc(es: seq<Entry>, e: Entry)
    ensures SaveText(es + [e]) == SaveText(es) + SaveLine(e)
    decreases |es|
  {
    if es == [] {
      assert [e][1..] == [];
    } else {
      assert (es + [e])[1..] == es[1..] + [e];
      SaveTextSnoc(es[1..], e);
    }
  }

  /** The lines fgets hands back one after another, each with its newline
      (the last one may lack it). */
  function Lines(text: string): (ls: seq<string>)
    decreases |text|
  {
    if text == [] then []
    else
      var n := |Span(text, NotAmong({'\n'}))|;
      if n == |text| then [text] else [text[..n + 1]] + Lines(text[n + 1..])
  }

  /** sscanf(line, "<keyword> %s", user) == 1: the word read. */
  function Scanned(line: string, keyword: string): Option<string> {
    match ReadText(keyword + " ", 0, line)
    case None => None
    case Some(r) =>
      match ReadWord(r)
      case None => None
      case Some((w, _)) => Some(w)
  }

  /** One line of the file: a user, an administrator, or a line that is
      reported and skipped. */
  function LoadLine(line: string): Option<Entry> {
    match Scanned(line, "user")
    case Some(w) => Some(Entry(Some(w), false))
    case None =>
      match Scanned(line, "admin")
      case Some(w) => Some(Entry(Some(w), true))
      case None => None
  }

  /** load_user_list as written: every recognised line is stored, with no
      bound on their number. */
  function LoadUnbounded(ls: seq<string>): seq<Entry>
    decreases |ls|
  {
    if ls == [] then []
    else
      var prev := LoadUnbounded(ls[..|ls| - 1]);
      match LoadLine(ls[|ls| - 1])
      case None => prev
      case Some(e) => prev + [e]
  }

  /** load_user_list with the bound the arrays need: recognised lines past
      the 256th are skipped. */
  function LoadBounded(ls: seq<string>): (r: seq<Entry>)
    ensures |r| <= MaxUsers
    decreases |ls|
  {
    if ls == [] then []
    else
      var prev := LoadBounded(ls[..|ls| - 1]);
      match LoadLine(ls[|ls| - 1])
      case None => prev
      case Some(e) => if |prev| < MaxUsers then prev + [e] else prev
  }

  /** Every entry read from the file holds a number. */
  lemma {:induction false} LoadLive(ls: seq<string>)
    ensures Live(LoadBounded(ls))
    decreases |ls|
  {
    if ls != [] {
      LoadLive(ls[..|ls| - 1]);
    }
  }

  /** One more line of the file adds its entry when it holds one and there
      is room. */
  lemma {:induction false} LoadStep(ls: seq<string>, k: nat)
    requires k < |ls|
    ensures var prev := LoadBounded(ls[..k]);
      var e := LoadLine(ls[k]);
      LoadBounded(ls[..k + 1]) == if e.Some? && |prev| < MaxUsers then prev + [e.value] else prev
  {
    assert ls[..k + 1][..k] == ls[..k];
  }

  /** The bounded load keeps exactly the first 256 entries the unbounded one
      stores. */
  lemma {:induction false} LoadBoundedKeepsFirst(ls: seq<string>)
    ensures var all := LoadUnbounded(ls);
      LoadBounded(ls) == if |all| <= MaxUsers then all else all[..MaxUsers]
    decreases |ls|
  {
    if ls != [] {
      LoadBoundedKeepsFirst(ls[..|ls| - 1]);
      var prev := LoadUnbounded(ls[..|ls| - 1]);
      match LoadLine(ls[|ls| - 1])
      case None =>
      case Some(e) =>
        if |prev| >= MaxUsers {
          assert (prev + [e])[..MaxUsers] == prev[..MaxUsers];
        }
    }
  }

  /** A number that save and load carry unchanged: %s stops at white space. */
  predicate Savable(e: Entry) {
    e.phone.Some? && e.phone.value != [] && forall i :: 0 <= i < |e.phone.value| ==> !IsSpace(e.phone.value[i])
  }

  lemma {:induction false} LoadSaved(e: Entry)
    requires Savable(e)
    ensures LoadLine(SaveLine(e)) == Some(e)
  {
    var p := e.phone.value;
    var keyword := if e.admin then "admin" else "user";
    var rest := p + "\n";
    assert SaveLine(e) == (keyword + " ") + rest;
    assert ReadText(keyword + " ", 0, SaveLine(e)) == Some(rest) by {
      SpacedWhere(keyword + " ", 0);
      assert !IsSpace(rest[0]);
      ReadTextBack(keyword + " ", rest);
    }
    assert ReadWord(rest) == Some((p, "\n")) by {
      ReadWordBack(p, "\n");
    }
    if e.admin {
      ReadTextFails("user ", SaveLine(e));
    }
  }

  /** The lines of the file save_user_list writes: one per entry. */
  function SaveLines(es: seq<Entry>): (ls: seq<string>)
    ensures |ls| == |es|
    ensures forall k :: 0 <= k < |es| ==> ls[k] == SaveLine(es[k])
  {
    seq(|es|, k requires 0 <= k < |es| => SaveLine(es[k]))
  }

  /** fgets stops at the first newline. */
  lemma {:induction false} LinesCons(line: string, rest: string)
    requires line != [] && line[|line| - 1] == '\n'
    requires forall k :: 0 <= k < |line| - 1 ==> line[k] != '\n'
    ensures Lines(line + rest) == [line] + Lines(rest)
  {
    var body := line[..|line| - 1];
    assert line == body + "\n";
    SpanExact(body, "\n" + rest, NotAmong({'\n'}));
    assert body + ("\n" + rest) == line + rest;
    assert (line + rest)[..|line|] == line;
    assert (line + rest)[|line|..] == rest;
  }

  /** A saved line holds one newline, at its end. */
  lemma {:induction false} SaveLineShape(e: Entry)
    requires Savable(e)
    ensures var line := SaveLine(e);
      line != [] && line[|line| - 1] == '\n' && forall k :: 0 <= k < |line| - 1 ==> line[k] != '\n'
  {
    var p := e.phone.value;
    var keyword := if e.admin then "admin " else "user ";
    var line := SaveLine(e);
    assert line == keyword + p + "\n";
    forall k | 0 <= k < |line| - 1
      ensures line[k] != '\n'
    {
      if k >= |keyword| {
        assert line[k] == p[k - |keyword|];
      }
    }
  }

  lemma {:induction false} LinesOfSave(es: seq<Entry>)
    requires forall k :: 0 <= k < |es| ==> Savable(es[k])
    ensures Lines(SaveText(es)) == SaveLines(es)
    decreases |es|
  {
    if es != [] {
      assert Savable(es[0]);
      SaveLineShape(es[0]);
      LinesCons(SaveLine(es[0]), SaveText(es[1..]));
      LinesOfSave(es[1..]);
      assert SaveLines(es) == [SaveLine(es[0])] + SaveLines(es[1..]);
    }
  }

  /** Lines that each load as one entry load as those entries, in order. */
  lemma {:induction false} LoadEach(ls: seq<string>, es: seq<Entry>)
    requires |ls| == |es|
    requires forall k :: 0 <= k < |ls| ==> LoadLine(ls[k]) == Some(es[k])
    ensures LoadUnbounded(ls) == es
    decreases |ls|
  {
    if ls != [] {
      var n := |ls| - 1;
      LoadEach(ls[..n], es[..n]);
      assert LoadLine(ls[n]) == Some(es[n]);
      assert es[..n] + [es[n]] == es;
    }
  }

  lemma {:induction false} LoadSavedLines(es: seq<Entry>)
    requires forall k :: 0 <= k < |es| ==> Savable(es[k])
    ensures LoadUnbounded(SaveLines(es)) == es
  {
    forall k | 0 <= k < |es|
      ensures LoadLine(SaveLines(es)[k]) == Some(es[k])
    {
      LoadSaved(es[k]);
    }
    LoadEach(SaveLines(es), es);
  }

  /** Loading what was saved gives the list back. */
  lemma {:induction false} SaveLoadRoundTrip(es: seq<Entry>)
    requires |es| <= MaxUsers
    requires forall k :: 0 <= k < |es| ==> Savable(es[k])
    ensures LoadBounded(Lines(SaveText(es))) == es
  {
    LinesOfSave(es);
    LoadSavedLines(es);
    LoadBoundedKeepsFirst(Lines(SaveText(es)));
  }

  /** A file of 257 user lines makes the unbounded load store 257 entries,
      one more than the arrays hold; the bounded load keeps 256 of them. */
  lemma {:induction false} LoadOverflows()
    ensures var file := SaveText(seq(MaxUsers + 1, _ => Entry(Some("+1"), false)));
      && |LoadUnbounded(Lines(file))| == MaxUsers + 1
      && |LoadBounded(Lines(file))| == MaxUsers
  {
    var es := seq(MaxUsers + 1, _ => Entry(Some("+1"), false));
    assert forall k :: 0 <= k < |es| ==> Savable(es[k]);
    LinesOfSave(es);
    LoadSavedLines(es);
    LoadBoundedKeepsFirst(Lines(SaveText(es)));
  }

  // ---------------------------------------------------------------------
  // The list in place.

  class UserStore {
    /** users[] and is_admin[] */
    var slots: array<Entry>
    /** user_count */
    var count: int
    /** The contents of the configuration file. */
    var saved: string

    predicate Valid()
      reads this
    {
      slots.Length == MaxUsers && 0 <= count <= MaxUsers
    }

    /** The live slots. */
    function Entries(): seq<Entry>
      requires Valid()
      reads this, slots
    {
      slots[..count]
    }

    constructor(file: string)
      ensures Valid() && fresh(slots)
      ensures Entries() == [] && saved == file
    {
      slots := new Entry[MaxUsers](_ => Entry(None, false));
      count := 0;
      saved := file;
    }

    /** is_authorised */
    method IsAuthorised(who: Option<string>) returns (r: bool)
      requires Valid()
      ensures r == Authorised(Entries(), who)
    {
      if who.None? {
        return true;
      }
      var i := 0;
      while i < count
        invariant 0 <= i <= count
        invariant forall j :: 0 <= j < i ==> slots[j].phone != who
      {
        if slots[i].phone == who {
          assert Entries()[i].phone == who;
          return true;
        }
        i := i + 1;
      }
      r := false;
    }

    /** is_admin_or_local */
    method IsAdminOrLocal(who: Option<string>) returns (r: bool)
      requires Valid()
      ensures r == AdminOrLocal(Entries(), who)
    {
      if who.None? {
        return true;
      }
      var i := 0;
      while i < count
        invariant 0 <= i <= count
        invariant forall j :: 0 <= j < i ==> !(slots[j].phone == who && slots[j].admin)
      {
        if slots[i].phone == who && slots[i].admin {
          assert Entries()[i].phone == who;
          return true;
        }
        i := i + 1;
      }
      r := false;
    }

    /** The administrator count del_user takes. */
    method CountAdmins() returns (n: nat)
      requires Valid()
      ensures n == AdminCount(Entries())
    {
      n := 0;
      var i := 0;
      while i < count
        invariant 0 <= i <= count
        invariant n == AdminCount(slots[..i])
      {
        assert slots[..i + 1] == slots[..i] + [slots[i]];
        AdminCountSnoc(slots[..i], slots[i]);
        if slots[i].admin {
          n := n + 1;
        }
        i := i + 1;
      }
    }

    /** save_user_list */
    method Save()
      requires Valid()
      modifies this
      ensures Valid() && slots == old(slots) && count == old(count)
      ensures saved == SaveText(Entries())
    {
      var text := "";
      var i := 0;
      while i < count
        invariant 0 <= i <= count
        invariant Valid() && slots == old(slots) && count == old(count)
        invariant text == SaveText(slots[..i])
      {
        assert slots[..i + 1] == slots[..i] + [slots[i]];
        SaveTextSnoc(slots[..i], slots[i]);
        text := text + SaveLine(slots[i]);
        i := i + 1;
      }
      saved := text;
    }

    /** load_user_list, reading the configuration file. */
    method Load()
      requires Valid()
      modifies this, slots
      ensures Valid() && slots == old(slots) && saved == old(saved)
      ensures Entries() == LoadBounded(Lines(saved))
    {
      var ls := Lines(saved);
      count := 0;
      var k := 0;
      while k < |ls|
        invariant 0 <= k <= |ls|
        invariant Valid() && slots == old(slots) && saved == old(saved)
        invariant slots[..count] == LoadBounded(ls[..k])
      {
        var e := LoadLine(ls[k]);
        LoadStep(ls, k);
        if e.Some? && count < MaxUsers {
          slots[count] := e.value;
          count := count + 1;
        }
        k := k + 1;
      }
      assert ls[..|ls|] == ls;
    }

    /** add_user (admin false) and add_admin (admin true); welcome is the
        SMS sent to a number that has just been added. */
    method AddUser(phone: string, admin: bool) returns (code: int, reply: string, welcome: Option<string>)
      requires Valid()
      modifies this, slots
      ensures Valid() && slots == old(slots)
      ensures var r := Add(old(Entries()), phone, admin);
        && code == r.code && reply == r.reply && welcome == r.welcome
        && Entries() == r.entries
        && saved == if r.welcome.Some? then SaveText(r.entries) else old(saved)
    {
      if phone == [] || phone[0] != '+' {
        return 1, FormatHint, None;
      }
      var known := IsAuthorised(Some(phone));
      if known {
        return 0, AlreadyText(phone, admin), None;
      }
      if count >= MaxUsers {
        return -1, TooMany, None;
      }
      slots[count] := Entry(Some(phone), admin);
      count := count + 1;
      assert Entries() == old(Entries()) + [Entry(Some(phone), admin)];
      Save();
      code, reply := 0, AddedText(phone, admin);
      welcome := Some(if admin then WelcomeAdmin else WelcomeUser);
    }

    /** del_user, with the count lowered after the slots move down; actor
        is the number the command came from, None for the console.  The
        file is not rewritten. */
    method DelUser(phone: string, actor: Option<string>) returns (code: int, reply: string)
      requires Valid()
      modifies this, slots
      ensures Valid() && slots == old(slots) && saved == old(saved)
      ensures var r := Del(old(Entries()), phone, actor);
        code == r.code && reply == r.reply && Entries() == r.entries
    {
      var known := IsAuthorised(Some(phone));
      if !known {
        return -1, Clip(phone + " was not authorised. Nothing to do.", ReplySize);
      }
      if actor == Some(phone) {
        return -1, SelfText;
      }
      if actor.Some? {
        var admins := CountAdmins();
        var adminTarget := IsAdminOrLocal(Some(phone));
        if admins == 1 && adminTarget {
          return -1, LastAdminText;
        }
      }
      var index := Find(phone);
      RemoveAt(index);
      code, reply := 0, Clip("Removed " + phone, ReplySize);
    }

    /** The search loop of del_user. */
    method Find(phone: string) returns (index: nat)
      requires Valid() && Authorised(Entries(), Some(phone))
      ensures index == FirstMatch(Entries(), phone)
    {
      ghost var es := Entries();
      index := 0;
      while index < count && slots[index].phone != Some(phone)
        invariant 0 <= index <= count
        invariant forall j :: 0 <= j < index ==> es[j].phone != Some(phone)
      {
        index := index + 1;
      }
      ghost var first := FirstMatch(es, phone);
      assert index <= first;
    }

    /** Taking slot index out: the shift del_user does, and then the count
        lowered by one. */
    method RemoveAt(index: nat)
      requires Valid() && index < count
      modifies this, slots
      ensures Valid() && slots == old(slots) && saved == old(saved)
      ensures Entries() == Removed(old(Entries()), index)
    {
      ghost var es := Entries();
      ShiftDown(index);
      assert slots[..count - 1] == Shifted(es, index)[..count - 1];
      count := count - 1;
    }

    /** Clearing slot index and moving the later slots down over it. */
    method ShiftDown(index: nat)
      requires Valid() && index < count
      modifies slots
      ensures Valid()
      ensures Entries() == Shifted(old(Entries()), index)
    {
      ghost var es := Entries();
      ghost var r := Shifted(es, index);
      slots[index] := Entry(None, slots[index].admin);
      var i := index;
      while i < count - 1
        invariant index <= i <= count - 1
        invariant forall j :: 0 <= j < index ==> slots[j] == es[j]
        invariant forall j :: index <= j < i ==> slots[j] == es[j + 1]
        invariant slots[i] == if i == index then Entry(None, es[index].admin) else es[i]
        invariant forall j :: i < j < count ==> slots[j] == es[j]
      {
        slots[i] := slots[i + 1];
        i := i + 1;
      }
      assert slots[..count] == r;
    }

    /** A listing loop: " n" appended for each entry of the given role. */
    method AppendNames(out0: string, ghost before: string, admin: bool) returns (out: string)
      requires Valid() && 1 <= ListSize && out0 == Clip(before, ListSize)
      ensures out == Clip(before + Names(WithRole(Entries(), admin)), ListSize)
    {
      ghost var es := Entries();
      ghost var names := [];
      out := out0;
      assert before + [] == before;
      var i := 0;
      while i < count
        invariant 0 <= i <= count
        invariant names == Names(WithRole(es[..i], admin))
        invariant out == Clip(before + names, ListSize)
      {
        var e := slots[i];
        assert e == es[i];
        NamesStep(es, i, admin);
        out, names := AppendName(out, before, names, e, admin);
        i := i + 1;
      }
      assert es[..count] == es;
    }

    /** The reply to "list", written into a buffer of 8192 bytes. */
    method ListUsers() returns (out: string)
      requires Valid()
      ensures out == Clip(ListText(Entries()), ListSize)
    {
      ghost var es := Entries();
      ghost var head := "Administrators: ";
      out := AppendNames("Administrators: ", head, true);
      head := head + Names(WithRole(es, true));
      SnAppendClip(head, ".\n\nUsers: ", ListSize);
      out := SnAppend(out, ".\n\nUsers: ", ListSize);
      head := head + ".\n\nUsers: ";
      out := AppendNames(out, head, false);
      head := head + Names(WithRole(es, false));
      SnAppendClip(head, ".\n", ListSize);
      out := SnAppend(out, ".\n", ListSize);
    }
  }
}
