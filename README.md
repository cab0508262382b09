# nx584-sms: a verified model of the alarm SMS gateway

nx584-sms connects a NX-584 alarm controller to a GSM modem. It reads the
controller's log through `nx584_server`, one byte at a time from each
source, and keeps track of three things:
- the state of the 64 zones;
- whether partition 1 is armed;
- whether the siren sounds.

A siren that sounds for ten seconds or more is a significant event. So is
a siren that stops while no siren was latched. Each significant event is
broadcast by SMS to every user on the list, together with a status report.

Any line that is not part of the controller's log is treated as a text
command. Such lines come from the console, or from an SMS that an
authorised number sent. The commands are:
- `help`, `status`, `arm` and `disarm`;
- `add`, `admin`, `del` and `list`, which manage the list of users.

The list of users is kept in a configuration file of `user` and `admin`
lines.

The model covers the whole of `nx584-sms.c` apart from the I/O. It has one
module per concern:

| module | what it holds |
|---|---|
| `Wrappers` (wrappers.dfy) | `Option`, used wherever the C code passes a pointer that may be NULL. |
| `CText` (ctext.dfy) | The C library routines the program relies on. `isspace`, `tolower` and `strcasecmp`/`strncasecmp`. `strstr`. The string a NUL-terminated buffer holds. `printf("%d")`. The truncation `snprintf` performs, including appending piece by piece into one buffer. |
| `Scan` (scan.dfy) | The parts of `sscanf` the program uses: literal text with white space, `%d`, `%s` and `%[...]`. Each comes with round-trip lemmas: a value printed and then scanned comes back. |
| `Classifier` (classifier.dfy) | What `parse_line` makes of a line, as a pure function `Classify`. It tries, in order: the zone and partition reports (timestamped with `,` or `.` before the milliseconds, or in the short `INFO:controller:` form); the two siren messages; timestamped chatter; and last, a command. |
| `Alarm` (alarm.dfy) | The alarm state as a value `Panel`, with one function per event: zone, partition, siren off, siren on, the tick of the main loop, and the drain of the event counter. It also holds the status report. Class `AlarmState` holds the same state in place, as the C globals do, with the zone table as an `array`. Each of its methods is proved to follow the matching function. |
| `Users` (users.dfy) | The list of users as a sequence of `Entry` values, with the pure functions `Add` and `Del` and the listing. It holds the configuration file text: `SaveText`, and `LoadBounded` with its round trip. Class `UserStore` keeps the 256 slots in an `array` and runs the loops of the C functions, proved against those functions. |
| `Commands` (commands.dfy) | `parse_textcommand`. `Select` picks the verb, gated by the sender's rights. `Respond` is the whole outcome of a command. `ParseTextCommand` runs the command on the store in place. |
| `Gateway` (gateway.dfy) | `parse_line` as the function `Handle` and the method `ParseLine`. It also holds the main loop's per-source line buffer (`Step`, `Feed`, class `LineBuffer`), the siren check and broadcast (`Escalation`, `Escalate`), the reading of the modem's message listing (`Listing`, `ReadMessages`) and the handling of each message found (`DeliverAll`, `DeliverMessages`). |

Some behaviours of the program are worth knowing:
- **Siren escalation.** A siren de-assertion raises a significant event only
  when the siren latch is already clear. A siren that sounds for less than
  ten seconds therefore raises no alert at all. A siren that sounds longer
  raises two alerts: one from the tick, and one from the de-assertion that
  follows (`ShortSirenSilent`, `LongSirenTwoAlerts`).
- **`del`.** It does not rewrite the configuration file. The later slots
  move down one place, but the user count is not lowered, so the last slot
  stays live. It then points at the same string as the slot before it, or,
  if the deleted entry was the last, it is a NULL slot (`Shifted`). The
  model lowers the count (see Findings).
- **The console.** Only an origin of `-` (or none) counts as the console. A
  source named `stdin` is treated as a telephone number.
- **Reading the configuration file.** `load_user_list` does not stop at 256
  entries (see Findings).
- **A full line buffer.** A source that sends 8191 characters without a line
  ending fills its buffer. From then on nothing more is read from that
  source, so it delivers no further line (`FullBufferStuck`).

## Model

| member | source | states |
|---|---|---|
| CText.CStr | nx584-sms.c:644-648 | The line handed on is the buffer's text up to its first NUL: a prefix of the buffer, holding no NUL, and followed by a NUL when shorter than the buffer. |
| CText.Clip | nx584-sms.c:376-387 | `snprintf` into a buffer of a given size keeps a prefix of the text, of exactly min(length, size - 1) characters. |
| CText.ClipAppend | nx584-sms.c:405-411 | Appending with `snprintf(&out[len], size - len, ...)` leaves the same text as one `snprintf` of the whole text. |
| CText.SnAppendClip | nx584-sms.c:312-361 | Appending piece by piece to a clipped buffer gives the clip of all the pieces together, so the buffer stays below its size and later pieces are dropped once it is full. |
| CText.SnAppendAfter | nx584-sms.c:405-411 | The same, for a buffer that holds a fixed head followed by growing text. |
| CText.NatToString | nx584-sms.c:347-356 | `%d` of a natural number is a non-empty run of digits with no leading zero that denotes that number; one digit below 10, at most two below 100. |
| CText.IntToString | nx584-sms.c:347-356 | `%d` begins with '-' exactly when the number is negative, and is all digits otherwise. |
| CText.ContainsMiddle | nx584-sms.c:512-513 | `strstr` finds a text in any string assembled around it. |
| CText.ContainsPrefix | nx584-sms.c:521-522 | What `strstr` finds in a string it still finds once text is added after it. |
| CText.NoRoomNoMatch | nx584-sms.c:512-513 | `strstr` finds no text longer than the string searched. |
| Scan.Span | nx584-sms.c:490-495 | A `%[...]` run is the longest prefix of the input in the class: every character is in it and the next is not. |
| Scan.SpanExact | nx584-sms.c:718 | A run followed by a character outside the class is taken whole. |
| Scan.SkipNothing | nx584-sms.c:461-467 | White space in a format skips nothing before a non-space character. |
| Scan.ReadTextFrom | nx584-sms.c:461-467 | The literal text of a format matches the same text with single spaces, leaving the rest. |
| Scan.ReadTextBack | nx584-sms.c:461-467 | Literal format text read from the same text followed by any rest leaves exactly that rest. |
| Scan.ReadTextFails | nx584-sms.c:467 | A literal that begins with a character the input does not begin with fails at once. |
| Scan.UnsignedDigits | nx584-sms.c:461 | The digits of a `%d` are read as the number they denote. |
| Scan.ReadDigits | nx584-sms.c:461 | `%d` reads a run of digits, stops at the first non-digit and yields the value of the digits. |
| Scan.ReadMinus | nx584-sms.c:461 | `%d` with a leading '-' yields the negation of what it reads after the sign. |
| Scan.ReadMinusOf | nx584-sms.c:461 | A '-' before an unsigned numeral gives its negation and the same rest. |
| Scan.ReadNegative | nx584-sms.c:461 | `%d` of '-' and digits yields minus their value. |
| Scan.ReadIntBack | nx584-sms.c:461-467 | `%d` reads back any number that `%d` printed, leaving the rest untouched. |
| Scan.ReadWordBack | nx584-sms.c:187-190 | `%s` reads back a non-empty word without white space that is followed by white space or the end. |
| Scan.ReadRunBack | nx584-sms.c:718-720 | `%[...]` reads back a non-empty run of its class that is followed by a character outside the class or the end. |
| Scan.ReadIntFails | nx584-sms.c:531-532 | `%d` fails on input that begins with no sign, digit or space. |
| Scan.ReadIntsBack | nx584-sms.c:531 | A chain of `%d` and separators reads back numerals interleaved with those separators. |
| Classifier.Classify | nx584-sms.c:448-571 | What `parse_line` makes of a line, trying reports, siren messages, chatter and commands in its order. |
| Classifier.Report | nx584-sms.c:458-510 | The six report formats yield only zone or partition reports. |
| Classifier.DateSepsFit | nx584-sms.c:531 | The separators of the date in the timestamp formats can be read back. |
| Classifier.StampSepsFit | nx584-sms.c:461-464 | So can the separators after the seconds and the milliseconds. |
| Classifier.DateReads | nx584-sms.c:531 | The date-and-time prefix of a log timestamp is read back by the `%d-%d-%d %d:%d:%d` chain. |
| Classifier.SecondsShape | nx584-sms.c:461-464 | The seconds, the millisecond separator and the milliseconds of a timestamp split into the pieces the format reads. |
| Classifier.TagShape | nx584-sms.c:461-464 | The text after the milliseconds is a space and the controller tag. |
| Classifier.StampReads | nx584-sms.c:461-464 | A whole timestamp with its controller tag is read exactly when the format's millisecond separator is the one the line uses. |
| Classifier.ZoneNumberReads | nx584-sms.c:467 | The zone number of a zone report is read back, with what follows its opening parenthesis. |
| Classifier.ZoneStateReads | nx584-sms.c:467 | After the zone name, the state word is read back. |
| Classifier.ZoneTailReads | nx584-sms.c:467 | The text of a zone report (number, name, state word) is read back as its number and word. |
| Classifier.PartitionNumberReads | nx584-sms.c:495 | The partition number of a partition report is read back. |
| Classifier.PartitionStateReads | nx584-sms.c:495 | After the number, the partition text up to the line end is read back. |
| Classifier.PartitionTailReads | nx584-sms.c:495 | The text of a partition report is read back as its number and text. |
| Classifier.ZoneTailRefuses | nx584-sms.c:467 | Text that does not begin with 'Z' is no zone report. |
| Classifier.PartitionTailRefuses | nx584-sms.c:495 | Text that does not begin with 'P' is no partition report. |
| Classifier.UnstampedRefused | nx584-sms.c:531-535 | A line that begins with no digit, sign or space has no timestamp in any format. |
| Classifier.StampedNotShort | nx584-sms.c:467 | A line that begins with a digit is in none of the short forms. |
| Classifier.LoggedZoneReport | nx584-sms.c:461-465 | A timestamped zone report, with either millisecond separator, is classified as that zone and state word. |
| Classifier.ShortZoneReport | nx584-sms.c:467-471 | A short-form zone report is classified as that zone and state word. |
| Classifier.LoggedPartitionReport | nx584-sms.c:490-493 | A timestamped partition report, with either separator, is classified as that partition and text. |
| Classifier.ShortPartitionReport | nx584-sms.c:495-499 | A short-form partition report is classified as that partition and text. |
| Classifier.LoggedNotReport | nx584-sms.c:461-499 | A timestamped message that begins with neither "Zone" nor "Partition" matches none of the six report formats. |
| Classifier.SirenShape | nx584-sms.c:512-522 | A timestamped siren line splits into its date and time, then the controller tag and message, so the siren texts can be found in it. |
| Classifier.LoggedSirenOff | nx584-sms.c:512-520 | A timestamped siren de-assertion is classified as siren off. |
| Classifier.LoggedSirenOn | nx584-sms.c:521-528 | A timestamped siren assertion, in a line that holds no de-assertion, is classified as siren on. |
| Classifier.TimestampedNeverCommand | nx584-sms.c:531-535 | A line that opens with a date and time is never handed to the command engine. |
| Classifier.ChatterNotCommand | nx584-sms.c:531-535 | No line whose date and time read is classified as a command. |
| Classifier.WordsReachEngine | nx584-sms.c:537-565 | A line that begins with a letter other than 'I', and holds no siren message, reaches the command engine. |
| Alarm.ZoneEvent | nx584-sms.c:471-485 | A zone report in range sets that zone by its word. |
| Alarm.PartitionEvent | nx584-sms.c:499-507 | A report on partition 1 sets the armed flag by its text. |
| Alarm.SirenOffEvent | nx584-sms.c:512-520 | A siren de-assertion turns the siren off and raises the event when no siren was latched. |
| Alarm.SirenOnEvent | nx584-sms.c:521-528 | A siren assertion turns the siren on and latches its time. |
| Alarm.TickEvent | nx584-sms.c:659-662 | A siren latched for ten seconds or more raises the event and clears the latch. |
| Alarm.DrainEvent | nx584-sms.c:663-664 | A broadcast is due when the event counter is set, and the counter is cleared. |
| Alarm.StatusText | nx584-sms.c:312-364 | The status report: armed line, siren line and fault line. |
| Alarm.Initial | nx584-sms.c:595 | At start-up the table holds all 64 zones. |
| Alarm.ZoneEventExact | nx584-sms.c:471-485 | A zone report in range sets exactly that zone, to FAULT, NORMAL or unknown by its word, and changes nothing else. Out of range it changes nothing. |
| Alarm.ZoneEventIdempotent | nx584-sms.c:473-482 | Repeating a zone report changes nothing more. |
| Alarm.PartitionEventExact | nx584-sms.c:499-507 | Only partition 1 with the exact texts "armed" and "not armed" changes the armed flag, to 1 and 0; zones, siren, latch and events stay. |
| Alarm.TickFiresOnce | nx584-sms.c:659-662 | A siren latched for ten seconds or more sets the event and clears the latch, so later ticks change nothing. |
| Alarm.ShortSirenSilent | nx584-sms.c:512-520 | A siren de-asserted within ten seconds of its assertion leaves the event counter as it was. |
| Alarm.LongSirenTwoAlerts | nx584-sms.c:659-664 | A siren sounding ten seconds or more fires at the tick, and once that is drained, its de-assertion fires again. |
| Alarm.UnlatchedSirenOffAlerts | nx584-sms.c:512-520 | A de-assertion with the latch clear raises the event counter by one and turns the siren off. |
| Alarm.DrainOnce | nx584-sms.c:663-664 | A drain fires exactly when the counter is not zero and clears it, so a second drain fires nothing. |
| Alarm.FaultsExact | nx584-sms.c:337-342 | The list of faulted zones holds exactly the zones in FAULT, each once and in ascending order. |
| Alarm.FaultsAreFaults | nx584-sms.c:337-342 | Every zone on the list is in range and in FAULT. |
| Alarm.FaultsCover | nx584-sms.c:337-342 | Every zone in FAULT is on the list. |
| Alarm.FaultsAscend | nx584-sms.c:337-342 | The list is strictly ascending. |
| Alarm.FaultsBound | nx584-sms.c:337-342 | There are no more faults than zones, and each is a zone number. |
| Alarm.FaultEntriesLength | nx584-sms.c:349-361 | Each " #n" entry for a zone below 100 takes at most four characters. |
| Alarm.FaultsLineFits | nx584-sms.c:343-363 | The fault line for 64 zones takes at most 300 characters. |
| Alarm.StatusFits | nx584-sms.c:312-364 | The whole status report takes at most 400 characters, so it is never truncated. |
| Alarm.NoFaultReport | nx584-sms.c:343-345 | With no zone in FAULT, the report says "No zones have faults." |
| Alarm.FaultsSnoc | nx584-sms.c:337-342 | One more zone adds its number to the fault list exactly when it is in FAULT. |
| Alarm.FaultEntriesSnoc | nx584-sms.c:355-356 | One more faulted zone adds its " #n" entry at the end. |
| Alarm.ListStep | nx584-sms.c:353-358 | One more turn of the listing loop appends the entry for that zone, if it is in FAULT. |
| Alarm.NoFaults | nx584-sms.c:337-342 | With no zone in FAULT the list is empty. |
| Alarm.FaultsOfOne | nx584-sms.c:337-342 | With one zone in FAULT the list is that zone alone. |
| Alarm.OneFaultReport | nx584-sms.c:346-348 | With exactly one zone in FAULT, the report names that zone alone. |
| Alarm.EveryFaultListed | nx584-sms.c:349-361 | Every faulted zone's entry appears in the list of faults. |
| Alarm.AppendThree | nx584-sms.c:312-334 | Three pieces appended in turn to the report buffer leave the clip of the whole text. |
| Alarm.AlarmState.constructor | nx584-sms.c:595 | Every zone starts unknown; arming and siren are unknown, and the latch and counter are clear. |
| Alarm.AlarmState.ApplyZone | nx584-sms.c:473-482 | The state afterwards is the zone event of the state before. |
| Alarm.AlarmState.ApplyPartition | nx584-sms.c:499-507 | The state afterwards is the partition event of the state before. |
| Alarm.AlarmState.SirenOff | nx584-sms.c:512-520 | The state afterwards is the siren-off event of the state before. |
| Alarm.AlarmState.SirenOn | nx584-sms.c:521-528 | The state afterwards is the siren-on event at the given time. |
| Alarm.AlarmState.Tick | nx584-sms.c:659-662 | The state afterwards is the tick of the state before. |
| Alarm.AlarmState.Drain | nx584-sms.c:663-664 | It reports whether a broadcast is due, and clears the counter. |
| Alarm.AlarmState.CountFaults | nx584-sms.c:337-342 | The counting loop returns the number of faulted zones and the highest of them, or -1 when there is none. |
| Alarm.AlarmState.ListFaults | nx584-sms.c:349-361 | The listing loop returns one " #n" entry per faulted zone, in ascending order. |
| Alarm.AlarmState.FaultsPiece | nx584-sms.c:343-363 | The fault part of the report is the fault line of the zone table. |
| Alarm.AlarmState.WriteStatus | nx584-sms.c:312-364 | The buffer afterwards holds the prefix and the status report of the current state, clipped to the buffer size. |
| Users.AdminCount | nx584-sms.c:290-291 | There are never more administrators than slots. |
| Users.AdminIsAuthorised | nx584-sms.c:202-220 | An administrator, or the console, is authorised. |
| Users.AdminCountSnoc | nx584-sms.c:290-291 | One more slot adds one to the count when it holds an administrator. |
| Users.AdminCountAppend | nx584-sms.c:290-291 | The count over two lists is the sum of their counts. |
| Users.AdminCounted | nx584-sms.c:290-291 | A list with an administrator counts at least one. |
| Users.FirstMatch | nx584-sms.c:300-302 | The search of `del_user` stops at the first slot holding the number. |
| Users.Authorised | nx584-sms.c:212-220 | The console, and any number held in a slot, is authorised; a NULL slot matches no number. |
| Users.AdminOrLocal | nx584-sms.c:202-210 | The console, and any number held in a slot flagged administrator, may administer. |
| Users.Removed | nx584-sms.c:303-307 | Taking a slot out keeps the slots before it and moves the later ones down one place, leaving a list one shorter. |
| Users.Shifted | nx584-sms.c:303-307 | The slots as the shift of `del_user` leaves them with the count unchanged: the removed list, followed by the old last slot, or by a NULL slot with the old flag when the deleted slot was the last. |
| Users.Del | nx584-sms.c:279-310 | `del_user` with the count lowered: the same refusals and replies, and the first slot holding the number removed. |
| Users.DelAsWritten | nx584-sms.c:279-310 | `del_user` as written: the same refusals and replies, with the slots left as `Shifted` describes. |
| Users.SearchMeetsNull | nx584-sms.c:212-220 | The search of `is_authorised`, stopping at the first slot holding the number, passes a NULL slot. |
| Users.DelLastMeetsNull | nx584-sms.c:300-307 | As written, deleting the number in the last slot leaves a NULL slot inside the count, and the next search for any number not held in the earlier slots reaches it. |
| Users.DelLastExample | nx584-sms.c:300-307 | With `+1` (admin) and `+2` listed, `del +2` sent by `+1` as written leaves a list whose search for `+3` reaches the NULL slot. |
| Users.Live | nx584-sms.c:212-220 | Every slot inside the count holds a number. |
| Users.LiveMeetsNoNull | nx584-sms.c:212-220 | When every live slot holds a number, no search meets a NULL slot. |
| Users.DelKeepsLive | nx584-sms.c:300-307 | The corrected delete leaves every live slot holding a number. |
| Users.AddKeepsLive | nx584-sms.c:234-239 | Adding leaves every live slot holding a number. |
| Users.Add | nx584-sms.c:223-277 | `add_user` and `add_admin`: the format check, the already-listed reply, the 256 limit, and the new entry appended with its welcome. |
| Users.AddCases | nx584-sms.c:223-277 | Adding fails with code 1 exactly when the number does not start with '+', and with -1 exactly when a new number finds 256 users. A welcome is sent exactly when a new number is added at the end. The list is otherwise unchanged. |
| Users.AddGrants | nx584-sms.c:238-239 | After a successful add the number is authorised, and after a new admin is added, it is an administrator. |
| Users.AddKeeps | nx584-sms.c:234-239 | Adding takes no rights away, and never takes the list past 256. |
| Users.AddTwice | nx584-sms.c:230-233 | Adding the same number again succeeds without changing the list or sending a welcome. |
| Users.DelCases | nx584-sms.c:279-298 | A delete is refused, with the list untouched, exactly when the number is absent, is the sender's own, or is the last administrator and the request came by SMS. Otherwise the first slot holding the number is taken out and the list is one shorter. |
| Users.LocalDelete | nx584-sms.c:289-298 | From the console, a delete succeeds exactly when the number is on the list. |
| Users.DelKeepsOthers | nx584-sms.c:300-307 | A delete takes no rights from any other number. |
| Users.DelRevokes | nx584-sms.c:300-307 | After a delete, a number that was listed once is no longer authorised. |
| Users.AdminCountRemoved | nx584-sms.c:303-307 | Taking a slot out lowers the count of administrators by that slot's flag and by nothing else. |
| Users.SmsKeepsAnAdmin | nx584-sms.c:285-298 | An administrator who deletes by SMS keeps their own rights, since deleting one's own number is refused, so the list keeps an administrator. |
| Users.ListText | nx584-sms.c:403-411 | The reply to `list`: the administrators, then the users, each as " number", in list order. |
| Users.AppendName | nx584-sms.c:407-410 | One turn of the listing loop appends " number" to the buffer when the slot has the role, keeping the buffer the clip of everything listed so far. |
| Users.RoleFlags | nx584-sms.c:403-411 | Each group of the listing holds only entries with that role. |
| Users.RolesSplit | nx584-sms.c:403-411 | The two groups together are exactly the list, as a multiset. |
| Users.NamesSnoc | nx584-sms.c:407-410 | One more entry adds its " number" at the end of the names. |
| Users.NamesStep | nx584-sms.c:406-410 | One more slot adds its name to a group when it has that role. |
| Users.NamesContain | nx584-sms.c:407-410 | The names of a list contain each entry's name. |
| Users.RoleHolds | nx584-sms.c:403-411 | Every entry is in the group of its own role. |
| Users.EveryoneListed | nx584-sms.c:403-411 | Every entry's number appears in the group of its role. |
| Users.SaveText | nx584-sms.c:162-167 | The file text: one `admin n` or `user n` line per slot, in order. |
| Users.SaveTextSnoc | nx584-sms.c:162-167 | One more slot adds its line at the end of the file. |
| Users.LoadBounded | nx584-sms.c:185-196 | The corrected reading of the file keeps at most 256 users. |
| Users.LoadUnbounded | nx584-sms.c:185-196 | `load_user_list` as written: every recognised line is stored, without bound. |
| Users.LoadLive | nx584-sms.c:185-196 | Every entry read from the file holds a number. |
| Users.LoadStep | nx584-sms.c:186-195 | One more line of the file adds its entry when it holds one and fewer than 256 are stored, and nothing otherwise. |
| Users.LoadBoundedKeepsFirst | nx584-sms.c:185-196 | The corrected reading keeps the first 256 users that the unbounded reading finds, and all of them when there are no more. |
| Users.LoadSaved | nx584-sms.c:187-192 | The line saved for an entry whose number has no white space reads back as that entry. |
| Users.SaveLines | nx584-sms.c:162-167 | The file has one line per slot, `admin n` or `user n`. |
| Users.LinesCons | nx584-sms.c:185-195 | Reading line by line splits after each newline. |
| Users.SaveLineShape | nx584-sms.c:164-166 | A saved line ends in its only newline. |
| Users.LinesOfSave | nx584-sms.c:185-195 | Reading the saved file line by line gives the saved lines. |
| Users.LoadEach | nx584-sms.c:185-196 | Lines that each read as an entry read as the list of those entries. |
| Users.LoadSavedLines | nx584-sms.c:185-196 | The saved lines read back as the list. |
| Users.SaveLoadRoundTrip | nx584-sms.c:153-200 | Saving a list of at most 256 entries whose numbers hold no white space, then loading the file, gives the same list back. |
| Users.LoadOverflows | nx584-sms.c:185-196 | A file of 257 users makes `load_user_list` as written fill 257 slots, while the corrected reading stops at 256. |
| Users.UserStore.constructor | nx584-sms.c:146-149 | The list starts empty. |
| Users.UserStore.IsAuthorised | nx584-sms.c:212-220 | The search loop answers whether the sender is the console or on the list. |
| Users.UserStore.IsAdminOrLocal | nx584-sms.c:202-210 | The search loop answers whether the sender is the console or an administrator. |
| Users.UserStore.CountAdmins | nx584-sms.c:290-291 | The loop counts the administrators. |
| Users.UserStore.Save | nx584-sms.c:153-172 | The file afterwards holds one `admin`/`user` line per slot, in order; the list is unchanged. |
| Users.UserStore.Load | nx584-sms.c:174-200 | The list afterwards is the corrected reading of the file. |
| Users.UserStore.AddUser | nx584-sms.c:223-277 | Code, reply, welcome and new list are those of `Add`; the file is rewritten exactly when a number was added. |
| Users.UserStore.DelUser | nx584-sms.c:279-310 | Code, reply and new list are those of `Del`, with the count lowered after a removal; the file is not rewritten. |
| Users.UserStore.RemoveAt | nx584-sms.c:303-307 | The shift followed by the lowered count takes the slot out of the list as `Removed` describes. |
| Users.UserStore.Find | nx584-sms.c:300-302 | The search loop returns the first slot holding the number. |
| Users.UserStore.ShiftDown | nx584-sms.c:303-307 | The clearing and shifting loop leaves the slots as `Shifted` describes. |
| Users.UserStore.AppendNames | nx584-sms.c:406-410 | The loop appends the names of one group to the buffer, clipped to its size. |
| Users.UserStore.ListUsers | nx584-sms.c:403-414 | The reply holds both groups, administrators first, clipped to 8192 characters. |
| Commands.Select | nx584-sms.c:375-441 | The verb a line names, in the order `parse_textcommand` tests them, each gated by the sender's rights. |
| Commands.Respond | nx584-sms.c:366-446 | `parse_textcommand`: the verb selected, carried out. |
| Commands.Answer | nx584-sms.c:375-445 | What each verb returns, replies, leaves on the list and sends. |
| Commands.SelectGated | nx584-sms.c:366-446 | The verb a line names is acted on exactly when the sender may use it; otherwise there is no verb. |
| Commands.ConsoleMayDoAnything | nx584-sms.c:388-441 | The console may use every verb. |
| Commands.StrangersOnlyGetHelp | nx584-sms.c:375-441 | A number that is not on the list gets help or nothing. |
| Commands.StrangersKeepList | nx584-sms.c:366-446 | What a number that is not on the list sends changes no list and sends no message. |
| Commands.UsersCannotManage | nx584-sms.c:388-414 | A sender that is not an administrator can neither add, add an admin, delete nor list. |
| Commands.HelpForAnyone | nx584-sms.c:375-387 | Help is given to anyone, exactly when the line is "help" in any case. |
| Commands.RespondCode | nx584-sms.c:366-446 | The code is 0 for a command acted on and -1 for none, and only an administrator or the console changes the list. |
| Commands.RespondKeepsLive | nx584-sms.c:366-446 | No command leaves a live slot without a number. |
| Commands.StatusReplyWhole | nx584-sms.c:436-441 | The status reply is never truncated. |
| Commands.ChooseVerb | nx584-sms.c:375-441 | The chain of tests picks the verb `Select` picks. |
| Commands.ParseTextCommand | nx584-sms.c:366-446 | Code, reply, messages and the new list are those of `Respond`, and the file is rewritten exactly when a number was added. |
| Commands.Carry | nx584-sms.c:388-441 | The selected verb is carried out as `Answer` describes. |
| Commands.Manage | nx584-sms.c:388-414 | The same for add, admin, del and list. |
| Commands.Report | nx584-sms.c:375-435 | The same for help, arm, disarm and no verb, which leave the list as it was. |
| Commands.StatusReply | nx584-sms.c:436-441 | The reply to status is the status report, clipped to the reply buffer. |
| Gateway.Track | nx584-sms.c:471-528 | A controller line keeps the zone table whole. |
| Gateway.Handle | nx584-sms.c:448-571 | Handling a line keeps the zone table whole. |
| Gateway.CommandLine | nx584-sms.c:541-561 | A command line: the reply echoed to a source with a descriptor and sent by SMS to a telephone number, the file rewritten when a welcome was sent. |
| Gateway.ControllerLinesOnlyTouchAlarm | nx584-sms.c:458-535 | A line from the controller's log is reported as server log: it echoes nothing, sends nothing, and leaves the list and the file as they were. |
| Gateway.ZoneLineSetsZone | nx584-sms.c:467-485 | A short zone report sets exactly the zone it names, and nothing else, whatever its source. |
| Gateway.DashIsConsole | nx584-sms.c:541-557 | A line from the source "-" is handled as from no origin, that is, from the console. |
| Gateway.ReplyGoesToSender | nx584-sms.c:550-557 | A command acted on from a telephone number answers that number with the reply, after the welcome messages. |
| Gateway.HandleKeepsLive | nx584-sms.c:541-561 | No line leaves a live slot without a number. |
| Gateway.StrangersChangeNothing | nx584-sms.c:541-561 | A command from a number not on the list leaves the whole state unchanged. |
| Gateway.ParseLine | nx584-sms.c:448-571 | On the alarm and the store in place, `parse_line` returns, echoes, sends and leaves what `Handle` says. |
| Gateway.Step | nx584-sms.c:638-652 | One pass over a source: a byte taken into the buffer, a line completed, or nothing. |
| Gateway.StepKeeps | nx584-sms.c:638-652 | A source's buffer never holds more than 8191 characters, and never a line ending. |
| Gateway.FullBufferStuck | nx584-sms.c:640-641 | A full buffer reads nothing more, so that source delivers no further line. |
| Gateway.CStrPlain | nx584-sms.c:644-645 | A line without NUL is handed on whole. |
| Gateway.FeedLine | nx584-sms.c:640-651 | A line without line endings, followed by '\n' or '\r', is delivered whole, and the buffer starts afresh. |
| Gateway.FramingRoundTrip | nx584-sms.c:638-653 | Lines written one after another, each ended by a newline, are read back as the same lines. |
| Gateway.LineBuffer.constructor | nx584-sms.c:638-653 | A source's buffer starts empty. |
| Gateway.LineBuffer.Poll | nx584-sms.c:639-652 | One pass over a source takes a byte, completes a line or does nothing, as `Step` describes. |
| Gateway.PollSource | nx584-sms.c:638-653 | One pass over a source, with the line it completes handled as `Handle` describes. |
| Gateway.AlertText | nx584-sms.c:672-675 | The text each user is sent: the report, and how many others received it. |
| Gateway.Escalation | nx584-sms.c:656-680 | The tick of the siren latch, then, when the event is due, one alert per slot. |
| Gateway.Alerts | nx584-sms.c:672-679 | Every slot gets one message with the same text, in list order. |
| Gateway.AlertCarriesReport | nx584-sms.c:666-670 | The broadcast carries the whole status report. |
| Gateway.BroadcastOnce | nx584-sms.c:659-665 | After a broadcast the counter is clear and the latch is not due, so the next pass sends nothing. |
| Gateway.LongSirenReachesEveryone | nx584-sms.c:659-679 | A siren sounding ten seconds or more sends one alert to each slot. |
| Gateway.Broadcast | nx584-sms.c:672-679 | The loop sends the alerts `Alerts` describes. |
| Gateway.Escalate | nx584-sms.c:656-680 | The siren check and the broadcast, on the alarm in place, do what `Escalation` says. |
| Gateway.LocationReads | nx584-sms.c:718 | The location of a listing entry is read back. |
| Gateway.SenderReads | nx584-sms.c:720 | The remote number of a listing entry is read back. |
| Gateway.LocationLine | nx584-sms.c:718 | The location line records the location. |
| Gateway.HeaderLine | nx584-sms.c:719 | The "SMS message" line starts a message. |
| Gateway.SenderLine | nx584-sms.c:720 | The remote-number line records the sender. |
| Gateway.BlankLine | nx584-sms.c:721 | A blank line counts down the message state. |
| Gateway.ReadListing | nx584-sms.c:699-723 | One line of the listing: the location, header, sender and blank-line steps, and the message the next line completes. |
| Gateway.Listing | nx584-sms.c:696-726 | The messages a run of listing lines yields. |
| Gateway.Run | nx584-sms.c:696-726 | The reader's variables after a run of listing lines. |
| Gateway.ListingAppend | nx584-sms.c:696-726 | Reading two runs of lines in turn finds the messages of the first, then those of the second read on from where the first left the reader. |
| Gateway.OneMessageRead | nx584-sms.c:696-726 | A listing entry (location, header, sender, blank line, text) yields exactly one message, with that location, sender and text, whatever sender the reader kept from before; the reader then waits for the next entry. |
| Gateway.Readable | nx584-sms.c:718-720 | A location and a sender in the form the reader recognises. |
| Gateway.Inbox | nx584-sms.c:696-726 | The listing lines of a run of received messages. |
| Gateway.InboxRead | nx584-sms.c:696-726 | Every message of a listing is found, in order, with its location, sender and text, starting from an empty reader. |
| Gateway.ReadLine | nx584-sms.c:699-723 | One turn of the listing loop does what `ReadListing` says. |
| Gateway.ListingStep | nx584-sms.c:697-726 | One more line read moves the message it completes, if any, from what is left to read to what has been found. |
| Gateway.ReadMessages | nx584-sms.c:696-726 | The listing loop finds the messages `Listing` describes. |
| Gateway.Trimmed | nx584-sms.c:704 | The text of a message loses its trailing newlines, and nothing else. |
| Gateway.Deliver | nx584-sms.c:699-716 | Handling one message keeps the zone table whole. |
| Gateway.DeliverAll | nx584-sms.c:697-726 | So does handling a whole listing. |
| Gateway.StrangersIgnored | nx584-sms.c:703-709 | Messages from numbers not on the list change nothing and are not answered. |
| Gateway.DeliverOne | nx584-sms.c:699-716 | One message, handled on the alarm and the store in place, does what `Deliver` says. |
| Gateway.DeliverMessages | nx584-sms.c:696-726 | Every message, handled in listing order in place, does what `DeliverAll` says. |

## Left out

- Reading and writing files, devices and the modem are left out. The model
  works on their contents as values: the bytes a source yields next, the
  configuration file text, the message listing, the text echoed back, and
  the messages sent.
- Running `gammu` and the `nx584_client` through `system()` is left out.
  Each outgoing SMS is the value `Sms(to, text)`, not the command line that
  would send it. So the shell quoting and the 8192-character limit of that
  command line are not modelled. `deletesms` after each message is not
  modelled either.
- The exit status of the arm and disarm commands is a parameter, `exit`.
- `time(0)` is a parameter, `now`.
- The rate limit on reading the inbox (once a second) and the pause of the
  main loop when no source has input are left out. They are timing only.
- `open_input` is not part of this model. It opens files, devices and the
  console, and probes the modem.
- The parsing of the command line (`nx584_client=`, `master=`, `conf=`) is
  left out, as are the start-up banner and the log output.
- The `input_types` array is left out. It records each `parse_line` result,
  which nothing reads.
- `fgets` reads into 1024-character buffers, so longer lines of the
  configuration file or of the listing are split. The model reads whole
  lines.
- A NUL byte in the middle of an input line is modelled (`CStr`). A NUL
  inside the configuration file or the listing is not.
- `%s` and `%[...]` into fixed buffers (`user`, `location`, `sender`,
  `zone_state`) can overflow them in the C code. The model reads the words
  unbounded.
- Scan.ReadIntBack: `%d` is modelled on unbounded integers, so the overflow
  of a 32-bit `int` on a very long numeral is not modelled.
- Gateway.Handle: its own contract states only that the zone table stays
  whole. What it does to each kind of line is stated by the lemmas next to
  it and by `ParseLine`.
- Gateway.Deliver and Gateway.DeliverAll: the same; `DeliverOne`,
  `DeliverMessages` and `StrangersIgnored` state their behaviour.
- Users.DelRevokes: holds only for a number listed once. `del_user` removes
  the first copy, so a number listed twice (possible only through the
  configuration file) stays authorised.
- Users.Del: the sender of a console command is NULL, and line 285 hands it
  to `strcmp`, which is undefined in C. The model takes a NULL sender as
  matching no number, so the console is never refused as deleting itself.
- Users.UserStore.IsAuthorised, Users.UserStore.IsAdminOrLocal and
  Users.UserStore.Find: a NULL slot handed to `strcmp` is undefined in C. The
  model takes it as matching no number. Only the delete as written leaves
  such a slot inside the count (`DelLastMeetsNull`); the corrected delete
  never does (`HandleKeepsLive`).
- Users.Shifted: the last two slots share one string in the C code; the
  model holds two equal values. The dangling pointer a later delete of that
  number leaves behind (the string is freed while the last slot still
  points at it) is not modelled. The corrected delete has no shared slot.
- Classifier.LoggedSirenOn: a line that contains both siren texts is taken
  as a de-assertion, so the lemma needs a line without one.
- Users.LoadSaved and Users.SaveLoadRoundTrip: a number that contains white
  space is saved as written, but `%s` reads back only its first word. Those
  numbers are outside the round trip.
- The free() of removed and reloaded numbers and the strdup() of new ones
  are memory management, modelled as values.

## Findings

| source | as written | input that shows it | evidently intended | confidence | as-written member | corrected member |
|---|---|---|---|---|---|---|
| nx584-sms.c:300-310 | `del_user` frees the slot and moves the later slots down, but never lowers `user_count`. The last live slot then shares its string with the slot before it, or, when the deleted number was in the last slot, stays NULL. | `+1` (admin) and `+2` listed; `+1` sends `del +2`; then any SMS from `+3` makes `is_authorised` call `strcmp(NULL, "+3")`. | Lower `user_count` by one after the shift, so the removed slot leaves the list. | not executed | Users.DelLastMeetsNull | Users.DelKeepsLive |
| nx584-sms.c:185-196 | `load_user_list` stores every `user`/`admin` line of the configuration file, and never checks `user_count` against the 256 slots of `users` and `is_admin`. | A configuration file of 257 `user +1` lines: the 257th write lands past both arrays. | Stop reading at 256 users, the limit that `add_user` and `add_admin` enforce. | not executed | Users.LoadOverflows | Users.SaveLoadRoundTrip |
