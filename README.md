# timeplate: pairing relay, remote keypad, camera keypad, load reminder and login

This project models the core of the timeplate pages and servers in Dafny:

- **Relay.** The Socket.IO pairing relay (`remote_server.js`) keeps a room per pairing code and forwards `peer-joined`, `select`, `session-ended` and `peer-left` events. Its room registry, the per-socket `data` and the outbox of deliveries are the fields of the class `Relay.RelayServer`. An invariant ties rooms to sessions: rooms are never empty, hold only joined sockets, and every joined socket is in its room. Each handler is proved to deliver its event exactly to the set of sockets the transport would reach. The sender is excluded for `socket.to` and included for `io.in`.
- **Remote keypad.** The remote keypad page (`remote_script.js`) is the class `Pairing.Controller`, with the page's flags `isHost`, `connected`, `currentPairCode`, the key records and the copy stamp. It covers:
  - pairing-code generation and the confirm dialog's `^\d{4}$` check after `trim`;
  - starting and stopping a host session, and the phone's stop key;
  - sending a selection and the host listener's filter;
  - the copy routine with its 2000 ms same-key cooldown.
- **Camera keypad.** The camera keypad page (`cam_script.js`) is the module `Fingers`. It covers the raised-finger count per hand, the label resolution, and the key a frame selects (the pinch gesture selects key 0). The class `Fingers.CamPage` holds the page's copy routine. That routine differs from the remote page's: a key with an empty description is stamped too.
- **Load reminder.** The load reminder (`reminder_script.js`) is the module `Reminder`, with the countdown cell in the module `Countdown`. Each section (`Reminder.Section`) holds its title, header colour and rows and is saved under `section-<index>`. Other parts: the once-per-second timer check, the add, edit and delete actions, and the first-load sample data.
- **Login.** The `/api/login` handler of `server.js` is `Login.HandleLogin`: a 400/401/200 decision with a case-insensitive lookup by e-mail.

How the environment is modelled:

- **Parameters.** The clock, `Math.random`, the realtime database, the clipboard and bcrypt are parameters or oracle booleans:
  - `setupOk` and `registerOk` say whether the backend answered;
  - `clipboardOk` says whether the clipboard write resolved;
  - `check` is the password comparison.
- **Results.** A method that writes to the database returns what it writes:
  - `StopSession` returns the session node it removes, and `StartSession` returns the node its initial stop removes;
  - `StartSession` returns the node it registers;
  - `ConfirmConnect` returns the node it marks client-online;
  - `SendSelection` returns the event it pushes.
- **Deliveries.** The deliveries of one emit are produced in some order, because the transport walks an unordered set. `IsFanout` states them order-free: every recipient sees the event exactly once and nobody else sees it.

## Model

| member | source | states |
|---|---|---|
| Relay.DefaultRole | remote_server.js:24 | the recorded role is the sent one when truthy, else "client"; never empty |
| Relay.WithoutMember | remote_server.js:45-48 | after leaving, every room holds its old members minus the socket, and rooms left empty are gone |
| Relay.FanOut | remote_server.js:28 | the batch of one emit delivers the event once to each recipient and to nobody else |
| Relay.FanoutShape | remote_server.js:41 | a fan-out has exactly one delivery per recipient, each carrying the event |
| Relay.SingleFanout | remote_server.js:35 | a fan-out to one socket is that single delivery |
| Relay.InboxAfterFanout | remote_server.js:28 | after an emit a socket's inbox grows by one copy of the event exactly when it is a recipient |
| Relay.RelayServer.constructor | remote_server.js:10-17 | no rooms, no sessions, no deliveries, invariant established |
| Relay.RelayServer.Connect | remote_server.js:17-18 | a new socket has empty `data`; rooms and outbox unchanged; invariant kept |
| Relay.RelayServer.Emit | remote_server.js:28 | the outbox grows by exactly one fan-out of the event to the recipients |
| Relay.RelayServer.Join | remote_server.js:21-29 | a falsy code changes nothing; otherwise the sender is added to the room without leaving others, its data becomes (code, role or "client"), and every other member gets `peer-joined` with the role as sent |
| Relay.RelayServer.Select | remote_server.js:32-36 | a falsy code sends nothing; otherwise `{key, from}` goes to every room member except the sender (joined or not); rooms and sessions unchanged |
| Relay.RelayServer.EndSession | remote_server.js:39-43 | a truthy code sends `session-ended` to every member, sender included; membership unchanged |
| Relay.RelayServer.Disconnect | remote_server.js:45-49 | the socket leaves every room and its session; with a code set, the remaining members of that room get `peer-left {id, role}`; otherwise nothing is sent |
| Relay.PairingScenario | remote_server.js:17-50 | host and client join one code, the client selects, the host ends, the client leaves: the exact deliveries of each step |
| Text.DecimalString | remote_script.js:59 | `toString` of a natural: non-empty, all digits, no leading zero except for 0 |
| Text.DecimalRoundTrip | remote_script.js:59 | the decimal form reads back as the number |
| Text.FourDigitLength | remote_script.js:59 | numbers 1000..9999 print as four characters |
| Text.Trim | remote_script.js:215 | `trim` gives the slice left after blanks are removed at both ends, with no blank at either end |
| Text.TrimBlanks | remote_script.js:215 | trimming a text padded with blanks gives the text |
| Text.Lower | server.js:36 | lower-casing maps each character and keeps the length |
| Text.Pad2IsPadStart | reminder_script.js:203 | the two-digit field is `toString().padStart(2, '0')` |
| Text.Pad2Value | reminder_script.js:203 | the two digits read back as the field |
| Pairing.GenCode | remote_script.js:59 | `floor(1000 + random*9000).toString()` is four digits whose value is 1000 plus the draw |
| Pairing.GenCodeInjective | remote_script.js:59 | different draws give different codes |
| Pairing.AcceptedCode | remote_script.js:215-219 | the dialog accepts exactly when the trimmed input is four digits, and accepts the trimmed input |
| Pairing.AcceptsPaddedCode | remote_script.js:215-216 | a four-digit code typed with blanks around it is accepted as that code |
| Pairing.GeneratedCodeAccepted | remote_script.js:215-216 | every code `genCode` produces passes the dialog unchanged |
| Pairing.ListenedKey | remote_script.js:196-199 | the listener acts exactly on present `select` values with a non-null key, using that key |
| Pairing.PushedSelectionHeard | remote_script.js:251 | the payload a client pushes passes the host's filter with its key |
| Pairing.CopyStep | remote_script.js:135-156 | a blocked key or a missing element does nothing; text is written (and stamped) exactly when the trimmed description is non-empty and the clipboard resolves; otherwise the stamp is kept |
| Pairing.RepeatInsideWindowIgnored | remote_script.js:137 | after a successful copy the same key is ignored for the rest of the 2000 ms window |
| Pairing.OtherKeyUngated | remote_script.js:137 | a key other than the last stamped one is decided as if there were no cooldown |
| Pairing.Controller.constructor | remote_script.js:41-49 | no session, no database reference, no stamp, the stored key records |
| Pairing.Controller.StopSession | remote_script.js:301-311 | listener detached, session node removed when there is a reference and a code, flags cleared; other state kept |
| Pairing.Controller.StartSession | remote_script.js:184-203 | stops first (returning the node that stop removes), takes the fresh code as host, registers the node when set-up succeeds, listens and is connected only when registration succeeds too |
| Pairing.Controller.ConfirmConnect | remote_script.js:214-235 | a rejected input changes nothing; an accepted one becomes the client's code; once set-up succeeds the page is connected and the session node is marked client-online |
| Pairing.Controller.SendSelection | remote_script.js:249-259 | pushes `{select, key, ts}` under `<code>/events` exactly when there is a code, a connection and a reference |
| Pairing.Controller.StopSessionClientSide | remote_script.js:286-298 | drops the connection and the code, keeps everything else |
| Pairing.Controller.Copy | remote_script.js:135-156 | the page's copy is one `CopyStep` on its stamp; session state unchanged |
| Pairing.Controller.KeyClick | remote_script.js:314-325 | the connected host copies; anyone else gets the connect dialog and nothing is copied |
| Pairing.Controller.OnEventAdded | remote_script.js:195-199 | while listening, a select event with a key runs the copy routine for that key; anything else is ignored |
| Pairing.PairingRound | remote_script.js:184-254 | a host started with draw n and a phone typing its code plus a newline: the phone's selection is pushed to the host's listened path |
| KeyCopy.DescriptionOf | remote_script.js:140 | the key's description when it is present and non-empty, else ""; a non-empty result is the stored description |
| KeyCopy.Blocked | remote_script.js:137 | only the last stamped key can be blocked, and it is blocked exactly while fewer than 2000 ms have passed since its stamp |
| KeyCopy.OtherKeyPasses | cam_script.js:78 | the cooldown only ever blocks the last stamped key |
| KeyCopy.SameKeyWindow | remote_script.js:137 | the last stamped key is blocked exactly for 2000 ms after its stamp |
| Countdown.Split | reminder_script.js:194-198 | hours below 24, minutes and seconds below 60 |
| Countdown.SplitReconstructs | reminder_script.js:194-198 | days, hours, minutes and seconds add back up to the whole seconds |
| Countdown.Clock | reminder_script.js:205 | `HH:MM:SS`: eight characters with colons at positions 2 and 5 |
| Countdown.CountdownText | reminder_script.js:200-206 | the bare clock under a day, `<days>d ` and the clock otherwise; eight characters exactly when no day is left |
| Countdown.ClockTextReadsBack | reminder_script.js:205 | the bare clock reads back to its seconds |
| Countdown.DayTextReadsBack | reminder_script.js:203 | the day-prefixed text reads back to days and clock together |
| Countdown.CountdownTextReadsBack | reminder_script.js:200-206 | every countdown text reads back to the total of its parts |
| Countdown.SplitTextReadsBack | reminder_script.js:194-206 | the text of any whole number of seconds reads back to that number |
| Countdown.ZeroTextReadsBack | reminder_script.js:190 | the run-out text `00:00:00` reads back as zero |
| Countdown.CellText | reminder_script.js:189-206 | `00:00:00` once run out; eight characters exactly when less than a day is left |
| Countdown.DueAsWritten | reminder_script.js:211-214 | due exactly when run out or when the remaining whole seconds modulo a day are under an hour |
| Countdown.TimerDisplay | reminder_script.js:185-216 | run out: `00:00:00` and due; under a day left: due exactly when under an hour is left |
| Countdown.DisplayReadsBack | reminder_script.js:185-216 | the cell text always reads back to the remaining whole seconds, or 0 once run out |
| Countdown.IntendedDue | reminder_script.js:211-214 | due exactly when less than one hour remains |
| Countdown.DayAndSecondText | reminder_script.js:203 | one day and one second shows as `1d 00:00:01` |
| Countdown.DayAndSecondCell | reminder_script.js:189-206 | the cell with 86401000 ms left reads `1d 00:00:01` |
| Countdown.DueWithADayLeft | reminder_script.js:211-214 | with a day and a second left the page's rule colours the cell due, although more than an hour remains |
| Countdown.DueAsWrittenUnderADay | reminder_script.js:211-214 | with less than a day left the page's rule and the intended one agree |
| Countdown.Blinking | reminder_script.js:227 | a blinking row shows the run-out countdown `00:00:00`, coloured due |
| Reminder.SectionKey | reminder_script.js:24 | the key is `section-` followed by the index |
| Reminder.SectionKeyInjective | reminder_script.js:260 | different sections never share a storage key |
| Reminder.Saved | reminder_script.js:24 | the stored record of the section, or one with no title, no colour and no rows when the key is absent |
| Reminder.SampleSection | reminder_script.js:272-282 | one non-blinking row whose timer ends two hours (7200000 ms) after now, with a title and a colour |
| Reminder.SampleStartsPending | reminder_script.js:268-282 | at seeding time the sample row shows `02:00:00`, is not due and does not blink |
| Reminder.InitializeSections | reminder_script.js:263-285 | only an absent `section-0` is written (with the sample); every other key is kept |
| Reminder.InitializeIdempotent | reminder_script.js:263-267 | seeding again, at any later time, changes nothing |
| Reminder.FormComplete | reminder_script.js:170 | the dialog goes on exactly when the load number, date and time are all non-empty |
| Reminder.Refreshed | reminder_script.js:227-231 | a checked row keeps its load number and end and blinks exactly when its end is not after now |
| Reminder.CheckedRowsAt | reminder_script.js:218-233 | row i after the check is row i with the blinking flag set from its end |
| Reminder.CellsAt | reminder_script.js:224 | cell i after the check is the countdown of row i, with the page's `due` rule |
| Reminder.CheckRows | reminder_script.js:218-233 | the loop returns the checked rows and the refreshed cells, in order |
| Reminder.Section.constructor | reminder_script.js:14-20 | a section as the markup has it: default title, no colour, no rows |
| Reminder.Section.Setup | reminder_script.js:14-38 | restores a truthy saved title and colour and appends the saved rows in order |
| Reminder.Section.Save | reminder_script.js:235-261 | the store with this section's record replaced by its title, colour and rows |
| Reminder.Section.CheckTimers | reminder_script.js:218-233 | rows and cells refreshed as `CheckRows` states; title and colour kept |
| Reminder.Section.ConfirmAdd | reminder_script.js:51-57 | with every field filled a non-blinking row is appended and saved; otherwise nothing changes |
| Reminder.Section.ConfirmEdit | reminder_script.js:94-112 | with every field filled row i gets the new load number and end, blinks exactly when due, and is saved; otherwise nothing changes |
| Reminder.Section.DeleteRow | reminder_script.js:123-127 | row i is removed, the others keep their order, and the section is saved |
| Reminder.ReloadRoundTrip | reminder_script.js:24-38 | save and reload give back the same rows and colour, and the title unless it was empty |
| Fingers.ThumbOut | cam_script.js:33-46 | the thumb never counts with its tip level with its IP joint, nor with a truthy label other than `Right` or `Left` |
| Fingers.Raised | cam_script.js:48-51 | a finger counts exactly when its PIP joint lies below its tip |
| Fingers.UnlabelledThumbSameSide | cam_script.js:39-46 | without a label the thumb counts exactly when both of its offsets have the same sign |
| Fingers.LabelsMirror | cam_script.js:33-38 | a thumb not pointing straight up counts for exactly one of `Right` and `Left` |
| Fingers.CountFingers | cam_script.js:28-54 | at most 5; 5 exactly when the thumb and all four fingers count, 0 exactly when none does |
| Fingers.ResolveLabel | cam_script.js:191-195 | the own label when truthy, else the nested one when truthy, else none |
| Fingers.TotalFingers | cam_script.js:184-198 | the sum over the hands is at most five per hand |
| Fingers.TwoHandsAtMostTen | cam_script.js:144 | with the detector's two hands the total is at most ten |
| Fingers.DetectKey | cam_script.js:175-214 | no hands shows no detection; a pinch selects 0; otherwise the total is shown and selected only in 1..10 |
| Fingers.PageKeyData | cam_script.js:228-236 | one record per key element, titled with its title text or "", with an empty description |
| Fingers.LoadedKeyData | cam_script.js:62-65 | the stored records when storage has them; otherwise the page's keys, every description empty |
| Fingers.RestoredTitle | cam_script.js:70 | the stored title when truthy, else "Name <num>"; never empty |
| Fingers.RestoredTitles | cam_script.js:68-71 | titles are written back exactly for stored keys on the page, each a non-empty restored title |
| Fingers.CamCopyStep | cam_script.js:76-114 | a blocked key or a missing element does nothing; a write happens exactly when the trimmed description is non-empty and the clipboard resolves, and then stamps the key; a rejected write keeps the stamp; an empty description is stamped without writing |
| Fingers.CamRepeatInsideWindowIgnored | cam_script.js:78 | after a successful copy the same key is ignored for the rest of the 2000 ms window |
| Fingers.FreshPageCopiesNothing | cam_script.js:85-110 | without stored records nothing is ever written; a request past the gate only stamps its key |
| Fingers.EmptyDescriptionStillBlocks | cam_script.js:106-110 | a key with no description, once requested, is ignored for the next 2000 ms |
| Fingers.CamPage.constructor | cam_script.js:228-236 | key records as `LoadedKeyData` builds them from the page's titles and storage, no stamp |
| Fingers.CamPage.Copy | cam_script.js:76-114 | the page's copy is one `CamCopyStep` on its stamp |
| Fingers.CamPage.OnResults | cam_script.js:162-217 | the frame's label as `DetectKey` decides it, and the copy routine run for the selected key only |
| Login.LoadUsers | server.js:16-24 | the parsed user file, or no users when it cannot be read |
| Login.FirstMatch | server.js:36 | the first user whose lower-cased e-mail equals the lower-cased username, or none when no user matches |
| Login.FirstMatchCaseInsensitive | server.js:36 | the lookup depends only on the lower-cased username |
| Login.HandleLogin | server.js:28-51 | 400 on a missing credential; 200 exactly when the user exists and the password checks; 401 otherwise, with the fixed bodies |
| Login.UnknownUserLooksLikeWrongPassword | server.js:38-46 | an unknown e-mail and a wrong password get the same answer |
| Login.LoginCaseInsensitive | server.js:36 | the answer does not depend on the letter case of the e-mail |
| Login.NoUsersRefuseAll | server.js:19-24 | with an unreadable user file every well-formed login gets 401 |

## Left out

- `pas-script.js` is not part of this model.
- The Express and Socket.IO set-up, CORS, the health-check and static routes, and the servers' logging are not modelled.
- Each socket's own room, which Socket.IO creates under its id, is not modelled. A code equal to a socket id is therefore not modelled either.
- The realtime database is an oracle: `setupOk`, `registerOk` and the database paths stand for its answers. The model does not decide when `initializeApp` refuses a second initialisation; `setupOk` covers that outcome.
- The asynchronous interleavings are not modelled: the copy delay (`COPY_DELAY`), promise resolution and concurrent clicks. The copy gate reads `now`, and the stamp taken when the clipboard resolves is the parameter `stamp`; the steps in between are taken as atomic.
- `Date.now`, `Math.random`, bcrypt, the clipboard, text-to-speech, sounds and vibration are parameters or are left out.
- MediaPipe, the drawing on the canvas and `distancia` are not modelled. The pinch test is given per hand as a boolean.
- JSON serialisation, malformed JSON in storage, and the remote page's own `cargarConfiguracion` are not modelled. The title/description modal that saves to the key records is not modelled either.
- Reminder.Row: the timer end is a millisecond integer. The model covers neither the string `parseInt` round trip of `data-timer-end` nor the `NaN` of an unparsable date.
- The browser's normalisation of the header colour and the conversion of a date and time into a timer end are not modelled.
- Reminder.Section.CheckTimers: the page walks the countdown cells of every section in one pass and reads `Date.now()` afresh for each row, once for the display and once for the blinking test. The model checks one section per call at a single `now`, so it does not capture the clock moving between rows or between those two reads.
- Text.Lower: ASCII lower-casing only; no Unicode case mapping.
- Login.LoadUsers: a user entry without an e-mail and a file that is not an array are not modelled. In the server both make the lookup throw.
- Login.HandleLogin: the username and the password are modelled as strings; `String(username)` on other JSON values is not modelled.

## Findings

| source | as written | input that shows it | evidently intended | confidence | as-written member | corrected member |
|---|---|---|---|---|---|---|
| reminder_script.js:211-214 | the `due` class is added when the hours field of the split is 0 (`Countdown.DueAsWritten`) | 86401000 ms remaining: the cell reads `1d 00:00:01` and is coloured due | due only when less than one hour remains, as the comment above the test says | not executed | Countdown.DueWithADayLeft | Countdown.IntendedDue |

The page's cells (`Countdown.TimerDisplay`, and through it `Reminder.Cells` and the timer check) keep the rule as written. `Countdown.IntendedDue` is the corrected rule. `Countdown.DueAsWrittenUnderADay` proves that the two agree whenever less than a day is left.
