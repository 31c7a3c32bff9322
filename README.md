# Majestic rent bot: a verified model of the rental pipeline

Majestic rent bot follows the rental notices that the Majestic RP game bot sends
to a player's Telegram account. It does four things:

- It parses each notice ("Транспорт сдан в аренду!") into a rental record.
- It matches the vehicle name against the table of game vehicles to find its picture.
- It stores the rental in SQLite.
- It sends the player a reminder when the rental expires.

A user account client (MTProto "userbot") per player listens for new notices.
It also scans the chat history to catch up on missed ones. A login state
machine connects that client. A Mini App lists past rentals and statistics
behind a Telegram init-data signature check.

The Dafny project models that core, one module per source file:

| module | file | models |
|---|---|---|
| `Text` | `text.dfy` | the JavaScript string operations the core relies on (`\s`, `trim`, `indexOf`, `includes`, `toLowerCase`, `split(/\s+/)`, decimal rendering) |
| `ParseRental` | `parse_rental.dfy` | `isRentalMessage` and `parseRentalMessage`, each field pattern including its regular-expression backtracking |
| `CarMapping` | `car_mapping.dfy` | the `nameToId` index and the five-strategy `vehicleNameToImageSlug` cascade |
| `Store` | `store.dfy` | the four tables as sequences of rows (row `i` has id `i + 1`) with the schema's unique indexes, and the updates the core issues |
| `Notifications` | `notification_scheduler.dfy` | the sorted reminder queue and its timer, seeding, sending and cancelling |
| `RentalIngestion` | `message_parser.dfy` | `processRentalMessage` and `handleIncomingMessage` |
| `Userbot` | `userbot_manager.dfy` | the client wrapper and the per-user client registry |
| `HistoryScan` | `history_scanner.dfy` | `scanUser`: counters, high-water mark, checkpoints every 500 messages, the one-scan-per-user guard and the flood-wait restart |
| `AuthFlows` | `auth_flow.dfy` | the login flow object and its error mapping |
| `AuthStateMachine` | `auth_state_machine.dfy` | `startConnect` and the step machine of the login middleware |
| `TelegramAuth` | `telegram_auth.dfy` | the Mini App init-data check |
| `RentalsRoute` | `rentals_route.dfy` | paging, filtering, ordering and the most-rented vehicle of the rentals API |
| `Format` | `format.dfy` | `formatDuration` and `getCarImageUrl` |
| `ScrapeVehicles` | `scrape_vehicles.dfy` | the bracket matcher, record filter and first-wins merge of the vehicle scraper |

Modelling choices:

- Classes whose fields the source updates in place are Dafny classes: the scheduler, the scanner, the registry, the login flow and the step map. Their maps and arrays are `seq` or `map` fields that the methods reassign.
- Each such method is specified by a function of the old state. The lemmas beside those functions state what the source promises.
- Network calls, the clock, decryption, HMAC and `JSON.parse` are parameters: an outcome flag, a function, or a time in milliseconds.

Where the code and its design notes disagree, the model follows the code:

- A failed reminder is not marked as notified. It is logged and dropped (`Notifications.NotificationScheduler.SendNotification`).
- A history scan does not back-fill missing image slugs when it ends. Slugs are resolved only when a vehicle row is created (`RentalIngestion.MessageParser.FindOrCreateVehicle`).
- The "most rented" vehicle is the one with the highest revenue, not the highest count (`RentalsRoute.MostRentedIsNotMostOften`).
- Vehicles are looked up by (user, plate), but the unique index is on (user, name). A new plate under a known name therefore fails with a constraint error. A live message swallows that error; a history scan ends on it (`RentalIngestion.IngestVehicle`, `HistoryScan.HistoryScanner.ScanUser`).

## Model

| member | source | states |
|---|---|---|
| Text.TrimIsTrimOf | packages/shared/src/parse-rental.ts:22-28 | `trim` removes exactly the leading and trailing whitespace (the `\s` set), and yields the empty text exactly for an all-whitespace text |
| Text.ContainsIff | packages/shared/src/parse-rental.ts:15-17 | `includes` holds iff the pattern occurs at some index |
| Text.IndexOf | packages/shared/src/parse-rental.ts:16 | the index found is an occurrence at or after the start, with none before it; no index means no occurrence at all |
| Text.Lower | packages/shared/src/car-mapping.ts:13 | lower-casing maps each character on its own, Latin and Cyrillic capitals to their small letters |
| Text.SplitWs | packages/shared/src/car-mapping.ts:20 | splitting on whitespace runs yields at least one piece, and no piece holds whitespace |
| Text.RemoveWhitespace | packages/shared/src/parse-rental.ts:34 | removing whitespace leaves no whitespace, and leaves only digits when the input was digits and whitespace |
| Text.NatToString | packages/web/src/utils/format.ts:19-21 | the decimal rendering is a digit string without a leading zero that denotes the number |
| ParseRental.IsRentalMessageIff | packages/shared/src/parse-rental.ts:15-17 | a text is a rental notice iff "Транспорт сдан в аренду!" occurs in it |
| ParseRental.FirstMatch | packages/shared/src/parse-rental.ts:22-28 | a pattern's match comes from an occurrence of its label where the rest of the pattern matches, and there is none when the label never occurs |
| ParseRental.MatchFromSound | packages/shared/src/parse-rental.ts:22-28 | a search resumed at an index only returns what the rest of the pattern gives at an occurrence of the label at or after that index |
| ParseRental.FirstMatchAt | packages/shared/src/parse-rental.ts:22-28 | the leftmost occurrence of the label at which the rest matches decides the match; earlier occurrences where the rest fails are skipped |
| ParseRental.MatchFromAt | packages/shared/src/parse-rental.ts:22-28 | the same for a search resumed at any index up to that occurrence |
| ParseRental.LineAt | packages/shared/src/parse-rental.ts:6-12 | `.+` captures no line terminator |
| ParseRental.FieldOfLine | packages/shared/src/parse-rental.ts:22-28 | a line "label  value" yields the value, trimmed |
| ParseRental.CharacterMatch | packages/shared/src/parse-rental.ts:7 | the character pattern's id capture is all digits |
| ParseRental.CharacterAt | packages/shared/src/parse-rental.ts:7 | the tail `\s*(.+?)\s*#(\d+)` captures a non-empty run of digits as the id |
| ParseRental.LazyName | packages/shared/src/parse-rental.ts:7 | the lazy name group, extended one character at a time, only ever succeeds with a non-empty digit id |
| ParseRental.LazyNameTakesWholeName | packages/shared/src/parse-rental.ts:7 | on "name  #id", the lazy group settles on the whole name (it cannot stop at an earlier "#" that is not followed by a digit) |
| ParseRental.CharacterOfTemplate | packages/shared/src/parse-rental.ts:7 | a line "Персонаж: Name #123" yields the name and the id "123" |
| ParseRental.CharacterAtTemplate | packages/shared/src/parse-rental.ts:7 | the same for the tail after the label |
| ParseRental.PriceAt | packages/shared/src/parse-rental.ts:10 | the price capture is a non-empty run of digits and whitespace |
| ParseRental.PriceMatch | packages/shared/src/parse-rental.ts:10 | the same for the whole text |
| ParseRental.PriceTail | packages/shared/src/parse-rental.ts:10 | after optional whitespace and an optional "$", the capture is the maximal digit-and-space run |
| ParseRental.PriceOfTemplate | packages/shared/src/parse-rental.ts:10 | a line "Цена: $1 500" captures "1 500" |
| ParseRental.PriceExample | packages/shared/src/parse-rental.ts:10 | "Цена: $1 500" captures "1 500" |
| ParseRental.PriceValueExample | packages/shared/src/parse-rental.ts:34 | the capture "1 500" reads as the price 1500 |
| ParseRental.DurationAt | packages/shared/src/parse-rental.ts:11 | the duration tail captures a non-empty digit string and one of the six units |
| ParseRental.DurationMatch | packages/shared/src/parse-rental.ts:11 | the same for the whole text |
| ParseRental.UnitKind | packages/shared/src/parse-rental.ts:11 | every unit starts with "ч" or "д"; the day units are exactly those starting with "д" |
| ParseRental.DurationTail | packages/shared/src/parse-rental.ts:11 | on "  N  unit" the tail captures N and a unit of the same kind (the alternation may settle on a shorter unit) |
| ParseRental.DurationOfTemplate | packages/shared/src/parse-rental.ts:35-39 | a line "Длительность: N unit" gives N hours, or 24·N when the unit counts days |
| ParseRental.DurationOfLabelLine | packages/shared/src/parse-rental.ts:35-39 | the same for a text that starts with the label |
| ParseRental.DurationExampleDays | packages/shared/src/parse-rental.ts:35-39 | "2 дня" is 48 hours |
| ParseRental.DurationExampleHours | packages/shared/src/parse-rental.ts:35-39 | "24 часа" is 24 hours |
| ParseRental.ParseFields | packages/shared/src/parse-rental.ts:20-32 | the matching steps succeed iff the text is a notice, server, vehicle and plate are present and non-empty after trimming, and the price and duration patterns match |
| ParseRental.PriceDigits | packages/shared/src/parse-rental.ts:34 | the price capture without whitespace is a digit string |
| ParseRental.ParseRentalMessage | packages/shared/src/parse-rental.ts:19-51 | no result for a non-notice. A result exists iff the fields match and the price holds a digit. The result has non-empty server, vehicle and plate equal to the trimmed captures, and the duration in hours of the duration line. The price is the decimal value of the price capture's digits. Name and id are the trimmed character captures, empty when the character line does not match. The renter is the renter line's value, empty when it is missing |
| ParseRental.ParseRentalMessageAsWritten | packages/shared/src/parse-rental.ts:19-51 | the parser as written returns a record whenever the fields match, even when the price has no digit |
| ParseRental.AsWrittenDiffersOnlyOnNaN | packages/shared/src/parse-rental.ts:30-34 | the written and corrected parsers agree on every text except those whose price capture has no digit, where the written one yields a NaN price |
| ParseRental.PriceWithoutDigitsMatches | packages/shared/src/parse-rental.ts:10 | "Цена: договорная" matches the price pattern with the capture " " (`\s` is in `[\d\s]`) |
| ParseRental.NaNPriceAccepted | packages/shared/src/parse-rental.ts:30-34 | such a notice yields a record with a NaN price as written, and no record once corrected |
| CarMapping.Keyed | packages/shared/src/car-mapping.ts:5-6 | each table entry gives the pair (lower-cased trimmed "brand model", id), in table order |
| CarMapping.IndexPairsKeys | packages/shared/src/car-mapping.ts:5-8 | a name is in the index iff it is non-empty and some entry has it |
| CarMapping.IndexPairsLast | packages/shared/src/car-mapping.ts:5-8 | an indexed name maps to the id of the last entry with that name |
| CarMapping.NameToIdLookup | packages/shared/src/car-mapping.ts:4-8 | `nameToId` omits empty full names, and for a repeated full name the later entry wins |
| CarMapping.BuildNameToId | packages/shared/src/car-mapping.ts:4-8 | the module-level loop builds exactly that index |
| CarMapping.TagEnd | packages/shared/src/car-mapping.ts:12 | a leading tag runs from "[" to its first "]" |
| CarMapping.TagEndOfTag | packages/shared/src/car-mapping.ts:12 | "[tag]rest" with no "]" or line break inside the tag ends right after its "]" |
| CarMapping.StripTagRemovesTag | packages/shared/src/car-mapping.ts:12 | a leading "[tag]" and the whitespace after it are removed, then the rest is trimmed |
| CarMapping.StripTagWithoutTag | packages/shared/src/car-mapping.ts:12 | a name without a leading "[" is only trimmed |
| CarMapping.FirstIndex | packages/shared/src/car-mapping.ts:22-24 | a search returns the first entry meeting its criterion, and nothing when none does |
| CarMapping.FindFirst | packages/shared/src/car-mapping.ts:22-24 | the early-returning loop finds that first entry |
| CarMapping.FirstIndexNone | packages/shared/src/car-mapping.ts:22-24 | a search finds nothing iff no entry meets the criterion |
| CarMapping.Normalize | packages/shared/src/car-mapping.ts:35 | normalising keeps only lower-case letters and digits |
| CarMapping.VehicleNameToImageSlug | packages/shared/src/car-mapping.ts:10-44 | the cascade over the prebuilt `nameToId` computes the corrected slug |
| CarMapping.ByPrefixFacts | packages/shared/src/car-mapping.ts:38-43 | strategy 5 returns a table id, and nothing iff no id is a prefix of the last word or has it as a prefix |
| CarMapping.ByIdFacts | packages/shared/src/car-mapping.ts:34-41 | strategies 4 and 5 return a table id, and nothing iff the normalised name is no id and strategy 5 fails |
| CarMapping.ByFullModelFacts | packages/shared/src/car-mapping.ts:26-41 | strategy 3 runs only for names of more than one word; strategies 3 to 5 return a table id or fail together |
| CarMapping.ByModelFacts | packages/shared/src/car-mapping.ts:19-41 | strategies 2 to 5 return a table id, and nothing iff each of them fails |
| CarMapping.SlugIsKey | packages/shared/src/car-mapping.ts:10-44 | every slug the corrected cascade returns is an id of the vehicle table |
| CarMapping.SlugNoneIff | packages/shared/src/car-mapping.ts:15-43 | the cascade returns null iff all five strategies fail |
| CarMapping.SlugByModelWhenNoExact | packages/shared/src/car-mapping.ts:15-24 | strategies run in order: after a failed exact lookup, the first entry whose model is the last word wins |
| CarMapping.SlugExactFirst | packages/shared/src/car-mapping.ts:15-17 | an exact "brand model" hit wins over every other strategy, with the id of an entry of that full name |
| CarMapping.NormalizeAlnum | packages/shared/src/car-mapping.ts:35 | on ASCII letters and digits, normalising is lower-casing |
| CarMapping.ResolveOneWordMiss | packages/shared/src/car-mapping.ts:12-24 | a one-word name without a tag that misses the exact lookup goes on to strategy 2 |
| CarMapping.ConstructorAfterExact | packages/shared/src/car-mapping.ts:19-36 | for "Constructor" against a one-car table, only the inherited key can produce a result |
| CarMapping.SlugOfAsWritten | packages/shared/src/car-mapping.ts:35-36 | the cascade as written, whose strategy-4 lookup also sees keys inherited from `Object.prototype`; it departs from the corrected cascade only by answering with such a key that is not a table id |
| CarMapping.ConstructorResolvesToNonKey | packages/shared/src/car-mapping.ts:35-36 | as written, "Constructor" resolves to the slug "constructor", which is not a table id; corrected, it resolves to nothing |
| Store.VehicleByPlate | packages/backend/src/services/message-parser.ts:46-55 | the lookup returns the first vehicle of that user with that plate, and nothing when there is none |
| Store.UserByTelegramId | packages/backend/src/services/notification-scheduler.ts:98-102 | the lookup returns the first user with that Telegram id, and nothing when there is none |
| Store.UserByTelegramIdUnique | packages/backend/src/db/schema.ts:19 | under the unique index, looking up a user's Telegram id finds that user |
| Store.Database.constructor | packages/backend/src/db/schema.ts:4-21 | a database holds the given users and no other rows, and its unique indexes hold |
| Store.Database.InsertVehicle | packages/backend/src/db/schema.ts:36 | inserting a vehicle fails iff the user already has a vehicle of that name. Otherwise it appends the row and returns its id |
| Store.Database.InsertRentalOrIgnore | packages/backend/src/services/message-parser.ts:78-95 | the insert is ignored iff the (user, message id) pair is already recorded. Otherwise it appends the row and returns its id |
| Store.Database.MarkNotified | packages/backend/src/services/notification-scheduler.ts:93-96 | only the rental with that id changes, and only its `notificationSent` |
| Store.Database.SetLastScanned | packages/backend/src/services/history-scanner.ts:115-118 | only that user's checkpoint changes |
| Store.Database.SetConnected | packages/backend/src/services/userbot-manager.ts:33-36 | only that user's connected flag changes |
| Store.Database.SetSession | packages/backend/src/bot/auth-state-machine.ts:173-180 | only that user's session and connected flag change |
| Store.Database.AppendLog | packages/backend/src/services/notification-scheduler.ts:105-109 | exactly one log entry is appended |
| Store.MarkedNotified | packages/backend/src/services/notification-scheduler.ts:93-96 | the marked table differs from the old one only in the `notificationSent` flag of that rental |
| Store.MarkedNotifiedKeepsKeys | packages/backend/src/db/schema.ts:68 | marking keeps every row's user and message id, so the rental index stays unique |
| Notifications.FirstLater | packages/backend/src/services/notification-scheduler.ts:60-62 | `findIndex` returns the first item expiring strictly later than the given time, or the end |
| Notifications.SortedDuePrefix | packages/backend/src/services/notification-scheduler.ts:74-80 | in a sorted queue, the due items are exactly the prefix before the first later item |
| Notifications.SortedLaterSuffix | packages/backend/src/services/notification-scheduler.ts:74-80 | the items not yet due are exactly the rest |
| Notifications.SortedNothingDue | packages/backend/src/services/notification-scheduler.ts:76 | a sorted queue whose head is not due has no due item |
| Notifications.SortedLater | packages/backend/src/services/notification-scheduler.ts:76 | such a queue is entirely not due |
| Notifications.Inserted | packages/backend/src/services/notification-scheduler.ts:59-68 | scheduling grows the queue by exactly one |
| Notifications.InsertedAdds | packages/backend/src/services/notification-scheduler.ts:63-67 | scheduling adds exactly the given item |
| Notifications.InsertedSorted | packages/backend/src/services/notification-scheduler.ts:59-68 | scheduling keeps the queue sorted by expiry |
| Notifications.InsertedOrder | packages/backend/src/services/notification-scheduler.ts:59-68 | the new item goes after every item expiring no later and before every later one, so equal expiries stay first in, first out |
| Notifications.InsertedAtEnd | packages/backend/src/services/notification-scheduler.ts:63-64 | an item expiring no earlier than every queued one is pushed at the end |
| Notifications.RemoveFirstSubset | packages/backend/src/services/notification-scheduler.ts:139-145 | cancelling only takes items out |
| Notifications.RemoveFirstLength | packages/backend/src/services/notification-scheduler.ts:139-145 | an absent rental leaves the queue unchanged; a present one removes exactly one item |
| Notifications.RemoveFirstAt | packages/backend/src/services/notification-scheduler.ts:140-142 | the first item for the rental is the one removed, and the rest keep their order |
| Notifications.RemoveFirstSorted | packages/backend/src/services/notification-scheduler.ts:139-145 | cancelling keeps the queue sorted |
| Notifications.CancelUndoesSchedule | packages/backend/src/services/notification-scheduler.ts:139-145 | cancelling a rental that was not queued undoes scheduling it |
| Notifications.SortSorts | packages/backend/src/services/notification-scheduler.ts:53 | the sort yields a queue ordered by expiry |
| Notifications.SortPermutes | packages/backend/src/services/notification-scheduler.ts:53 | the sort keeps the same items, as often as before |
| Notifications.SortSortedUnchanged | packages/backend/src/services/notification-scheduler.ts:53 | sorting a sorted queue leaves it as it is |
| Notifications.SortStable | packages/backend/src/services/notification-scheduler.ts:53 | the sort is stable: for every expiry, the items due at it keep their relative order |
| Notifications.InsertedAtExpiry | packages/backend/src/services/notification-scheduler.ts:59-68 | an ordered insert places the new item after every queued item with the same expiry |
| Notifications.AtExpiryConcat | packages/backend/src/services/notification-scheduler.ts:53 | the items due at an expiry in two queues joined are those of the first, then those of the second |
| Notifications.LogFor | packages/backend/src/services/notification-scheduler.ts:98-136 | a send logs one entry iff a user has the item's Telegram id, with the rental, that user and the outcome |
| Notifications.MarkSent | packages/backend/src/services/notification-scheduler.ts:74-96 | sending keeps the number of rentals |
| Notifications.MarkSentMarksDelivered | packages/backend/src/services/notification-scheduler.ts:82-137 | after the due items are sent, a rental is marked notified iff it was before or a delivered item was for it; nothing else changes |
| Notifications.SendLogRecordsOutcome | packages/backend/src/services/notification-scheduler.ts:98-136 | each send adds at most one entry, and every entry records its rental's delivery outcome |
| Notifications.SendStep | packages/backend/src/services/notification-scheduler.ts:76-78 | sending one more item extends the marked rentals and the log by that item's send |
| Notifications.PendingRows | packages/backend/src/services/notification-scheduler.ts:24-51 | the seed holds exactly the rentals not yet expired and not notified whose vehicle and user exist. Each item carries its rental's id and expiry, its user's Telegram id and its vehicle's name and plate |
| Notifications.NotificationScheduler.constructor | packages/backend/src/services/notification-scheduler.ts:15-21 | a new scheduler has an empty queue and no timer |
| Notifications.NotificationScheduler.Initialize | packages/backend/src/services/notification-scheduler.ts:23-57 | the pending rows are appended, the whole queue is sorted by expiry, and the timer starts |
| Notifications.NotificationScheduler.ScheduleNotification | packages/backend/src/services/notification-scheduler.ts:59-68 | the scan-and-splice gives the ordered insert |
| Notifications.NotificationScheduler.SendNotification | packages/backend/src/services/notification-scheduler.ts:82-137 | a delivered reminder marks its rental notified; a failed one does not. Either way the outcome is logged when the user is known |
| Notifications.NotificationScheduler.ProcessQueue | packages/backend/src/services/notification-scheduler.ts:74-80 | the due prefix is sent in queue order and dropped. Afterwards the queue is empty or its head is not due, and the undue items are untouched |
| Notifications.NotificationScheduler.CancelNotification | packages/backend/src/services/notification-scheduler.ts:139-145 | the first item for the rental is removed |
| Notifications.NotificationScheduler.Stop | packages/backend/src/services/notification-scheduler.ts:147-152 | the timer stops and the queue is kept |
| RentalIngestion.ExpiresAt | packages/backend/src/services/message-parser.ts:71-74 | the expiry lies exactly `durationHours` whole hours after the message date; whether it is a valid Date is decided separately |
| RentalIngestion.RentalRow | packages/backend/src/services/message-parser.ts:71-93 | the row stores the message date, the expiry, the user, the vehicle and the message id, and is marked notified iff it has already expired |
| RentalIngestion.IngestRejected | packages/backend/src/services/message-parser.ts:27-44 | a non-notice, a failed parse or an unknown user changes nothing, queues nothing and reports nothing inserted |
| RentalIngestion.IngestVehicle | packages/backend/src/services/message-parser.ts:46-69 | the user's first vehicle with the plate is reused unchanged. Only when there is none is one vehicle appended, with the resolved slug; that append fails iff the user has a vehicle of that name. The vehicle row stays even when the rental step then raises |
| RentalIngestion.IngestFails | packages/backend/src/services/message-parser.ts:46-93 | a call raises iff the vehicle insert is refused, or a date of the row lies outside the Date range of ±8.64e15 ms, so that `toISOString` throws after the vehicle step. A call that raises inserts no rental and queues nothing |
| RentalIngestion.IngestInsertsOnce | packages/backend/src/services/message-parser.ts:71-99 | when the call does not raise, a rental is inserted iff its (user, message id) pair is new. The new row expires `durationHours` after the message date and is notified iff already expired |
| RentalIngestion.IngestNotifies | packages/backend/src/services/message-parser.ts:112-120 | a reminder is queued iff a row was inserted that has not expired, for that rental, its stored expiry and the user's Telegram id |
| RentalIngestion.IngestCounts | packages/backend/src/services/message-parser.ts:97-122 | a call adds one rental when it reports one inserted, and none otherwise |
| RentalIngestion.IngestTwice | packages/backend/src/services/message-parser.ts:94-99 | after a call that did not raise, processing the same message again changes nothing and reports nothing inserted |
| RentalIngestion.IngestParsedTwice | packages/backend/src/services/message-parser.ts:94-99 | the same once the text has parsed |
| RentalIngestion.VehicleByPlateAfterAppend | packages/backend/src/services/message-parser.ts:57-69 | a plate missing from the table is found in the row just appended for it |
| RentalIngestion.IngestKeepsIndexes | packages/backend/src/db/schema.ts:36-68 | a call keeps both unique indexes |
| RentalIngestion.AppendKeepsVehicleNames | packages/backend/src/db/schema.ts:36 | appending a vehicle with a new (user, name) keeps that index unique |
| RentalIngestion.AppendKeepsRentalMessages | packages/backend/src/db/schema.ts:68 | appending a rental with a new (user, message id) keeps that index unique |
| RentalIngestion.MessageParser.constructor | packages/shared/src/car-mapping.ts:4-8 | the module state starts with the index built from the table and no scheduler |
| RentalIngestion.MessageParser.SetNotificationScheduler | packages/backend/src/services/message-parser.ts:9-13 | the scheduler is set |
| RentalIngestion.MessageParser.ProcessRentalMessage | packages/backend/src/services/message-parser.ts:22-123 | the tables, the report or the error raised, and the queue after a call are those of the ingestion function; users and the log are unchanged |
| RentalIngestion.MessageParser.RecordParsed | packages/backend/src/services/message-parser.ts:46-122 | the same once the text has parsed and the user exists |
| RentalIngestion.MessageParser.FindOrCreateVehicle | packages/backend/src/services/message-parser.ts:46-69 | the vehicle step of the ingestion function, including its constraint error |
| RentalIngestion.MessageParser.InsertRental | packages/backend/src/services/message-parser.ts:71-122 | the rental step: an Invalid Date raises before the insert; otherwise insert or ignore, then queue the reminder of an unexpired new row |
| RentalIngestion.MessageParser.HandleIncomingMessage | packages/backend/src/services/message-parser.ts:125-144 | a message without text changes nothing. Otherwise it is ingested with its date in seconds turned into milliseconds, and an error is swallowed |
| Userbot.TelegramClient.constructor | packages/backend/src/services/userbot-client.ts:18-23 | a new library client holds the session and is not connected |
| Userbot.TelegramClient.Connect | packages/backend/src/services/userbot-client.ts:26-29 | the connection is open iff the connect call went through |
| Userbot.TelegramClient.Disconnect | packages/backend/src/services/userbot-client.ts:48-53 | a failed disconnect leaves the connection as it was |
| Userbot.UserbotClient.constructor | packages/backend/src/services/userbot-client.ts:13-24 | a new wrapper holds a fresh library client and is not connected |
| Userbot.UserbotClient.FromExisting | packages/backend/src/services/userbot-client.ts:68-89 | wrapping an existing client sets the flag to true |
| Userbot.UserbotClient.Connect | packages/backend/src/services/userbot-client.ts:26-46 | the flag follows the outcome, and a failure is rethrown |
| Userbot.UserbotClient.Disconnect | packages/backend/src/services/userbot-client.ts:48-55 | library errors are swallowed and the flag is cleared either way |
| Userbot.AfterRestore | packages/backend/src/services/userbot-manager.ts:22-38 | after start-up a user stays connected iff it was connected and either has no session or its session decrypts and connects. Nothing else in the row changes |
| Userbot.AfterRestoreAll | packages/backend/src/services/userbot-manager.ts:22-38 | each row is restored on its own |
| Userbot.RestoredUpToAll | packages/backend/src/services/userbot-manager.ts:22-38 | once every row has had its turn, the table is the restored one |
| Userbot.AfterRestoreKeepsIds | packages/backend/src/db/schema.ts:19 | a restore keeps the Telegram-id index unique |
| Userbot.AttemptedIds | packages/backend/src/services/userbot-manager.ts:22-27 | `addClient` is called exactly for the connected users with a session that decrypts |
| Userbot.RestoredIds | packages/backend/src/services/userbot-manager.ts:25-27 | a client is restored exactly for those whose connection comes up |
| Userbot.RestoredAreAttempted | packages/backend/src/services/userbot-manager.ts:25-37 | every restored user was attempted, and an attempted user that was not restored failed to connect |
| Userbot.UserbotManager.constructor | packages/backend/src/services/userbot-manager.ts:11 | the registry starts empty |
| Userbot.UserbotManager.RemoveClient | packages/backend/src/services/userbot-manager.ts:60-66 | the user's client, if any, is disconnected and forgotten; an absent user changes nothing |
| Userbot.UserbotManager.IsConnected | packages/backend/src/services/userbot-manager.ts:72-74 | a user is connected iff a client is registered for it and reports itself connected |
| Userbot.UserbotManager.AddClient | packages/backend/src/services/userbot-manager.ts:41-54 | a previous client is disconnected and removed first. On success the new connected client is registered; on failure the user has no client |
| Userbot.UserbotManager.AddExistingClient | packages/backend/src/services/userbot-manager.ts:56-58 | the entry is overwritten, and a previous client is not disconnected |
| Userbot.UserbotManager.DisconnectAll | packages/backend/src/services/userbot-manager.ts:76-85 | every client is disconnected whatever fails, and the registry ends empty |
| Userbot.UserbotManager.RestoreOne | packages/backend/src/services/userbot-manager.ts:23-37 | one turn of start-up: only that user's row and registry entry change |
| Userbot.UserbotManager.Initialize | packages/backend/src/services/userbot-manager.ts:13-39 | the user table ends restored. The registry loses the attempted users' old clients and gains a fresh connected client for each restored user |
| HistoryScan.Since | packages/backend/src/services/history-scanner.ts:72-76 | the stream holds exactly the chat's messages above the checkpoint |
| HistoryScan.MaxId | packages/backend/src/services/history-scanner.ts:69-83 | the high-water mark is the starting value or an id seen, and no id seen exceeds it |
| HistoryScan.MaxIdPrefix | packages/backend/src/services/history-scanner.ts:81-83 | the mark only grows as the loop reads on |
| HistoryScan.MaxIdSince | packages/backend/src/services/history-scanner.ts:59-83 | scanning from the checkpoint reaches the same mark as scanning the whole chat |
| HistoryScan.MaxIdAbsorb | packages/backend/src/services/history-scanner.ts:146-161 | a rerun from a checkpoint between the first start and the mark reaches the same mark |
| HistoryScan.RentalCount | packages/backend/src/services/history-scanner.ts:85-87 | the notices among the messages are at most their number |
| HistoryScan.LastBoundary | packages/backend/src/services/history-scanner.ts:113-114 | the last periodic checkpoint is due at the largest multiple of 500 not above the count |
| HistoryScan.BoundaryStep | packages/backend/src/services/history-scanner.ts:114 | one more message moves that point only when the count reaches a multiple of 500 |
| HistoryScan.Checkpointed | packages/backend/src/services/history-scanner.ts:113-119 | a periodic checkpoint is the stored one or a value above the starting checkpoint and at most the mark so far |
| HistoryScan.CheckpointStep | packages/backend/src/services/history-scanner.ts:113-119 | the checkpoint is written when the count is a multiple of 500 and the mark is above the start, and kept otherwise |
| HistoryScan.FinishedAfterCheckpoints | packages/backend/src/services/history-scanner.ts:122-128 | after a completed pass the stored checkpoint is the mark, or unchanged when no newer message was seen |
| HistoryScan.PrefixStep | packages/backend/src/services/history-scanner.ts:78-87 | one more message extends the notice count and the mark by that message |
| HistoryScan.WithCheckpointTwice | packages/backend/src/services/history-scanner.ts:115-127 | a second checkpoint write replaces the first |
| HistoryScan.CheckpointBounds | packages/backend/src/services/history-scanner.ts:114-128 | the checkpoint a pass leaves lies between its starting checkpoint and the mark of the stream, and equals the mark after a completed pass |
| HistoryScan.HistoryScanner.constructor | packages/backend/src/services/history-scanner.ts:20 | no scan is registered |
| HistoryScan.HistoryScanner.Record | packages/backend/src/services/history-scanner.ts:89-99 | ingesting a scanned message adds a rental iff it reports one inserted |
| HistoryScan.HistoryScanner.Visit | packages/backend/src/services/history-scanner.ts:78-119 | one loop turn: it counts the message, counts a notice, adds a rental iff one is inserted, raises the mark and writes a due checkpoint |
| HistoryScan.HistoryScanner.Checkpoint | packages/backend/src/services/history-scanner.ts:113-119 | the periodic write stores what `Checkpointed` names |
| HistoryScan.HistoryScanner.Walk | packages/backend/src/services/history-scanner.ts:78-119 | the loop turns up to a stop position keep the counts, the mark and the due checkpoints in step with the messages read, or end on the message whose recording failed, counted but not checkpointed |
| HistoryScan.HistoryScanner.Loop | packages/backend/src/services/history-scanner.ts:78-120 | the loop ends with `newRentalsInserted <= rentalsFound <= totalProcessed`. It reads the whole stream, stops at a flood wait or another `iterMessages` error exactly at its position (possibly before any message), or fails on a recorded message. The counts match the messages read, and the stored checkpoint is the last one due |
| HistoryScan.HistoryScanner.Pass | packages/backend/src/services/history-scanner.ts:69-128 | the same with the final checkpoint |
| HistoryScan.HistoryScanner.ScanOnce | packages/backend/src/services/history-scanner.ts:59-128 | a pass never lowers the stored checkpoint and never raises it above the chat's highest id. A completed pass sets it to that id, having counted every message after the old checkpoint and every rental notice among them |
| HistoryScan.HistoryScanner.RunScan | packages/backend/src/services/history-scanner.ts:56-174 | the registered scan always deletes its entry; a flood wait reruns from the stored checkpoint; an ingestion error or any other `iterMessages` error, even before the first message, ends it with an error; a result reports bounded counts |
| HistoryScan.HistoryScanner.ScanUser | packages/backend/src/services/history-scanner.ts:33-175 | a running scan, a missing client or a missing user fails before anything changes. After every exit the user is not scanning; on success the checkpoint is the chat's highest id (or the old one) |
| AuthFlows.StartResultCases | packages/backend/src/services/auth-flow.ts:21-44 | `startAuth` succeeds iff connect and send-code both go through, and a failure carries its error |
| AuthFlows.CodeResultCases | packages/backend/src/services/auth-flow.ts:46-74 | without a client the answer is "Auth not started". SESSION_PASSWORD_NEEDED asks for the second factor, the two code errors get fixed messages, and anything else is a generic failure |
| AuthFlows.PasswordResultCases | packages/backend/src/services/auth-flow.ts:76-94 | the password step succeeds iff there is a client and the check goes through |
| AuthFlows.AuthFlow.constructor | packages/backend/src/services/auth-flow.ts:14-15 | a new flow has no client and an empty code hash |
| AuthFlows.AuthFlow.StartAuth | packages/backend/src/services/auth-flow.ts:21-44 | a fresh client is stored before connecting, so it stays even when the call fails; the code hash is set only on success |
| AuthFlows.AuthFlow.SubmitCode | packages/backend/src/services/auth-flow.ts:46-74 | the result is the mapped sign-in outcome, and no field changes |
| AuthFlows.AuthFlow.Submit2FA | packages/backend/src/services/auth-flow.ts:76-94 | the result is the password check's outcome, and no field changes |
| AuthFlows.AuthFlow.GetSessionString | packages/backend/src/services/auth-flow.ts:96-99 | it throws iff there is no client |
| AuthFlows.AuthFlow.Destroy | packages/backend/src/services/auth-flow.ts:105-110 | the client is disconnected and cleared; when the disconnect throws, the client is kept and the error is rethrown; without a client nothing happens |
| AuthStateMachine.KeepDigits | packages/backend/src/bot/auth-state-machine.ts:126 | the code holds only digits: empty iff the input has none, and the input itself when it is all digits |
| AuthStateMachine.KeepDigitsChar | packages/backend/src/bot/auth-state-machine.ts:126 | one character is kept iff it is a digit |
| AuthStateMachine.KeepDigitsAppend | packages/backend/src/bot/auth-state-machine.ts:126 | the digits keep their order: the code of a concatenation is the codes of its parts joined |
| AuthStateMachine.StepsMoveForward | packages/backend/src/bot/auth-state-machine.ts:112-150 | steps only move forward, one at a time, and the phone step is never re-entered |
| AuthStateMachine.CommandsIgnoreStep | packages/backend/src/bot/auth-state-machine.ts:72-81 | a "/" command is routed the same way at every step: /cancel, /start or passed on |
| AuthStateMachine.PhoneNeedsPlus | packages/backend/src/bot/auth-state-machine.ts:104-107 | a phone number without "+" keeps the step whatever `startAuth` would answer |
| AuthStateMachine.CodeNeedsDigits | packages/backend/src/bot/auth-state-machine.ts:126-131 | a code without digits keeps the step and is never submitted |
| AuthStateMachine.FinishNeedsSignIn | packages/backend/src/bot/auth-state-machine.ts:137-166 | a login finishes only from the code or password step, with a client, after the sign-in or password check went through |
| AuthStateMachine.TwoFANeedsPasswordNeeded | packages/backend/src/bot/auth-state-machine.ts:137-141 | the password step is entered only from the code step, on SESSION_PASSWORD_NEEDED |
| AuthStateMachine.AuthStates.constructor | packages/backend/src/bot/auth-state-machine.ts:21 | no attempt is open |
| AuthStateMachine.AuthStates.StartConnect | packages/backend/src/bot/auth-state-machine.ts:24-58 | an unknown or already connected user is refused with no change. Otherwise the earlier flow is destroyed and a fresh attempt opens at the phone step |
| AuthStateMachine.AuthStates.HandlePhone | packages/backend/src/bot/auth-state-machine.ts:103-123 | no "+": same step. `startAuth` success: code step with the number kept. Failure: the attempt is dropped |
| AuthStateMachine.AuthStates.HandleCode | packages/backend/src/bot/auth-state-machine.ts:125-151 | no digits: same step; second factor needed: password step; failure: dropped; success: finished |
| AuthStateMachine.AuthStates.Handle2FA | packages/backend/src/bot/auth-state-machine.ts:153-167 | failure drops the attempt; success finishes |
| AuthStateMachine.AuthStates.FinishAuth | packages/backend/src/bot/auth-state-machine.ts:169-204 | the encrypted session is stored and the user marked connected. The flow's client is registered as connected and the attempt dropped |
| AuthStateMachine.AuthStates.Dispatch | packages/backend/src/bot/auth-state-machine.ts:84-94 | the step's handler runs and its effect is the step function's |
| AuthStateMachine.AuthStates.Recover | packages/backend/src/bot/auth-state-machine.ts:95-100 | a thrown error destroys the flow and drops the attempt |
| AuthStateMachine.AuthStates.HandleStep | packages/backend/src/bot/auth-state-machine.ts:83-100 | the handler, then the catch when its reply throws |
| AuthStateMachine.AuthStates.HandleText | packages/backend/src/bot/auth-state-machine.ts:69-100 | /cancel and /start drop the attempt (/start also goes on); other commands go on untouched; anything else goes to the step's handler |
| AuthStateMachine.AuthStates.HandleUpdate | packages/backend/src/bot/auth-state-machine.ts:61-101 | a message without sender or text, or from a user with no attempt, goes on untouched; any other is trimmed and handled |
| TelegramAuth.SplitAmpersand | packages/backend/src/api/middleware/telegram-auth.ts:38 | the pieces between "&" hold no "&" |
| TelegramAuth.PlusToSpace | packages/backend/src/api/middleware/telegram-auth.ts:38 | "+" decodes to a space and every other character is kept |
| TelegramAuth.Get | packages/backend/src/api/middleware/telegram-auth.ts:39 | `get` returns the value of a pair with that name, and nothing iff no pair has it |
| TelegramAuth.Without | packages/backend/src/api/middleware/telegram-auth.ts:45 | `delete` removes exactly the pairs with that name |
| TelegramAuth.InsertByKey | packages/backend/src/api/middleware/telegram-auth.ts:47 | an insertion adds exactly the new pair |
| TelegramAuth.InsertByKeySorted | packages/backend/src/api/middleware/telegram-auth.ts:47 | an insertion keeps the pairs sorted by name |
| TelegramAuth.SortByKey | packages/backend/src/api/middleware/telegram-auth.ts:47 | the sort yields the same pairs ordered by name |
| TelegramAuth.Render | packages/backend/src/api/middleware/telegram-auth.ts:48 | each pair renders as "key=value" |
| TelegramAuth.CheckedPairs | packages/backend/src/api/middleware/telegram-auth.ts:45-47 | the data-check string lists every pair except `hash`, sorted by name |
| TelegramAuth.DataCheckStringSkipsHash | packages/backend/src/api/middleware/telegram-auth.ts:45-49 | adding a `hash` pair leaves the signed string as it was |
| TelegramAuth.Hex | packages/backend/src/api/middleware/telegram-auth.ts:56 | the hex digest has two characters per byte |
| TelegramAuth.UnhexHex | packages/backend/src/api/middleware/telegram-auth.ts:56 | the hex rendering reads back as the digest |
| TelegramAuth.HexInjective | packages/backend/src/api/middleware/telegram-auth.ts:56-58 | two digests with the same hex are equal, so comparing hex compares digests |
| TelegramAuth.BypassIgnoresHeader | packages/backend/src/api/middleware/telegram-auth.ts:27-29 | "/cars/…" and "/api/health" skip every check, whatever the header |
| TelegramAuth.HeaderNeedsScheme | packages/backend/src/api/middleware/telegram-auth.ts:31-35 | a header without "tma " is refused |
| TelegramAuth.MissingHashNeedsNoHmac | packages/backend/src/api/middleware/telegram-auth.ts:39-43 | a missing or empty `hash` is refused whatever the HMAC would give |
| TelegramAuth.SignatureDecides | packages/backend/src/api/middleware/telegram-auth.ts:51-61 | init data with a hash is refused as "Invalid hash" iff the hash differs from the hex HMAC of its data-check string |
| TelegramAuth.AuthenticatedIsSigned | packages/backend/src/api/middleware/telegram-auth.ts:39-80 | an authenticated request carried the right signature and a user. Its database user, if set, has that Telegram id; if unset, no user has it |
| TelegramAuth.Request.constructor | packages/backend/src/api/middleware/telegram-auth.ts:15-20 | a request starts with neither user field set |
| TelegramAuth.TelegramAuthMiddleware | packages/backend/src/api/middleware/telegram-auth.ts:22-81 | a 401 is sent iff the check refuses, with its error. An authenticated request gets its Telegram user, and its database user only when one exists; otherwise nothing is set |
| RentalsRoute.ParseInt | packages/backend/src/api/routes/rentals.ts:20-21 | `parseInt` gives a number only when the text holds a digit |
| RentalsRoute.ParseIntReadBack | packages/backend/src/api/routes/rentals.ts:20-21 | `parseInt` reads back every integer's decimal rendering |
| RentalsRoute.ParseDefaults | packages/backend/src/api/routes/rentals.ts:20-21 | the defaults "1" and "20" read as 1 and 20 |
| RentalsRoute.PageOf | packages/backend/src/api/routes/rentals.ts:20 | a numeric page is at least 1, and the default is 1 |
| RentalsRoute.LimitOf | packages/backend/src/api/routes/rentals.ts:21 | a numeric limit lies in 1..50, and the default is 20 |
| RentalsRoute.PageOfNumber | packages/backend/src/api/routes/rentals.ts:20 | a numeric page parameter `p` gives `max(1, p)` |
| RentalsRoute.LimitOfNumber | packages/backend/src/api/routes/rentals.ts:21 | a numeric limit `l` gives `min(50, max(1, l))` |
| RentalsRoute.Pages | packages/backend/src/api/routes/rentals.ts:76 | `pages` is the least count whose pages hold the total |
| RentalsRoute.RowOnPage | packages/backend/src/api/routes/rentals.ts:22 | every row lies on exactly the page its position names, that page exists, and its offset is `(page - 1) * limit` |
| RentalsRoute.HistoryConditions | packages/backend/src/api/routes/rentals.ts:24-37 | the first condition is the caller's user id; `from` and `to` are added iff given, and `vehicleId` (as `parseInt` reads it) and `server` iff non-empty |
| RentalsRoute.Selected | packages/backend/src/api/routes/rentals.ts:39-58 | the selection holds only rows satisfying every condition |
| RentalsRoute.SelectedComplete | packages/backend/src/api/routes/rentals.ts:39-58 | every row satisfying every condition is selected |
| RentalsRoute.Joined | packages/backend/src/api/routes/rentals.ts:57 | the join keeps exactly the rows whose vehicle exists |
| RentalsRoute.FirstEarlier | packages/backend/src/api/routes/rentals.ts:59 | the insertion point is the first row rented strictly earlier |
| RentalsRoute.InsertByRentedAt | packages/backend/src/api/routes/rentals.ts:59 | an insertion adds one row |
| RentalsRoute.InsertByRentedAtAdds | packages/backend/src/api/routes/rentals.ts:59 | an insertion adds exactly that row |
| RentalsRoute.InsertByRentedAtOrder | packages/backend/src/api/routes/rentals.ts:59 | an insertion keeps the rows latest first |
| RentalsRoute.ByRentedAtDescOrder | packages/backend/src/api/routes/rentals.ts:59 | the ordered rows are latest first |
| RentalsRoute.ByRentedAtDescPermutes | packages/backend/src/api/routes/rentals.ts:59 | the ordered rows are the same rows, as often as before |
| RentalsRoute.Window | packages/backend/src/api/routes/rentals.ts:60-61 | the window holds at most `limit` rows, taken in order from `offset`, and is full when enough rows remain |
| RentalsRoute.HistoryOnlyOwnRows | packages/backend/src/api/routes/rentals.ts:17-77 | a listing holds only the caller's rentals, at most a page of them, and its page count covers the total |
| RentalsRoute.ListedAreJoined | packages/backend/src/api/routes/rentals.ts:56-61 | the rows of a page come from the selection and have their vehicle |
| RentalsRoute.HistoryNeedsUser | packages/backend/src/api/routes/rentals.ts:17-18 | a request without a database user is answered 401 |
| RentalsRoute.StatsConditions | packages/backend/src/api/routes/rentals.ts:108-118 | the statistics conditions start with the caller's user id and the period start |
| RentalsRoute.StatsOnlyOwnRows | packages/backend/src/api/routes/rentals.ts:108-120 | every aggregated row is the caller's and rented since the period start |
| RentalsRoute.MostRentedOf | packages/backend/src/api/routes/rentals.ts:159-161 | the most-rented vehicle is null iff the breakdown is empty, and otherwise the id, name and count of its first row |
| RentalsRoute.MostRentedEarnsMost | packages/backend/src/api/routes/rentals.ts:132-161 | with the breakdown ordered by revenue, the vehicle chosen is the first row and earned the most |
| RentalsRoute.MostRentedIsNotMostOften | packages/backend/src/api/routes/rentals.ts:132-161 | the vehicle chosen need not be the one rented most often |
| Format.DaysAndHours | packages/web/src/utils/format.ts:17-18 | for at least a day, `days * 24 + rest` is the duration, with `days >= 1` and `0 <= rest < 24` |
| Format.FormatDurationReadBack | packages/web/src/utils/format.ts:15-22 | every non-negative duration is read back from its rendering, so no two durations render alike |
| Format.ReadDaysAndHours | packages/web/src/utils/format.ts:19 | "{days}д {rest}ч" reads back as `days * 24 + rest` |
| Format.FormatDurationUnits | packages/web/src/utils/format.ts:16-21 | under a day the rendering has no day part; from a day on it always has one |
| Format.GetCarImageUrl | packages/web/src/utils/format.ts:24-27 | every picture URL lies under "/cars/" |
| Format.ImageUrlReadBack | packages/web/src/utils/format.ts:24-27 | a non-empty slug's URL names that slug; null or empty gives the default picture, which names no slug |
| ScrapeVehicles.FindMatchingBracket | scripts/scrape-vehicles.ts:29-40 | -1 when the start is not "[". Otherwise the result is the first index where the depth returns to zero: a "]" after the start closing a balanced span, or -1 if the depth never does |
| ScrapeVehicles.Reached | scripts/scrape-vehicles.ts:86-87 | the loop reads the elements before the first `null`, on which `r.model` throws |
| ScrapeVehicles.Extracted | scripts/scrape-vehicles.ts:86-96 | every extracted vehicle has a model and a type, and there are no more vehicles than elements |
| ScrapeVehicles.ExtractedRecords | scripts/scrape-vehicles.ts:84-99 | every extracted vehicle comes from a record with a model and a type before the first `null`, and every such record yields its vehicle |
| ScrapeVehicles.ExtractedStopsAtNull | scripts/scrape-vehicles.ts:84-99 | a `null` element ends extraction: the `catch` returns the vehicles pushed before it, and nothing after it is read |
| ScrapeVehicles.ExtractedSnoc | scripts/scrape-vehicles.ts:86-96 | before any `null`, one more element appends its vehicle when it is a kept record |
| ScrapeVehicles.ExtractVehicles | scripts/scrape-vehicles.ts:84-99 | the push loop, stopped by a `null` element, builds that list |
| ScrapeVehicles.ExtractedDefaults | scripts/scrape-vehicles.ts:88-94 | missing brand, title and name become "" and the record is kept |
| ScrapeVehicles.ExtractedDropsIncomplete | scripts/scrape-vehicles.ts:87 | a record without a model or a type is dropped |
| ScrapeVehicles.LookupHas | scripts/scrape-vehicles.ts:131 | the table holds an entry for a model id iff `has` says so |
| ScrapeVehicles.LookupAppend | scripts/scrape-vehicles.ts:131-137 | adding an entry does not change an id already present |
| ScrapeVehicles.MergedFirstWins | scripts/scrape-vehicles.ts:130-137 | merging keeps one entry per model id: the existing one, or else the first new vehicle's |
| ScrapeVehicles.MergePage | scripts/scrape-vehicles.ts:130-138 | the loop over a page's vehicles performs that merge |
| ScrapeVehicles.MergedConcat | scripts/scrape-vehicles.ts:126-140 | merging two lists one after the other is merging their concatenation |
| ScrapeVehicles.CollectPages | scripts/scrape-vehicles.ts:124-140 | collecting all pages merges every page's extracted vehicles in page order |
| ScrapeVehicles.CollectedFirstWins | scripts/scrape-vehicles.ts:124-140 | the collected table has one entry per model id, from the first page and record that named it |

## Left out

- Network I/O is reduced to outcome parameters: the grammY bot, the gramjs client, `sendMessage`, `iterMessages` (a flood wait or another error at a chosen position) and the scan's progress messages. The model keeps which call fails and what state follows; reply texts are left out except where a branch returns them.
- Timers are left out: the 30-second `setInterval` of the scheduler, the 30-second progress throttle of the scanner and the flood-wait sleep. The timer is a flag; each `processQueue` call takes the current time as a parameter.
- Async tasks run one at a time and each operation is atomic. Interleavings, such as a scan running beside live messages, are not modelled.
- HistoryScan.HistoryScanner.Visit: a scan passes one `now` to every message it records, where `processRentalMessage` reads the clock anew per message. A rental that expires while the scan runs may therefore be stored as notified, and left unqueued, differently from the source.
- The background scans that `addClient` and `finishAuth` start are not modelled as running. Their errors are swallowed, so the caller's state does not depend on them.
- AES-GCM `encrypt`/`decrypt`, HMAC-SHA256, UTF-8 encoding, percent-decoding and `JSON.parse` are function parameters. `decrypt` and `JSON.parse` may fail; the other three are uninterpreted.
- Timestamps are integer milliseconds. The ISO strings the tables store and compare are not modelled; SQL comparisons on them are modelled as comparisons of the instants.
- TelegramAuth.SortByKey: keys are compared by code points rather than by `localeCompare`, whose collation is platform data. The sort is a stable insertion sort, as `Array.prototype.sort` is stable.
- RentalsRoute.PageOf: `parseInt` of a non-numeric page or limit gives NaN, which the route passes on to SQL unchanged. The model keeps NaN as a value and states the bounds only for numeric input.
- RentalsRoute.ParseInt: numbers beyond 2^53 lose precision in JavaScript; the model reads them exactly.
- ParseRental.ParseRentalMessage: the price's digits are read exactly. `parseInt` rounds a price above 2^53 to the nearest double, and one beyond the double range becomes Infinity; such prices are stored differently by the source. A duration that large already puts the expiry outside the Date range.
- RentalIngestion.ExpiresAt: the expiry is summed exactly. JavaScript multiplies `durationHours * 3600000` in doubles, which round above 2^53; for a sum inside the Date range that needs a message date before 1958, which Telegram does not send.
- The statistics route's period boundaries (`week`, `month`, `year`) use calendar arithmetic and are left out. The period start is a parameter. `totalRevenue`, `averagePrice` rounding, the chart data and the SQL `group by` are left out; `byVehicle` is a parameter ordered by revenue.
- `formatPrice` and `formatDate` depend on locale data and are left out.
- The scraper's `fetchPage`, `downloadImage`, file writes, `main`'s later steps and the RSC string-literal location are left out. Extraction starts from the parsed `results` records.
- `connectionRetries`, event-handler registration and `session.save()` are left out; the saved session string is a parameter.
- The login conversation in packages/backend/src/bot/conversations/auth-conversation.ts is not part of this model. It repeats the step machine's rules inside grammY's replay semantics.
- Bot commands, keyboards, API and process start-up, configuration loading, logging and the web UI are outside the modelled core.
- `durationHours` is stored as a SQL `real`, and `telegram_message_id` may be NULL in the schema. Parsed durations are whole numbers, and every ingested rental has a message id, so both are integers here.
- Text.Lower: only A–Z and the Cyrillic capitals U+0400–U+042F are lower-cased. Other Unicode case mappings of `toLowerCase` are not modelled, such as U+0130, whose small form is two characters long, or the Kelvin sign U+212A, which becomes "k".
- RentalIngestion.Ingest: ingestion uses the corrected parser and slug resolver from "## Findings". As written, a price line without digits would create the vehicle row and then fail the rental insert, because the NaN price becomes NULL in a NOT NULL column; and "Constructor" would be stored with the slug "constructor".
- AuthStateMachine.AuthStates.HandleStep: only a failure of the step's last reply is modelled. A failure of the "⏳" reply sent before `startAuth` is not.
- ScrapeVehicles.Extracted: each field of a parsed record is a string or absent, and an element is a record or `null`. A field holding another JSON value, such as a number, is not modelled; the source would copy such a truthy value into the vehicle as it is. A `results` value that is not an array is not modelled either.
- Notifications.NotificationScheduler.ProcessQueue: the send outcome `delivered` is one answer per rental id within a call. Two due items for the same rental in one call therefore share their outcome.
- HistoryScan.HistoryScanner.RunScan: the rerun after a flood wait passes `connected` as true. The source's rerun checks the client again, and a client lost during the wait would end the scan with "not connected"; that path is not modelled.
- HistoryScan.HistoryScanner.ScanUser: a flood wait reruns the scan with the next entry of a finite list of interrupts, so the number of reruns is bounded by that list.

## Findings

| source | as written | input that shows it | evidently intended | confidence | as-written member | corrected member |
|---|---|---|---|---|---|---|
| packages/shared/src/parse-rental.ts:30-34 | `[\d\s]+` also matches whitespace alone, so a price line without digits still matches. `parseInt("")` then gives NaN and the record is returned with a NaN price | a notice whose price line is "Цена: договорная" | a price line without digits yields no record, as for any other missing field | not executed | ParseRental.NaNPriceAccepted | ParseRental.ParseRentalMessage |
| packages/shared/src/car-mapping.ts:35-36 | `vehiclesMap[normalized]` also sees keys a plain object inherits from `Object.prototype`, so "constructor" counts as a vehicle id | the vehicle name "Constructor" against a table without such a model | strategy 4 accepts only the table's own ids, so every slug names a picture | not executed | CarMapping.ConstructorResolvesToNonKey | CarMapping.SlugIsKey |
