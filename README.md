# A verified model of the engineering monorepo's core

This project is a Dafny model of the parts of the `engineering` monorepo that
hold real logic. It covers four applications.

- **dns-server**, a forwarding DNS resolver.
  - The domain blocklist: parsing a source, and matching a name or any of its parent domains.
  - The TTL-based response cache and the upstream resolver.
  - The per-request handler: FORMERR for unparseable requests, REFUSED for blocked names, cache replay with the request's id, forwarding upstream, and SERVFAIL on upstream failure.
- **tag-updater**: the line-based edit that sets one service's image tag in a compose file.
- **lockers**, a locker check-in service.
  - The event log of check-ins and check-outs, with its two guards and the occupied-lockers query.
  - The page's display formatting.
  - The browser keypad and its form validation.
- **opentracker**, a workout tracker.
  - The backend's grouping of exercise rows into dated workouts.
  - The frontend's bound searches and grouping by exercise.
  - The windowing of the dated line graph.
  - The optimistic bodyweight updates.
  - The Redux slices: bodyweight, workout, pending exercise, analysis, user and user preferences.
  - The add-exercise modal, the exertion indicator, the rep/set view and the weekly volume section.

State that the source changes in place is modelled as Dafny classes. This covers:
- the blocklist manager, the response cache and the locker event table;
- the keypad's global value;
- each Redux slice's draft state;
- the react-query cache of bodyweights.

Each method's `ensures` gives the new state as a function of the old one. Pure code (the parsers, searches, formatting and component logic) is modelled as functions with named results, and lemmas state the properties.

Some behaviour is outside the model and becomes parameters:
- clocks, the network and the file system;
- the upstream lookup and host resolution;
- the blocklist source;
- React rendering.

What the handler receives from the upstream (`lookup`) and whether sending succeeds (`sendOk`) are inputs. The current instant (`now`) is also an input, passed to the cache and to the locker and graph displays.

Two details of the code shape the model:
- The blocklist strips every trailing dot from a queried name (`trim_end_matches('.')`).
- The handler's cache key uses hickory's lower-cased `LowerName`.

Module map (one file per module):

| file | module | source |
|---|---|---|
| wrappers.dfy, text.dfy, js.dfy | Wrappers, Text, Js | shared helpers: Option/Result, `str::lines`/`trim`/lower-casing, number rendering, JavaScript `splice`/`slice` index rules and truthiness |
| dns_message.dfy | DnsMessage | the hickory message fields the resolver touches (section 4.1 of RFC 1035) |
| blocklist.dfy | Blocklist | apps/dns-server/src/blocklist.rs |
| cache.dfy | DnsCache | apps/dns-server/src/cache.rs |
| upstream.dfy | Upstream | apps/dns-server/src/upstream.rs |
| handler.dfy | Handler | apps/dns-server/src/handler.rs |
| tag_editor.dfy | TagEditor | apps/tag-updater/src/editor.rs |
| lockers_persistence.dfy | LockerPersistence | apps/lockers/src/persistence.rs |
| locker_templates.dfy | LockerTemplates | apps/lockers/src/templates.rs |
| locker_keypad.dfy | LockerKeypad | apps/lockers/assets/script.js |
| workout_grouping.dfy | WorkoutGrouping | apps/opentracker/backend/src/utils.rs |
| tracker_types.dfy, tracker_utils.dfy | TrackerTypes, TrackerUtils | apps/opentracker/frontend/src/shared/utils.tsx |
| dated_line_graph.dfy | DatedLineGraph | apps/opentracker/frontend/src/components/DatedLineGraph.tsx |
| bodyweight.dfy | Bodyweight | apps/opentracker/frontend/src/hooks/useBodyweight.ts |
| bodyweight_slice.dfy | BodyweightSlice | apps/opentracker/frontend/src/store/reducers/bodyweightSlice.tsx |
| workout_slice.dfy | WorkoutSlice | apps/opentracker/frontend/src/store/reducers/workoutSlice.tsx |
| pending_exercise_slice.dfy | PendingExerciseSlice | apps/opentracker/frontend/src/store/reducers/pendingExerciseSlice.tsx |
| analysis_slice.dfy | AnalysisSlice | apps/opentracker/frontend/src/store/reducers/analysisSlice.tsx |
| user_slice.dfy | UserSlice | apps/opentracker/frontend/src/store/reducers/userSlice.tsx |
| user_preferences_slice.dfy | UserPreferencesSlice | apps/opentracker/frontend/src/store/reducers/userPreferencesSlice.tsx |
| add_exercise_modal.dfy | AddExerciseModal | apps/opentracker/frontend/src/views/workouts/AddExerciseModal.tsx |
| exertion_indicator.dfy | ExertionIndicator | apps/opentracker/frontend/src/components/ExertionIndicator.tsx |
| rep_set_view.dfy | RepSetView | apps/opentracker/frontend/src/components/RepSetView.tsx |
| weekly_volume_statistics.dfy | WeeklyVolumeStatistics | apps/opentracker/frontend/src/components/WeeklyVolumeStatistics.tsx |

## Model

| member | source | states |
|---|---|---|
| Text.LinesHaveNoNewline | apps/tag-updater/src/editor.rs:70 | no line that `str::lines` produces contains a line feed; with `LinesOfJoined`, splitting gives back the lines it was joined from |
| Text.TrimShape | apps/dns-server/src/blocklist.rs:46 | the trimmed line is no longer than the line and, when not empty, starts and ends with a non-space |
| Text.TrimBlank | apps/dns-server/src/blocklist.rs:46-47 | `trim` gives the empty string exactly for a line of white space only, which the filter then drops |
| Text.Lower | apps/dns-server/src/blocklist.rs:48 | lower-casing keeps the length |
| Text.LowerAt | apps/dns-server/src/blocklist.rs:48 | each character is lower-cased on its own, in place |
| Text.LowerIdempotent | apps/dns-server/src/blocklist.rs:48 | lower-casing an already lower-cased name changes nothing |
| Text.LinesOfJoined | apps/tag-updater/src/editor.rs:70-91 | splitting the joined lines plus one trailing line feed back into lines gives the same lines, for lines with no line breaks |
| Text.NatToString | apps/lockers/src/templates.rs:38-42 | the decimal rendering of a count is a non-empty digit string whose value is the count, with no leading zero (except "0" itself), one digit exactly below 10 |
| Text.IntToString | apps/lockers/src/persistence.rs:102 | a rendered integer starts with '-' exactly when it is negative; the digits (after the '-', if any) are worth its magnitude |
| DnsMessage.RecordTypeName | apps/dns-server/src/handler.rs:86 | the debug name of a record type never contains ':', so it cannot blur the name/type boundary of a cache key |
| DnsMessage.RecordTypeNameInjective | apps/dns-server/src/handler.rs:86 | different record types have different debug names, `Unknown(n)` included |
| DnsMessage.ErrorHeader | apps/dns-server/src/handler.rs:42-45 | an error reply's header copies the request's id, opcode and RD flag, is a response, and carries the given response code |
| Blocklist.ParseLines | apps/dns-server/src/blocklist.rs:44-49 | a domain is in the parsed set iff some line, trimmed, is non-empty, is not a '#' comment, and lower-cases to that domain; duplicates collapse |
| Blocklist.ParseBlocklist | apps/dns-server/src/blocklist.rs:44-49 | every domain of a parsed source is non-empty and already lower-case |
| Blocklist.TrimEndDots | apps/dns-server/src/blocklist.rs:65 | the normalized name is a prefix of the input ending in no '.', and everything removed was '.' |
| Blocklist.Split | apps/dns-server/src/blocklist.rs:76 | `split('.')` always yields at least one label |
| Blocklist.JoinSplit | apps/dns-server/src/blocklist.rs:76-78 | joining the labels of `split('.')` with '.' gives back the name |
| Blocklist.ParentIsAfterDot | apps/dns-server/src/blocklist.rs:77-78 | every parent the loop tries is the text after one of the name's dots |
| Blocklist.AfterDotIsParent | apps/dns-server/src/blocklist.rs:77-78 | the text after every dot of the name is one of the parents the loop tries |
| Blocklist.FirstParent | apps/dns-server/src/blocklist.rs:77-78 | the first parent the loop tries is the text after the name's first dot |
| Blocklist.ParentStep | apps/dns-server/src/blocklist.rs:77-78 | a parent of the text after the first dot is a parent of the whole name, one label further on |
| Blocklist.BlocklistManager.constructor | apps/dns-server/src/blocklist.rs:18-23 | a new manager blocks nothing: its set is empty |
| Blocklist.BlocklistManager.Refresh | apps/dns-server/src/blocklist.rs:27-60 | on success the set is replaced by the parsed content; a load or UTF-8 error is returned and the previous set is kept |
| Blocklist.BlocklistManager.IsBlocked | apps/dns-server/src/blocklist.rs:64-90 | the answer is true iff the normalized name, or the text after one of its dots, is listed; the set is not changed |
| Blocklist.SubdomainBlocked | apps/dns-server/src/blocklist.rs:75-87 | a blocked name blocks every subdomain of it |
| Blocklist.SingleEntry | apps/dns-server/src/blocklist.rs:70-88 | with one entry d, a name is blocked iff it is d or ends in "." + d; so "badexample.com" is not blocked by "example.com", nor is a parent by its child |
| Blocklist.NormalizeTrailingDot | apps/dns-server/src/blocklist.rs:65 | a trailing dot does not change the normalized name |
| Blocklist.ParsedEntryBlocks | apps/dns-server/src/blocklist.rs:44-49 | every entry line of a refreshed source blocks its own domain and all of its subdomains |
| Blocklist.CommentLineIgnored | apps/dns-server/src/blocklist.rs:47 | a source holding only a '#' comment line parses to the empty set |
| Blocklist.TrimEndKeepsHead | apps/dns-server/src/blocklist.rs:46 | trimming a line that starts with a non-space keeps that first character |
| DnsCache.Lookup | apps/dns-server/src/cache.rs:59-70 | a lookup finds a message iff the key is stored and its entry is still live; the message found is the stored one |
| DnsCache.MinTtlIsMinimum | apps/dns-server/src/cache.rs:92-97 | the folded TTL is absent exactly without answers, is at most every answer's TTL, and equals one of them |
| DnsCache.ResponseCache.constructor | apps/dns-server/src/cache.rs:40-55 | a new cache is empty and keeps the configured capacity and default TTL |
| DnsCache.ResponseCache.Get | apps/dns-server/src/cache.rs:59-70 | `get` answers the stored message for a live key and nothing otherwise, without changing the cache |
| DnsCache.ResponseCache.Insert | apps/dns-server/src/cache.rs:74-85 | the entry is stored under the key with the given TTL, or the default TTL when none is given, from `now`; other keys are untouched |
| DnsCache.ResponseCache.Evict | apps/dns-server/src/cache.rs:40-44 | capacity eviction removes one key and nothing else |
| DnsCache.ResponseCache.ExtractTtl | apps/dns-server/src/cache.rs:88-98 | the loop's TTL is absent iff there are no answers, otherwise at most every answer's TTL and equal to one of them |
| DnsCache.InsertKeepsOtherKeys | apps/dns-server/src/cache.rs:74-85 | inserting under one key leaves every other key's lookup unchanged |
| DnsCache.InsertedThenExpires | apps/dns-server/src/cache.rs:20-29 | an inserted message is found until its own TTL elapses from insertion and never after |
| DnsCache.EvictedIsMissed | apps/dns-server/src/cache.rs:40-44 | an evicted key misses at any instant |
| DnsCache.ExtractTtlExamples | apps/dns-server/src/cache.rs:108-153 | no answers give no TTL; one answer of 300 s gives 300; answers of 300, 100 and 500 s give 100 |
| Upstream.New | apps/dns-server/src/upstream.rs:20-65 | a failed host lookup or an empty address list is an error naming the host; otherwise the first address is the only name server, with the host as TLS name and the configured timeout |
| Upstream.Resolve | apps/dns-server/src/upstream.rs:68-103 | a lookup error is returned unchanged; on success the reply is built from the query's first question and holds exactly the records, in order |
| Upstream.AssembledKeepsQuery | apps/dns-server/src/upstream.rs:81-94 | the reply has the query's id, is a NOERROR response with RA set, carries the original question, and answers with exactly the lookup's records |
| Upstream.MockUpstreamAnswer | apps/dns-server/src/upstream.rs:123-169 | with one A record for example.com. upstream, the answers are exactly that address |
| Handler.DnsRequestHandler.constructor | apps/dns-server/src/handler.rs:17-27 | the handler holds the given resolver, blocklist and cache, and has made no upstream call and stored nothing |
| Handler.DnsRequestHandler.HandleRequest | apps/dns-server/src/handler.rs:32-168 | the reply sent, the response info (the request's own header when sending fails) and the new cache are those of `Reply` and `CacheAfter`; exactly one upstream call is made iff the request parses, is not blocked and misses the cache, and its key is stored exactly when that call succeeds |
| Handler.Reply | apps/dns-server/src/handler.rs:38-158 | on every path (FORMERR, REFUSED, cached, upstream answer, SERVFAIL) the reply carries the current request's id and its questions |
| Handler.CacheAfter | apps/dns-server/src/handler.rs:89-134 | the cache gains exactly the request's key when the request is forwarded and the upstream succeeds, and no other entry changes |
| Handler.ErrorPaths | apps/dns-server/src/handler.rs:38-83 | an unparseable request gets FORMERR; a blocked name gets a REFUSED response with no answers; neither touches the cache |
| Handler.UpstreamFailureNotCached | apps/dns-server/src/handler.rs:138-148 | an upstream failure on a miss gives SERVFAIL with the request's questions and caches nothing, so a later identical request misses again |
| Handler.CacheKey | apps/dns-server/src/handler.rs:86 | the key starts with the lower-cased name, then a ':' that is the last one in the key |
| Handler.CacheKeyIgnoresCase | apps/dns-server/src/handler.rs:86 | two questions whose names differ only in letter case share a cache key |
| Handler.CacheKeyInjective | apps/dns-server/src/handler.rs:86 | equal cache keys mean equal names and equal record types |
| Handler.CachedAnswerReplayed | apps/dns-server/src/handler.rs:89-137 | after a successful upstream answer is cached, the same question before its TTL elapses is answered from the cache with those records and the new request's id |
| Handler.UnparsedOrBlockedNotForwarded | apps/dns-server/src/handler.rs:38-83 | an unparseable request or a blocked name never goes upstream |
| Handler.HitNotForwarded | apps/dns-server/src/handler.rs:89-113 | a cache hit never goes upstream |
| Handler.FailureForwardsAgain | apps/dns-server/src/handler.rs:124-148 | after an upstream failure the identical request, at any later instant, goes upstream again |
| Handler.SuccessNotForwardedAgain | apps/dns-server/src/handler.rs:124-137 | after an upstream success the identical request, before the stored TTL elapses, is not forwarded again |
| TagEditor.Describe | apps/tag-updater/src/editor.rs:51-65 | every error's message reads back as that error: the three messages are told apart and the service name is recovered from between the fixed texts |
| TagEditor.DescribeInjective | apps/tag-updater/src/editor.rs:51-65 | two errors with the same message are the same error |
| TagEditor.FindLine | apps/tag-updater/src/editor.rs:71-80 | `position` for an exact line: the first index at or after the start holding the line, or none when no such line exists |
| TagEditor.FindPrefixLine | apps/tag-updater/src/editor.rs:82-86 | `position` for a prefix: the first index at or after the start whose line starts with the prefix, or none |
| TagEditor.TagLineIndex | apps/tag-updater/src/editor.rs:71-87 | the line found is in range and starts with "    tag:"; every error is one of the three, naming the requested service |
| TagEditor.MakeTagEditInString | apps/tag-updater/src/editor.rs:69-92 | the edit succeeds iff the tag line is found, its output then ends with a line feed, and every error names the requested service |
| TagEditor.ServicesBlockMissing | apps/tag-updater/src/editor.rs:71-74 | the edit fails with ServicesBlockNotFound iff no line is exactly "services:" |
| TagEditor.ServiceMissing | apps/tag-updater/src/editor.rs:76-80 | the edit fails with ServiceNotFound iff there is a "services:" line but no service header at or after the first one |
| TagEditor.TagKeyMissing | apps/tag-updater/src/editor.rs:82-86 | the edit fails with TagKeyNotFound iff the header exists but no "    tag:" line is at or after it |
| TagEditor.ReplacedLine | apps/tag-updater/src/editor.rs:82-88 | the line replaced is the first "    tag:" line at or after the first header at or after the first "services:" line |
| TagEditor.EditReadsBack | apps/tag-updater/src/editor.rs:88-91 | after the edit the same searches find the same line, which now reads "    tag: " + tag |
| TagEditor.SuccessChangesOneLine | apps/tag-updater/src/editor.rs:88-91 | a successful edit keeps the line count and every line but the tag line, which becomes "    tag: " + tag |
| TagEditor.EditIsIdempotent | apps/tag-updater/src/editor.rs:69-92 | applying the same edit to its own output gives that output back |
| TagEditor.FindLineUnchanged | apps/tag-updater/src/editor.rs:71-80 | a search whose match lies before the only changed line finds the same match in the edited lines |
| TagEditor.FindPrefixLineAt | apps/tag-updater/src/editor.rs:82-86 | a prefix search finds the same line after an edit that keeps the prefix at that line and the lines before it |
| TagEditor.EditsNextServiceTag | apps/tag-updater/src/editor.rs:82-86 | the tag search is not confined to the service's block: a service with no tag of its own gets the next service's tag line rewritten |
| TagEditor.MissingServiceReported | apps/tag-updater/src/editor.rs:128-139 | editing a service that does not exist fails with ServiceNotFound naming it |
| TagEditor.ExampleSearches | apps/tag-updater/src/editor.rs:71-86 | on a sample file, the searches locate the tag line and report a missing service |
| TagEditor.LinesExample | apps/tag-updater/src/editor.rs:70 | `str::lines` splits a sample file into its lines without the final empty line |
| LockerPersistence.ParseBagType | apps/lockers/src/persistence.rs:38-46 | parsing accepts exactly the two `as_str` names, each giving back its bag type, and rejects every other string |
| LockerPersistence.LatestForLocker | apps/lockers/src/persistence.rs:183-202 | the latest event of a locker is one of its events, and there is none iff the locker has no events |
| LockerPersistence.LatestForBag | apps/lockers/src/persistence.rs:204-223 | the latest event of a bag is one of its events, and there is none iff the bag has no events |
| LockerPersistence.LatestAfterAppend | apps/lockers/src/persistence.rs:113-130 | after appending an event, it is the latest for its locker and its bag; the others keep their latest event |
| LockerPersistence.LatestIsNewest | apps/lockers/src/persistence.rs:189-191 | in a log ordered by time, the event found is the newest of its locker |
| LockerPersistence.LockersFrom | apps/lockers/src/persistence.rs:56-89 | the lockers listed from number n up are ascending, and each is occupied and shown with its latest event |
| LockerPersistence.SelectAllLockers | apps/lockers/src/persistence.rs:56-89 | the occupied-lockers query lists lockers in ascending number, each occupied and shown with its latest event's bag and time |
| LockerPersistence.LockersFromComplete | apps/lockers/src/persistence.rs:56-89 | every occupied locker numbered at least n is listed |
| LockerPersistence.PrependLocker | apps/lockers/src/persistence.rs:56-89 | an occupied locker n in front of the listing from n + 1 keeps the listing ascending, occupied and up to date |
| LockerPersistence.OccupiedFirst | apps/lockers/src/persistence.rs:56-89 | an occupied locker n heads the listing from n |
| LockerPersistence.LaterListed | apps/lockers/src/persistence.rs:56-89 | everything listed from n + 1 is listed from n too |
| LockerPersistence.ListedIffOccupied | apps/lockers/src/persistence.rs:56-89 | a locker is listed iff it is occupied |
| LockerPersistence.OneLockerPerBag | apps/lockers/src/persistence.rs:106-111 | in a consistent log, two occupied lockers holding the same bag are the same locker, and that bag is checked in |
| LockerPersistence.BagCheckedInIsHeld | apps/lockers/src/persistence.rs:204-223 | in a consistent log, a checked-in bag is held by some occupied locker |
| LockerPersistence.CheckInKeepsConsistent | apps/lockers/src/persistence.rs:91-133 | the guarded check-in keeps the log consistent |
| LockerPersistence.CheckOutKeepsConsistent | apps/lockers/src/persistence.rs:135-181 | the guarded check-out keeps the log consistent |
| LockerPersistence.NoBagInTwoLockers | apps/lockers/src/persistence.rs:99-111 | no sequence of check-ins and check-outs from an empty log puts one bag in two occupied lockers |
| LockerPersistence.RunKeepsConsistent | apps/lockers/src/persistence.rs:91-181 | any sequence of requests keeps a consistent log consistent |
| LockerPersistence.ApplyKeepsConsistent | apps/lockers/src/persistence.rs:91-181 | one request keeps a consistent log consistent |
| LockerPersistence.ApplyKeepsOrdered | apps/lockers/src/persistence.rs:91-181 | a request stamped later than the last event keeps the log ordered by time |
| LockerPersistence.CheckedOutBagCanReturn | apps/lockers/src/tests.rs:233-280 | once its locker is checked out, a bag can be checked in to any free locker |
| LockerPersistence.LockerStore.constructor | apps/lockers/src/persistence.rs:56-89 | a new event table is empty, hence in time order and consistent |
| LockerPersistence.LockerStore.SelectAll | apps/lockers/src/persistence.rs:56-89 | `select_all_lockers` returns the occupied-lockers query over the table, which it does not change |
| LockerPersistence.LockerStore.InsertCheckIn | apps/lockers/src/persistence.rs:91-133 | an occupied locker is refused with "Locker #n is already occupied"; then a bag already in is refused with its display name; otherwise exactly one CheckIn event is appended; a table in time order and consistent stays so when the event is stamped later |
| LockerPersistence.LockerStore.InsertCheckOut | apps/lockers/src/persistence.rs:135-181 | a free locker is refused with "Locker #n is not occupied"; otherwise one CheckOut event is appended with the bag of the locker's latest event, which in the time-ordered table is its newest by `occurred_at`; the table stays in time order and consistent |
| LockerPersistence.MovedBagExample | apps/lockers/src/tests.rs:233-280 | check in, check out, then check the same bag in elsewhere: the new locker is occupied with it and the old one is free |
| LockerPersistence.OccupiedLockerRefused | apps/lockers/src/tests.rs:142-174 | a second check-in to locker 50 is refused as occupied |
| LockerPersistence.HeldBagRefused | apps/lockers/src/tests.rs:176-208 | checking the same bag in to a second locker is refused with its display name |
| LockerPersistence.UnoccupiedCheckOutRefused | apps/lockers/src/tests.rs:210-231 | checking out unoccupied locker 999 is refused |
| LockerTemplates.NumSeconds | apps/lockers/src/templates.rs:36-37 | the whole seconds of a non-negative duration are its milliseconds over 1000; a negative duration has none positive |
| LockerTemplates.NumMinutes | apps/lockers/src/templates.rs:37 | the whole minutes of a non-negative duration are its milliseconds over 60000; never positive for a negative one |
| LockerTemplates.NumHours | apps/lockers/src/templates.rs:36 | the whole hours of a non-negative duration are its milliseconds over 3600000; never positive for a negative one |
| LockerTemplates.TruncDiv | apps/lockers/src/templates.rs:36-37 | chrono's whole-unit conversion: Euclidean quotient for non-negative durations, never positive for negative ones |
| LockerTemplates.TruncMod | apps/lockers/src/templates.rs:38 | Rust `%`: the Euclidean remainder for non-negative operands, in (-b, 0] for negative ones |
| LockerTemplates.FormatDuration | apps/lockers/src/templates.rs:35-46 | the text is "just now" exactly for durations under one minute, negative ones included |
| LockerTemplates.HoursAndMinutes | apps/lockers/src/templates.rs:35-40 | with whole hours above zero the text is "{h}h {m}m ago", with m below 60 and h*60+m the whole minutes |
| LockerTemplates.MinutesOnly | apps/lockers/src/templates.rs:41-42 | between one minute and one hour the text is "{m}m ago" with m the whole minutes |
| LockerTemplates.JustNow | apps/lockers/src/templates.rs:43-45 | under one minute, and for negative durations, the text is "just now" |
| LockerTemplates.FormatExamples | apps/lockers/src/templates.rs:35-46 | 90 minutes read "1h 30m ago" and 90 seconds read "1m ago" |
| LockerTemplates.DisplayOf | apps/lockers/src/templates.rs:20-33 | a displayed locker copies the number and the bag's display name and icon, and formats now minus the check-in time |
| LockerTemplates.RecentCheckInJustNow | apps/lockers/src/templates.rs:20-33 | a locker checked in less than a minute ago reads "just now" |
| LockerTemplates.NewIndexContext | apps/lockers/src/templates.rs:61-82 | the page lists the lockers one for one in the given order and passes the error message through |
| LockerTemplates.BagTypeChoices | apps/lockers/src/templates.rs:61-82 | the picker always offers the two bag types in fixed order, each value parsing back to the bag with that display name |
| LockerTemplates.IndexListsLockersInOrder | apps/lockers/src/templates.rs:61-82 | the page shows the occupied lockers in ascending number |
| LockerKeypad.DigitKeyIsDigit | apps/lockers/assets/script.js:57 | for a one-character key, the string comparison accepts exactly the digits |
| LockerKeypad.NamedKeyIsNotDigit | apps/lockers/assets/script.js:57 | a named key such as "Backspace" or "Escape" is not taken for a digit |
| LockerKeypad.DisplayText | apps/lockers/assets/script.js:9-19 | for a value of at most three characters the display is three wide, and it ends with the value |
| LockerKeypad.Pressed | apps/lockers/assets/script.js:23-27 | a press only appends to the value, and changes nothing once three characters are entered |
| LockerKeypad.PadStart | apps/lockers/assets/script.js:15 | `padStart(3, '_')` keeps a long value and left-fills a short one to exactly width 3 |
| LockerKeypad.Backspaced | apps/lockers/assets/script.js:48 | backspace drops the last character and leaves "" unchanged |
| LockerKeypad.KeysKeepKeypadValue | apps/lockers/assets/script.js:23-50 | presses and backspaces keep the value at most three digits; a press on three digits changes nothing |
| LockerKeypad.DisplayWidth | apps/lockers/assets/script.js:5-20 | the display is always three characters, ending in the value when there is one |
| LockerKeypad.Keypad.constructor | apps/lockers/assets/script.js:1-2 | the page starts with an empty value, showing "---" and an empty hidden field |
| LockerKeypad.Keypad.UpdateDisplay | apps/lockers/assets/script.js:5-20 | "---" and "" for an empty value, else the padded value and the value itself |
| LockerKeypad.Keypad.Press | apps/lockers/assets/script.js:23-38 | a digit is appended only below three characters, and the display then follows the value |
| LockerKeypad.Keypad.Clear | apps/lockers/assets/script.js:41-44 | the value is reset to "" and shown |
| LockerKeypad.Keypad.Backspace | apps/lockers/assets/script.js:47-50 | the last character is dropped and the display follows |
| LockerKeypad.Keypad.KeyDown | apps/lockers/assets/script.js:53-67 | a digit presses, Backspace backspaces, Escape clears, other keys and pages without the keypad are ignored |
| LockerKeypad.SkipSpace | apps/lockers/assets/script.js:79 | `parseInt` skips leading white space: the rest is a suffix starting with a non-space |
| LockerKeypad.DigitPrefix | apps/lockers/assets/script.js:79 | the digits `parseInt` reads are the longest run of digits at the start |
| LockerKeypad.DigitsValueBound | apps/lockers/assets/script.js:79-81 | up to three digits are worth at most 999 |
| LockerKeypad.ParseInt | apps/lockers/assets/script.js:79 | `parseInt` is NaN exactly when no digit follows the white space and optional sign |
| LockerKeypad.ParseRendered | apps/lockers/assets/script.js:79 | `parseInt` reads back every integer as it is rendered in decimal |
| LockerKeypad.ValidateFormAccepts | apps/lockers/assets/script.js:70-88 | the form is accepted iff the field is non-empty and parses to an integer in 0..999; an empty field gets the keypad alert |
| LockerKeypad.ValidateForm | apps/lockers/assets/script.js:70-88 | an accepted field parses to a number in 0..999; a rejected one gets the keypad alert exactly when empty and the range alert otherwise |
| LockerKeypad.ParseDigits | apps/lockers/assets/script.js:79 | a string of digits parses to its decimal value |
| LockerKeypad.NegativeDigit | apps/lockers/assets/script.js:79 | a minus sign and one digit parse to minus that digit's value |
| LockerKeypad.OutOfRangeRejected | apps/lockers/assets/script.js:81-85 | a non-empty field whose number is below 0 or above 999 gets the range alert |
| LockerKeypad.DigitPrefixAll | apps/lockers/assets/script.js:79 | in a string of digits every character is read |
| LockerKeypad.KeypadValuesAccepted | apps/lockers/assets/script.js:79-85 | every non-empty value the keypad can produce passes validation |
| LockerKeypad.KeypadSubmission | apps/lockers/assets/script.js:70-88 | a form submitted from a non-empty keypad is accepted |
| LockerKeypad.EmptyAndNaNRejected | apps/lockers/assets/script.js:73-85 | "" gets the keypad alert and "abc" the range alert |
| LockerKeypad.NegativeRejected | apps/lockers/assets/script.js:81-85 | "-5" parses to -5 and is refused as out of range |
| WorkoutGrouping.ToExercises | apps/opentracker/backend/src/utils.rs:15 | each row is projected by `Exercise::from`, one for one, in order |
| WorkoutGrouping.RunLength | apps/opentracker/backend/src/utils.rs:14 | `take_while_ref` takes the maximal prefix of rows with the given date |
| WorkoutGrouping.Dates | apps/opentracker/backend/src/utils.rs:12 | the dates of the rows, in order |
| WorkoutGrouping.GroupByDate | apps/opentracker/backend/src/utils.rs:6-27 | the groups' exercises concatenate to the projected rows, each row keeps its group's date, groups are non-empty, and adjacent groups differ in date |
| WorkoutGrouping.PrependRun | apps/opentracker/backend/src/utils.rs:9-24 | the first run of same-day rows, made one workout in front of a grouping of the rest, is a grouping of all the rows |
| WorkoutGrouping.SplitRows | apps/opentracker/backend/src/utils.rs:13-16 | a run of equal dates splits off the front of the rows |
| WorkoutGrouping.EmptyHasNoWorkouts | apps/opentracker/backend/src/utils.rs:9-10 | no rows give no workouts |
| WorkoutGrouping.GroupStep | apps/opentracker/backend/src/utils.rs:9-24 | one batching step: the first row's run becomes one workout, followed by the grouping of the rest |
| WorkoutGrouping.SingleRow | apps/opentracker/backend/src/utils.rs:37-66 | one row gives one workout holding it |
| WorkoutGrouping.ReturningDateSplits | apps/opentracker/backend/src/utils.rs:9-16 | equal dates that are not adjacent form separate workouts |
| WorkoutGrouping.SoleRowFirst | apps/opentracker/backend/src/utils.rs:9-24 | a first row whose date the second row does not share is a workout on its own |
| WorkoutGrouping.TwoSoleRows | apps/opentracker/backend/src/utils.rs:9-24 | two rows of different days give two workouts of one exercise each |
| WorkoutGrouping.SameDayRows | apps/opentracker/backend/src/utils.rs:68-118 | two rows of one day give one workout of two exercises |
| WorkoutGrouping.TwoDays | apps/opentracker/backend/src/utils.rs:120-193 | two rows of one day and one of another give two workouts |
| TrackerTypes.DateTime.constructor | apps/opentracker/frontend/src/shared/utils.tsx:5-38 | a date object holds its instant |
| TrackerUtils.FindLowerBoundIndex | apps/opentracker/frontend/src/shared/utils.tsx:5-16 | the first index whose label is at or after the bound, or none when there is none |
| TrackerUtils.LowerBoundUnique | apps/opentracker/frontend/src/shared/utils.tsx:5-16 | the lower-bound answer is determined by the labels and the bound |
| TrackerUtils.LowerBoundSplits | apps/opentracker/frontend/src/shared/utils.tsx:9-13 | on ascending labels, the labels from the index on are at or after the bound and those before it are earlier |
| TrackerUtils.FindUpperBoundIndex | apps/opentracker/frontend/src/shared/utils.tsx:18-38 | none when the bound precedes the first label; else, scanning from index 1, i+1 for the very object at i, i for the first later label, and none when the scan runs out |
| TrackerUtils.UpperBoundSplits | apps/opentracker/frontend/src/shared/utils.tsx:18-38 | on ascending labels whose first label is not after the bound, the labels before the index (or all labels, for none) are exactly those not after the bound |
| TrackerUtils.UpperBoundExamples | apps/opentracker/frontend/tests/utils.spec.tsx:34-46 | a bound that is the second label, or lies between the second and third, gives index 2 |
| TrackerUtils.KeysInOrder | apps/opentracker/frontend/src/shared/utils.tsx:40-66 | the (variant, description) keys by first occurrence are distinct |
| TrackerUtils.KeysInOrderMembers | apps/opentracker/frontend/src/shared/utils.tsx:40-66 | a key is listed iff some exercise has it |
| TrackerUtils.GroupByExercise | apps/opentracker/frontend/src/shared/utils.tsx:40-66 | one group per key in order of first occurrence, each listing that key's details in input order |
| TrackerUtils.GroupStep | apps/opentracker/frontend/src/shared/utils.tsx:43-56 | one `reduce` step adds a new key at the end or extends an existing key's details |
| TrackerUtils.TotalDetailsAppend | apps/opentracker/frontend/src/shared/utils.tsx:43-56 | one more exercise adds one detail to the total over the keys that include its key |
| TrackerUtils.TotalDetailsNew | apps/opentracker/frontend/src/shared/utils.tsx:43-56 | a key that no exercise has adds no details |
| TrackerUtils.NoDetailsForAbsent | apps/opentracker/frontend/src/shared/utils.tsx:43-56 | a key that no exercise has has no details |
| TrackerUtils.GroupSizesAddUp | apps/opentracker/frontend/src/shared/utils.tsx:43-56 | the group sizes add up to the number of exercises |
| TrackerUtils.KeysByFirstOccurrence | apps/opentracker/frontend/src/shared/utils.tsx:40-66 | a key listed earlier first occurs earlier in the input: the returned index is an occurrence before any given occurrence of the later key |
| TrackerUtils.KeyOccurs | apps/opentracker/frontend/src/shared/utils.tsx:40-66 | every listed key is the key of an exercise at the returned index |
| TrackerUtils.KeyListed | apps/opentracker/frontend/src/shared/utils.tsx:40-66 | every exercise's key is listed |
| DatedLineGraph.JsSlice | apps/opentracker/frontend/src/components/DatedLineGraph.tsx:50 | `slice` never lengthens the array, copies it whole with no bounds, and is empty when the end is at or before minus the length |
| DatedLineGraph.GetSubslice | apps/opentracker/frontend/src/components/DatedLineGraph.tsx:42-48 | the window is no longer than the array, and a lower bound alone keeps everything from it to the end; with `SubslicesPair`, labels and values are cut at the same place |
| DatedLineGraph.SubslicesPair | apps/opentracker/frontend/src/components/DatedLineGraph.tsx:102-106 | labels and values of equal length are cut into windows of equal length at the same contiguous position |
| DatedLineGraph.WindowAsWritten | apps/opentracker/frontend/src/components/DatedLineGraph.tsx:102-106 | the window as written: the bound searches' answers fed to `getSubslice` for labels and values |
| DatedLineGraph.RangeBeforeSeriesShowsAll | apps/opentracker/frontend/src/components/DatedLineGraph.tsx:102-106 | with the whole range before the first label, the window as written is the whole series, none of which lies in the range |
| DatedLineGraph.Window | apps/opentracker/frontend/src/components/DatedLineGraph.tsx:102-106 | the corrected window holds exactly the labels within the range, and labels and values keep equal length |
| DatedLineGraph.WindowIsRange | apps/opentracker/frontend/src/components/DatedLineGraph.tsx:102-106 | with the upper bound corrected to 0 for a range ending before the series, the window holds a label iff it lies within the range |
| DatedLineGraph.WeeksInRange | apps/opentracker/frontend/src/components/DatedLineGraph.tsx:50-56 | the week span is undefined exactly for fewer than two labels |
| DatedLineGraph.AxisUnit | apps/opentracker/frontend/src/components/DatedLineGraph.tsx:157 | the axis is in weeks iff the span is defined and at least 4, and in days otherwise |
| DatedLineGraph.Predictions | apps/opentracker/frontend/src/components/DatedLineGraph.tsx:82-88 | no trend for at most two labels, otherwise one point per label |
| DatedLineGraph.ViewOf | apps/opentracker/frontend/src/components/DatedLineGraph.tsx:189-203 | "No historical data to show" iff the window has no values; otherwise the chart plots the window |
| DatedLineGraph.ShortSeriesByDay | apps/opentracker/frontend/src/components/DatedLineGraph.tsx:108-157 | a one-point window is drawn by day and without a trend |
| DatedLineGraph.ResolvedRange | apps/opentracker/frontend/src/components/DatedLineGraph.tsx:98-100 | a fixed period runs from its start to now; a custom one uses both chosen dates |
| Bodyweight.IndexOf | apps/opentracker/frontend/src/hooks/useBodyweight.ts:122 | `indexOf` is -1 iff the day is absent, otherwise the first index holding it |
| Bodyweight.IndexFrom | apps/opentracker/frontend/src/hooks/useBodyweight.ts:122 | the scan from k finds the first index at or after k holding the day, or -1 when none does |
| Bodyweight.IndexOfAscending | apps/opentracker/frontend/src/hooks/useBodyweight.ts:122 | on ascending labels, `indexOf` finds the one index holding the day |
| Bodyweight.FindInsertionIndex | apps/opentracker/frontend/src/hooks/useBodyweight.ts:17-36 | the scan's answer: every earlier label is before the day, the label at the index (if any) is not, and it is Replace iff that label is the day |
| Bodyweight.PlacementUnique | apps/opentracker/frontend/src/hooks/useBodyweight.ts:17-36 | the placement is determined by the day and the labels |
| Bodyweight.ReplaceIffPresent | apps/opentracker/frontend/src/hooks/useBodyweight.ts:17-36 | on ascending labels, the answer is Replace iff the day is already recorded |
| Bodyweight.Upsert | apps/opentracker/frontend/src/hooks/useBodyweight.ts:76-84 | Replace keeps the labels and overwrites one value; Insert adds one label and keeps the arrays of equal length |
| Bodyweight.UpsertAscending | apps/opentracker/frontend/src/hooks/useBodyweight.ts:76-84 | inserting at the found index keeps the labels strictly ascending |
| Bodyweight.UpsertLookup | apps/opentracker/frontend/src/hooks/useBodyweight.ts:76-84 | after the update the day reads the new value and every other day reads as before |
| Bodyweight.ReplaceLookup | apps/opentracker/frontend/src/hooks/useBodyweight.ts:82-84 | a replacement makes the day read the new value and leaves every other day |
| Bodyweight.InsertLookup | apps/opentracker/frontend/src/hooks/useBodyweight.ts:78-81 | an insertion makes the day read the new value and leaves every other day |
| Bodyweight.Remove | apps/opentracker/frontend/src/hooks/useBodyweight.ts:122-135 | an absent day changes nothing; a present day shortens both arrays by one |
| Bodyweight.RemoveAscending | apps/opentracker/frontend/src/hooks/useBodyweight.ts:122-135 | removal keeps the labels strictly ascending |
| Bodyweight.RemoveLookup | apps/opentracker/frontend/src/hooks/useBodyweight.ts:122-135 | after removal the day reads nothing and every other day reads as before |
| Bodyweight.QueryCache.constructor | apps/opentracker/frontend/src/hooks/useBodyweight.ts:56-66 | the query cache holds the given bodyweights |
| Bodyweight.QueryCache.UpdateMutate | apps/opentracker/frontend/src/hooks/useBodyweight.ts:56-93 | the old snapshot is returned unchanged; the cache becomes the placement's upsert of it, where the day reads the new weight and other days are kept |
| Bodyweight.QueryCache.DeleteMutate | apps/opentracker/frontend/src/hooks/useBodyweight.ts:111-138 | the old snapshot is returned; the cache becomes its guarded removal of the day |
| Bodyweight.QueryCache.Rollback | apps/opentracker/frontend/src/hooks/useBodyweight.ts:94-99 | on error the saved snapshot, when there is one, is put back |
| Bodyweight.QueryCache.FailedUpdate | apps/opentracker/frontend/src/hooks/useBodyweight.ts:56-99 | an optimistic update followed by its error leaves the cache as it was |
| Bodyweight.QueryCache.FailedDelete | apps/opentracker/frontend/src/hooks/useBodyweight.ts:111-145 | an optimistic delete followed by its error leaves the cache as it was |
| BodyweightSlice.DeleteAsWritten | apps/opentracker/frontend/src/store/reducers/bodyweightSlice.tsx:102-108 | the reducer as written splices both arrays at `indexOf` and keeps them of equal length |
| BodyweightSlice.PresentDayDeleted | apps/opentracker/frontend/src/store/reducers/bodyweightSlice.tsx:102-108 | for a recorded day the reducer as written is the guarded removal |
| BodyweightSlice.AbsentDayDropsLast | apps/opentracker/frontend/src/store/reducers/bodyweightSlice.tsx:102-108 | for a day not recorded, the reducer as written drops the last entry, so the last day's weight is lost |
| BodyweightSlice.BodyweightStore.constructor | apps/opentracker/frontend/src/store/reducers/bodyweightSlice.tsx:18-22 | empty labels and values and no request state |
| BodyweightSlice.BodyweightStore.FetchAll | apps/opentracker/frontend/src/store/reducers/bodyweightSlice.tsx:54-59 | the reducer leaves labels, values and request state as they were: its write happens in a callback after the draft is finalized |
| BodyweightSlice.BodyweightStore.Set | apps/opentracker/frontend/src/store/reducers/bodyweightSlice.tsx:60-63 | both arrays replaced, request state kept |
| BodyweightSlice.BodyweightStore.Reset | apps/opentracker/frontend/src/store/reducers/bodyweightSlice.tsx:64-67 | both arrays emptied, request state kept |
| BodyweightSlice.BodyweightStore.ResetRequestState | apps/opentracker/frontend/src/store/reducers/bodyweightSlice.tsx:68-70 | only the request state cleared |
| BodyweightSlice.BodyweightStore.FetchFulfilled | apps/opentracker/frontend/src/store/reducers/bodyweightSlice.tsx:73-76 | the fetched labels and formatted values replace the arrays |
| BodyweightSlice.BodyweightStore.PutPending | apps/opentracker/frontend/src/store/reducers/bodyweightSlice.tsx:78-80 | the request state becomes Pending, nothing else changes |
| BodyweightSlice.BodyweightStore.PutFulfilled | apps/opentracker/frontend/src/store/reducers/bodyweightSlice.tsx:82-100 | Persisted, and the arrays are the placement's upsert: on ascending labels they stay ascending, the day reads the new value and other days are kept |
| BodyweightSlice.BodyweightStore.DeleteFulfilled | apps/opentracker/frontend/src/store/reducers/bodyweightSlice.tsx:102-108 | corrected: the day is removed only when recorded; labels stay ascending, the day reads nothing and other days are kept |
| Js.SpliceOne | apps/opentracker/frontend/src/store/reducers/workoutSlice.tsx:43-45 | `splice(start, 1)` removes the element at `start`, counting from the end for a negative start (the first element once that passes the front); a start at or past the end removes nothing |
| Js.SpliceSameLength | apps/opentracker/frontend/src/store/reducers/bodyweightSlice.tsx:102-108 | splicing two arrays of equal length at the same start leaves them of equal length |
| Js.Assign | apps/opentracker/frontend/src/store/reducers/workoutSlice.tsx:36-42 | assigning an existing index replaces that element alone, assigning at the length appends, and a negative index leaves the elements unchanged |
| Js.Or | apps/opentracker/frontend/src/views/workouts/AddExerciseModal.tsx:58-64 | `a \|\| b` on an optional value: `a` when it is defined and not the falsy value, `b` otherwise |
| WorkoutSlice.WorkoutStore.constructor | apps/opentracker/frontend/src/store/reducers/workoutSlice.tsx:14-18 | no exercises, the modal hidden, no request state |
| WorkoutSlice.WorkoutStore.ResetWorkoutState | apps/opentracker/frontend/src/store/reducers/workoutSlice.tsx:24-26 | only the request state cleared |
| WorkoutSlice.WorkoutStore.ShowAddExerciseModal | apps/opentracker/frontend/src/store/reducers/workoutSlice.tsx:27-29 | the modal shown, nothing else changed |
| WorkoutSlice.WorkoutStore.HideAddExerciseModal | apps/opentracker/frontend/src/store/reducers/workoutSlice.tsx:30-32 | the modal hidden, nothing else changed |
| WorkoutSlice.WorkoutStore.AddExercise | apps/opentracker/frontend/src/store/reducers/workoutSlice.tsx:33-35 | the exercise appended at the end |
| WorkoutSlice.WorkoutStore.EditExercise | apps/opentracker/frontend/src/store/reducers/workoutSlice.tsx:36-42 | assignment to the index, as JavaScript performs it |
| WorkoutSlice.WorkoutStore.DeleteExercise | apps/opentracker/frontend/src/store/reducers/workoutSlice.tsx:43-45 | `splice(index, 1)`, as JavaScript performs it |
| WorkoutSlice.WorkoutStore.FetchFulfilled | apps/opentracker/frontend/src/store/reducers/workoutSlice.tsx:48-50 | the fetched exercises replace the list |
| WorkoutSlice.WorkoutStore.FetchRejected | apps/opentracker/frontend/src/store/reducers/workoutSlice.tsx:52-54 | the list emptied |
| WorkoutSlice.WorkoutStore.PutPending | apps/opentracker/frontend/src/store/reducers/workoutSlice.tsx:56-58 | the request state becomes Pending |
| WorkoutSlice.WorkoutStore.PutFulfilled | apps/opentracker/frontend/src/store/reducers/workoutSlice.tsx:60-62 | the request state becomes Persisted |
| WorkoutSlice.WorkoutStore.DeleteFulfilled | apps/opentracker/frontend/src/store/reducers/workoutSlice.tsx:64-66 | the list emptied |
| WorkoutSlice.EditReplacesOnly | apps/opentracker/frontend/src/store/reducers/workoutSlice.tsx:36-42 | editing an existing index keeps the length and every other exercise |
| WorkoutSlice.DeleteShiftsLeft | apps/opentracker/frontend/src/store/reducers/workoutSlice.tsx:43-45 | deleting removes one exercise and shifts the later ones left; an index at or past the end changes nothing |
| WorkoutSlice.AddThenDeleteRestores | apps/opentracker/frontend/src/store/reducers/workoutSlice.tsx:33-45 | deleting the exercise just added, by its index or by -1, restores the list |
| PendingExerciseSlice.PendingExerciseStore.constructor | apps/opentracker/frontend/src/store/reducers/pendingExerciseSlice.tsx:27-29 | every field undefined and no session loading |
| PendingExerciseSlice.PendingExerciseStore.SetFromExercise | apps/opentracker/frontend/src/store/reducers/pendingExerciseSlice.tsx:54-69 | all six fields copied from the exercise and its index recorded |
| PendingExerciseSlice.PendingExerciseStore.SetVariant | apps/opentracker/frontend/src/store/reducers/pendingExerciseSlice.tsx:70-72 | only the variant changes |
| PendingExerciseSlice.PendingExerciseStore.SetDescription | apps/opentracker/frontend/src/store/reducers/pendingExerciseSlice.tsx:73-75 | only the description changes |
| PendingExerciseSlice.PendingExerciseStore.SetWeight | apps/opentracker/frontend/src/store/reducers/pendingExerciseSlice.tsx:76-78 | only the weight changes |
| PendingExerciseSlice.PendingExerciseStore.SetReps | apps/opentracker/frontend/src/store/reducers/pendingExerciseSlice.tsx:79-81 | only the reps change |
| PendingExerciseSlice.PendingExerciseStore.SetSets | apps/opentracker/frontend/src/store/reducers/pendingExerciseSlice.tsx:82-84 | only the sets change |
| PendingExerciseSlice.PendingExerciseStore.SetRpe | apps/opentracker/frontend/src/store/reducers/pendingExerciseSlice.tsx:85-87 | only the exertion rating changes |
| PendingExerciseSlice.PendingExerciseStore.Reset | apps/opentracker/frontend/src/store/reducers/pendingExerciseSlice.tsx:88-98 | variant Unknown, description "", numbers and index undefined, session null, not loading |
| PendingExerciseSlice.PendingExerciseStore.ClearLastSession | apps/opentracker/frontend/src/store/reducers/pendingExerciseSlice.tsx:99-102 | session null and not loading, every other field kept |
| PendingExerciseSlice.PendingExerciseStore.FetchLastSessionPending | apps/opentracker/frontend/src/store/reducers/pendingExerciseSlice.tsx:105-107 | loading set, nothing else changed |
| PendingExerciseSlice.PendingExerciseStore.FetchLastSessionFulfilled | apps/opentracker/frontend/src/store/reducers/pendingExerciseSlice.tsx:108-111 | the payload, possibly null, stored and loading cleared |
| PendingExerciseSlice.PendingExerciseStore.FetchLastSessionRejected | apps/opentracker/frontend/src/store/reducers/pendingExerciseSlice.tsx:112-115 | session null and loading cleared |
| AnalysisSlice.FirstOrEmpty | apps/opentracker/frontend/src/store/reducers/analysisSlice.tsx:49 | the first name, or "" for an empty list |
| AnalysisSlice.AnalysisStore.constructor | apps/opentracker/frontend/src/store/reducers/analysisSlice.tsx:29-33 | variant Unknown, description "", no names and no statistics |
| AnalysisSlice.AnalysisStore.SetVariant | apps/opentracker/frontend/src/store/reducers/analysisSlice.tsx:39-41 | only the variant changes |
| AnalysisSlice.AnalysisStore.SetDescription | apps/opentracker/frontend/src/store/reducers/analysisSlice.tsx:42-44 | only the description changes |
| AnalysisSlice.AnalysisStore.UniqueExercisesFulfilled | apps/opentracker/frontend/src/store/reducers/analysisSlice.tsx:47-50 | the names stored and the description set to the first of them, or "" |
| AnalysisSlice.AnalysisStore.StatisticsFulfilled | apps/opentracker/frontend/src/store/reducers/analysisSlice.tsx:52-54 | the statistics stored and nothing else changed |
| AnalysisSlice.SelectedNameListed | apps/opentracker/frontend/src/store/reducers/analysisSlice.tsx:47-50 | the selected description is one of the names, unless there are none |
| UserSlice.UserStore.constructor | apps/opentracker/frontend/src/store/reducers/userSlice.tsx:11-14 | no token and no request state |
| UserSlice.UserStore.Logout | apps/opentracker/frontend/src/store/reducers/userSlice.tsx:20-22 | the token cleared, the request state kept |
| UserSlice.UserStore.ResetUserState | apps/opentracker/frontend/src/store/reducers/userSlice.tsx:23-25 | only the request state cleared |
| UserSlice.UserStore.SetToken | apps/opentracker/frontend/src/store/reducers/userSlice.tsx:26-28 | the token stored, the request state kept |
| UserSlice.UserStore.RegisterPending | apps/opentracker/frontend/src/store/reducers/userSlice.tsx:31-33 | the request state becomes Pending |
| UserSlice.UserStore.RegisterFulfilled | apps/opentracker/frontend/src/store/reducers/userSlice.tsx:35-38 | the token from the payload stored and the state Persisted |
| UserPreferencesSlice.PreferencesStore.constructor | apps/opentracker/frontend/src/store/reducers/userPreferencesSlice.tsx:17-20 | notation SetsThenReps and no request state |
| UserPreferencesSlice.PreferencesStore.SetRepSetNotation | apps/opentracker/frontend/src/store/reducers/userPreferencesSlice.tsx:26-28 | only the notation changes |
| UserPreferencesSlice.PreferencesStore.ResetRequestState | apps/opentracker/frontend/src/store/reducers/userPreferencesSlice.tsx:29-31 | only the request state cleared |
| UserPreferencesSlice.PreferencesStore.FetchFulfilled | apps/opentracker/frontend/src/store/reducers/userPreferencesSlice.tsx:34-38 | a null payload keeps the notation, any other replaces it |
| UserPreferencesSlice.PreferencesStore.PersistPending | apps/opentracker/frontend/src/store/reducers/userPreferencesSlice.tsx:40-42 | the request state becomes Pending |
| UserPreferencesSlice.PreferencesStore.PersistFulfilled | apps/opentracker/frontend/src/store/reducers/userPreferencesSlice.tsx:44-46 | the request state becomes Persisted |
| AddExerciseModal.ResolveVariant | apps/opentracker/frontend/src/views/workouts/AddExerciseModal.tsx:38-47 | a chosen variant other than Unknown wins; no choice or Unknown gives the placeholder's |
| AddExerciseModal.ResolvedUnknownFromPlaceholder | apps/opentracker/frontend/src/views/workouts/AddExerciseModal.tsx:38-47 | the variant resolves to Unknown only when the placeholder's is Unknown, and choosing Unknown is the same as choosing nothing |
| AddExerciseModal.Placeholder | apps/opentracker/frontend/src/views/workouts/AddExerciseModal.tsx:71 | the workout's last exercise, none for an empty workout |
| AddExerciseModal.Resolve | apps/opentracker/frontend/src/views/workouts/AddExerciseModal.tsx:49-66 | description, weight, reps and sets are the entered value when truthy and the placeholder's otherwise; the rating is always the entered one |
| AddExerciseModal.ToExercise | apps/opentracker/frontend/src/views/workouts/AddExerciseModal.tsx:77-86 | the submitted exercise carries each resolved field |
| AddExerciseModal.EditUnchangedRoundTrip | apps/opentracker/frontend/src/views/workouts/AddExerciseModal.tsx:49-86 | opening an exercise with truthy fields for editing and submitting it unchanged gives it back, whatever the placeholder |
| AddExerciseModal.EmptyWorkoutNeedsEveryField | apps/opentracker/frontend/src/views/workouts/AddExerciseModal.tsx:58-64 | on an empty workout a falsy weight stays undefined and the exercise cannot be submitted |
| AddExerciseModal.DescriptionLabel | apps/opentracker/frontend/src/views/workouts/AddExerciseModal.tsx:130-132 | the field reads "Exercise" iff the variant is Other, else "Variation" |
| AddExerciseModal.FetchesUniqueExercises | apps/opentracker/frontend/src/views/workouts/AddExerciseModal.tsx:105-113 | names are fetched iff the resolved variant is defined and not Unknown |
| AddExerciseModal.NothingChosenFetchesNothing | apps/opentracker/frontend/src/views/workouts/AddExerciseModal.tsx:105-113 | on an empty workout with no variant chosen nothing is fetched |
| AddExerciseModal.HandleSubmit | apps/opentracker/frontend/src/views/workouts/AddExerciseModal.tsx:74-98 | the resolved exercise replaces the one being edited when an index is pending and is appended otherwise; the modal is hidden and the pending exercise reset |
| AddExerciseModal.OnHide | apps/opentracker/frontend/src/views/workouts/AddExerciseModal.tsx:100-103 | the modal is hidden and the pending exercise reset; the exercises are kept |
| ExertionIndicator.DecideVariant | apps/opentracker/frontend/src/components/ExertionIndicator.tsx:7-17 | "success" iff undefined or at most 7, "warning" iff above 7 and below 8.5, "danger" iff at least 8.5 |
| ExertionIndicator.DecideTextColour | apps/opentracker/frontend/src/components/ExertionIndicator.tsx:19-26 | dark text iff the variant is "warning", light otherwise |
| ExertionIndicator.Render | apps/opentracker/frontend/src/components/ExertionIndicator.tsx:28-50 | nothing iff the rating is falsy; else a bar at the rating out of 10 with the decided variant and colour |
| ExertionIndicator.RenderedColours | apps/opentracker/frontend/src/components/ExertionIndicator.tsx:28-50 | a non-zero rating gets dark text iff it is a warning, a danger bar has light text, and 0 renders nothing |
| RepSetView.Sides | apps/opentracker/frontend/src/components/RepSetView.tsx:24-27 | the two sides are a permutation of reps and sets: reps first for RepsThenSets, sets first otherwise |
| RepSetView.View | apps/opentracker/frontend/src/components/RepSetView.tsx:29-33 | the text has the length of the two numbers' texts plus the "x", whichever notation is chosen |
| RepSetView.IntToStringHasNoX | apps/opentracker/frontend/src/components/RepSetView.tsx:29-33 | a rendered number contains no 'x' |
| RepSetView.SeparatorIsUnique | apps/opentracker/frontend/src/components/RepSetView.tsx:29-33 | the text is the left side, one 'x' and the right side, and that 'x' is its only one |
| RepSetView.Examples | apps/opentracker/frontend/tests/components/RepSetView.spec.tsx:9-27 | 6 reps of 3 sets read "6x3" reps first and "3x6" sets first |
| WeeklyVolumeStatistics.AnyPresent | apps/opentracker/frontend/src/components/WeeklyVolumeStatistics.tsx:56-66 | false without an overview; otherwise true iff the squat, bench or deadlift volume is truthy |
| WeeklyVolumeStatistics.OtherVolumeIgnored | apps/opentracker/frontend/src/components/WeeklyVolumeStatistics.tsx:61-65 | the "other" volume never affects the check |
| WeeklyVolumeStatistics.Rows | apps/opentracker/frontend/src/components/WeeklyVolumeStatistics.tsx:93-114 | four rows, squat, bench, deadlift, other, each pairing that lift's two weeks |
| WeeklyVolumeStatistics.VolumePill | apps/opentracker/frontend/src/components/WeeklyVolumeStatistics.tsx:27-54 | a pill is hidden iff last week's volume is null; the change shows iff both weeks are truthy |
| WeeklyVolumeStatistics.Render | apps/opentracker/frontend/src/components/WeeklyVolumeStatistics.tsx:89-134 | nothing iff no main lift has volume; else four segments of last week's volumes and the four pills |
| WeeklyVolumeStatistics.MissingVolumeStillShown | apps/opentracker/frontend/src/components/WeeklyVolumeStatistics.tsx:28-30 | an undefined (not null) volume still gets a pill, with no change shown |

## Left out

- The DNS listener, wire decoding and TLS. These are I/O: a request arrives already parsed, or as a parse failure.
- Concurrency:
  - the blocklist's `RwLock` and the cache's internal concurrency;
  - async scheduling;
  - the lockers' check-then-insert race between two requests.
  Each call is modelled as atomic.
- The cache library's eviction policy and overwrite timing. Capacity eviction is `DnsCache.ResponseCache.Evict` of a key chosen by the caller; the capacity itself is kept but not enforced.
- `get` hands back a copy of the stored message. Datatype values make that automatic, so nothing separate models it.
- External lookups are parameters of the calls:
  - the upstream lookup;
  - the host resolution in `Upstream.New`;
  - the blocklist source's load and UTF-8 decoding.
- Blocklist.BlocklistManager.IsBlocked: trimming and lower-casing are over ASCII only. Unicode case folding is not modelled.
- Text.Lower: lower-casing is over ASCII only.
- Handler.DnsRequestHandler.HandleRequest: logging and the source address are not modelled. Send failures are the `sendOk` parameter.
- Upstream.New: the resolver options beyond the single name server and its timeout are not modelled.
- Bodyweights and recorded weights are exact reals. The source's `f32` and JavaScript numbers, with their rounding and NaN, are not modelled.
- BodyweightSlice fetchAll: the GET request and its late write into the finalized draft are not modelled; `BodyweightSlice.BodyweightStore.FetchAll` keeps the store unchanged, as the reducer itself does.
- `toFixed(2)` is not modelled. The bodyweight slice takes the formatted strings as inputs, and Bodyweight.QueryCache keeps real numbers.
- DatedLineGraph.Predictions: the least-squares fit is floating point, so its slope and intercept are parameters. Only the length of the prediction list is stated.
- DatedLineGraph.WeeksInRange: luxon's week difference is read as milliseconds divided by 604800000. Only when it is defined is stated.
- Dates are modelled in two ways:
  - bodyweight dates (ISO date strings in the source) are whole days;
  - workout dates are whole days;
  - locker timestamps are whole milliseconds.
- All displays take one `now` parameter instead of reading the clock.
- The keypad's button-flash animation and `confirmCheckout` are not modelled. Both are browser UI with no state.
- LockerPersistence.LockerStore.InsertCheckIn: it requires a stamp later than the table's last event. The server stamps each event with `Utc::now()` (apps/lockers/src/server.rs:82), so the table is in time order and the latest event by position is the one `ORDER BY occurred_at DESC` picks. How the queries rank equal or out-of-order stamps is not modelled.
- LockerPersistence.LockerStore.InsertCheckOut: the same requirement on the stamp (apps/lockers/src/server.rs:106), for the same reason.
- LockerKeypad.Keypad.KeyDown: the lexicographic test `key >= '0' && key <= '9'` also accepts multi-character keys that start with a digit. The model keeps that test as written.
- WorkoutSlice.WorkoutStore.EditExercise: it requires an index at most the length. An index past that makes a sparse JavaScript array, which a sequence cannot hold.
- The parallel label and value arrays are required to be of equal length (`Valid`). The reducers never make them differ.
- The label "RPE: " + rating in ExertionIndicator needs JavaScript number-to-string formatting, which is not modelled.
- The last-session payload's shape is a type parameter of PendingExerciseSlice.PendingExerciseStore.
- AddExerciseModal.HandleSubmit: it requires every field to resolve to a value. The source asserts this with `!`, backed by the form's `required` inputs.
- JSX rendering, icons, the doughnut chart and the percentage-change rounding are not modelled. Only the data the components compute is modelled.
- The tag editor's file read and write are not modelled, nor its test resource files. Their contents are not part of this model, and sample texts stand in for them.

## Findings

| source | as written | input that shows it | evidently intended | confidence | as-written member | corrected member |
|---|---|---|---|---|---|---|
| apps/opentracker/frontend/src/components/DatedLineGraph.tsx:102-106 | `findUpperBoundIndex` returns undefined when the range ends before the first label, and `getSubslice` reads an undefined upper bound as "to the end" | labels on day 10 and day 20, range day 1 to day 5: the graph shows both points although neither is in range | an empty window, so that "No historical data to show" appears | not executed | DatedLineGraph.RangeBeforeSeriesShowsAll | DatedLineGraph.WindowIsRange |
| apps/opentracker/frontend/src/store/reducers/bodyweightSlice.tsx:102-108 | delete fulfilled runs `splice(indexOf(day), 1)` on both arrays without checking for -1 | labels [day 1, day 2] and a delete of day 3: `indexOf` is -1 and `splice(-1, 1)` removes day 2 | nothing removed for a day that is not recorded, as the hook's optimistic delete does | not executed | BodyweightSlice.AbsentDayDropsLast | BodyweightSlice.BodyweightStore.DeleteFulfilled |
