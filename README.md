# webuild-events: the event feed, in Dafny

This project models the core of the webuild-events aggregator. The aggregator
collects events from several providers into one feed. Every provider turns its
raw records into the same canonical event record. The feed merges each
provider's list as it arrives: it drops blacklisted ids, concatenates, drops
past events, sorts by start time and removes duplicates.

Modules, one per concern:

- `Js` (js.dfy): the JavaScript behaviour the sources rely on. This covers
  missing, null and present properties; the truthiness of strings; `||''`;
  `join('')`; string concatenation of `undefined`/`null`; `indexOf` as a
  substring test; `substring` with clamping; `trimRight`; and ASCII `toLowerCase`.
- `Seqs` (seqs.dfy): `filter`, `map`, the concatenation of pages, and
  "ordered subsequence", with their lemmas.
- `Canonical` (canonical.dfy): the canonical event record.
- `Feed` (feed.dfy), after events/index.js:
  - the duplicate rule and the first-seen-wins de-duplication pass;
  - the start-time comparator and the sort it drives;
  - `afterToday`;
  - the process-wide feed as a class `FeedStore`, whose `Update` and
    `AddEvents` change its `events` and `meta` in place.
- `Meetup` (meetup.dfy), after events/meetupEvents.js: group selection, the
  address string, and the reduction of event rows into canonical events.
- `Eventbrite` (eventbriteEvents.js, in eventbrite.dfy):
  - the three selection predicates;
  - the address string;
  - the mapping to canonical events;
  - page concatenation and the filter chain of `get`.

The surroundings become parameters:

- Instants are integers (milliseconds).
- The current time is an explicit `now`.
- The word-overlap library is a function `overlap(a, b, commonWords)` that returns the number of shared words.
- Reading a display time back into an instant (moment with the display format) is `parseDisplayTime`.
- Formatting an instant for display is `formatTime`.
- HTML stripping is `htmlStrip`.
- Each provider's fetched pages or rows are inputs to the operations.

Three behaviours of the source are easy to misread:

- `afterToday` compares the *display* time, read back with the display format, against now; it does not compare `start_time`.
- Eventbrite's address does not omit empty parts.
- When blacklist words are configured, a Meetup group row without a name throws (see Findings). With no blacklist words, line 33 short-circuits and nothing throws. The main members, `Meetup.IsValidGroup` and `Meetup.GetGroupIds`, use the corrected rule, which skips such a row; only `Meetup.IsValidGroupAsWritten` and `Meetup.GroupIdsAsWritten` keep the code's throw.

## Model

| member | source | states |
|---|---|---|
| Feed.CommonWords | events/index.js:26 | the ignored words are the configured list followed by the lower-cased city |
| Feed.IsDuplicateEvent | events/index.js:21-54 | equal display time and equal name is always a duplicate; a different display time never is; with equal time and different names, a duplicate iff location overlap > 0 and (name overlap > 0 or description overlap > 2) |
| Feed.DuplicateSymmetric | events/index.js:30-44 | when the overlap count is symmetric, so is the duplicate rule |
| Feed.AfterToday | events/index.js:56-58 | an event is still to come when its display time, read back with the display format, is strictly later than now |
| Feed.AfterTodayByDisplayTime | events/index.js:56-58 | only the display time decides: events with the same formatted_time are kept or dropped together, and an event kept at `now` is kept at any earlier time |
| Feed.TimeComparer | events/index.js:60-63 | negative iff `a` starts before `b`, zero iff they start together |
| Feed.InsertSplit | events/index.js:75 | inserting into a sorted list places the event after every event not later than it and before every later one |
| Feed.InsertPermutes | events/index.js:75 | insertion adds exactly the one event (multiset) |
| Feed.InsertSorted | events/index.js:75 | insertion keeps a list sorted by start time |
| Feed.SortByStart | events/index.js:75 | `sort(timeComparer)`: the result is sorted ascending by start time and is a permutation of the input |
| Feed.SortStable | events/index.js:75 | events with the same start time keep their relative input order |
| Feed.Dedup | events/index.js:84-98 | de-duplication never lengthens the feed and only keeps events of the feed |
| Feed.RemoveDuplicates | events/index.js:84-99 | the loop keeps an event iff no event kept before it is its duplicate (equals Dedup) |
| Feed.DedupSubseq | events/index.js:88-96 | the result is an order-preserving subsequence of the input |
| Feed.DedupPrefix | events/index.js:88-96 | what is kept from a prefix of the feed is a prefix of what is kept from the whole |
| Feed.DedupKeepsFirst | events/index.js:88-96 | the first event of a non-empty feed is always kept, at the front |
| Feed.DedupNoDuplicatePairs | events/index.js:89-95 | no kept event is a duplicate of an event kept before it |
| Feed.DedupDropsOnlyDuplicates | events/index.js:89-95 | every input event is either kept at the next position or is a duplicate of an event kept before it |
| Feed.DedupOfUnique | events/index.js:84-98 | a feed without duplicate pairs passes unchanged |
| Feed.DedupIdempotent | events/index.js:84-98 | de-duplicating twice is de-duplicating once |
| Feed.SortedSubseq | events/index.js:75-76 | dropping events from a sorted feed leaves it sorted |
| Feed.MergedEvents | events/index.js:68-76 | the merge: drop the provider's events whose id is blacklisted, append them to the feed, keep the events still to come, sort by start time, de-duplicate |
| Feed.MergedEventsProperties | events/index.js:67-76 | a merged feed is sorted, free of duplicate pairs, and holds only future events; each of its events came from the feed or from the provider's non-blacklisted events; its length is at most the two lengths combined |
| Feed.Provided | events/index.js:67 | a null provider result counts as the empty list |
| Feed.FeedStore.constructor | events/index.js:6-9 | the feed starts with no events and empty metadata |
| Feed.FeedStore.Update | events/index.js:103-109 | metadata becomes generated_at/location/api_version with no total; events become exactly the whitelist events still to come, in whitelist order |
| Feed.FeedStore.AddEvents | events/index.js:65-81 | a rejected provider changes nothing. A fulfilled one replaces events by the merge (filter blacklist, concat, afterToday, sort, dedup) and sets total_events to their count. The result is sorted, duplicate-free and in the future, and no new event is blacklisted |
| Meetup.ConstructAddress | events/meetupEvents.js:13-29 | without a venue, exactly the city. With one, it starts with the venue name and ", " and always contains the city; ", city" is appended iff the venue line lacks it |
| Meetup.IsValidGroup | events/meetupEvents.js:31-44 | rejects rows without a truthy name or description and blacklisted group ids; an unset country accepts every row; with no blacklist words, validity is country and id alone; with blacklist words and a truthy name and description, the row is valid iff country and id pass and neither the name nor the description contains a blacklisted word (ignoring ASCII case) |
| Meetup.GetGroupIds | events/meetupEvents.js:114-121 | the ids of exactly the groups valid under the corrected rule (a nameless row is skipped rather than thrown on), in the order received |
| Meetup.IsFree | events/meetupEvents.js:46-48 | a row is free when it carries no fee |
| Meetup.WithDefaultDuration | events/meetupEvents.js:63-65 | a missing duration becomes 7,200,000 ms; a present one is kept |
| Meetup.GroupEvent | events/meetupEvents.js:67-82 | the built event never ends before it starts |
| Meetup.NormalizeGroupEvents | events/meetupEvents.js:50-86 | a row with a fee, without a venue property or with a members-only venue leaves the list as is. Any other row appends one event and leaves earlier entries untouched. That event has the row's id, name, url and start; its end is start + duration (2 h by default); its group url is "http://meetup.com/" + urlname |
| Meetup.NormalizedEventsIsFilterMap | events/meetupEvents.js:97-99 | reducing the rows keeps the publishable rows in order and maps each to its event |
| Meetup.GetEventsFromResults | events/meetupEvents.js:98-99 | the loop computes that reduction; at most one event per row, none ending before it starts |
| Meetup.IsValidGroupAsWritten | events/meetupEvents.js:31-33 | as written, evaluation throws exactly when line 33 reads `.match` of a missing name or a null description; otherwise it returns the verdict of the corrected rule; with no blacklist words, or with a truthy name and description, it always returns that verdict |
| Meetup.GroupIdsAsWritten | events/meetupEvents.js:114-125 | as written, the listing yields ids iff no row throws, and then the same ids as the corrected rule; with no blacklist words, or when every row has a name and a description, it always yields them |
| Meetup.NamelessGroupLosesAllGroups | events/meetupEvents.js:33 | one nameless row next to a valid group: as written, no ids at all; corrected, the valid group's id |
| Meetup.ThrowingRowIsInvalid | events/meetupEvents.js:33-39 | every row the as-written code throws on is one the corrected rule rejects |
| Meetup.NamelessRowsAreSkipped | events/meetupEvents.js:35-39 | corrected: the ids of a listing equal the ids of the same listing with every nameless row removed, wherever those rows sit |
| Eventbrite.ConstructAddress | events/eventbriteEvents.js:14-26 | the join of the trimmed venue name or "", ", ", ", " + trimmed address_1 when truthy, the same for address_2, ", ", and city + " " + postal_code |
| Eventbrite.AddressStartsWithName | events/eventbriteEvents.js:14-23 | the address begins with the right-trimmed venue name (or nothing) and then ", , ", because the fixed separator always meets the next part's comma |
| Eventbrite.AddressEndsWithCity | events/eventbriteEvents.js:21-22 | the address ends with ", " + city + " " + postal code, where a missing value prints as "undefined"/"null" |
| Eventbrite.AddressMentionsLines | events/eventbriteEvents.js:19-20 | each truthy address line appears right-trimmed after ", " |
| Eventbrite.AnyFree | events/eventbriteEvents.js:30-32 | true iff some ticket class is free |
| Eventbrite.IsFreeWithVenue | events/eventbriteEvents.js:28-35 | true iff the ticket classes exist and one is free, and the venue has an address whose address_1 is not null |
| Eventbrite.IsInTechCategory | events/eventbriteEvents.js:37-40 | the category id is truthy and occurs as a substring of the configured categories string |
| Eventbrite.ListedCategoryIsTech | events/eventbriteEvents.js:37-40 | with categories written as a ", "-separated list, every listed (non-empty) category id is accepted |
| Eventbrite.PartOfListedCategoryIsTech | events/eventbriteEvents.js:37-40 | any non-empty piece of a listed id is accepted as well (indexOf is a substring test) |
| Eventbrite.OrganiserKey | events/eventbriteEvents.js:46 | the compared key is at most ten characters; it is characters 44-53 of a long enough uri and empty for a uri of at most 44 |
| Eventbrite.IsWhitelisted | events/eventbriteEvents.js:45-46 | no blacklisted organiser id equals characters 44-53 of the organiser's resource uri |
| Eventbrite.CountMatchesPositive | events/eventbriteEvents.js:43-55 | the counter ends positive iff some blacklisted id equals the key |
| Eventbrite.IsInWhitelist | events/eventbriteEvents.js:42-56 | the counting loop accepts iff no blacklisted organiser id equals the key |
| Eventbrite.BlacklistedOrganiserIsRejected | events/eventbriteEvents.js:45-53 | an organiser whose ten-character id follows a 44-character prefix is rejected when that id is blacklisted |
| Eventbrite.LongBlacklistEntriesNeverMatch | events/eventbriteEvents.js:46 | blacklist entries longer than ten characters never reject anything |
| Eventbrite.ToRecord | events/eventbriteEvents.js:59-70 | the canonical record pushed for one event, with the address built by ConstructAddress and the display time by the configured formatter |
| Eventbrite.ToRecordCopies | events/eventbriteEvents.js:59-70 | the record copies id, url, start, end, organiser name and resource uri; name and description become "" when their text is falsy |
| Eventbrite.AddEventbriteEvent | events/eventbriteEvents.js:58-73 | appends exactly one record, the event's, and leaves earlier entries unchanged |
| Eventbrite.Records | events/eventbriteEvents.js:123 | one record per event |
| Eventbrite.RecordsPointwise | events/eventbriteEvents.js:123 | the i-th record is the record of the i-th event |
| Eventbrite.AddEventbriteEvents | events/eventbriteEvents.js:123 | the reducing loop yields exactly those records |
| Eventbrite.PagesToFetch | events/eventbriteEvents.js:99-101 | the pages requested after the first are 2, 3, ..., page_count (none when page_count < 2); stand-alone, since Get takes the fetched later pages as its input |
| Eventbrite.ConcatPages | events/eventbriteEvents.js:94-107 | allEvents is page one's events followed by each later page's events, in order |
| Eventbrite.Selected | events/eventbriteEvents.js:114-121 | every event the three filters keep has a venue address |
| Eventbrite.SelectedMembers | events/eventbriteEvents.js:114-121 | an event is kept iff it is in the input and passes the tech-category, free-with-venue and organiser checks |
| Eventbrite.SelectedIsSubseq | events/eventbriteEvents.js:114-121 | the kept events are in their original order |
| Eventbrite.FilterWhitelisted | events/eventbriteEvents.js:120 | filtering with the counting check keeps exactly the whitelisted events, in order |
| Eventbrite.Get | events/eventbriteEvents.js:92-124 | the result is the records of exactly the selected events of all pages, in order, and is never longer than all pages together |

## Left out

- HTTP requests, query strings, the API key and bearer token, and the page fetches themselves are not modelled. The fetched rows and pages are inputs.
- Promise scheduling is out of scope: the fire-and-forget fan-out in `update`, the order in which providers complete, and `waitAllPromises`. One merge is one atomic `AddEvents` call, and a rejected provider is `Rejected`.
- Date and time handling is not modelled: moment/moment-timezone, `utils.localTime`, `utils.formatLocalTime` and `utils.htmlStrip`. These are function parameters, and instants are integers rather than ISO strings.
- The word-overlap library's tokenising, stop words, number skipping and de-pluralising are abstract. Only the count of shared words is used.
- The Meetup blacklist regular expression is modelled as "contains one of the words, ignoring ASCII case". Regular-expression metacharacters in the words, and case folding beyond ASCII, are not modelled.
- events/facebookEvents.js and events/icsEvents.js (the Facebook and ICS providers) are not part of this model.
- Console logging and the error handlers' messages are not modelled.
- Feed.CommonWords: `toLowerCase` on the city lowers only ASCII letters A-Z in the model; JavaScript lowers all of Unicode.
- Meetup.GroupEvent: durations are assumed non-negative (a natural number); the source does not check this, and a negative duration would end an event before it starts.
- Feed.SortByStart: modelled as a stable sort (insertion). Engines before ES2019 did not promise stability; the model assumes the stable behaviour of current engines.
- Meetup.NormalizeGroupEvents: writing the default duration back into the row (`row.duration = ...`) is not modelled as a mutation. The default is applied to a copy, and the caller never reads the row again.
- A Meetup duration that is explicitly `null` is not distinguished from a missing one. `null` would skip the default and add 0 ms.
- Eventbrite: the name and description objects and the organizer object are assumed present. Only their `text`, `name` and `resource_uri` values vary. Blacklisted organiser ids are taken after `toString()`.
- Eventbrite.ConstructAddress: only called on events that passed the venue check, which guarantees an address object. The JavaScript would throw without one.

## Findings

| source | as written | input that shows it | evidently intended | confidence | as-written member | corrected member |
|---|---|---|---|---|---|---|
| events/meetupEvents.js:33 | With a non-empty blacklist-word list, line 33 reads `row.name.match`, and `row.description.match` when the description is null. It does so before line 35 checks that both exist. A group row without a name throws a TypeError. That rejects the whole group listing, so the Meetup provider yields no group ids and no events. | Blacklist words ["cryptocurrency"], no country, group rows {id 1, name "Go", description "Gophers"} and {id 2, no name, description "Rust"} | Line 35 rejects such a row, so only that row should be skipped and group 1 kept | medium, not executed (depends on the API returning a group without a name) | Meetup.NamelessGroupLosesAllGroups | Meetup.NamelessRowsAreSkipped |
