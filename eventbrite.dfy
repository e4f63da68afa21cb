/**
 * The Eventbrite provider of events/eventbriteEvents.js, without its HTTP
 * requests: the three predicates that select events (tech category, free
 * with a venue, organiser not blacklisted), the address string, the mapping
 * to canonical events, and the page concatenation and filter chain of `get`.
 */
module Eventbrite {
  import opened Js
  import opened Seqs
  import opened Canonical

  /** `resource_uri.substring(44, 54)`: where the organiser id is read from. */
  const ORGANISER_ID_FROM: nat := 44
  const ORGANISER_ID_TO: nat := 54

  datatype EventbriteConfig = EventbriteConfig(
    /** `eventbriteParams.categories`, a single string such as "102, 113, 199". */
    categories: string,
    /** `eventbriteParams.blacklistOrganiserId`, each already passed through toString(). */
    blacklistOrganiserIds: seq<string>,
    /** utils.formatLocalTime with the configured timezone and display format. */
    formatTime: int -> string)

  datatype Ticket = Ticket(free: bool)

  datatype Address = Address(address1: Field<string>, address2: Field<string>, city: Field<string>, postalCode: Field<string>)

  datatype Venue = Venue(name: Field<string>, address: Field<Address>)

  datatype Organizer = Organizer(name: string, resourceUri: string)

  /**
   * One event of a search page. `name` and `description` are the `text`
   * properties of the API's name and description objects; `start` and `end`
   * are the `utc` instants.
   */
  datatype RawEvent = RawEvent(
    id: string,
    name: Field<string>,
    description: Field<string>,
    url: string,
    venue: Field<Venue>,
    ticketClasses: Field<seq<Ticket>>,
    categoryId: Field<string>,
    organizer: Organizer,
    start: int,
    end: int)

  // ---------------------------------------------------------------- address

  function NamePart(v: Venue): string {
    if Truthy(v.name) then TrimRight(v.name.value) else ""
  }

  function LinePart(line: Field<string>): string {
    if Truthy(line) then ", " + TrimRight(line.value) else ""
  }

  /** `addr.city + ' ' + addr.postal_code`, where a missing value prints as "undefined" or "null". */
  function CityPart(a: Address): string {
    Stringify(a.city) + " " + Stringify(a.postalCode)
  }

  predicate EndsWith(s: string, suffix: string) {
    |suffix| <= |s| && s[|s| - |suffix|..] == suffix
  }

  lemma SeparatorMeetsComma(name: string, line1: string, line2: string, tail: string)
    requires line1 == "" || ", " <= line1
    requires line2 == "" || ", " <= line2
    requires ", " <= tail
    ensures name + ", , " <= name + ", " + line1 + line2 + tail
  {
    var rest := line1 + line2 + tail;
    assert name + ", " + line1 + line2 + tail == name + ", " + rest;
    assert ", " <= rest by {
      if line1 != "" {
        assert rest == line1 + (line2 + tail);
      } else if line2 != "" {
        assert rest == line2 + tail;
      } else {
        assert rest == tail;
      }
    }
  }

  lemma EndsWithConcat(s: string, suffix: string)
    ensures EndsWith(s + suffix, suffix)
  {
    assert (s + suffix)[|s|..] == suffix;
  }

  lemma ContainsMiddle(before: string, middle: string, after: string)
    ensures Contains(before + middle + after, middle)
  {
    ContainsSuffix(before, middle);
    ContainsGrows(before + middle, after, middle);
  }

  /**
   * `constructAddress`: the trimmed venue name, the fixed ", ", each truthy
   * address line as ", " and the trimmed line, a second fixed ", ", and the
   * city and postal code.
   */
  function ConstructAddress(v: Venue): string
    requires v.address.Val?
  {
    var a := v.address.value;
    var tail := ", " + CityPart(a);
    NamePart(v) + ", " + LinePart(a.address1) + LinePart(a.address2) + tail
  }

  /**
   * The address begins with the trimmed venue name (or nothing) and ", , ":
   * the fixed separator always meets the comma of the next part.
   */
  lemma AddressStartsWithName(v: Venue)
    requires v.address.Val?
    ensures NamePart(v) + ", , " <= ConstructAddress(v)
  {
    var a := v.address.value;
    SeparatorMeetsComma(NamePart(v), LinePart(a.address1), LinePart(a.address2), ", " + CityPart(a));
  }

  /** The address ends with ", " and the city and postal code. */
  lemma AddressEndsWithCity(v: Venue)
    requires v.address.Val?
    ensures EndsWith(ConstructAddress(v), ", " + CityPart(v.address.value))
  {
    var a := v.address.value;
    EndsWithConcat(NamePart(v) + ", " + LinePart(a.address1) + LinePart(a.address2), ", " + CityPart(a));
  }

  /** The address mentions each truthy address line, trimmed, after a comma. */
  lemma AddressMentionsLines(v: Venue)
    requires v.address.Val?
    ensures Truthy(v.address.value.address1) ==> Contains(ConstructAddress(v), ", " + TrimRight(v.address.value.address1.value))
    ensures Truthy(v.address.value.address2) ==> Contains(ConstructAddress(v), ", " + TrimRight(v.address.value.address2.value))
  {
    var a := v.address.value;
    var head, line1, line2, tail := NamePart(v) + ", ", LinePart(a.address1), LinePart(a.address2), ", " + CityPart(a);
    assert ConstructAddress(v) == head + line1 + (line2 + tail);
    ContainsMiddle(head, line1, line2 + tail);
    ContainsMiddle(head + line1, line2, tail);
  }

  // ---------------------------------------------------------------- predicates

  /** `ticket_classes.some(t => t.free)`, scanning from the first ticket class. */
  function AnyFree(tickets: seq<Ticket>): (r: bool)
    ensures r <==> exists k | 0 <= k < |tickets| :: tickets[k].free
    decreases |tickets|
  {
    if tickets == [] then false
    else if tickets[0].free then true
    else
      var r := AnyFree(tickets[1..]);
      assert forall k | 1 <= k < |tickets| :: tickets[k] == tickets[1..][k - 1];
      r
  }

  /** The event has a venue with an address object, as `constructAddress` needs. */
  predicate HasAddress(e: RawEvent) {
    e.venue.Val? && e.venue.value.address.Val?
  }

  /**
   * `isFreeWithVenue`: some ticket class is free, and the venue has an
   * address whose first line is not null (a missing first line passes).
   */
  predicate IsFreeWithVenue(e: RawEvent)
    ensures IsFreeWithVenue(e) <==>
      && e.ticketClasses.Val? && (exists k | 0 <= k < |e.ticketClasses.value| :: e.ticketClasses.value[k].free)
      && HasAddress(e) && !e.venue.value.address.value.address1.Null?
  {
    var hasVenue := e.venue.Val? && e.venue.value.address.Val? && !e.venue.value.address.value.address1.Null?;
    var isFree := e.ticketClasses.Val? && AnyFree(e.ticketClasses.value);
    isFree && hasVenue
  }

  /** `isInTechCategory`: a truthy category id found by indexOf in the configured string. */
  predicate IsInTechCategory(cfg: EventbriteConfig, e: RawEvent) {
    Truthy(e.categoryId) && Contains(cfg.categories, e.categoryId.value)
  }

  /** `ids.join(sep)` */
  function JoinWith(ids: seq<string>, sep: string): string
    decreases |ids|
  {
    if |ids| == 0 then ""
    else if |ids| == 1 then ids[0]
    else JoinWith(ids[..|ids| - 1], sep) + sep + ids[|ids| - 1]
  }

  lemma {:induction false} JoinedContainsEach(ids: seq<string>, sep: string, k: nat)
    requires k < |ids|
    ensures Contains(JoinWith(ids, sep), ids[k])
    decreases |ids|
  {
    if |ids| == 1 {
      ContainsPrefix(ids[0], "");
      assert ids[0] + "" == ids[0];
    } else if k == |ids| - 1 {
      ContainsSuffix(JoinWith(ids[..|ids| - 1], sep) + sep, ids[k]);
    } else {
      JoinedContainsEach(ids[..|ids| - 1], sep, k);
      ContainsGrows(JoinWith(ids[..|ids| - 1], sep), sep + ids[|ids| - 1], ids[k]);
      assert JoinWith(ids[..|ids| - 1], sep) + sep + ids[|ids| - 1]
          == JoinWith(ids[..|ids| - 1], sep) + (sep + ids[|ids| - 1]);
    }
  }

  /** With categories written as a comma-separated list, every listed category id is a tech category. */
  lemma ListedCategoryIsTech(cfg: EventbriteConfig, ids: seq<string>, e: RawEvent)
    requires cfg.categories == JoinWith(ids, ", ")
    requires Truthy(e.categoryId) && e.categoryId.value in ids
    ensures IsInTechCategory(cfg, e)
  {
    var k :| 0 <= k < |ids| && ids[k] == e.categoryId.value;
    JoinedContainsEach(ids, ", ", k);
  }

  /**
   * indexOf is a substring test, not a list lookup: a category id that is
   * only part of a listed id (for example "10" against "102") passes too.
   */
  lemma PartOfListedCategoryIsTech(cfg: EventbriteConfig, ids: seq<string>, listed: nat, e: RawEvent)
    requires cfg.categories == JoinWith(ids, ", ") && listed < |ids|
    requires Truthy(e.categoryId) && Contains(ids[listed], e.categoryId.value)
    ensures IsInTechCategory(cfg, e)
  {
    JoinedContainsEach(ids, ", ", listed);
    ContainsTrans(cfg.categories, ids[listed], e.categoryId.value);
  }

  // ---------------------------------------------------------------- organiser blacklist

  /** The ten characters of `resource_uri` that are compared with the blacklist. */
  function OrganiserKey(uri: string): (key: string)
    ensures |key| <= ORGANISER_ID_TO - ORGANISER_ID_FROM
    ensures ORGANISER_ID_TO <= |uri| ==> key == uri[ORGANISER_ID_FROM..ORGANISER_ID_TO]
    ensures |uri| <= ORGANISER_ID_FROM ==> key == ""
  {
    JsSubstring(uri, ORGANISER_ID_FROM, ORGANISER_ID_TO)
  }

  /** No blacklisted id equals the event's organiser key. */
  predicate IsWhitelisted(cfg: EventbriteConfig, e: RawEvent) {
    forall k | 0 <= k < |cfg.blacklistOrganiserIds| :: cfg.blacklistOrganiserIds[k] != OrganiserKey(e.organizer.resourceUri)
  }

  /** How many entries of `ids` equal `key`: the final value of `countMatchId`. */
  function CountMatches(ids: seq<string>, key: string): (n: nat)
    ensures n <= |ids|
    decreases |ids|
  {
    if ids == [] then 0
    else CountMatches(ids[..|ids| - 1], key) + (if ids[|ids| - 1] == key then 1 else 0)
  }

  lemma {:induction false} CountMatchesPositive(ids: seq<string>, key: string)
    ensures CountMatches(ids, key) > 0 <==> exists k | 0 <= k < |ids| :: ids[k] == key
    decreases |ids|
  {
    if ids != [] {
      var init := ids[..|ids| - 1];
      CountMatchesPositive(init, key);
      assert forall k | 0 <= k < |init| :: init[k] == ids[k];
    }
  }

  /** `isInWhitelist`: counts the blacklisted ids equal to the organiser key, and accepts when none does. */
  method IsInWhitelist(cfg: EventbriteConfig, e: RawEvent) returns (whitelisted: bool)
    ensures whitelisted <==> IsWhitelisted(cfg, e)
  {
    var ids := cfg.blacklistOrganiserIds;
    var key := OrganiserKey(e.organizer.resourceUri);
    var countMatchId := 0;
    for i := 0 to |ids|
      invariant countMatchId == CountMatches(ids[..i], key)
    {
      assert ids[..i + 1][..i] == ids[..i];
      if ids[i] == key {
        countMatchId := countMatchId + 1;
      }
    }
    assert ids[..|ids|] == ids;
    CountMatchesPositive(ids, key);
    if countMatchId > 0 {
      whitelisted := false;
    } else {
      whitelisted := true;
    }
  }

  /** An organiser whose ten-character id sits right after a 44-character prefix is dropped when blacklisted. */
  lemma BlacklistedOrganiserIsRejected(cfg: EventbriteConfig, e: RawEvent, prefix: string, id: string, rest: string)
    requires e.organizer.resourceUri == prefix + id + rest
    requires |prefix| == ORGANISER_ID_FROM && |id| == ORGANISER_ID_TO - ORGANISER_ID_FROM
    requires id in cfg.blacklistOrganiserIds
    ensures !IsWhitelisted(cfg, e)
  {
    var uri := e.organizer.resourceUri;
    assert uri[ORGANISER_ID_FROM..ORGANISER_ID_TO] == id;
  }

  /** A blacklist entry longer than ten characters can never match, whatever the organiser. */
  lemma LongBlacklistEntriesNeverMatch(cfg: EventbriteConfig, e: RawEvent)
    requires forall k | 0 <= k < |cfg.blacklistOrganiserIds| :: |cfg.blacklistOrganiserIds[k]| > ORGANISER_ID_TO - ORGANISER_ID_FROM
    ensures IsWhitelisted(cfg, e)
  {
    var key := OrganiserKey(e.organizer.resourceUri);
    assert |key| <= ORGANISER_ID_TO - ORGANISER_ID_FROM;
  }

  // ---------------------------------------------------------------- records

  /** The canonical event `addEventbriteEvent` pushes for an event with an address. */
  function ToRecord(cfg: EventbriteConfig, e: RawEvent): Event
    requires HasAddress(e)
  {
    Event(
      id := e.id,
      name := OrEmpty(e.name),
      description := OrEmpty(e.description),
      location := ConstructAddress(e.venue.value),
      url := e.url,
      groupId := None,
      groupName := e.organizer.name,
      groupUrl := e.organizer.resourceUri,
      formattedTime := cfg.formatTime(e.start),
      startTime := e.start,
      endTime := e.end,
      yesRsvpCount := None)
  }

  /**
   * The record copies the id, url, instants and organiser of the event;
   * a falsy name or description text becomes the empty string.
   */
  lemma ToRecordCopies(cfg: EventbriteConfig, e: RawEvent)
    requires HasAddress(e)
    ensures var rec := ToRecord(cfg, e);
      && rec.id == e.id && rec.url == e.url
      && rec.startTime == e.start && rec.endTime == e.end
      && rec.groupUrl == e.organizer.resourceUri && rec.groupName == e.organizer.name
      && (Truthy(e.name) ==> rec.name == e.name.value) && (!Truthy(e.name) ==> rec.name == "")
      && (Truthy(e.description) ==> rec.description == e.description.value)
      && (!Truthy(e.description) ==> rec.description == "")
      && rec.location == ConstructAddress(e.venue.value)
  {
  }

  /** `addEventbriteEvent`: the accumulator with the event's record appended and its earlier entries untouched. */
  function AddEventbriteEvent(cfg: EventbriteConfig, arr: seq<Event>, e: RawEvent): (r: seq<Event>)
    requires HasAddress(e)
    ensures |r| == |arr| + 1 && r[..|arr|] == arr
    ensures r[|arr|] == ToRecord(cfg, e)
  {
    var r := arr + [ToRecord(cfg, e)];
    assert r[..|arr|] == arr;
    r
  }

  predicate AllHaveAddress(s: seq<RawEvent>) {
    forall k | 0 <= k < |s| :: HasAddress(s[k])
  }

  /** The records of `events`, in order: what reducing them with `addEventbriteEvent` from [] yields. */
  function Records(cfg: EventbriteConfig, events: seq<RawEvent>): (records: seq<Event>)
    requires AllHaveAddress(events)
    ensures |records| == |events|
    decreases |events|
  {
    if events == [] then []
    else Records(cfg, events[..|events| - 1]) + [ToRecord(cfg, events[|events| - 1])]
  }

  lemma {:induction false} RecordAt(cfg: EventbriteConfig, events: seq<RawEvent>, k: nat)
    requires AllHaveAddress(events) && k < |events|
    ensures Records(cfg, events)[k] == ToRecord(cfg, events[k])
    decreases |events|
  {
    var init := events[..|events| - 1];
    if k < |init| {
      RecordAt(cfg, init, k);
      assert events[k] == init[k];
    }
  }

  /** The reduction yields exactly one record per event, in order. */
  lemma RecordsPointwise(cfg: EventbriteConfig, events: seq<RawEvent>)
    requires AllHaveAddress(events)
    ensures forall k | 0 <= k < |events| :: Records(cfg, events)[k] == ToRecord(cfg, events[k])
  {
    forall k | 0 <= k < |events|
      ensures Records(cfg, events)[k] == ToRecord(cfg, events[k])
    {
      RecordAt(cfg, events, k);
    }
  }

  // ---------------------------------------------------------------- get

  /** The page numbers `get` requests after the first: 2 up to `page_count`. */
  method PagesToFetch(pageCount: int) returns (pages: seq<int>)
    ensures |pages| == if pageCount < 2 then 0 else pageCount - 1
    ensures forall k | 0 <= k < |pages| :: pages[k] == k + 2
  {
    pages := [];
    var page := 2;
    while page <= pageCount
      invariant 2 <= page && (pageCount < 2 ==> page == 2) && (2 <= pageCount ==> page <= pageCount + 1)
      invariant |pages| == page - 2
      invariant forall k | 0 <= k < |pages| :: pages[k] == k + 2
      decreases pageCount - page
    {
      pages := pages + [page];
      page := page + 1;
    }
  }

  /** `allEvents`: the first page's events followed by each later page's, in the order the pages are given. */
  method ConcatPages(firstPage: seq<RawEvent>, laterPages: seq<seq<RawEvent>>) returns (allEvents: seq<RawEvent>)
    ensures allEvents == firstPage + Flatten(laterPages)
    ensures forall e | e in allEvents :: e in firstPage || exists k | 0 <= k < |laterPages| :: e in laterPages[k]
  {
    allEvents := firstPage;
    for i := 0 to |laterPages|
      invariant allEvents == firstPage + Flatten(laterPages[..i])
    {
      assert laterPages[..i + 1][..i] == laterPages[..i];
      allEvents := allEvents + laterPages[i];
    }
    assert laterPages[..|laterPages|] == laterPages;
    forall e | e in allEvents
      ensures e in firstPage || exists k | 0 <= k < |laterPages| :: e in laterPages[k]
    {
      FlattenMembers(laterPages, e);
    }
  }

  function IsInTechCategoryAt(cfg: EventbriteConfig): RawEvent -> bool {
    (e: RawEvent) => IsInTechCategory(cfg, e)
  }

  function IsFreeWithVenueAt(): RawEvent -> bool {
    (e: RawEvent) => IsFreeWithVenue(e)
  }

  function IsWhitelistedAt(cfg: EventbriteConfig): RawEvent -> bool {
    (e: RawEvent) => IsWhitelisted(cfg, e)
  }

  /** The events the filter chain of `get` keeps, in their original order. */
  function Selected(cfg: EventbriteConfig, all: seq<RawEvent>): (r: seq<RawEvent>)
    ensures AllHaveAddress(r)
  {
    var r := Filter(IsWhitelistedAt(cfg), Filter(IsFreeWithVenueAt(), Filter(IsInTechCategoryAt(cfg), all)));
    FilterMembers(IsWhitelistedAt(cfg), Filter(IsFreeWithVenueAt(), Filter(IsInTechCategoryAt(cfg), all)));
    FilterMembers(IsFreeWithVenueAt(), Filter(IsInTechCategoryAt(cfg), all));
    assert forall k | 0 <= k < |r| :: r[k] in r;
    r
  }

  /** An event is selected exactly when it passes all three predicates. */
  lemma SelectedMembers(cfg: EventbriteConfig, all: seq<RawEvent>, e: RawEvent)
    ensures e in Selected(cfg, all) <==>
      e in all && IsInTechCategory(cfg, e) && IsFreeWithVenue(e) && IsWhitelisted(cfg, e)
  {
    var tech := Filter(IsInTechCategoryAt(cfg), all);
    var free := Filter(IsFreeWithVenueAt(), tech);
    FilterMembers(IsWhitelistedAt(cfg), free);
    FilterMembers(IsFreeWithVenueAt(), tech);
    FilterMembers(IsInTechCategoryAt(cfg), all);
  }

  /** The selection keeps the input's order: it is a subsequence of the input. */
  lemma SelectedIsSubseq(cfg: EventbriteConfig, all: seq<RawEvent>)
    ensures Subseq(Selected(cfg, all), all)
  {
    var tech := Filter(IsInTechCategoryAt(cfg), all);
    var free := Filter(IsFreeWithVenueAt(), tech);
    FilterIsSubseq(IsInTechCategoryAt(cfg), all);
    FilterIsSubseq(IsFreeWithVenueAt(), tech);
    FilterIsSubseq(IsWhitelistedAt(cfg), free);
    SubseqTrans(Selected(cfg, all), free, tech);
    SubseqTrans(Selected(cfg, all), tech, all);
  }

  /** `events.filter(isInWhitelist)`, calling the counting check once per event. */
  method FilterWhitelisted(cfg: EventbriteConfig, events: seq<RawEvent>) returns (kept: seq<RawEvent>)
    ensures kept == Filter(IsWhitelistedAt(cfg), events)
  {
    kept := [];
    for j := 0 to |events|
      invariant kept == Filter(IsWhitelistedAt(cfg), events[..j])
    {
      assert events[..j + 1][..j] == events[..j];
      var ok := IsInWhitelist(cfg, events[j]);
      if ok {
        kept := kept + [events[j]];
      }
    }
    assert events[..|events|] == events;
  }

  /** `events.reduce(addEventbriteEvent, [])`, one event at a time. */
  method AddEventbriteEvents(cfg: EventbriteConfig, events: seq<RawEvent>) returns (records: seq<Event>)
    requires AllHaveAddress(events)
    ensures records == Records(cfg, events)
  {
    records := [];
    for j := 0 to |events|
      invariant records == Records(cfg, events[..j])
    {
      assert events[..j + 1][..j] == events[..j];
      records := AddEventbriteEvent(cfg, records, events[j]);
    }
    assert events[..|events|] == events;
  }

  /**
   * The body of `get` once every page has arrived: concatenate the pages,
   * keep the tech-category events, then the free ones with a venue, then
   * those whose organiser is not blacklisted, and map each to a record.
   */
  method Get(cfg: EventbriteConfig, firstPage: seq<RawEvent>, laterPages: seq<seq<RawEvent>>) returns (events: seq<Event>)
    ensures var all := firstPage + Flatten(laterPages);
      events == Records(cfg, Selected(cfg, all))
    ensures |events| <= |firstPage + Flatten(laterPages)|
  {
    var allEvents := ConcatPages(firstPage, laterPages);
    var techEvents := Filter(IsInTechCategoryAt(cfg), allEvents);
    var freeTechEvents := Filter(IsFreeWithVenueAt(), techEvents);
    var whitelistEvents := FilterWhitelisted(cfg, freeTechEvents);
    assert whitelistEvents == Selected(cfg, allEvents);
    events := AddEventbriteEvents(cfg, whitelistEvents);
    RecordsPointwise(cfg, whitelistEvents);
  }
}
