/**
 * The Meetup provider of events/meetupEvents.js, without its two HTTP
 * requests: which groups qualify, how a group event row becomes a canonical
 * event, and the address string shown for it.
 */
module Meetup {
  import opened Js
  import opened Seqs
  import opened Canonical

  /** Length of an event without a duration: two hours. */
  const DEFAULT_DURATION_MS: nat := 7200000

  const GROUP_URL_PREFIX: string := "http://meetup.com/"

  datatype MeetupConfig = MeetupConfig(
    city: string,
    country: Field<string>,
    blacklistGroups: seq<int>,
    blacklistWords: seq<string>,
    /** utils.formatLocalTime with the configured timezone and display format. */
    formatTime: int -> string,
    /** utils.htmlStrip */
    htmlStrip: Field<string> -> string)

  datatype Venue = Venue(name: Field<string>, address1: Field<string>, address2: Field<string>)

  /** One row of the groups listing. */
  datatype GroupRow = GroupRow(id: int, name: Field<string>, description: Field<string>, country: Field<string>)

  datatype GroupRef = GroupRef(id: int, name: string, urlname: string)

  /** A truthy `fee` object on an event row. */
  datatype Fee = Fee(amount: int, currency: string)

  /** One row of the group events listing; `venue` is Undefined when the row has no such property. */
  datatype EventRow = EventRow(
    id: string,
    name: string,
    description: Field<string>,
    fee: Field<Fee>,
    venue: Field<Venue>,
    venueVisibility: Field<string>,
    duration: Option<nat>,
    time: int,
    eventUrl: string,
    group: GroupRef,
    yesRsvpCount: Option<int>)

  /** The venue's name, a comma, and its address lines, before the city is considered. */
  function VenueLine(v: Venue): string {
    JoinPart(v.name) + ", " + OrEmpty(v.address1) + (if Truthy(v.address2) then ", " + v.address2.value else "")
  }

  /**
   * `constructAddress`: the configured city alone without a venue; otherwise
   * the venue line, followed by the city unless the line already mentions it.
   */
  function ConstructAddress(city: string, venue: Field<Venue>): (address: string)
    ensures !venue.Val? ==> address == city
    ensures venue.Val? ==> JoinPart(venue.value.name) + ", " <= address
    ensures venue.Val? ==> Contains(address, city)
    ensures venue.Val? ==>
      && (address == VenueLine(venue.value) <==> Contains(VenueLine(venue.value), city))
      && (address == VenueLine(venue.value) || address == VenueLine(venue.value) + ", " + city)
  {
    match venue
    case Val(v) =>
      var line := VenueLine(v);
      var address := line + (if !Contains(line, city) then ", " + city else "");
      assert JoinPart(v.name) + ", " <= line;
      if Contains(line, city) then
        assert address == line + [];
        line
      else
        ContainsSuffix(line + ", ", city);
        assert address == (line + ", ") + city;
        address
    case _ => city
  }

  /** Case-insensitive test of `text` against the blacklist regular expression built from the words. */
  predicate MatchesBlacklist(cfg: MeetupConfig, text: string) {
    exists k | 0 <= k < |cfg.blacklistWords| :: Contains(ToLower(text), ToLower(cfg.blacklistWords[k]))
  }

  /** The country rule: every row passes when no country is configured. */
  predicate IsValidCountry(cfg: MeetupConfig, row: GroupRow) {
    if Truthy(cfg.country) then row.country == cfg.country else true
  }

  predicate IsBlacklistedGroup(cfg: MeetupConfig, row: GroupRow) {
    exists k | 0 <= k < |cfg.blacklistGroups| :: cfg.blacklistGroups[k] == row.id
  }

  /**
   * `isValidGroup` as lines 35-43 decide it: a truthy name and description
   * that match no blacklisted word, the configured country, and a group id
   * that is not blacklisted.
   */
  predicate IsValidGroup(cfg: MeetupConfig, row: GroupRow)
    ensures !Truthy(row.name) || !Truthy(row.description) ==> !IsValidGroup(cfg, row)
    ensures IsBlacklistedGroup(cfg, row) ==> !IsValidGroup(cfg, row)
    ensures !IsValidCountry(cfg, row) ==> !IsValidGroup(cfg, row)
    ensures cfg.blacklistWords == [] && Truthy(row.name) && Truthy(row.description) ==>
      (IsValidGroup(cfg, row) <==> IsValidCountry(cfg, row) && !IsBlacklistedGroup(cfg, row))
    ensures |cfg.blacklistWords| != 0 && Truthy(row.name) && Truthy(row.description) ==>
      (IsValidGroup(cfg, row) <==>
        && IsValidCountry(cfg, row) && !IsBlacklistedGroup(cfg, row)
        && !MatchesBlacklist(cfg, row.name.value) && !MatchesBlacklist(cfg, row.description.value))
  {
    var isValidCountry := IsValidCountry(cfg, row);
    var isValidText :=
      if Truthy(row.name) && Truthy(row.description) then
        |cfg.blacklistWords| == 0
        || !(MatchesBlacklist(cfg, row.name.value) || MatchesBlacklist(cfg, row.description.value))
      else false;
    var isValidGroupId := !IsBlacklistedGroup(cfg, row);
    isValidCountry && isValidText && isValidGroupId
  }

  function IsValidGroupAt(cfg: MeetupConfig): GroupRow -> bool {
    (row: GroupRow) => IsValidGroup(cfg, row)
  }

  function GroupIdOf(row: GroupRow): int {
    row.id
  }

  /** The ids of the valid groups, in the order the listing returned them. */
  function ValidGroupIds(cfg: MeetupConfig, results: seq<GroupRow>): seq<int> {
    Map(GroupIdOf, Filter(IsValidGroupAt(cfg), results))
  }

  /** `getGroupIds`: filters the listing with `isValidGroup` and pushes each id. */
  method GetGroupIds(cfg: MeetupConfig, results: seq<GroupRow>) returns (groupIds: seq<int>)
    ensures groupIds == ValidGroupIds(cfg, results)
    ensures forall id :: id in groupIds <==> exists row | row in results :: IsValidGroup(cfg, row) && row.id == id
  {
    var valid := Filter(IsValidGroupAt(cfg), results);
    groupIds := [];
    var i := 0;
    while i < |valid|
      invariant 0 <= i <= |valid|
      invariant groupIds == Map(GroupIdOf, valid[..i])
    {
      assert valid[..i + 1] == valid[..i] + [valid[i]];
      groupIds := groupIds + [valid[i].id];
      i := i + 1;
    }
    assert valid[..i] == valid;
    FilterMembers(IsValidGroupAt(cfg), results);
    forall id ensures id in groupIds <==> exists row | row in results :: IsValidGroup(cfg, row) && row.id == id {
      if id in groupIds {
        var k :| 0 <= k < |groupIds| && groupIds[k] == id;
        assert valid[k] in valid;
      }
      if exists row | row in results :: IsValidGroup(cfg, row) && row.id == id {
        var row :| row in results && IsValidGroup(cfg, row) && row.id == id;
        assert row in valid;
        var k :| 0 <= k < |valid| && valid[k] == row;
        assert groupIds[k] == id;
      }
    }
  }

  /** `isFree`: the row carries no fee. */
  predicate IsFree(row: EventRow) {
    !row.fee.Val?
  }

  /** A row that `normalizeGroupEvents` turns into an event. */
  predicate IsPublishable(row: EventRow) {
    IsFree(row) && !row.venue.Undefined? && row.venueVisibility != Val("members")
  }

  /** The row after `row.duration = 7200000` when it had none. */
  function WithDefaultDuration(row: EventRow): (r: EventRow)
    ensures r.duration.Some?
    ensures row.duration.Some? ==> r == row
    ensures row.duration.None? ==> r == row.(duration := Some(DEFAULT_DURATION_MS))
  {
    if row.duration.None? then row.(duration := Some(DEFAULT_DURATION_MS)) else row
  }

  /** The canonical event built from a publishable row. */
  function GroupEvent(cfg: MeetupConfig, row: EventRow): (e: Event)
    ensures e.startTime <= e.endTime
  {
    var row' := WithDefaultDuration(row);
    Event(
      id := row'.id,
      name := row'.name,
      description := cfg.htmlStrip(row'.description),
      location := ConstructAddress(cfg.city, row'.venue),
      url := row'.eventUrl,
      groupId := Some(row'.group.id),
      groupName := row'.group.name,
      groupUrl := GROUP_URL_PREFIX + row'.group.urlname,
      formattedTime := cfg.formatTime(row'.time),
      startTime := row'.time,
      endTime := row'.time + row'.duration.value,
      yesRsvpCount := row'.yesRsvpCount)
  }

  /**
   * `normalizeGroupEvents`, the reducer over the events listing: a row with
   * a fee, without a venue property or with a members-only venue leaves the
   * accumulator as it was; any other row appends exactly one event.
   */
  function NormalizeGroupEvents(cfg: MeetupConfig, events: seq<Event>, row: EventRow): (r: seq<Event>)
    ensures !IsPublishable(row) ==> r == events
    ensures IsPublishable(row) ==> |r| == |events| + 1 && r[..|events|] == events
    ensures IsPublishable(row) ==>
      var e := r[|events|];
      && e.id == row.id && e.name == row.name && e.url == row.eventUrl
      && e.startTime == row.time
      && e.endTime == row.time + (if row.duration.Some? then row.duration.value else DEFAULT_DURATION_MS)
      && e.groupUrl == "http://meetup.com/" + row.group.urlname
      && e.location == ConstructAddress(cfg.city, row.venue)
  {
    if !IsFree(row) then events
    else if row.venue.Undefined? || row.venueVisibility == Val("members") then events
    else
      var r := events + [GroupEvent(cfg, row)];
      assert r[..|events|] == events;
      r
  }

  /** `data.results.reduce(normalizeGroupEvents, [])` as a specification. */
  function NormalizedEvents(cfg: MeetupConfig, results: seq<EventRow>): seq<Event>
    decreases |results|
  {
    if results == [] then []
    else NormalizeGroupEvents(cfg, NormalizedEvents(cfg, results[..|results| - 1]), results[|results| - 1])
  }

  function GroupEventOf(cfg: MeetupConfig): EventRow -> Event {
    (row: EventRow) => GroupEvent(cfg, row)
  }

  function IsPublishableAt(): EventRow -> bool {
    (row: EventRow) => IsPublishable(row)
  }

  /** The reduction keeps the publishable rows, in order, and maps each to its event. */
  lemma {:induction false} NormalizedEventsIsFilterMap(cfg: MeetupConfig, results: seq<EventRow>)
    ensures NormalizedEvents(cfg, results) == Map(GroupEventOf(cfg), Filter(IsPublishableAt(), results))
    decreases |results|
  {
    if results != [] {
      var init, row := results[..|results| - 1], results[|results| - 1];
      NormalizedEventsIsFilterMap(cfg, init);
      var kept := Filter(IsPublishableAt(), init);
      if IsPublishable(row) {
        MapConcat(GroupEventOf(cfg), kept, [row]);
      }
    }
  }

  /** The reduction in `getEventsByGroupIds`, one row at a time. */
  method GetEventsFromResults(cfg: MeetupConfig, results: seq<EventRow>) returns (events: seq<Event>)
    ensures events == NormalizedEvents(cfg, results)
    ensures |events| <= |results|
    ensures forall e | e in events :: e.startTime <= e.endTime
  {
    events := [];
    var i := 0;
    while i < |results|
      invariant 0 <= i <= |results|
      invariant events == NormalizedEvents(cfg, results[..i])
      invariant |events| <= i
    {
      assert results[..i + 1][..i] == results[..i];
      events := NormalizeGroupEvents(cfg, events, results[i]);
      i := i + 1;
    }
    assert results[..i] == results;
    NormalizedEventsIsFilterMap(cfg, results);
  }

  /** What evaluating `isValidGroup` does: throw a TypeError, or return a verdict. */
  datatype Evaluation = Throws | Returns(verdict: bool)

  /**
   * Line 33 computes a text verdict that lines 35-39 overwrite, but reading
   * `.match` of a null or undefined name, or of a null description when the
   * name does not match, throws first. Only reached with blacklist words.
   */
  predicate Line33Throws(cfg: MeetupConfig, row: GroupRow) {
    && |cfg.blacklistWords| != 0
    && (|| !row.name.Val?
        || (!MatchesBlacklist(cfg, row.name.value) && row.description.Null?))
  }

  /** `isValidGroup` as written, including the throw on line 33. */
  function IsValidGroupAsWritten(cfg: MeetupConfig, row: GroupRow): (ev: Evaluation)
    ensures ev.Returns? ==> ev.verdict == IsValidGroup(cfg, row)
    ensures ev.Throws? <==> Line33Throws(cfg, row)
    ensures |cfg.blacklistWords| == 0 || (Truthy(row.name) && Truthy(row.description)) ==>
      ev == Returns(IsValidGroup(cfg, row))
  {
    if Line33Throws(cfg, row) then Throws else Returns(IsValidGroup(cfg, row))
  }

  /**
   * `getGroupIds` as written: a throwing row rejects the whole promise,
   * whose handler yields undefined (None), so no group ids at all.
   */
  function GroupIdsAsWritten(cfg: MeetupConfig, results: seq<GroupRow>): (r: Option<seq<int>>)
    ensures r.Some? <==> forall k | 0 <= k < |results| :: IsValidGroupAsWritten(cfg, results[k]).Returns?
    ensures r.Some? ==> r.value == ValidGroupIds(cfg, results)
    // Without blacklist words, or when every row has a name and a description,
    // the code as written agrees with the corrected rule.
    ensures |cfg.blacklistWords| == 0 ==> r == Some(ValidGroupIds(cfg, results))
    ensures (forall k | 0 <= k < |results| :: Truthy(results[k].name) && Truthy(results[k].description)) ==>
      r == Some(ValidGroupIds(cfg, results))
  {
    if exists k | 0 <= k < |results| :: IsValidGroupAsWritten(cfg, results[k]).Throws?
    then None
    else Some(ValidGroupIds(cfg, results))
  }

  /**
   * A single group row without a name, next to a perfectly valid group,
   * makes the as-written listing produce no ids at all, whereas the
   * corrected rule just skips that row.
   */
  lemma NamelessGroupLosesAllGroups()
    ensures var cfg := MeetupConfig("Singapore", Undefined, [], ["cryptocurrency"], t => "", d => "");
      var good := GroupRow(1, Val("Go"), Val("Gophers"), Val("SG"));
      var nameless := GroupRow(2, Undefined, Val("Rust"), Val("SG"));
      && GroupIdsAsWritten(cfg, [good, nameless]) == None
      && ValidGroupIds(cfg, [good, nameless]) == [1]
  {
    var cfg := MeetupConfig("Singapore", Undefined, [], ["cryptocurrency"], t => "", d => "");
    var good := GroupRow(1, Val("Go"), Val("Gophers"), Val("SG"));
    var nameless := GroupRow(2, Undefined, Val("Rust"), Val("SG"));
    var rows := [good, nameless];
    assert GroupIdsAsWritten(cfg, rows) == None by {
      assert Line33Throws(cfg, rows[1]);
    }
    assert ValidGroupIds(cfg, rows) == [1] by {
      assert !MatchesBlacklist(cfg, "Go") by {
        assert !Contains(ToLower("Go"), ToLower("cryptocurrency"));
      }
      assert !MatchesBlacklist(cfg, "Gophers") by {
        assert !Contains(ToLower("Gophers"), ToLower("cryptocurrency"));
      }
      assert IsValidGroup(cfg, good);
      assert Filter(IsValidGroupAt(cfg), rows) == [good] by {
        assert rows[..1] == [good];
        assert [good][..0] == [];
      }
    }
  }

  /** With the corrected rule, a row that the as-written rule throws on is simply not a valid group. */
  lemma ThrowingRowIsInvalid(cfg: MeetupConfig, row: GroupRow)
    requires Line33Throws(cfg, row)
    ensures !IsValidGroup(cfg, row)
  {
  }

  function HasNameAt(): GroupRow -> bool {
    (row: GroupRow) => Truthy(row.name)
  }

  lemma {:induction false} FilterValidSkipsNameless(cfg: MeetupConfig, rows: seq<GroupRow>)
    ensures Filter(IsValidGroupAt(cfg), rows) == Filter(IsValidGroupAt(cfg), Filter(HasNameAt(), rows))
    decreases |rows|
  {
    if rows != [] {
      var init, row := rows[..|rows| - 1], rows[|rows| - 1];
      FilterValidSkipsNameless(cfg, init);
      if Truthy(row.name) {
        var named := Filter(HasNameAt(), init);
        assert (named + [row])[..|named + [row]| - 1] == named;
      }
    }
  }

  /** Corrected: rows without a name, wherever they sit in the listing, never change the ids produced. */
  lemma NamelessRowsAreSkipped(cfg: MeetupConfig, rows: seq<GroupRow>)
    ensures ValidGroupIds(cfg, rows) == ValidGroupIds(cfg, Filter(HasNameAt(), rows))
  {
    FilterValidSkipsNameless(cfg, rows);
  }
}
