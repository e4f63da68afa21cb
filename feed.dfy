/**
 * The aggregation core of events/index.js: the fuzzy duplicate rule, the
 * first-seen-wins de-duplication pass, the time-ordered merge of one
 * provider's result into the shared feed, and the reset at the start of an
 * update cycle.
 */
module Feed {
  import opened Js
  import opened Seqs
  import opened Canonical

  /**
   * The word-overlap library, configured to ignore case, numbers and plurals:
   * how many significant words two texts share, given the words to ignore.
   */
  type WordOverlap = (string, string, seq<string>) -> nat

  datatype FeedConfig = FeedConfig(
    city: string,
    apiVersion: string,
    whitelistEvents: seq<Event>,
    blacklistEventIds: seq<string>,
    ignoreWordsInDuplicateEvents: seq<string>,
    overlap: WordOverlap,
    /** Parses a formatted_time with the display format, giving an instant. */
    parseDisplayTime: string -> int)

  /** The words the overlap counts ignore: the configured list plus the lower-cased city. */
  function CommonWords(cfg: FeedConfig): (r: seq<string>)
    ensures |r| == |cfg.ignoreWordsInDuplicateEvents| + 1
    ensures r[..|r| - 1] == cfg.ignoreWordsInDuplicateEvents
    ensures r[|r| - 1] == ToLower(cfg.city)
  {
    cfg.ignoreWordsInDuplicateEvents + [ToLower(cfg.city)]
  }

  /**
   * Do two events describe the same occurrence? Identical display time and
   * name always do; otherwise an identical display time plus overlapping
   * location and either overlapping names or more than two shared
   * description words.
   */
  function IsDuplicateEvent(cfg: FeedConfig, event1: Event, event2: Event): (dup: bool)
    ensures event1.formattedTime == event2.formattedTime && event1.name == event2.name ==> dup
    ensures event1.formattedTime != event2.formattedTime ==> !dup
    ensures event1.formattedTime == event2.formattedTime && event1.name != event2.name ==>
      (dup <==>
        && cfg.overlap(event1.location, event2.location, CommonWords(cfg)) > 0
        && (|| cfg.overlap(event1.name, event2.name, CommonWords(cfg)) > 0
            || cfg.overlap(event1.description, event2.description, CommonWords(cfg)) > 2))
  {
    var common := CommonWords(cfg);
    var overlappedName := cfg.overlap(event1.name, event2.name, common);
    var overlappedLocation := cfg.overlap(event1.location, event2.location, common);
    var overlappedDescription := cfg.overlap(event1.description, event2.description, common);
    if event1.formattedTime == event2.formattedTime && event1.name == event2.name then
      true
    else if event1.formattedTime == event2.formattedTime && overlappedLocation > 0 then
      overlappedName > 0 || overlappedDescription > 2
    else
      false
  }

  /** The duplicate rule is symmetric whenever the overlap counts are. */
  lemma DuplicateSymmetric(cfg: FeedConfig, event1: Event, event2: Event)
    requires forall a, b, c :: cfg.overlap(a, b, c) == cfg.overlap(b, a, c)
    ensures IsDuplicateEvent(cfg, event1, event2) == IsDuplicateEvent(cfg, event2, event1)
  {
    var common := CommonWords(cfg);
    assert cfg.overlap(event1.name, event2.name, common) == cfg.overlap(event2.name, event1.name, common);
    assert cfg.overlap(event1.location, event2.location, common) == cfg.overlap(event2.location, event1.location, common);
    assert cfg.overlap(event1.description, event2.description, common)
        == cfg.overlap(event2.description, event1.description, common);
  }

  /** `afterToday`: the display time, read back as an instant, is later than `now`. */
  predicate AfterToday(cfg: FeedConfig, evt: Event, now: int) {
    cfg.parseDisplayTime(evt.formattedTime) > now
  }

  /**
   * Only the display time matters: two events with the same formatted_time
   * are both kept or both dropped, and an event kept at `now` is kept at
   * any earlier time too.
   */
  lemma AfterTodayByDisplayTime(cfg: FeedConfig, a: Event, b: Event, now: int, earlier: int)
    requires a.formattedTime == b.formattedTime && earlier <= now
    ensures AfterToday(cfg, a, now) <==> AfterToday(cfg, b, now)
    ensures AfterToday(cfg, a, now) ==> AfterToday(cfg, a, earlier)
  {
  }

  function AfterTodayAt(cfg: FeedConfig, now: int): Event -> bool {
    (evt: Event) => AfterToday(cfg, evt, now)
  }

  /** `timeComparer`: negative when `a` starts first, zero on a tie. */
  function TimeComparer(a: Event, b: Event): (d: int)
    ensures d < 0 <==> a.startTime < b.startTime
    ensures d == 0 <==> a.startTime == b.startTime
  {
    a.startTime - b.startTime
  }

  predicate Sorted(s: seq<Event>) {
    forall i, j | 0 <= i < j < |s| :: s[i].startTime <= s[j].startTime
  }

  /** Places `e` before the first element of `t` that starts later than it. */
  function Insert(t: seq<Event>, e: Event): (r: seq<Event>)
    ensures |r| == |t| + 1
    decreases |t|
  {
    if t == [] then [e]
    else if TimeComparer(e, t[0]) < 0 then [e] + t
    else
      assert t == [t[0]] + t[1..];
      [t[0]] + Insert(t[1..], e)
  }

  /** In a sorted list, Insert puts `e` after the events not later than it and before the rest. */
  lemma {:induction false} InsertSplit(t: seq<Event>, e: Event) returns (k: nat)
    requires Sorted(t)
    ensures k <= |t|
    ensures Insert(t, e) == t[..k] + [e] + t[k..]
    ensures forall i | 0 <= i < k :: t[i].startTime <= e.startTime
    ensures forall i | k <= i < |t| :: t[i].startTime > e.startTime
    decreases |t|
  {
    if t == [] {
      k := 0;
    } else if TimeComparer(e, t[0]) < 0 {
      k := 0;
    } else {
      var k' := InsertSplit(t[1..], e);
      k := k' + 1;
      assert t[..k] == [t[0]] + t[1..][..k'];
      assert t[k..] == t[1..][k'..];
    }
  }

  /** Insert adds `e` and keeps every other event. */
  lemma {:induction false} InsertPermutes(t: seq<Event>, e: Event)
    ensures multiset(Insert(t, e)) == multiset(t) + multiset{e}
    decreases |t|
  {
    if t != [] && TimeComparer(e, t[0]) >= 0 {
      InsertPermutes(t[1..], e);
      assert t == [t[0]] + t[1..];
    }
  }

  lemma InsertSorted(t: seq<Event>, e: Event)
    requires Sorted(t)
    ensures Sorted(Insert(t, e))
  {
    var k := InsertSplit(t, e);
    var before, after := t[..k], t[k..];
    var r := before + [e] + after;
    forall i, j | 0 <= i < j < |r|
      ensures r[i].startTime <= r[j].startTime
    {
      if j < k {
        assert r[i] == t[i] && r[j] == t[j];
      } else if i > k {
        assert r[i] == t[i - 1] && r[j] == t[j - 1];
      } else if i == k {
        assert r[j] == t[j - 1];
      } else if j == k {
        assert r[i] == t[i];
      } else {
        assert r[i] == t[i] && r[j] == t[j - 1];
      }
    }
  }

  /**
   * `events.sort(timeComparer)`: ascending by start time and a permutation
   * of its input; stable as well (SortStable).
   */
  function SortByStart(s: seq<Event>): (r: seq<Event>)
    ensures Sorted(r)
    ensures multiset(r) == multiset(s)
    ensures |r| == |s|
    decreases |s|
  {
    if s == [] then []
    else
      assert s == s[..|s| - 1] + [s[|s| - 1]];
      var sorted := SortByStart(s[..|s| - 1]);
      InsertSorted(sorted, s[|s| - 1]);
      InsertPermutes(sorted, s[|s| - 1]);
      Insert(sorted, s[|s| - 1])
  }

  function StartsAt(k: int): Event -> bool {
    (e: Event) => e.startTime == k
  }

  lemma FilterStartsAtInsert(t: seq<Event>, e: Event, k: int)
    requires Sorted(t)
    ensures Filter(StartsAt(k), Insert(t, e))
         == Filter(StartsAt(k), t) + (if e.startTime == k then [e] else [])
  {
    var p := StartsAt(k);
    var i := InsertSplit(t, e);
    var before, after := t[..i], t[i..];
    var mid := if e.startTime == k then [e] else [];
    assert Filter(p, Insert(t, e)) == Filter(p, before) + mid + Filter(p, after) by {
      FilterAround(p, before, e, after);
    }
    assert Filter(p, t) == Filter(p, before) + Filter(p, after) by {
      assert t == before + after;
      FilterConcat(p, before, after);
    }
    if e.startTime == k {
      assert Filter(p, after) == [] by {
        forall j | 0 <= j < |after| ensures after[j].startTime > k {
          assert after[j] == t[i + j];
        }
        FilterStartsAtLater(after, k);
      }
    }
    MoveToEnd(Filter(p, before), mid, Filter(p, after));
  }

  lemma {:induction false} FilterStartsAtLater(s: seq<Event>, k: int)
    requires forall j | 0 <= j < |s| :: s[j].startTime > k
    ensures Filter(StartsAt(k), s) == []
    decreases |s|
  {
    if s != [] {
      FilterStartsAtLater(s[..|s| - 1], k);
    }
  }

  /**
   * The sort is stable: the events that share a start time appear in the
   * result in the order they had in the input.
   */
  lemma {:induction false} SortStable(s: seq<Event>, k: int)
    ensures Filter(StartsAt(k), SortByStart(s)) == Filter(StartsAt(k), s)
    decreases |s|
  {
    if s != [] {
      var p := StartsAt(k);
      var s', e := s[..|s| - 1], s[|s| - 1];
      var mid := if e.startTime == k then [e] else [];
      calc {
        Filter(p, SortByStart(s));
        Filter(p, Insert(SortByStart(s'), e));
        { FilterStartsAtInsert(SortByStart(s'), e, k); }
        Filter(p, SortByStart(s')) + mid;
        { SortStable(s', k); }
        Filter(p, s') + mid;
        { FilterSingleton(p, e); }
        Filter(p, s') + Filter(p, [e]);
        { FilterConcat(p, s', [e]); }
        Filter(p, s' + [e]);
        { assert s' + [e] == s; }
        Filter(p, s);
      }
    }
  }

  /** Does `e` duplicate one of the events already kept? (`uniqueEvents.some(...)`) */
  predicate HasDuplicateIn(cfg: FeedConfig, e: Event, kept: seq<Event>) {
    exists j | 0 <= j < |kept| :: IsDuplicateEvent(cfg, e, kept[j])
  }

  /**
   * The first-seen-wins de-duplication of `feed`: each event in turn is kept
   * unless it duplicates an event kept before it.
   */
  function Dedup(cfg: FeedConfig, feed: seq<Event>): (r: seq<Event>)
    ensures |r| <= |feed|
    ensures forall x | x in r :: x in feed
    decreases |feed|
  {
    if feed == [] then []
    else
      var kept := Dedup(cfg, feed[..|feed| - 1]);
      var e := feed[|feed| - 1];
      assert feed == feed[..|feed| - 1] + [e];
      if HasDuplicateIn(cfg, e, kept) then kept else kept + [e]
  }

  /** `removeDuplicates`: a pass over `feed` that pushes each event no kept event duplicates. */
  method RemoveDuplicates(cfg: FeedConfig, feed: seq<Event>) returns (uniqueEvents: seq<Event>)
    ensures uniqueEvents == Dedup(cfg, feed)
  {
    uniqueEvents := [];
    var i := 0;
    while i < |feed|
      invariant 0 <= i <= |feed|
      invariant uniqueEvents == Dedup(cfg, feed[..i])
    {
      var thisEvent := feed[i];
      assert feed[..i + 1][..i] == feed[..i];
      var isDuplicate := HasDuplicateIn(cfg, thisEvent, uniqueEvents);
      if !isDuplicate {
        uniqueEvents := uniqueEvents + [thisEvent];
      }
      i := i + 1;
    }
    assert feed[..i] == feed;
  }

  /** No kept event duplicates an event kept before it. */
  predicate NoDuplicatePairs(cfg: FeedConfig, s: seq<Event>) {
    forall i, j | 0 <= i < j < |s| :: !IsDuplicateEvent(cfg, s[j], s[i])
  }

  /** De-duplication only removes events: the result is an ordered subsequence. */
  lemma {:induction false} DedupSubseq(cfg: FeedConfig, feed: seq<Event>)
    ensures Subseq(Dedup(cfg, feed), feed)
    decreases |feed|
  {
    if feed != [] {
      var init := feed[..|feed| - 1];
      var e := feed[|feed| - 1];
      assert feed == init + [e];
      DedupSubseq(cfg, init);
      if HasDuplicateIn(cfg, e, Dedup(cfg, init)) {
        SubseqAppend(Dedup(cfg, init), init, e);
      } else {
        SubseqExtend(Dedup(cfg, init), init, e);
      }
    }
  }

  /** What is kept from a prefix of the feed is a prefix of what is kept from the whole. */
  lemma {:induction false} DedupPrefix(cfg: FeedConfig, feed: seq<Event>, i: nat)
    requires i <= |feed|
    ensures Dedup(cfg, feed[..i]) <= Dedup(cfg, feed)
    decreases |feed|
  {
    if i < |feed| {
      var init := feed[..|feed| - 1];
      assert init[..i] == feed[..i];
      DedupPrefix(cfg, init, i);
    } else {
      assert feed[..i] == feed;
    }
  }

  /** The first event of a non-empty feed always survives. */
  lemma DedupKeepsFirst(cfg: FeedConfig, feed: seq<Event>)
    requires feed != []
    ensures Dedup(cfg, feed) != [] && Dedup(cfg, feed)[0] == feed[0]
  {
    DedupPrefix(cfg, feed, 1);
    assert feed[..1][..0] == [];
    assert Dedup(cfg, feed[..1]) == [feed[0]];
  }

  /** No surviving event duplicates one that survived before it. */
  lemma {:induction false} DedupNoDuplicatePairs(cfg: FeedConfig, feed: seq<Event>)
    ensures NoDuplicatePairs(cfg, Dedup(cfg, feed))
    decreases |feed|
  {
    if feed != [] {
      var init := feed[..|feed| - 1];
      DedupNoDuplicatePairs(cfg, init);
    }
  }

  /**
   * Every event of the feed either survives (at the next position after what
   * survived of the events before it) or duplicates an event that survived
   * from before it.
   */
  lemma DedupDropsOnlyDuplicates(cfg: FeedConfig, feed: seq<Event>, i: nat)
    requires i < |feed|
    ensures var before, kept := Dedup(cfg, feed[..i]), Dedup(cfg, feed);
      && before <= kept
      && (|| (|before| < |kept| && kept[|before|] == feed[i])
          || (exists j | 0 <= j < |before| :: IsDuplicateEvent(cfg, feed[i], kept[j])))
  {
    var before := Dedup(cfg, feed[..i]);
    var upto := Dedup(cfg, feed[..i + 1]);
    assert feed[..i + 1][..i] == feed[..i];
    DedupPrefix(cfg, feed, i + 1);
    DedupPrefix(cfg, feed, i);
  }

  /** A feed without duplicate pairs comes out of de-duplication unchanged. */
  lemma {:induction false} DedupOfUnique(cfg: FeedConfig, s: seq<Event>)
    requires NoDuplicatePairs(cfg, s)
    ensures Dedup(cfg, s) == s
    decreases |s|
  {
    if s != [] {
      var init := s[..|s| - 1];
      assert NoDuplicatePairs(cfg, init) by {
        forall i, j | 0 <= i < j < |init| ensures !IsDuplicateEvent(cfg, init[j], init[i]) {
          assert init[i] == s[i] && init[j] == s[j];
        }
      }
      DedupOfUnique(cfg, init);
      assert !HasDuplicateIn(cfg, s[|s| - 1], init) by {
        forall j | 0 <= j < |init| ensures !IsDuplicateEvent(cfg, s[|s| - 1], init[j]) {
          assert init[j] == s[j];
        }
      }
      assert s == init + [s[|s| - 1]];
    }
  }

  /** Running the de-duplication twice gives the same feed as running it once. */
  lemma DedupIdempotent(cfg: FeedConfig, feed: seq<Event>)
    ensures Dedup(cfg, Dedup(cfg, feed)) == Dedup(cfg, feed)
  {
    DedupNoDuplicatePairs(cfg, feed);
    DedupOfUnique(cfg, Dedup(cfg, feed));
  }

  /** An ordered subsequence of a sorted feed is sorted. */
  lemma {:induction false} SortedSubseq(a: seq<Event>, b: seq<Event>)
    requires Sorted(b) && Subseq(a, b)
    ensures Sorted(a)
    decreases |b|
  {
    if a != [] {
      var a', b' := a[..|a| - 1], b[..|b| - 1];
      assert Sorted(b');
      if a[|a| - 1] == b[|b| - 1] {
        SortedSubseq(a', b');
        SubseqMembers(a', b');
        forall i | 0 <= i < |a'| ensures a'[i].startTime <= a[|a| - 1].startTime {
          assert a'[i] in a';
          var j :| 0 <= j < |b'| && b'[j] == a'[i];
        }
        assert a == a' + [a[|a| - 1]];
      } else {
        SortedSubseq(a, b');
      }
    }
  }

  predicate IsBlacklisted(cfg: FeedConfig, evt: Event) {
    exists k | 0 <= k < |cfg.blacklistEventIds| :: cfg.blacklistEventIds[k] == evt.id
  }

  function NotBlacklisted(cfg: FeedConfig): Event -> bool {
    (evt: Event) => !IsBlacklisted(cfg, evt)
  }

  /**
   * The feed after merging a provider's events into `current`: blacklisted
   * ids dropped from the new events, the two lists concatenated, past events
   * dropped, sorted by start time, de-duplicated.
   */
  function MergedEvents(cfg: FeedConfig, current: seq<Event>, data: seq<Event>, now: int): seq<Event> {
    var whiteEvents := Filter(NotBlacklisted(cfg), data);
    Dedup(cfg, SortByStart(Filter(AfterTodayAt(cfg, now), current + whiteEvents)))
  }

  /** What a merge guarantees about the feed it leaves behind. */
  lemma MergedEventsProperties(cfg: FeedConfig, current: seq<Event>, data: seq<Event>, now: int)
    ensures var r := MergedEvents(cfg, current, data, now);
      && Sorted(r)
      && NoDuplicatePairs(cfg, r)
      && (forall e | e in r :: AfterToday(cfg, e, now))
      && (forall e | e in r :: e in current || (e in data && !IsBlacklisted(cfg, e)))
      && |r| <= |current| + |data|
  {
    var whiteEvents := Filter(NotBlacklisted(cfg), data);
    var future := Filter(AfterTodayAt(cfg, now), current + whiteEvents);
    var sorted := SortByStart(future);
    var r := Dedup(cfg, sorted);
    assert Sorted(r) by {
      DedupSubseq(cfg, sorted);
      SortedSubseq(r, sorted);
    }
    DedupNoDuplicatePairs(cfg, sorted);
    assert forall e | e in r :: e in future by {
      forall e | e in r ensures e in future {
        assert e in multiset(sorted);
      }
    }
    FilterMembers(AfterTodayAt(cfg, now), current + whiteEvents);
    FilterMembers(NotBlacklisted(cfg), data);
  }

  /** The feed's metadata; `totalEvents` is absent until the first merge. */
  datatype Meta = Meta(
    generatedAt: Option<string>,
    location: Option<string>,
    apiVersion: Option<string>,
    totalEvents: Option<nat>)

  /** How one provider's request settled: rejected, or fulfilled with a list that may be null. */
  datatype ProviderOutcome = Rejected | Fulfilled(data: Option<seq<Event>>)

  /** `data || []` */
  function Provided(outcome: ProviderOutcome): (r: seq<Event>)
    requires outcome.Fulfilled?
    ensures outcome.data.Some? ==> r == outcome.data.value
    ensures outcome.data.None? ==> r == []
  {
    if outcome.data.Some? then outcome.data.value else []
  }

  /** The process-wide feed (`eventsResult`). */
  class FeedStore {
    var events: seq<Event>
    var meta: Meta

    /** `total_events`, once present, counts the events. */
    predicate CountConsistent()
      reads this
    {
      meta.totalEvents.Some? ==> meta.totalEvents.value == |events|
    }

    constructor ()
      ensures events == [] && meta == Meta(None, None, None, None)
      ensures CountConsistent()
    {
      events := [];
      meta := Meta(None, None, None, None);
    }

    /**
     * `update`: restamps the metadata and resets the events to the
     * whitelisted events that are still to come, in whitelist order. The
     * provider requests it then starts each end in a call to AddEvents.
     */
    method Update(cfg: FeedConfig, now: int, generatedAt: string)
      modifies this
      ensures meta == Meta(Some(generatedAt), Some(cfg.city), Some(cfg.apiVersion), None)
      ensures events == Filter(AfterTodayAt(cfg, now), cfg.whitelistEvents)
      ensures Subseq(events, cfg.whitelistEvents)
      ensures forall e | e in cfg.whitelistEvents :: e in events <==> AfterToday(cfg, e, now)
      ensures CountConsistent()
    {
      meta := Meta(Some(generatedAt), Some(cfg.city), Some(cfg.apiVersion), None);
      events := Filter(AfterTodayAt(cfg, now), cfg.whitelistEvents);
      FilterIsSubseq(AfterTodayAt(cfg, now), cfg.whitelistEvents);
      FilterMembers(AfterTodayAt(cfg, now), cfg.whitelistEvents);
    }

    /**
     * The completion handler of `addEvents`: a rejected provider leaves the
     * feed alone; a fulfilled one is merged in and `total_events` recounted.
     */
    method AddEvents(cfg: FeedConfig, outcome: ProviderOutcome, now: int)
      modifies this
      ensures outcome.Rejected? ==> events == old(events) && meta == old(meta)
      ensures outcome.Fulfilled? ==>
        && events == MergedEvents(cfg, old(events), Provided(outcome), now)
        && meta == old(meta).(totalEvents := Some(|events|))
      ensures outcome.Fulfilled? ==>
        && Sorted(events)
        && NoDuplicatePairs(cfg, events)
        && (forall e | e in events :: AfterToday(cfg, e, now))
        && (forall e | e in events && e !in old(events) :: !IsBlacklisted(cfg, e))
      ensures outcome.Fulfilled? || CountConsistent() == old(CountConsistent())
      ensures outcome.Fulfilled? ==> CountConsistent()
    {
      if outcome.Rejected? {
        return;
      }
      var data := Provided(outcome);
      var whiteEvents := Filter(NotBlacklisted(cfg), data);
      events := events + whiteEvents;
      events := Filter(AfterTodayAt(cfg, now), events);
      events := SortByStart(events);
      events := RemoveDuplicates(cfg, events);
      meta := meta.(totalEvents := Some(|events|));
      MergedEventsProperties(cfg, old(events), data, now);
    }
  }
}
