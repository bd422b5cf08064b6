/**
 * `TelegramJobsService`: the in-memory cache of parsed resumes of one channel, the refresh
 * policy that decides when the channel is read again, and the filtering and ordering of a
 * search over the cache.
 *
 * The cache has two states: Cold (never loaded, `lastUpdateTime` absent, no records) and
 * Warm (loaded at `lastUpdateTime`). The channel reader is not modelled: whether a client was
 * set up is the constant `hasClient`, and what one read of the channel returned is a
 * `ChannelReply` parameter. The clock is the parameter `now`, in milliseconds.
 */
module ChannelCache {
  import opened Wrappers
  import opened Text
  import opened Seqs
  import opened ResumeExtractor

  /** A cache older than this many milliseconds (one hour) is read again. */
  const StaleAfterMs: int := 3600000

  /** The criteria of a search; a criterion is applied only when it is a non-empty string. */
  datatype SearchFilters = SearchFilters(profession: Option<string>, level: Option<string>, location: Option<string>, forceRefresh: bool)

  /** What one `getMessages` call on the channel produced: the messages, or an exception. */
  datatype ChannelReply = Messages(msgs: seq<ChannelMessage>) | ReadError

  /** JavaScript truthiness of an optional string: present and non-empty. */
  predicate Active(f: Option<string>) {
    f.Some? && f.value != ""
  }

  /**
   * The refresh decision of `searchResumes`: read the channel when forced, when the cache was
   * never loaded, or when it is older than `StaleAfterMs`.
   */
  function NeedsRefresh(forceRefresh: bool, lastUpdate: Option<int>, now: int): (b: bool)
    ensures forceRefresh ==> b
    ensures lastUpdate.None? ==> b
    ensures !forceRefresh && lastUpdate.Some? ==> (b <==> now - lastUpdate.value > StaleAfterMs)
  {
    forceRefresh || lastUpdate.None? || now - lastUpdate.value > StaleAfterMs
  }

  /** Some skill of the list contains `needle` once lower-cased. */
  predicate SomeSkillContains(skills: Option<seq<string>>, needle: string) {
    skills.Some? && exists k :: 0 <= k < |skills.value| && Contains(Lower(skills.value[k]), needle)
  }

  /** The profession criterion: a case-insensitive substring of the position or of some skill. */
  predicate ProfessionMatches(r: CandidateResume, profession: string) {
    Contains(Lower(r.position), Lower(profession)) || SomeSkillContains(r.skills, Lower(profession))
  }

  /** The level criterion: case-insensitive equality; a record without a level never matches. */
  predicate LevelMatches(r: CandidateResume, level: string) {
    r.level.Some? && Lower(r.level.value) == Lower(level)
  }

  /** The location criterion: a case-insensitive substring of the location; a record without one never matches. */
  predicate LocationMatches(r: CandidateResume, location: string) {
    r.location.Some? && Contains(Lower(r.location.value), Lower(location))
  }

  predicate ProfessionOk(r: CandidateResume, f: SearchFilters) {
    Active(f.profession) ==> ProfessionMatches(r, f.profession.value)
  }

  predicate LevelOk(r: CandidateResume, f: SearchFilters) {
    Active(f.level) ==> LevelMatches(r, f.level.value)
  }

  predicate LocationOk(r: CandidateResume, f: SearchFilters) {
    Active(f.location) ==> LocationMatches(r, f.location.value)
  }

  /** A record passes a search when it meets every criterion that is applied. */
  predicate Passes(r: CandidateResume, f: SearchFilters) {
    ProfessionOk(r, f) && LevelOk(r, f) && LocationOk(r, f)
  }

  /**
   * The profession filter: a record matches when its position, or any one of its skills, contains
   * the profession, ignoring case; the case the profession is written in does not matter.
   */
  lemma ProfessionFilterRule(r: CandidateResume, profession: string)
    ensures Contains(Lower(r.position), Lower(profession)) ==> ProfessionMatches(r, profession)
    ensures forall k :: r.skills.Some? && 0 <= k < |r.skills.value| && Contains(Lower(r.skills.value[k]), Lower(profession))
              ==> ProfessionMatches(r, profession)
    ensures r.skills.None? ==> (ProfessionMatches(r, profession) <==> Contains(Lower(r.position), Lower(profession)))
    ensures ProfessionMatches(r, Lower(profession)) == ProfessionMatches(r, profession)
  {
    LowerIdempotent(profession);
  }

  /**
   * The level filter: equality ignoring case, not containment; a record without a level never
   * passes it, and the case the level is written in does not matter.
   */
  lemma LevelFilterRule(r: CandidateResume, level: string)
    ensures r.level.None? ==> !LevelMatches(r, level)
    ensures r.level == Some(level) ==> LevelMatches(r, level)
    ensures LevelMatches(r, level) ==> |r.level.value| == |level|
    ensures LevelMatches(r, Lower(level)) == LevelMatches(r, level)
  {
    LowerIdempotent(level);
  }

  /**
   * The location filter: containment ignoring case; a record without a location never passes it,
   * a record whose location is the one searched for always does.
   */
  lemma LocationFilterRule(r: CandidateResume, location: string)
    ensures r.location.None? ==> !LocationMatches(r, location)
    ensures r.location == Some(location) ==> LocationMatches(r, location)
    ensures LocationMatches(r, location) ==> |location| <= |r.location.value|
    ensures LocationMatches(r, Lower(location)) == LocationMatches(r, location)
  {
    LowerIdempotent(location);
    if r.location == Some(location) {
      assert OccursAt(Lower(location), Lower(location), 0);
    }
    if LocationMatches(r, location) {
      var i :| OccursAt(Lower(r.location.value), Lower(location), i);
    }
  }

  /**
   * The three filters are combined with AND, and a criterion that is an empty string is not
   * applied at all, exactly as a missing one.
   */
  lemma PassesRule(r: CandidateResume, f: SearchFilters)
    ensures Passes(r, f) <==> (Active(f.profession) ==> ProfessionMatches(r, f.profession.value))
                              && (Active(f.level) ==> LevelMatches(r, f.level.value))
                              && (Active(f.location) ==> LocationMatches(r, f.location.value))
    ensures f.profession == Some("") ==> (Passes(r, f) <==> Passes(r, f.(profession := None)))
    ensures f.level == Some("") ==> (Passes(r, f) <==> Passes(r, f.(level := None)))
    ensures f.location == Some("") ==> (Passes(r, f) <==> Passes(r, f.(location := None)))
  {
  }

  /** The sort key: `date?.getTime() || 0`. */
  function DateKey(r: CandidateResume): int {
    r.date.GetOr(0)
  }

  /** Newest first. */
  predicate SortedByDateDesc(s: seq<CandidateResume>) {
    forall i, j :: 0 <= i < j < |s| ==> DateKey(s[i]) >= DateKey(s[j])
  }

  /** Inserts `x` into a newest-first list, ahead of every record that is not newer. */
  function InsertByDate(x: CandidateResume, s: seq<CandidateResume>): (r: seq<CandidateResume>)
    requires SortedByDateDesc(s)
    ensures SortedByDateDesc(r)
    ensures multiset(r) == multiset(s) + multiset{x}
  {
    if s == [] then [x]
    else if DateKey(s[0]) <= DateKey(x) then [x] + s
    else
      var rest := InsertByDate(x, s[1..]);
      MultisetCons(s);
      forall k | 0 <= k < |rest| ensures DateKey(rest[k]) <= DateKey(s[0]) {
        assert rest[k] in multiset(rest);
        if rest[k] != x {
          assert rest[k] in s[1..];
        }
      }
      [s[0]] + rest
  }

  /**
   * `results.sort((a, b) => (b.date?.getTime() || 0) - (a.date?.getTime() || 0))`, written as
   * an insertion sort: newest first, and a permutation of the input.
   */
  function SortByDateDesc(s: seq<CandidateResume>): (r: seq<CandidateResume>)
    ensures SortedByDateDesc(r)
    ensures multiset(r) == multiset(s)
  {
    if s == [] then []
    else
      MultisetCons(s);
      InsertByDate(s[0], SortByDateDesc(s[1..]))
  }

  /**
   * The result of a search over the records `cache`: newest first, and a permutation of exactly the
   * cached records that pass every applied criterion, each as often as it is cached.
   */
  function Select(cache: seq<CandidateResume>, f: SearchFilters): (r: seq<CandidateResume>)
    ensures SortedByDateDesc(r)
    ensures forall x :: multiset(r)[x] == if Passes(x, f) then multiset(cache)[x] else 0
    ensures |r| <= |cache|
  {
    var passing := Filter(cache, x => Passes(x, f));
    var r := SortByDateDesc(passing);
    forall x ensures multiset(r)[x] == if Passes(x, f) then multiset(cache)[x] else 0 {
      FilterMultiset(cache, x => Passes(x, f), x);
    }
    assert |r| == |multiset(r)| == |multiset(passing)| == |passing|;
    r
  }

  /** `g` applies every criterion `f` applies, with the same value, and possibly more. */
  predicate Refines(g: SearchFilters, f: SearchFilters) {
    && (Active(f.profession) ==> g.profession == f.profession)
    && (Active(f.level) ==> g.level == f.level)
    && (Active(f.location) ==> g.location == f.location)
  }

  /** Adding a criterion to a search never increases the number of results. */
  lemma AddingFilterNeverIncreases(cache: seq<CandidateResume>, f: SearchFilters, g: SearchFilters)
    requires Refines(g, f)
    ensures |Select(cache, g)| <= |Select(cache, f)|
  {
    var p, q := x => Passes(x, g), x => Passes(x, f);
    FilterStronger(cache, p, q);
    var rg, rf := Select(cache, g), Select(cache, f);
    assert multiset(rg) == multiset(Filter(cache, p)) by {
      forall x ensures multiset(rg)[x] == multiset(Filter(cache, p))[x] {
        FilterMultiset(cache, p, x);
      }
    }
    assert multiset(rf) == multiset(Filter(cache, q)) by {
      forall x ensures multiset(rf)[x] == multiset(Filter(cache, q))[x] {
        FilterMultiset(cache, q, x);
      }
    }
    assert |rg| == |multiset(rg)| && |rf| == |multiset(rf)|;
  }

  /** The in-memory cache of the channel's resumes. */
  class TelegramJobsService {
    /** The regular-expression engine the parser runs on. */
    const matcher: Matcher
    /** Whether `initTelegramClient` left a connected client (`telegramClient !== null`). */
    const hasClient: bool
    var cachedResumes: seq<CandidateResume>
    var lastUpdateTime: Option<int>

    /** Every cached record is one the extractor built, and a Cold cache holds no records. */
    ghost predicate Valid()
      reads this
    {
      && (forall k :: 0 <= k < |cachedResumes| ==> WellFormed(cachedResumes[k]))
      && (lastUpdateTime.None? ==> cachedResumes == [])
    }

    /** The service starts Cold. */
    constructor(matcher: Matcher, hasClient: bool)
      ensures Valid()
      ensures this.matcher == matcher && this.hasClient == hasClient
      ensures cachedResumes == [] && lastUpdateTime == None
    {
      this.matcher := matcher;
      this.hasClient := hasClient;
      cachedResumes := [];
      lastUpdateTime := None;
    }

    /** `start`: a new service whose first read of the channel happens at once. */
    static method Start(matcher: Matcher, hasClient: bool, reply: ChannelReply, now: int) returns (s: TelegramJobsService)
      ensures fresh(s) && s.Valid()
      ensures s.matcher == matcher && s.hasClient == hasClient
      ensures hasClient && reply.Messages? ==> s.cachedResumes == ParseAll(matcher, reply.msgs, now) && s.lastUpdateTime == Some(now)
      ensures !hasClient || reply.ReadError? ==> s.cachedResumes == [] && s.lastUpdateTime == None
    {
      s := new TelegramJobsService(matcher, hasClient);
      var _ := s.FetchChannelMessages(reply, now);
    }

    /** `stop`: back to Cold. */
    method Stop()
      modifies this
      ensures Valid()
      ensures cachedResumes == [] && lastUpdateTime == None
    {
      cachedResumes := [];
      lastUpdateTime := None;
    }

    /**
     * `fetchChannelMessages`: on a successful read the cache becomes exactly the records of the
     * messages, in message order, stamped `now`; without a client, or when the read fails, nothing
     * changes and the old records are returned.
     */
    method FetchChannelMessages(reply: ChannelReply, now: int) returns (r: seq<CandidateResume>)
      requires Valid()
      modifies this
      ensures Valid()
      ensures hasClient && reply.Messages? ==>
        cachedResumes == ParseAll(matcher, reply.msgs, now) && lastUpdateTime == Some(now) && r == cachedResumes
      ensures !hasClient || reply.ReadError? ==>
        cachedResumes == old(cachedResumes) && lastUpdateTime == old(lastUpdateTime) && r == old(cachedResumes)
    {
      if !hasClient {
        return cachedResumes;
      }
      match reply {
        case ReadError =>
          r := cachedResumes;
        case Messages(msgs) =>
          var resumes := ParseAll(matcher, msgs, now);
          cachedResumes := resumes;
          lastUpdateTime := Some(now);
          r := resumes;
      }
    }

    /**
     * `searchResumes`: refreshes the cache when `NeedsRefresh` says so and leaves it alone
     * otherwise, then filters the cached records by profession, level and location, in that
     * order, and sorts them newest first.
     */
    method SearchResumes(filters: SearchFilters, reply: ChannelReply, now: int) returns (results: seq<CandidateResume>)
      requires Valid()
      modifies this
      ensures Valid()
      ensures NeedsRefresh(filters.forceRefresh, old(lastUpdateTime), now) && hasClient && reply.Messages? ==>
        cachedResumes == ParseAll(matcher, reply.msgs, now) && lastUpdateTime == Some(now)
      ensures !NeedsRefresh(filters.forceRefresh, old(lastUpdateTime), now) || !hasClient || reply.ReadError? ==>
        cachedResumes == old(cachedResumes) && lastUpdateTime == old(lastUpdateTime)
      ensures results == Select(cachedResumes, filters)
    {
      if NeedsRefresh(filters.forceRefresh, lastUpdateTime, now) {
        var _ := FetchChannelMessages(reply, now);
      }
      var cache := cachedResumes;
      ghost var p1 := (x: CandidateResume) => ProfessionOk(x, filters);
      ghost var p2 := (x: CandidateResume) => LevelOk(x, filters);
      ghost var p3 := (x: CandidateResume) => LocationOk(x, filters);
      ghost var p12 := (x: CandidateResume) => ProfessionOk(x, filters) && LevelOk(x, filters);
      ghost var all := (x: CandidateResume) => Passes(x, filters);

      results := cache;
      if Active(filters.profession) {
        var profession := filters.profession.value;
        results := Filter(results, r => ProfessionMatches(r, profession));
        FilterEquiv(cache, r => ProfessionMatches(r, profession), p1);
      } else {
        FilterAll(cache, p1);
      }
      assert results == Filter(cache, p1);

      if Active(filters.level) {
        var level := filters.level.value;
        results := Filter(results, r => LevelMatches(r, level));
        FilterEquiv(Filter(cache, p1), r => LevelMatches(r, level), p2);
      } else {
        FilterAll(Filter(cache, p1), p2);
      }
      FilterFilter(cache, p1, p2, p12);
      assert results == Filter(cache, p12);

      if Active(filters.location) {
        var location := filters.location.value;
        results := Filter(results, r => LocationMatches(r, location));
        FilterEquiv(Filter(cache, p12), r => LocationMatches(r, location), p3);
      } else {
        FilterAll(Filter(cache, p12), p3);
      }
      FilterFilter(cache, p12, p3, all);
      assert results == Filter(cache, all);

      results := SortByDateDesc(results);
    }
  }
}
