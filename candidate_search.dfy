/**
 * `searchCandidatesAction`: when a chat message asks for a candidate search, how the labelled
 * criteria are read off it, which web-search queries are formed from them and which of those
 * the search loop visits, and the text of the acknowledgement reply.
 */
module CandidateSearch {
  import opened Wrappers
  import opened Text
  import opened Seqs

  /** The phrases `validate` looks for, in lower case. */
  const SearchPhrases: seq<string> := [
    "найди кандидатов", "найти кандидатов", "поиск кандидатов", "ищи кандидатов",
    "найди специалистов", "find candidates", "search candidates", "look for candidates"]

  /**
   * `validate`: the lower-cased request contains one of the fixed phrases. The body is the
   * handler's chain of `includes` tests.
   */
  function ValidateCandidateSearch(text: Option<string>): (b: bool)
    ensures b <==> ContainsAny(RequestText(text), SearchPhrases)
  {
    var t := RequestText(text);
    assert ContainsAny(t, SearchPhrases) <==>
      Contains(t, "найди кандидатов") || Contains(t, "найти кандидатов") || Contains(t, "поиск кандидатов")
      || Contains(t, "ищи кандидатов") || Contains(t, "найди специалистов") || Contains(t, "find candidates")
      || Contains(t, "search candidates") || Contains(t, "look for candidates") by {
      assert SearchPhrases[0] == "найди кандидатов" && SearchPhrases[1] == "найти кандидатов";
      assert SearchPhrases[2] == "поиск кандидатов" && SearchPhrases[3] == "ищи кандидатов";
      assert SearchPhrases[4] == "найди специалистов" && SearchPhrases[5] == "find candidates";
      assert SearchPhrases[6] == "search candidates" && SearchPhrases[7] == "look for candidates";
    }
    Contains(t, "найди кандидатов") || Contains(t, "найти кандидатов") || Contains(t, "поиск кандидатов")
    || Contains(t, "ищи кандидатов") || Contains(t, "найди специалистов") || Contains(t, "find candidates")
    || Contains(t, "search candidates") || Contains(t, "look for candidates")
  }

  /** `validate` ignores case: a request and its lower-cased form are accepted alike. */
  lemma ValidateIgnoresCase(s: string)
    ensures ValidateCandidateSearch(Some(s)) == ValidateCandidateSearch(Some(Lower(s)))
  {
    LowerIdempotent(s);
  }

  /** A message without text is never a candidate search. */
  lemma EmptyRequestIgnored()
    ensures !ValidateCandidateSearch(None)
    ensures !ValidateCandidateSearch(Some(""))
  {
    forall k | 0 <= k < |SearchPhrases| ensures !Contains("", SearchPhrases[k]) {
      assert |SearchPhrases[k]| > 0;
    }
  }

  /** The alternatives of each criterion's label, in the order the pattern tries them. */
  const SkillsLabels: seq<string> := ["навыки", "skills", "skill"]
  const PositionLabels: seq<string> := ["должность", "позиция", "position"]
  const ExperienceLabels: seq<string> := ["опыт", "experience"]
  const LocationLabels: seq<string> := ["город", "location"]

  /**
   * The pattern `(?:label):\s*([^,]+)` can match at position `i` of `t` with this label: the
   * label, ignoring case, and a colon start there, and a character other than a comma follows.
   */
  predicate LabelledAt(t: string, name: string, i: nat) {
    OccursAt(Lower(t), name + ":", i) && i + |name| + 1 < |t| && t[i + |name| + 1] != ','
  }

  /** Where the captured text starts when the pattern matches at `i`: after the first label of `labels` that fits. */
  function SegmentStart(t: string, labels: seq<string>, i: nat): (j: Option<nat>)
    ensures j.Some? ==> i < j.value < |t| && t[j.value] != ','
  {
    if labels == [] then None
    else if LabelledAt(t, labels[0], i) then Some(i + |labels[0]| + 1)
    else SegmentStart(t, labels[1..], i)
  }

  /**
   * The pattern matches at `i` exactly when some label fits there, and the capture then starts
   * right after that label's colon.
   */
  lemma {:induction false} SegmentStartMeaning(t: string, labels: seq<string>, i: nat)
    ensures SegmentStart(t, labels, i).None? <==> forall k :: 0 <= k < |labels| ==> !LabelledAt(t, labels[k], i)
    ensures SegmentStart(t, labels, i).Some? ==>
      exists k :: 0 <= k < |labels| && LabelledAt(t, labels[k], i) && SegmentStart(t, labels, i).value == i + |labels[k]| + 1
  {
    if labels != [] && !LabelledAt(t, labels[0], i) {
      var rest := labels[1..];
      SegmentStartMeaning(t, rest, i);
      var j := SegmentStart(t, rest, i);
      if j.None? {
        forall k | 0 <= k < |labels| ensures !LabelledAt(t, labels[k], i) {
          if k > 0 { assert labels[k] == rest[k - 1]; }
        }
      } else {
        var k :| 0 <= k < |rest| && LabelledAt(t, rest[k], i) && j.value == i + |rest[k]| + 1;
        assert rest[k] == labels[k + 1];
      }
    } else if labels != [] {
      assert LabelledAt(t, labels[0], i);
    }
  }

  /** The first label that fits at `i` decides where the captured text starts. */
  lemma {:induction false} SegmentStartFirst(t: string, labels: seq<string>, i: nat, k: nat)
    requires k < |labels| && LabelledAt(t, labels[k], i)
    requires forall m :: 0 <= m < k ==> !LabelledAt(t, labels[m], i)
    ensures SegmentStart(t, labels, i) == Some(i + |labels[k]| + 1)
  {
    if k > 0 {
      assert !LabelledAt(t, labels[0], i);
      forall m | 0 <= m < k - 1 ensures !LabelledAt(t, labels[1..][m], i) {
        assert labels[1..][m] == labels[m + 1];
      }
      SegmentStartFirst(t, labels[1..], i, k - 1);
    }
  }

  /** The first comma at or after `j`, or the end of `t`: where `[^,]+` stops. */
  function CommaOrEnd(t: string, j: nat): (k: nat)
    requires j <= |t|
    ensures j <= k <= |t| && (k == |t| || t[k] == ',')
    ensures forall m :: j <= m < k ==> t[m] != ','
    decreases |t| - j
  {
    if j == |t| || t[j] == ',' then j else CommaOrEnd(t, j + 1)
  }

  /** The leftmost position at or after `i` where the pattern matches, as `String.prototype.match` finds it. */
  function MatchPosition(t: string, labels: seq<string>, i: nat): (p: Option<nat>)
    ensures p.Some? ==> i <= p.value < |t| && SegmentStart(t, labels, p.value).Some?
    ensures p.Some? ==> forall q :: i <= q < p.value ==> SegmentStart(t, labels, q).None?
    ensures p.None? ==> forall q :: i <= q < |t| ==> SegmentStart(t, labels, q).None?
    decreases |t| - i
  {
    if i >= |t| then None
    else if SegmentStart(t, labels, i).Some? then Some(i)
    else MatchPosition(t, labels, i + 1)
  }

  /** The text from `j` up to the next comma or the end: what `[^,]+` spans once `\s*` is past. */
  function Segment(t: string, j: nat): (s: string)
    requires j <= |t|
    ensures ',' !in s
    ensures s == t[j..CommaOrEnd(t, j)]
  {
    t[j..CommaOrEnd(t, j)]
  }

  /** A piece of a slice of `t` is a piece of `t`, shifted by where the slice starts. */
  lemma PieceOfSlice(t: string, j: nat, k: nat, c: string, o: nat)
    requires j <= k <= |t| && OccursAt(t[j..k], c, o)
    ensures OccursAt(t, c, j + o)
  {
    var piece := t[j + o..j + o + |c|];
    forall i | 0 <= i < |c| ensures piece[i] == c[i] {
      assert c[i] == t[j..k][o + i];
    }
    assert piece == c;
  }

  /** The trimmed segment from `j` is a piece of `t` when it is not empty. */
  lemma TrimmedSegmentInText(t: string, j: nat)
    requires j <= |t|
    ensures Trim(Segment(t, j)) != "" ==> Contains(t, Trim(Segment(t, j)))
  {
    var s := Segment(t, j);
    TrimOccurs(s);
    PieceOfSlice(t, j, CommaOrEnd(t, j), Trim(s), TrimOffset(s));
  }

  /**
   * `match ? match[1].trim() : ''`. The capture is the segment after the label with some of its
   * leading white space taken by `\s*` (`RegexCapture`); trimming removes the rest, so the result
   * is the trimmed segment (see `CriterionIsTrimmedCapture`), and it is empty when the pattern does not match.
   */
  function Criterion(t: string, labels: seq<string>): (c: string)
    ensures IsTrimmed(c) && ',' !in c
    ensures MatchPosition(t, labels, 0).None? ==> c == ""
    ensures c != "" ==> Contains(t, c)
  {
    match MatchPosition(t, labels, 0)
    case None => ""
    case Some(p) =>
      var j := SegmentStart(t, labels, p).value;
      TrimmedSegmentInText(t, j);
      TrimKeepsOut(Segment(t, j), ',');
      Trim(Segment(t, j))
  }

  /** The length of the white space at the front of `s`: what the greedy `\s*` takes first. */
  function SpaceRun(s: string): (d: nat)
    ensures d <= |s| && AllSpace(s[..d])
    ensures d < |s| ==> !IsSpace(s[d])
  {
    if s == [] || !IsSpace(s[0]) then 0
    else
      var d := 1 + SpaceRun(s[1..]);
      assert s[..d] == [s[0]] + s[1..][..d - 1];
      d
  }

  /**
   * `match[1]` for a match whose label and colon end just before `j`: `\s*` takes the white space
   * run, giving one character back when `[^,]+` would otherwise be left with nothing, and `[^,]+`
   * takes the rest of the segment.
   */
  function RegexCapture(t: string, j: nat): (c: string)
    requires j < |t| && t[j] != ','
    ensures c != [] && ',' !in c
    ensures Trim(c) == Trim(Segment(t, j))
  {
    var s := Segment(t, j);
    var d := SpaceRun(s);
    var d' := if d == |s| then d - 1 else d;
    assert s[..d'] == s[..d][..d'];
    CaptureTrimsLikeSegment(s, d');
    s[d'..]
  }

  /** Whatever leading white space `\s*` takes from the segment, the trimmed capture is the same. */
  lemma CaptureTrimsLikeSegment(s: string, d: nat)
    requires d <= |s| && AllSpace(s[..d])
    ensures Trim(s[d..]) == Trim(s)
  {
    StartAfterSpace(s, d);
  }

  /** Dropping white space from the front does not change what `trimStart` gives. */
  lemma {:induction false} StartAfterSpace(s: string, d: nat)
    requires d <= |s| && AllSpace(s[..d])
    ensures TrimStart(s[d..]) == TrimStart(s)
    decreases d
  {
    if d > 0 {
      assert IsSpace(s[..d][0]);
      assert s[1..][d - 1..] == s[d..];
      assert s[1..][..d - 1] == s[..d][1..];
      StartAfterSpace(s[1..], d - 1);
    }
  }

  /** When the pattern matches, the criterion is `match[1].trim()`. */
  lemma CriterionIsTrimmedCapture(t: string, labels: seq<string>)
    requires MatchPosition(t, labels, 0).Some?
    ensures var j := SegmentStart(t, labels, MatchPosition(t, labels, 0).value).value;
      j < |t| && t[j] != ',' && Criterion(t, labels) == Trim(RegexCapture(t, j))
  {
  }

  /** No label followed by a colon, ignoring case: the criterion is empty. */
  lemma CriterionAbsent(t: string, labels: seq<string>)
    requires forall k :: 0 <= k < |labels| ==> !Contains(Lower(t), labels[k] + ":")
    ensures Criterion(t, labels) == ""
  {
    if MatchPosition(t, labels, 0).Some? {
      var p := MatchPosition(t, labels, 0).value;
      SegmentStartMeaning(t, labels, p);
      assert false;
    }
  }

  /**
   * A request that opens with a label and a colon followed by some text: the criterion is that
   * text up to the first comma, trimmed.
   */
  lemma CriterionAtStart(t: string, labels: seq<string>, k: nat)
    requires k < |labels| && LabelledAt(t, labels[k], 0)
    requires forall m :: 0 <= m < k ==> !LabelledAt(t, labels[m], 0)
    ensures Criterion(t, labels) == Trim(Segment(t, |labels[k]| + 1))
  {
    var j := |labels[k]| + 1;
    SegmentStartFirst(t, labels, 0, k);
    assert SegmentStart(t, labels, 0) == Some(j);
    assert MatchPosition(t, labels, 0) == Some(0);
  }

  /** The four criteria the handler reads off the request, `''` for each one that is missing. */
  datatype Criteria = Criteria(position: string, skills: string, experience: string, location: string)

  /** `message.content.text || ''`: the request as written, case kept. */
  function SearchText(text: Option<string>): (t: string)
    ensures text.Some? ==> t == text.value
    ensures text.None? ==> t == ""
  {
    text.GetOr("")
  }

  /** Each criterion from its own labels. */
  function ReadCriteria(t: string): (c: Criteria)
    ensures c.position == Criterion(t, PositionLabels) && c.skills == Criterion(t, SkillsLabels)
    ensures c.experience == Criterion(t, ExperienceLabels) && c.location == Criterion(t, LocationLabels)
  {
    Criteria(Criterion(t, PositionLabels), Criterion(t, SkillsLabels),
             Criterion(t, ExperienceLabels), Criterion(t, LocationLabels))
  }

  /** `${location ? `в ${location}` : ''}` and its English form with "in". */
  function LocationSuffix(preposition: string, location: string): (s: string)
    ensures location == "" ==> s == ""
    ensures location != "" ==> s == preposition + " " + location
  {
    if location != "" then preposition + " " + location else ""
  }

  function PositionQueryRu(c: Criteria): string {
    c.position + " резюме " + LocationSuffix("в", c.location)
  }

  function PositionQueryEn(c: Criteria): string {
    c.position + " candidate " + LocationSuffix("in", c.location)
  }

  function SkillsQueryRu(c: Criteria): string {
    "резюме " + c.skills + " " + LocationSuffix("в", c.location)
  }

  function SkillsQueryEn(c: Criteria): string {
    "resume " + c.skills + " " + LocationSuffix("in", c.location)
  }

  /**
   * The queries for the criteria: two from the position when there is one, then two from the
   * skills when there are any.
   */
  function SearchQueries(c: Criteria): (qs: seq<string>)
    ensures |qs| == (if c.position != "" then 2 else 0) + (if c.skills != "" then 2 else 0)
  {
    (if c.position != "" then [PositionQueryRu(c), PositionQueryEn(c)] else [])
    + (if c.skills != "" then [SkillsQueryRu(c), SkillsQueryEn(c)] else [])
  }

  /**
   * The four query templates: "<position> резюме …" and "<position> candidate …" first, when a
   * position is given, then "резюме <skills> …" and "resume <skills> …", when skills are; each
   * ends with the location suffix for its language.
   */
  lemma QueryTemplates(c: Criteria)
    ensures c.position != "" ==> SearchQueries(c)[0] == c.position + " резюме " + LocationSuffix("в", c.location)
    ensures c.position != "" ==> SearchQueries(c)[1] == c.position + " candidate " + LocationSuffix("in", c.location)
    ensures c.skills != "" ==> var i := if c.position != "" then 2 else 0;
      SearchQueries(c)[i] == "резюме " + c.skills + " " + LocationSuffix("в", c.location)
      && SearchQueries(c)[i + 1] == "resume " + c.skills + " " + LocationSuffix("in", c.location)
  {
  }

  /** The handler's conditional `push` calls, in order. */
  method BuildSearchQueries(c: Criteria) returns (qs: seq<string>)
    ensures qs == SearchQueries(c)
  {
    qs := [];
    if c.position != "" {
      qs := qs + [PositionQueryRu(c)];
      qs := qs + [PositionQueryEn(c)];
    }
    if c.skills != "" {
      qs := qs + [SkillsQueryRu(c)];
      qs := qs + [SkillsQueryEn(c)];
    }
  }

  /** `s` ends with `suffix`: `String.prototype.endsWith`. */
  predicate EndsWith(s: string, suffix: string) {
    |suffix| <= |s| && s[|s| - |suffix|..] == suffix
  }

  /**
   * There are no queries, two or four: none without position and skills, four with both. With
   * both, the position queries come first, each starting with the position, and the skills
   * queries after them, each containing the skills.
   */
  lemma QueriesFollowCriteria(c: Criteria)
    ensures |SearchQueries(c)| in {0, 2, 4}
    ensures |SearchQueries(c)| == 4 <==> c.position != "" && c.skills != ""
    ensures |SearchQueries(c)| == 0 <==> c.position == "" && c.skills == ""
    ensures c.position != "" ==> c.position <= SearchQueries(c)[0] && c.position <= SearchQueries(c)[1]
    ensures c.skills != "" ==> var qs := SearchQueries(c);
      Contains(qs[|qs| - 2], c.skills) && Contains(qs[|qs| - 1], c.skills)
  {
    var qs := SearchQueries(c);
    if c.skills != "" {
      assert qs[|qs| - 2] == SkillsQueryRu(c) && qs[|qs| - 1] == SkillsQueryEn(c);
      ContainsMiddle("резюме ", c.skills, " " + LocationSuffix("в", c.location), SkillsQueryRu(c));
      ContainsMiddle("resume ", c.skills, " " + LocationSuffix("in", c.location), SkillsQueryEn(c));
    }
  }

  /** A string contains each piece it is built from. */
  lemma ContainsMiddle(a: string, b: string, rest: string, s: string)
    requires s == a + b + rest
    ensures Contains(s, b)
  {
    forall i | 0 <= i < |b| ensures s[|a| + i] == b[i] {
    }
    assert s[|a|..|a| + |b|] == b;
    assert OccursAt(s, b, |a|);
  }

  /** A string ends with whatever was appended to it. */
  lemma EndsWithAppend(a: string, b: string)
    ensures EndsWith(a + b, b)
  {
    assert (a + b)[|a + b| - |b|..] == b;
  }

  /** A query formed as `base + suffix`, with `base` ending in a blank, ends with the location when there is one. */
  lemma QueryEndsWithLocation(q: string, base: string, preposition: string, location: string)
    requires q == base + " " + LocationSuffix(preposition, location)
    ensures location != "" ==> EndsWith(q, " " + location)
    ensures location == "" ==> EndsWith(q, " ")
  {
    if location != "" {
      assert q == (base + " " + preposition) + (" " + location);
      EndsWithAppend(base + " " + preposition, " " + location);
    } else {
      assert q == base + " ";
      EndsWithAppend(base, " ");
    }
  }

  /**
   * The location shows in a query exactly when there is one: every query ends with it when it is
   * given, and every query ends with the blank before the empty suffix when it is not.
   */
  lemma QueriesCarryLocation(c: Criteria)
    ensures c.location != "" ==> forall q :: q in SearchQueries(c) ==> EndsWith(q, " " + c.location)
    ensures c.location == "" ==> forall q :: q in SearchQueries(c) ==> EndsWith(q, " ")
  {
    var l := c.location;
    QueryEndsWithLocation(PositionQueryRu(c), c.position + " резюме", "в", l);
    QueryEndsWithLocation(PositionQueryEn(c), c.position + " candidate", "in", l);
    QueryEndsWithLocation(SkillsQueryRu(c), "резюме " + c.skills, "в", l);
    QueryEndsWithLocation(SkillsQueryEn(c), "resume " + c.skills, "in", l);
    forall q | q in SearchQueries(c)
      ensures q in {PositionQueryRu(c), PositionQueryEn(c), SkillsQueryRu(c), SkillsQueryEn(c)}
    {
    }
  }

  /** How many queries the loop visits: `slice(0, 3)`. */
  const MaxQueries: nat := 3

  /** The queries the loop visits, in order: the first three at most. */
  function IssuedQueries(qs: seq<string>): (r: seq<string>)
    ensures |r| <= MaxQueries && r <= qs
    ensures |qs| <= MaxQueries ==> r == qs
    ensures |qs| > MaxQueries ==> |r| == MaxQueries
  {
    if |qs| <= MaxQueries then qs else qs[..MaxQueries]
  }

  /**
   * The search loop: with a web-search service it visits each of the first three queries in
   * order (its body only records the query), without one it visits none.
   */
  method VisitQueries(qs: seq<string>, webSearchAvailable: bool) returns (visited: seq<string>)
    ensures webSearchAvailable ==> visited == IssuedQueries(qs)
    ensures !webSearchAvailable ==> visited == []
  {
    visited := [];
    if webSearchAvailable {
      var slice := IssuedQueries(qs);
      for i := 0 to |slice|
        invariant visited == slice[..i]
      {
        assert slice[..i + 1] == slice[..i] + [slice[i]];
        visited := visited + [slice[i]];
      }
      assert slice[..|slice|] == slice;
    }
  }

  /** With position and skills both given, the English skills query is the one never visited. */
  lemma LastQueryNotVisited(c: Criteria)
    requires c.position != "" && c.skills != ""
    ensures IssuedQueries(SearchQueries(c)) == [PositionQueryRu(c), PositionQueryEn(c), SkillsQueryRu(c)]
  {
    var qs := SearchQueries(c);
    assert qs == [PositionQueryRu(c), PositionQueryEn(c), SkillsQueryRu(c), SkillsQueryEn(c)];
  }

  /** The criterion lines of the reply. */
  datatype CriterionKind = PositionKind | SkillsKind | ExperienceKind | LocationKind

  /** The order in which the reply prints the criteria. */
  const CriterionOrder: seq<CriterionKind> := [PositionKind, SkillsKind, ExperienceKind, LocationKind]

  function ValueOf(c: Criteria, k: CriterionKind): string {
    match k
    case PositionKind => c.position
    case SkillsKind => c.skills
    case ExperienceKind => c.experience
    case LocationKind => c.location
  }

  function CriterionLine(c: Criteria, k: CriterionKind): string {
    match k
    case PositionKind => "📋 Должность: " + c.position + "\n"
    case SkillsKind => "🛠️ Навыки: " + c.skills + "\n"
    case ExperienceKind => "💼 Опыт: " + c.experience + "\n"
    case LocationKind => "📍 Локация: " + c.location + "\n"
  }

  /** `(value ? line : '')`. */
  function IfGiven(c: Criteria, k: CriterionKind): string {
    if ValueOf(c, k) != "" then CriterionLine(c, k) else ""
  }

  const ReplyIntro: string := "🔍 Ищу кандидатов по вашим критериям...\n\n"

  const ReplySources: string :=
    "\n" + "Проверяю следующие источники:\n" + "• HeadHunter (hh.ru)\n" + "• LinkedIn\n" + "• Avito Работа\n"
    + "• Habr Career\n" + "• Профессиональные сообщества\n\n"
    + "Результаты поиска будут проанализированы, и подходящие кандидаты будут добавлены в базу."

  /** The reply as the handler writes it: the opening line, each criterion's line when given, the sources. */
  function ReplyText(c: Criteria): string {
    ReplyIntro + (IfGiven(c, PositionKind) + (IfGiven(c, SkillsKind) + (IfGiven(c, ExperienceKind)
    + IfGiven(c, LocationKind)))) + ReplySources
  }

  /** The criteria that are given, in the fixed order. */
  function GivenKinds(c: Criteria): (ks: seq<CriterionKind>)
    ensures forall k :: k in ks <==> ValueOf(c, k) != ""
  {
    var ks := Filter(CriterionOrder, k => ValueOf(c, k) != "");
    forall k ensures k in ks <==> ValueOf(c, k) != "" {
      FilterMembership(CriterionOrder, k => ValueOf(c, k) != "", k);
    }
    ks
  }

  /** The lines of the kinds `ks`, concatenated. */
  function RenderCriteria(c: Criteria, ks: seq<CriterionKind>): string {
    if ks == [] then "" else CriterionLine(c, ks[0]) + RenderCriteria(c, ks[1..])
  }

  /** The lines of the given criteria: one kind at the front. */
  lemma GivenFrom(c: Criteria, i: nat)
    requires i < |CriterionOrder|
    ensures RenderCriteria(c, Filter(CriterionOrder[i..], k => ValueOf(c, k) != ""))
         == IfGiven(c, CriterionOrder[i]) + RenderCriteria(c, Filter(CriterionOrder[i + 1..], k => ValueOf(c, k) != ""))
  {
    var p := k => ValueOf(c, k) != "";
    var rest := Filter(CriterionOrder[i + 1..], p);
    assert CriterionOrder[i..] == [CriterionOrder[i]] + CriterionOrder[i + 1..];
    FilterCons(CriterionOrder[i], CriterionOrder[i + 1..], p);
    if p(CriterionOrder[i]) {
      assert ([CriterionOrder[i]] + rest)[1..] == rest;
    } else {
      assert [] + rest == rest;
    }
  }

  /**
   * The reply prints the line of each criterion exactly when it is given, in the order position,
   * skills, experience, location, between the opening line and the sources.
   */
  lemma ReplyListsGivenCriteria(c: Criteria)
    ensures ReplyText(c) == ReplyIntro + RenderCriteria(c, GivenKinds(c)) + ReplySources
  {
    var p := k => ValueOf(c, k) != "";
    assert RenderCriteria(c, Filter(CriterionOrder[4..], p)) == "";
    GivenFrom(c, 3);
    assert RenderCriteria(c, Filter(CriterionOrder[3..], p)) == IfGiven(c, LocationKind);
    GivenFrom(c, 2);
    GivenFrom(c, 1);
    GivenFrom(c, 0);
    assert CriterionOrder[0..] == CriterionOrder;
  }

  /** What the handler reports: the reply, the criteria, the queries formed and the queries visited. */
  datatype SearchOutcome = SearchOutcome(text: string, criteria: Criteria, queries: seq<string>, visited: seq<string>)

  /**
   * The handler: read the criteria off the request as written, form the queries, visit at most
   * three of them when a web-search service is registered, and acknowledge with the criteria.
   */
  method HandleCandidateSearch(request: Option<string>, webSearchAvailable: bool) returns (o: SearchOutcome)
    ensures o.criteria == ReadCriteria(SearchText(request))
    ensures o.queries == SearchQueries(o.criteria)
    ensures webSearchAvailable ==> o.visited == IssuedQueries(o.queries)
    ensures !webSearchAvailable ==> o.visited == []
    ensures o.text == ReplyText(o.criteria)
  {
    var searchText := SearchText(request);
    var criteria := ReadCriteria(searchText);
    var queries := BuildSearchQueries(criteria);
    var visited := VisitQueries(queries, webSearchAvailable);
    o := SearchOutcome(ReplyText(criteria), criteria, queries, visited);
  }
}
