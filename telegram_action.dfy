/**
 * `searchTelegramJobsAction`: when a chat message is a request to search the channel, how the
 * search criteria are read off the request, and the text of the reply that lists the results.
 */
module TelegramAction {
  import opened Wrappers
  import opened Text
  import opened Seqs
  import opened ResumeExtractor
  import opened ChannelCache

  const TelegramWords: seq<string> := ["telegram", "телеграм", "it_vakansii"]
  const ResumeWords: seq<string> := ["резюме", "кандидат", "разработчик", "список"]
  const ActionWords: seq<string> := ["найди", "покажи", "поиск", "найти", "показать", "ищи", "найдите", "загрузи", "обнови"]
  const RefreshWords: seq<string> := ["обновить", "refresh"]
  /** The profession searched for when the request names none. */
  const DefaultProfession: string := "frontend"
  /** How many results the reply lists. */
  const TopCount: nat := 10
  /** How many skills an entry of the reply lists. */
  const TopSkills: nat := 5

  /**
   * `validate`: the request mentions the channel, and either resumes or a search verb. The
   * source's third alternative (verb, resumes and channel) is implied by its second.
   */
  function ValidateTelegramSearch(text: Option<string>): (b: bool)
    ensures b <==> (ContainsAny(RequestText(text), TelegramWords)
                    && (ContainsAny(RequestText(text), ResumeWords) || ContainsAny(RequestText(text), ActionWords)))
  {
    var t := RequestText(text);
    var hasTelegram := ContainsAny(t, TelegramWords);
    var hasResumes := ContainsAny(t, ResumeWords);
    var hasAction := ContainsAny(t, ActionWords);
    (hasTelegram && hasResumes) || (hasAction && hasTelegram) || (hasAction && hasResumes && hasTelegram)
  }

  /** A request without text is never a search request. */
  lemma EmptyRequestRejected()
    ensures !ValidateTelegramSearch(None)
    ensures !ValidateTelegramSearch(Some(""))
  {
    forall k | 0 <= k < |TelegramWords| ensures !Contains("", TelegramWords[k]) {
      assert |TelegramWords[k]| > 0;
    }
  }

  /** `match?.[0] || undefined`: the whole match of a keyword pattern, when it is non-empty. */
  function Keyword(m: Matcher, re: Regex, t: string): (r: Option<string>)
    ensures r.Some? <==> m(re, t).Some? && m(re, t).value.whole != ""
    ensures r.Some? ==> r.value == m(re, t).value.whole
  {
    match m(re, t)
    case Some(h) => if h.whole != "" then Some(h.whole) else None
    case None => None
  }

  /**
   * The criteria the handler searches with: the profession keyword of the request or
   * `DefaultProfession`, the level and the location keywords when present, and a forced
   * refresh when the request asks to refresh. Patterns are matched on the lower-cased request.
   */
  function DeriveFilters(m: Matcher, text: Option<string>): (f: SearchFilters)
    ensures Active(f.profession)
    ensures Keyword(m, ProfessionQuery, RequestText(text)).Some? ==> f.profession == Keyword(m, ProfessionQuery, RequestText(text))
    ensures Keyword(m, ProfessionQuery, RequestText(text)).None? ==> f.profession == Some(DefaultProfession)
    ensures f.level == Keyword(m, LevelQuery, RequestText(text)) && (f.level.None? || Active(f.level))
    ensures f.location == Keyword(m, LocationQuery, RequestText(text)) && (f.location.None? || Active(f.location))
    ensures f.forceRefresh <==> ContainsAny(RequestText(text), RefreshWords)
  {
    var t := RequestText(text);
    assert ContainsAny(t, RefreshWords) <==> Contains(t, "обновить") || Contains(t, "refresh") by {
      assert RefreshWords[0] == "обновить" && RefreshWords[1] == "refresh";
    }
    SearchFilters(
      Some(Keyword(m, ProfessionQuery, t).GetOr(DefaultProfession)),
      Keyword(m, LevelQuery, t),
      Keyword(m, LocationQuery, t),
      Contains(t, "обновить") || Contains(t, "refresh"))
  }

  /** Every result of a search the handler starts matches the profession searched for. */
  lemma ResultsMatchProfession(m: Matcher, text: Option<string>, cache: seq<CandidateResume>, r: CandidateResume)
    requires r in Select(cache, DeriveFilters(m, text))
    ensures ProfessionMatches(r, DeriveFilters(m, text).profession.value)
    ensures r in cache
  {
    var f := DeriveFilters(m, text);
    assert multiset(Select(cache, f))[r] > 0;
  }

  /** The lines of one entry of the reply. */
  datatype LineKind = Title | Position | Level | Location | Salary | Experience | Skills | Contacts | Link

  /** The order in which an entry prints its lines. */
  const LineOrder: seq<LineKind> := [Title, Position, Level, Location, Salary, Experience, Skills, Contacts, Link]

  /**
   * Whether the entry of `r` prints a line of kind `k`: title, position and link always, the
   * skills when there is at least one, every other field when it is a non-empty string.
   */
  predicate Printed(r: CandidateResume, k: LineKind) {
    match k
    case Title => true
    case Position => true
    case Level => Active(r.level)
    case Location => Active(r.location)
    case Salary => Active(r.salary)
    case Experience => Active(r.experience)
    case Skills => r.skills.Some? && |r.skills.value| > 0
    case Contacts => Active(r.contacts)
    case Link => true
  }

  /** `Printed` for one resume, as a predicate on line kinds. */
  function PrintedFor(r: CandidateResume): LineKind -> bool {
    k => Printed(r, k)
  }

  function IfPrinted(r: CandidateResume, k: LineKind): seq<LineKind> {
    if Printed(r, k) then [k] else []
  }

  /** The kinds of the lines printed for `r`, in the order they are printed. */
  function EntryKinds(r: CandidateResume): seq<LineKind> {
    Filter(LineOrder, PrintedFor(r))
  }

  /** The line order lists every kind of line. */
  lemma InLineOrder(k: LineKind)
    ensures k in LineOrder
  {
  }

  /** An entry prints exactly the lines `Printed` selects. */
  lemma EntryKindsSelect(r: CandidateResume)
    ensures forall k :: k in EntryKinds(r) <==> Printed(r, k)
  {
    forall k ensures k in EntryKinds(r) <==> Printed(r, k) {
      FilterMembership(LineOrder, PrintedFor(r), k);
      InLineOrder(k);
    }
  }

  /** One step through the line order: the line at `i` is kept when printed, then the rest filtered. */
  lemma LineOrderStep(r: CandidateResume, i: nat)
    requires i < |LineOrder|
    ensures Filter(LineOrder[i..], PrintedFor(r)) == IfPrinted(r, LineOrder[i]) + Filter(LineOrder[i + 1..], PrintedFor(r))
  {
    assert LineOrder[i..] == [LineOrder[i]] + LineOrder[i + 1..];
    FilterCons(LineOrder[i], LineOrder[i + 1..], PrintedFor(r));
  }

  /** The line order from the experience line on, filtered. */
  lemma LinesFromExperience(r: CandidateResume)
    ensures Filter(LineOrder[5..], PrintedFor(r))
         == IfPrinted(r, Experience) + (IfPrinted(r, Skills) + (IfPrinted(r, Contacts) + [Link]))
  {
    var p := PrintedFor(r);
    assert Filter(LineOrder[7..], p) == IfPrinted(r, Contacts) + [Link] by {
      LineOrderStep(r, 8);
      LineOrderStep(r, 7);
    }
    LineOrderStep(r, 6);
    LineOrderStep(r, 5);
  }

  /** The line order from the level line on, filtered. */
  lemma LinesFromLevel(r: CandidateResume)
    ensures Filter(LineOrder[2..], PrintedFor(r))
         == IfPrinted(r, Level) + (IfPrinted(r, Location) + (IfPrinted(r, Salary)
            + (IfPrinted(r, Experience) + (IfPrinted(r, Skills) + (IfPrinted(r, Contacts) + [Link])))))
  {
    LinesFromExperience(r);
    LineOrderStep(r, 4);
    LineOrderStep(r, 3);
    LineOrderStep(r, 2);
  }

  /**
   * The lines printed for one resume: title and position, then level, location, salary,
   * experience, skills and contacts each only when the resume has it, then the link. A missing
   * field is left out rather than printed as a placeholder.
   */
  lemma EntryKindsListed(r: CandidateResume)
    ensures EntryKinds(r) == [Title] + ([Position] + (IfPrinted(r, Level) + (IfPrinted(r, Location) + (IfPrinted(r, Salary)
      + (IfPrinted(r, Experience) + (IfPrinted(r, Skills) + (IfPrinted(r, Contacts) + [Link])))))))
  {
    var p := PrintedFor(r);
    var tail := Filter(LineOrder[2..], p);
    LinesFromLevel(r);
    assert Filter(LineOrder[1..], p) == [Position] + tail by {
      LineOrderStep(r, 1);
      assert LineOrder[1] == Position;
    }
    assert Filter(LineOrder, p) == [Title] + ([Position] + tail) by {
      LineOrderStep(r, 0);
      assert LineOrder[0] == Title && LineOrder[0..] == LineOrder;
    }
  }

  /** Every entry starts with the title and the position and ends with the link. */
  lemma EntryKindsShape(r: CandidateResume)
    ensures |EntryKinds(r)| >= 3 && EntryKinds(r)[0] == Title && EntryKinds(r)[1] == Position
    ensures EntryKinds(r)[|EntryKinds(r)| - 1] == Link
  {
    var p := PrintedFor(r);
    var middle := LineOrder[2..8];
    assert LineOrder == [Title, Position] + middle + [Link];
    assert Filter([Title, Position], p) == [Title, Position] by {
      FilterCons(Title, [Position], p);
      FilterCons(Position, [], p);
      assert [Title] + [Position] == [Title, Position] && [Position] + [] == [Position];
    }
    assert Filter([Link], p) == [Link] by {
      FilterCons(Link, [], p);
      assert [Link] + [] == [Link];
    }
    FilterConcat([Title, Position] + middle, [Link], p);
    FilterConcat([Title, Position], middle, p);
    var ks := [Title, Position] + Filter(middle, p) + [Link];
    assert EntryKinds(r) == ks;
  }

  /** `resume.skills.slice(0, 5).join(', ')`. */
  function SkillsText(skills: seq<string>): string {
    Join(if |skills| <= TopSkills then skills else skills[..TopSkills], ListSeparator)
  }

  /**
   * What the line of kind `k` prints for `r`; `rank` is the entry's 1-based position in the reply.
   * An optional field is read only on lines `Printed` selects, where it is present.
   */
  function RenderLine(rank: nat, r: CandidateResume, k: LineKind): string {
    match k
    case Title => "**" + IntToString(rank) + ". " + r.name + "**\n"
    case Position => "💼 " + r.position + "\n"
    case Level => "📊 " + r.level.GetOr("") + "\n"
    case Location => "📍 " + r.location.GetOr("") + "\n"
    case Salary => "💰 " + r.salary.GetOr("") + "\n"
    case Experience => "⏱️ " + r.experience.GetOr("") + "\n"
    case Skills => "🛠️ " + SkillsText(r.skills.GetOr([])) + "\n"
    case Contacts => "📞 " + r.contacts.GetOr("") + "\n"
    case Link => "🔗 " + r.messageLink + "\n\n"
  }

  /**
   * A printed line shows the field itself, never a stand-in for a missing one, after its marker:
   * the title is the 1-based rank in decimal and the name in bold, and every line ends in a line break.
   */
  lemma PrintedLineShowsValue(rank: nat, r: CandidateResume, k: LineKind)
    requires Printed(r, k)
    ensures k == Title ==> RenderLine(rank, r, k) == "**" + NatToDecimal(rank) + ". " + r.name + "**\n"
    ensures k == Position ==> RenderLine(rank, r, k) == "💼 " + r.position + "\n"
    ensures k == Level ==> RenderLine(rank, r, k) == "📊 " + r.level.value + "\n"
    ensures k == Location ==> RenderLine(rank, r, k) == "📍 " + r.location.value + "\n"
    ensures k == Salary ==> RenderLine(rank, r, k) == "💰 " + r.salary.value + "\n"
    ensures k == Experience ==> RenderLine(rank, r, k) == "⏱️ " + r.experience.value + "\n"
    ensures k == Skills ==> RenderLine(rank, r, k) == "🛠️ " + SkillsText(r.skills.value) + "\n"
    ensures k == Contacts ==> RenderLine(rank, r, k) == "📞 " + r.contacts.value + "\n"
    ensures k == Link ==> RenderLine(rank, r, k) == "🔗 " + r.messageLink + "\n\n"
    ensures var line := RenderLine(rank, r, k); |line| > 0 && line[|line| - 1] == '\n'
  {
  }

  /** Only the first five skills reach the line: skills after the fifth never change it. */
  lemma SkillsTextIgnoresTail(skills: seq<string>, extra: seq<string>)
    requires |skills| >= TopSkills
    ensures SkillsText(skills + extra) == SkillsText(skills)
  {
    if extra == [] {
      assert skills + extra == skills;
    } else {
      assert (skills + extra)[..TopSkills] == skills[..TopSkills];
    }
  }

  /** `RenderLine` for one entry, as a function of the line kind. */
  function LineOf(rank: nat, r: CandidateResume): LineKind -> string {
    k => RenderLine(rank, r, k)
  }

  /** The line of kind `k` when `r` prints it, as a list of at most one line. */
  function LineIf(rank: nat, r: CandidateResume, k: LineKind): seq<string> {
    if Printed(r, k) then [RenderLine(rank, r, k)] else []
  }

  /** The lines of kinds `ks` that `r` prints, in order, each under its `if`. */
  function LinesFrom(rank: nat, r: CandidateResume, ks: seq<LineKind>): seq<string> {
    if ks == [] then [] else LineIf(rank, r, ks[0]) + LinesFrom(rank, r, ks[1..])
  }

  /** Walking the kinds and skipping the unprinted ones gives the lines of the printed kinds. */
  lemma {:induction false} LinesFromFilter(rank: nat, r: CandidateResume, ks: seq<LineKind>)
    ensures LinesFrom(rank, r, ks) == Map(Filter(ks, PrintedFor(r)), LineOf(rank, r))
  {
    if ks != [] {
      LinesFromFilter(rank, r, ks[1..]);
      FilterCons(ks[0], ks[1..], PrintedFor(r));
      assert [ks[0]] + ks[1..] == ks;
      MapConcat(IfPrinted(r, ks[0]), Filter(ks[1..], PrintedFor(r)), LineOf(rank, r));
    }
  }

  /** The lines the handler appends for the resume ranked `rank`, in the line order. */
  function EntryLines(rank: nat, r: CandidateResume): seq<string> {
    LinesFrom(rank, r, LineOrder)
  }

  /** The lines of an entry are the lines of the kinds it prints, in the line order. */
  lemma EntryLinesInOrder(rank: nat, r: CandidateResume)
    ensures EntryLines(rank, r) == Map(EntryKinds(r), LineOf(rank, r))
  {
    LinesFromFilter(rank, r, LineOrder);
  }

  /** The parts of the reply to a search that did not fail. */
  datatype ReplyBlock =
    | NotFound                              // no resume passed the criteria
    | Header(count: nat)                    // how many were found
    | Entry(rank: nat, resume: CandidateResume)
    | MoreNote(remaining: nat)              // how many were found but not listed
    | Footer                                // the channel link

  const NotFoundText: string :=
    "😔 По вашим критериям резюме не найдено в канале @it_vakansii_jobs.\n\n"
    + "💡 Рекомендации:\n"
    + "• Попробуйте изменить критерии поиска\n"
    + "• Подождите — новые резюме появляются регулярно\n"
    + "• Подпишитесь на канал для получения уведомлений\n\n"
    + "🔗 Канал: https://t.me/it_vakansii_jobs"

  function HeaderText(count: nat): string {
    "✅ Найдено резюме в канале @it_vakansii_jobs: **" + IntToString(count) + "**\n\n" + "📋 Топ-10 кандидатов:\n\n"
  }

  /** The block of one listed resume: its printed lines, in order. */
  function EntryText(rank: nat, r: CandidateResume): string {
    Flatten(EntryLines(rank, r))
  }

  function NoteText(remaining: nat): string {
    "\n... и еще " + IntToString(remaining) + " резюме(й)\n\n"
  }

  const FooterText: string := "\n📱 Канал: " + ChannelUrl

  function RenderBlock(b: ReplyBlock): string {
    match b
    case NotFound => NotFoundText
    case Header(n) => HeaderText(n)
    case Entry(rank, r) => EntryText(rank, r)
    case MoreNote(n) => NoteText(n)
    case Footer => FooterText
  }

  function Shown(n: nat): (k: nat)
    ensures k <= n && k <= TopCount
    ensures k == n || k == TopCount
  {
    if n <= TopCount then n else TopCount
  }

  /** One entry per listed resume, ranked from 1. */
  function EntryBlocks(rs: seq<CandidateResume>): (bs: seq<ReplyBlock>)
    ensures |bs| == |rs|
    ensures forall k :: 0 <= k < |rs| ==> bs[k] == Entry(k + 1, rs[k])
  {
    if rs == [] then [] else EntryBlocks(rs[..|rs| - 1]) + [Entry(|rs|, rs[|rs| - 1])]
  }

  /**
   * The structure of the reply to `n` results: the not-found text when there are none; otherwise
   * a header with `n`, the first min(n, 10) results in order ranked from 1, the
   * "... и еще" note with the number left over exactly when n > 10, and the channel link.
   */
  function ReplyBlocks(rs: seq<CandidateResume>): (bs: seq<ReplyBlock>)
    ensures rs == [] ==> bs == [NotFound]
    ensures rs != [] ==> |bs| == Shown(|rs|) + (if |rs| > TopCount then 3 else 2)
    ensures rs != [] ==> bs[0] == Header(|rs|) && bs[|bs| - 1] == Footer
    ensures rs != [] ==> forall k :: 0 <= k < Shown(|rs|) ==> bs[k + 1] == Entry(k + 1, rs[k])
    ensures |rs| > TopCount ==> bs[|bs| - 2] == MoreNote(|rs| - TopCount)
    ensures forall i :: 0 <= i < |bs| && bs[i].MoreNote? ==> |rs| > TopCount
    ensures forall i :: 0 <= i < |bs| && bs[i].Entry? ==> 1 <= i <= Shown(|rs|)
  {
    if rs == [] then [NotFound]
    else
      var n := |rs|;
      [Header(n)] + EntryBlocks(rs[..Shown(n)]) + NoteBlocks(n) + [Footer]
  }

  /** The note block for `n` results: present exactly when there are more than ten. */
  function NoteBlocks(n: nat): seq<ReplyBlock> {
    if n > TopCount then [MoreNote(n - TopCount)] else []
  }

  /** The reply never lists more than ten resumes. */
  lemma {:induction false} AtMostTenListed(rs: seq<CandidateResume>)
    ensures forall i :: 0 <= i < |ReplyBlocks(rs)| && ReplyBlocks(rs)[i].Entry? ==> ReplyBlocks(rs)[i].rank <= TopCount
  {
    var bs := ReplyBlocks(rs);
    forall i | 0 <= i < |bs| && bs[i].Entry? ensures bs[i].rank <= TopCount {
      assert bs[i] == Entry(i, rs[i - 1]);
    }
  }

  /** The texts of the entries of `rs`, ranked from 1. */
  function EntryTexts(rs: seq<CandidateResume>): seq<string> {
    if rs == [] then [] else EntryTexts(rs[..|rs| - 1]) + [EntryText(|rs|, rs[|rs| - 1])]
  }

  /** The pieces of the reply text: the not-found text, or the header, the listed entries, the note and the link. */
  function ReplyParts(rs: seq<CandidateResume>): seq<string> {
    if rs == [] then [NotFoundText]
    else
      var n := |rs|;
      [HeaderText(n)] + EntryTexts(rs[..Shown(n)]) + NoteParts(n) + [FooterText]
  }

  /** The "... и еще" note for `n` results: present exactly when there are more than ten. */
  function NoteParts(n: nat): seq<string> {
    if n > TopCount then [NoteText(n - TopCount)] else []
  }

  /** The texts of the entry blocks are the entry texts. */
  lemma {:induction false} EntryTextsRender(rs: seq<CandidateResume>)
    ensures EntryTexts(rs) == Map(EntryBlocks(rs), RenderBlock)
  {
    if rs != [] {
      var m := |rs| - 1;
      EntryTextsRender(rs[..m]);
      MapConcat(EntryBlocks(rs[..m]), [Entry(m + 1, rs[m])], RenderBlock);
    }
  }

  /** The header and the entries render to the header text and the entry texts. */
  lemma HeadRender(n: nat, listed: seq<CandidateResume>)
    ensures Map([Header(n)] + EntryBlocks(listed), RenderBlock) == [HeaderText(n)] + EntryTexts(listed)
  {
    MapConcat([Header(n)], EntryBlocks(listed), RenderBlock);
    MapSingle(Header(n), RenderBlock);
    EntryTextsRender(listed);
  }

  /** The note block renders as the note text. */
  lemma RenderMoreNote(k: nat)
    ensures RenderBlock(MoreNote(k)) == NoteText(k)
  {
  }

  /** The note block renders to the note text. */
  lemma NoteRender(n: nat)
    ensures Map(NoteBlocks(n), RenderBlock) == NoteParts(n)
  {
    if n > TopCount {
      var b := MoreNote(n - TopCount);
      assert NoteBlocks(n) == [b] && NoteParts(n) == [NoteText(n - TopCount)];
      MapSingle(b, RenderBlock);
      RenderMoreNote(n - TopCount);
    } else {
      assert NoteBlocks(n) == [] && NoteParts(n) == [];
    }
  }

  /** The pieces of the reply are the texts of its blocks, in order. */
  lemma ReplyPartsRender(rs: seq<CandidateResume>)
    ensures ReplyParts(rs) == Map(ReplyBlocks(rs), RenderBlock)
  {
    if rs == [] {
      MapSingle(NotFound, RenderBlock);
    } else {
      var n := |rs|;
      var listed := rs[..Shown(n)];
      var head := [Header(n)] + EntryBlocks(listed);
      MapConcat(head + NoteBlocks(n), [Footer], RenderBlock);
      MapConcat(head, NoteBlocks(n), RenderBlock);
      HeadRender(n, listed);
      NoteRender(n);
      MapSingle(Footer, RenderBlock);
    }
  }

  /**
   * The loop of the handler: the header, then one `+=` per listed resume, ranked from 1. The text
   * is kept as the list of the pieces appended to it.
   */
  method AppendListed(n: nat, rs: seq<CandidateResume>) returns (parts: seq<string>)
    ensures parts == [HeaderText(n)] + EntryTexts(rs)
  {
    parts := [HeaderText(n)];
    for i := 0 to |rs|
      invariant parts == [HeaderText(n)] + EntryTexts(rs[..i])
    {
      EntryTextsStep(rs, i);
      AppendAssoc([HeaderText(n)], EntryTexts(rs[..i]), [EntryText(i + 1, rs[i])]);
      parts := parts + [EntryText(i + 1, rs[i])];
    }
    assert rs[..|rs|] == rs;
  }

  /** One more listed resume adds its entry text, ranked one past the ones before it. */
  lemma EntryTextsStep(rs: seq<CandidateResume>, i: nat)
    requires i < |rs|
    ensures EntryTexts(rs[..i + 1]) == EntryTexts(rs[..i]) + [EntryText(i + 1, rs[i])]
  {
    assert rs[..i + 1][..i] == rs[..i];
  }

  /** The end of the handler: one more `+=` for the note when there are more than ten results, then the link. */
  method AppendTail(n: nat, listed: seq<string>) returns (parts: seq<string>)
    ensures parts == listed + NoteParts(n) + [FooterText]
  {
    parts := listed;
    if n > TopCount {
      parts := parts + [NoteText(n - TopCount)];
    }
    parts := parts + [FooterText];
  }

  /**
   * The reply, built as the handler builds it: the not-found text, or the header and the listed
   * entries, then the note when there are more than ten results, then the channel link.
   */
  method BuildResponseText(rs: seq<CandidateResume>) returns (parts: seq<string>)
    ensures parts == ReplyParts(rs)
  {
    parts := [NotFoundText];
    if rs != [] {
      var n := |rs|;
      var listed := AppendListed(n, rs[..Shown(n)]);
      parts := AppendTail(n, listed);
    }
  }

  /** What the action reports when it completes. */
  datatype ActionOutcome =
    | ServiceUnavailable
    | Completed(text: string, resultsCount: nat, listed: seq<CandidateResume>, results: seq<CandidateResume>)

  /**
   * The handler: derive the criteria, search through the service (refreshing its cache when due)
   * and build the reply. Without a registered service it reports that the service is unavailable.
   */
  method HandleTelegramSearch(service: TelegramJobsService?, m: Matcher, request: Option<string>, reply: ChannelReply, now: int)
    returns (o: ActionOutcome)
    requires service != null ==> service.Valid()
    modifies service
    ensures service == null ==> o == ServiceUnavailable
    ensures service != null ==> service.Valid() && o.Completed?
    ensures service != null && NeedsRefresh(DeriveFilters(m, request).forceRefresh, old(service.lastUpdateTime), now)
              && service.hasClient && reply.Messages? ==>
      service.cachedResumes == ParseAll(service.matcher, reply.msgs, now) && service.lastUpdateTime == Some(now)
    ensures service != null && (!NeedsRefresh(DeriveFilters(m, request).forceRefresh, old(service.lastUpdateTime), now)
              || !service.hasClient || reply.ReadError?) ==>
      service.cachedResumes == old(service.cachedResumes) && service.lastUpdateTime == old(service.lastUpdateTime)
    ensures service != null ==> o.results == Select(service.cachedResumes, DeriveFilters(m, request))
    ensures service != null ==> o.resultsCount == |o.results| && o.listed == o.results[..Shown(|o.results|)]
    ensures service != null ==> o.text == Flatten(ReplyParts(o.results))
  {
    var filters := DeriveFilters(m, request);
    if service == null {
      return ServiceUnavailable;
    }
    var resumes := service.SearchResumes(filters, reply, now);
    var parts := BuildResponseText(resumes);
    o := Completed(Flatten(parts), |resumes|, resumes[..Shown(|resumes|)], resumes);
  }
}
