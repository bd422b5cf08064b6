/**
 * The resume extractor of the telegram jobs plugin: `parseResumeFromMessage` and its eight
 * `extract*` helpers turn the text of one channel message into a `CandidateResume`, or into
 * nothing when the text is too short or reads as a vacancy.
 *
 * The regular-expression engine is not modelled: every literal pattern of the plugin is a
 * constructor of `Regex`, and a `Matcher` says what `text.match(re)` returns. Everything below
 * holds for every matcher, so what is proved is the orchestration around the patterns: the
 * order in which they are tried, the defaults, the splitting of the skills section and the
 * joining of the contacts.
 */
module ResumeExtractor {
  import opened Wrappers
  import opened Text
  import opened Seqs

  /** The literal regular expressions of the plugin, one constructor each. */
  datatype Regex =
    | NameLabel        // `меня зовут` / `имя:` followed by words
    | NameLine         // two capitalised words at the start of a line
    | PositionLabel    // `должность` / `позиция` / `специальность` label
    | PositionKeyword  // a known role or stack keyword
    | LevelWord        // Junior | Middle | Senior | Lead | Intern | Trainee, whole word
    | LocationLabel    // `город` / `локация` / `location` label
    | LocationKeyword  // a known city, remote or relocation keyword
    | SalaryLabel      // `зарплата` / `salary` / `зп` / `оклад` label
    | SalaryFrom       // `от <number>` with an optional unit and currency
    | SalaryRange      // `<number> - <number>` with an optional unit and currency
    | SkillsSection    // `навыки` / `skills` / `стек` / `технологии` section
    | ExperienceLabel  // `опыт работы` / `experience` label
    | ExperienceYears  // `<N> лет` / `<N> года` / `<N> years`
    | TelegramContact  // `telegram` / `тг` / `tg` handle
    | EmailContact     // `email` / `почта` / `e-mail` address
    | PhoneContact     // `телефон` / `phone` / `тел` number
    | ProfessionQuery  // the profession keyword of a search request
    | LevelQuery       // the level keyword of a search request
    | LocationQuery    // the location keyword of a search request

  /**
   * A successful `text.match(re)`: `match[0]` and `match[1]`. Every pattern the plugin reads
   * `match[1]` of has a mandatory first group, so a hit always carries one.
   */
  datatype Hit = Hit(whole: string, group: string)

  /** What the regular-expression engine answers for a pattern and a text. */
  type Matcher = (Regex, string) -> Option<Hit>

  const NamePatterns: seq<Regex> := [NameLabel, NameLine]
  const PositionPatterns: seq<Regex> := [PositionLabel, PositionKeyword]
  const LocationPatterns: seq<Regex> := [LocationLabel, LocationKeyword]
  const SalaryPatterns: seq<Regex> := [SalaryLabel, SalaryFrom, SalaryRange]
  const ExperiencePatterns: seq<Regex> := [ExperienceLabel, ExperienceYears]
  const ContactPatterns: seq<Regex> := [TelegramContact, EmailContact, PhoneContact]

  /** The placeholder for a name or position that could not be found. */
  const Unspecified: string := "Не указано"
  /** Messages shorter than this are never resumes. */
  const MinLength: nat := 50
  /** A skill must be shorter than this; longer pieces are run-on text. */
  const MaxSkillLength: nat := 50
  const ChannelUsername: string := "javascript_jobs"
  const ChannelUrl: string := "https://t.me/javascript_jobs"
  const ResumeMarkers: seq<string> := ["резюме", "ищу работу", "рассмотрю предложения", "опыт работы", "навыки:"]
  const VacancyMarkers: seq<string> := ["вакансия", "требуется", "ищем", "vacancy"]
  const SkillDelimiters: set<char> := {',', ';', '•', '\n'}
  const ListSeparator: string := ", "

  /** One message as the channel reader delivers it; `date` is in seconds. */
  datatype ChannelMessage = ChannelMessage(text: Option<string>, message: Option<string>, id: Option<int>, date: Option<int>)

  /** A parsed resume; `date` is in milliseconds. */
  datatype CandidateResume = CandidateResume(
    name: string,
    position: string,
    level: Option<string>,
    location: Option<string>,
    salary: Option<string>,
    skills: Option<seq<string>>,
    experience: Option<string>,
    contacts: Option<string>,
    messageLink: string,
    date: Option<int>,
    rawText: string)

  /** The hit of the first pattern of `ps`, in order, that matches `text`. */
  function FirstMatch(m: Matcher, ps: seq<Regex>, text: string): (r: Option<Hit>)
    ensures r.None? <==> forall k :: 0 <= k < |ps| ==> m(ps[k], text).None?
    ensures r.Some? ==> exists k :: 0 <= k < |ps| && m(ps[k], text) == r && forall j :: 0 <= j < k ==> m(ps[j], text).None?
  {
    if ps == [] then None
    else
      match m(ps[0], text)
      case Some(h) => Some(h)
      case None =>
        var r := FirstMatch(m, ps[1..], text);
        assert r.Some? ==> exists k :: 0 <= k < |ps| && m(ps[k], text) == r && forall j :: 0 <= j < k ==> m(ps[j], text).None? by {
          if r.Some? {
            var k :| 0 <= k < |ps| - 1 && m(ps[1..][k], text) == r && forall j :: 0 <= j < k ==> m(ps[1..][j], text).None?;
            assert m(ps[k + 1], text) == r;
            forall j | 0 <= j < k + 1 ensures m(ps[j], text).None? {
              if j > 0 { assert ps[j] == ps[1..][j - 1]; }
            }
          }
        }
        assert r.None? ==> forall k :: 0 <= k < |ps| ==> m(ps[k], text).None? by {
          if r.None? {
            forall k | 0 <= k < |ps| ensures m(ps[k], text).None? {
              if k > 0 { assert ps[k] == ps[1..][k - 1]; }
            }
          }
        }
        r
  }

  /** `match[1].trim()` of the first matching pattern, if any. */
  function FirstCapture(m: Matcher, ps: seq<Regex>, text: string): Option<string> {
    match FirstMatch(m, ps, text)
    case Some(h) => Some(Trim(h.group))
    case None => None
  }

  /** First-match over two patterns: the first when it matches, else the second. */
  lemma FirstMatchOfTwo(m: Matcher, a: Regex, b: Regex, text: string)
    ensures FirstMatch(m, [a, b], text) == if m(a, text).Some? then m(a, text) else m(b, text)
  {
    assert [a, b][1..] == [b];
    assert [b][1..] == [];
  }

  /** First-match over three patterns: the first of them that matches. */
  lemma FirstMatchOfThree(m: Matcher, a: Regex, b: Regex, c: Regex, text: string)
    ensures FirstMatch(m, [a, b, c], text) ==
      if m(a, text).Some? then m(a, text) else if m(b, text).Some? then m(b, text) else m(c, text)
  {
    assert [a, b, c][1..] == [b, c];
    FirstMatchOfTwo(m, b, c, text);
  }

  /** `extractName`: the labelled name, else a capitalised two-word line, else the placeholder. */
  function ExtractName(m: Matcher, text: string): (r: string)
    ensures m(NameLabel, text).Some? ==> r == Trim(m(NameLabel, text).value.group)
    ensures m(NameLabel, text).None? && m(NameLine, text).Some? ==> r == Trim(m(NameLine, text).value.group)
    ensures m(NameLabel, text).None? && m(NameLine, text).None? ==> r == Unspecified
  {
    FirstMatchOfTwo(m, NameLabel, NameLine, text);
    FirstCapture(m, NamePatterns, text).GetOr(Unspecified)
  }

  /** `match[1]?.trim() || match[0].trim()`: the trimmed group, or the trimmed whole match when that is empty. */
  function PositionOf(h: Hit): (r: string)
    ensures Trim(h.group) != "" ==> r == Trim(h.group)
    ensures Trim(h.group) == "" ==> r == Trim(h.whole)
  {
    if Trim(h.group) != "" then Trim(h.group) else Trim(h.whole)
  }

  /** `extractPosition`: the labelled position, else a role keyword, else the placeholder. */
  function ExtractPosition(m: Matcher, text: string): (r: string)
    ensures m(PositionLabel, text).Some? ==> r == PositionOf(m(PositionLabel, text).value)
    ensures m(PositionLabel, text).None? && m(PositionKeyword, text).Some? ==> r == PositionOf(m(PositionKeyword, text).value)
    ensures m(PositionLabel, text).None? && m(PositionKeyword, text).None? ==> r == Unspecified
  {
    FirstMatchOfTwo(m, PositionLabel, PositionKeyword, text);
    match FirstMatch(m, PositionPatterns, text)
    case Some(h) => PositionOf(h)
    case None => Unspecified
  }

  /** `extractLevel`: the seniority word as written (not trimmed), or nothing. */
  function ExtractLevel(m: Matcher, text: string): (r: Option<string>)
    ensures r.Some? <==> m(LevelWord, text).Some?
    ensures r.Some? ==> r.value == m(LevelWord, text).value.group
  {
    match m(LevelWord, text)
    case Some(h) => Some(h.group)
    case None => None
  }

  /** `extractLocation`: the labelled location, else a city keyword, else nothing. */
  function ExtractLocation(m: Matcher, text: string): (r: Option<string>)
    ensures m(LocationLabel, text).Some? ==> r == Some(Trim(m(LocationLabel, text).value.group))
    ensures m(LocationLabel, text).None? && m(LocationKeyword, text).Some? ==> r == Some(Trim(m(LocationKeyword, text).value.group))
    ensures m(LocationLabel, text).None? && m(LocationKeyword, text).None? ==> r.None?
  {
    FirstMatchOfTwo(m, LocationLabel, LocationKeyword, text);
    FirstCapture(m, LocationPatterns, text)
  }

  /** `extractSalary`: the labelled salary, else an `от N` amount, else an `N - M` range, else nothing. */
  function ExtractSalary(m: Matcher, text: string): (r: Option<string>)
    ensures m(SalaryLabel, text).Some? ==> r == Some(Trim(m(SalaryLabel, text).value.group))
    ensures m(SalaryLabel, text).None? && m(SalaryFrom, text).Some? ==> r == Some(Trim(m(SalaryFrom, text).value.group))
    ensures m(SalaryLabel, text).None? && m(SalaryFrom, text).None? && m(SalaryRange, text).Some? ==>
      r == Some(Trim(m(SalaryRange, text).value.group))
    ensures m(SalaryLabel, text).None? && m(SalaryFrom, text).None? && m(SalaryRange, text).None? ==> r.None?
  {
    FirstMatchOfThree(m, SalaryLabel, SalaryFrom, SalaryRange, text);
    FirstCapture(m, SalaryPatterns, text)
  }

  /** `extractExperience`: the labelled experience, else an `N years` phrase, else nothing. */
  function ExtractExperience(m: Matcher, text: string): (r: Option<string>)
    ensures m(ExperienceLabel, text).Some? ==> r == Some(Trim(m(ExperienceLabel, text).value.group))
    ensures m(ExperienceLabel, text).None? && m(ExperienceYears, text).Some? ==> r == Some(Trim(m(ExperienceYears, text).value.group))
    ensures m(ExperienceLabel, text).None? && m(ExperienceYears, text).None? ==> r.None?
  {
    FirstMatchOfTwo(m, ExperienceLabel, ExperienceYears, text);
    FirstCapture(m, ExperiencePatterns, text)
  }

  /** `.map(s => s.trim())`. */
  function TrimAll(pieces: seq<string>): (r: seq<string>)
    ensures |r| == |pieces|
    ensures forall k :: 0 <= k < |r| ==> r[k] == Trim(pieces[k])
  {
    if pieces == [] then [] else [Trim(pieces[0])] + TrimAll(pieces[1..])
  }

  /** Every trimmed piece is trimmed at both ends. */
  lemma TrimAllTrimmed(pieces: seq<string>)
    ensures forall k :: 0 <= k < |TrimAll(pieces)| ==> IsTrimmed(TrimAll(pieces)[k])
  {
  }

  lemma {:induction false} TrimAllConcat(a: seq<string>, b: seq<string>)
    ensures TrimAll(a + b) == TrimAll(a) + TrimAll(b)
  {
    if a != [] {
      assert (a + b)[1..] == a[1..] + b;
      TrimAllConcat(a[1..], b);
    } else {
      assert a + b == b;
    }
  }

  /** The length test of `extractSkills`: non-empty and shorter than `MaxSkillLength`. */
  predicate IsKeptSkill(s: string) {
    0 < |s| < MaxSkillLength
  }

  /** The skills listed in a skills section: split on the delimiters, trimmed, filtered by length. */
  function SectionSkills(section: string): (r: seq<string>)
    ensures forall k :: 0 <= k < |r| ==> IsTrimmed(r[k]) && IsKeptSkill(r[k])
  {
    var pieces := TrimAll(Split(section, SkillDelimiters));
    TrimAllTrimmed(Split(section, SkillDelimiters));
    FilterKeeps(pieces, IsKeptSkill, IsTrimmed);
    FilterSatisfies(pieces, IsKeptSkill);
    Filter(pieces, IsKeptSkill)
  }

  /** Skills that the section holds are kept exactly when they pass the length test. */
  lemma SectionSkillsMembership(section: string, x: string)
    ensures x in SectionSkills(section) <==> x in TrimAll(Split(section, SkillDelimiters)) && IsKeptSkill(x)
  {
    FilterMembership(TrimAll(Split(section, SkillDelimiters)), IsKeptSkill, x);
  }

  /** One step of `SplitAtDelimiter`: from the text without its first character to the whole text. */
  lemma SplitStep(a: string, c: string, delims: set<char>)
    requires a != [] && c != [] && c[0] in delims
    requires Split(a[1..] + c, delims) == Split(a[1..], delims) + Split(c[1..], delims)
    ensures Split(a + c, delims) == Split(a, delims) + Split(c[1..], delims)
  {
    DropConcat(a, c);
    var x, y := Split(a[1..], delims), Split(c[1..], delims);
    if a[0] in delims {
      AppendAssoc([""], x, y);
    } else {
      DropConcat(x, y);
      AppendAssoc([[a[0]] + x[0]], x[1..], y);
    }
  }

  /** Splitting at a delimiter splits the pieces there: `c` starts with the delimiter. */
  lemma {:induction false} SplitAtDelimiter(a: string, c: string, delims: set<char>)
    requires c != [] && c[0] in delims
    ensures Split(a + c, delims) == Split(a, delims) + Split(c[1..], delims)
    decreases |a|
  {
    if a == [] {
      assert a + c == c;
    } else {
      SplitAtDelimiter(a[1..], c, delims);
      SplitStep(a, c, delims);
    }
  }

  /**
   * The skills come in section order: the skills of a section that a delimiter cuts into `a`
   * and `b` are the skills of `a` followed by the skills of `b`.
   */
  lemma SectionSkillsInOrder(a: string, d: char, b: string)
    requires d in SkillDelimiters
    ensures SectionSkills(a + [d] + b) == SectionSkills(a) + SectionSkills(b)
  {
    SplitAtDelimiter(a, [d] + b, SkillDelimiters);
    assert a + [d] + b == a + ([d] + b) && ([d] + b)[1..] == b;
    TrimAllConcat(Split(a, SkillDelimiters), Split(b, SkillDelimiters));
    FilterConcat(TrimAll(Split(a, SkillDelimiters)), TrimAll(Split(b, SkillDelimiters)), IsKeptSkill);
  }

  /** A skills list as `extractSkills` returns it: absent, or non-empty with every entry trimmed and kept. */
  predicate SkillsWellFormed(skills: Option<seq<string>>) {
    skills.Some? ==> |skills.value| > 0 && forall k :: 0 <= k < |skills.value| ==> IsTrimmed(skills.value[k]) && IsKeptSkill(skills.value[k])
  }

  /**
   * `extractSkills`: nothing without a skills section; otherwise the section's skills, or
   * nothing when no piece of the section survives the length test.
   */
  function ExtractSkills(m: Matcher, text: string): (r: Option<seq<string>>)
    ensures SkillsWellFormed(r)
    ensures m(SkillsSection, text).None? ==> r.None?
    ensures m(SkillsSection, text).Some? ==> r == (if SectionSkills(m(SkillsSection, text).value.group) == [] then None
                                                  else Some(SectionSkills(m(SkillsSection, text).value.group)))
  {
    match m(SkillsSection, text)
    case None => None
    case Some(h) =>
      var skills := SectionSkills(h.group);
      if |skills| > 0 then Some(skills) else None
  }

  /** The contact one pattern contributes: its whole match, trimmed, or nothing. */
  function ContactPart(m: Matcher, p: Regex, text: string): (r: seq<string>)
    ensures |r| <= 1
  {
    match m(p, text)
    case Some(h) => [Trim(h.whole)]
    case None => []
  }

  /** The contacts of the patterns `ps`, in pattern order. */
  function ContactParts(m: Matcher, ps: seq<Regex>, text: string): (r: seq<string>)
    ensures |r| <= |ps|
  {
    if ps == [] then [] else ContactParts(m, ps[..|ps| - 1], text) + ContactPart(m, ps[|ps| - 1], text)
  }

  /** One more pattern adds its contact, if any, after those of the patterns before it. */
  lemma ContactPartsStep(m: Matcher, ps: seq<Regex>, i: nat, text: string)
    requires i < |ps|
    ensures ContactParts(m, ps[..i + 1], text) == ContactParts(m, ps[..i], text) + ContactPart(m, ps[i], text)
  {
    assert ps[..i + 1][..i] == ps[..i];
  }

  /** The contact patterns contribute in the order telegram, e-mail, phone. */
  lemma ContactPartsOfThree(m: Matcher, text: string)
    ensures ContactParts(m, ContactPatterns, text) ==
      ContactPart(m, TelegramContact, text) + ContactPart(m, EmailContact, text) + ContactPart(m, PhoneContact, text)
  {
    var ps := ContactPatterns;
    assert ps[..2][..1] == [TelegramContact];
    assert ps[..2][..1][..0] == [];
    assert ps[..2] == [TelegramContact, EmailContact];
    assert ContactParts(m, ps[..2][..1][..0], text) == [];
    assert ContactParts(m, ps[..2][..1], text) == ContactPart(m, TelegramContact, text);
    assert ContactParts(m, ps[..2], text) == ContactPart(m, TelegramContact, text) + ContactPart(m, EmailContact, text);
  }

  /**
   * What `extractContacts` returns: nothing when no contact pattern matches, otherwise the
   * telegram handle, e-mail address and phone number that matched, in that order, joined by ", ".
   */
  function ContactsOf(m: Matcher, text: string): (r: Option<string>)
    ensures r.None? <==> m(TelegramContact, text).None? && m(EmailContact, text).None? && m(PhoneContact, text).None?
    ensures r.Some? ==> r.value == Join(ContactPart(m, TelegramContact, text) + ContactPart(m, EmailContact, text)
                                      + ContactPart(m, PhoneContact, text), ListSeparator)
  {
    var parts := ContactParts(m, ContactPatterns, text);
    ContactPartsOfThree(m, text);
    if |parts| > 0 then Some(Join(parts, ListSeparator)) else None
  }

  /** `extractContacts`: tries every contact pattern in turn and collects what matched. */
  method ExtractContacts(m: Matcher, text: string) returns (r: Option<string>)
    ensures r == ContactsOf(m, text)
  {
    var contacts: seq<string> := [];
    for i := 0 to |ContactPatterns|
      invariant contacts == ContactParts(m, ContactPatterns[..i], text)
    {
      ContactPartsStep(m, ContactPatterns, i, text);
      match m(ContactPatterns[i], text) {
        case Some(h) => contacts := contacts + [Trim(h.whole)];
        case None =>
      }
    }
    assert ContactPatterns[..|ContactPatterns|] == ContactPatterns;
    r := if |contacts| > 0 then Some(Join(contacts, ListSeparator)) else None;
  }

  /** `message.text || message.message || ''`. */
  function MessageText(msg: ChannelMessage): (t: string)
    ensures msg.text.Some? && msg.text.value != "" ==> t == msg.text.value
    ensures msg.text.None? || msg.text.value == "" ==> t == msg.message.GetOr("")
  {
    if msg.text.Some? && msg.text.value != "" then msg.text.value
    else if msg.message.Some? && msg.message.value != "" then msg.message.value
    else ""
  }

  /** Some resume marker occurs in the lower-cased text. */
  predicate IsResumeText(text: string) {
    ContainsAny(Lower(text), ResumeMarkers)
  }

  /** Some vacancy marker occurs in the lower-cased text. */
  predicate IsVacancyText(text: string) {
    ContainsAny(Lower(text), VacancyMarkers)
  }

  /** The resume markers, written out: any one of them, in any case, marks a resume. */
  lemma ResumeMarkersSpelled(text: string)
    ensures IsResumeText(text) <==>
      Contains(Lower(text), "резюме") || Contains(Lower(text), "ищу работу") || Contains(Lower(text), "рассмотрю предложения")
      || Contains(Lower(text), "опыт работы") || Contains(Lower(text), "навыки:")
  {
    assert ResumeMarkers[0] == "резюме" && ResumeMarkers[1] == "ищу работу" && ResumeMarkers[2] == "рассмотрю предложения";
    assert ResumeMarkers[3] == "опыт работы" && ResumeMarkers[4] == "навыки:";
  }

  /** The vacancy markers, written out: any one of them, in any case, marks a vacancy. */
  lemma VacancyMarkersSpelled(text: string)
    ensures IsVacancyText(text) <==>
      Contains(Lower(text), "вакансия") || Contains(Lower(text), "требуется") || Contains(Lower(text), "ищем")
      || Contains(Lower(text), "vacancy")
  {
    assert VacancyMarkers[0] == "вакансия" && VacancyMarkers[1] == "требуется";
    assert VacancyMarkers[2] == "ищем" && VacancyMarkers[3] == "vacancy";
  }

  /** The deep link to a message: the channel URL plus the message id, or the bare channel URL without an id. */
  function MessageLink(id: Option<int>): (r: string)
    ensures ChannelUrl <= r
    ensures id.Some? && id.value != 0 ==> r == ChannelUrl + "/" + IntToString(id.value)
    ensures id.None? || id.value == 0 ==> r == ChannelUrl
  {
    assert "https://t.me/" + ChannelUsername == ChannelUrl;
    if id.Some? && id.value != 0 then "https://t.me/" + ChannelUsername + "/" + IntToString(id.value) else ChannelUrl
  }

  /** When the message was posted, in milliseconds, or `now` when it carries no date. */
  function CapturedAt(date: Option<int>, now: int): (r: int)
    ensures date.Some? && date.value != 0 ==> r == date.value * 1000
    ensures date.None? || date.value == 0 ==> r == now
  {
    if date.Some? && date.value != 0 then date.value * 1000 else now
  }

  /** What every record the extractor builds satisfies. */
  predicate WellFormed(r: CandidateResume) {
    && |r.rawText| >= MinLength
    && ChannelUrl <= r.messageLink
    && r.date.Some?
    && SkillsWellFormed(r.skills)
  }

  /**
   * `parseResumeFromMessage`: nothing for a text shorter than `MinLength`, nothing for a text
   * with a vacancy marker and no resume marker, and otherwise a record of the extracted fields
   * that keeps the text itself unchanged.
   */
  function ParseResume(m: Matcher, msg: ChannelMessage, now: int): (r: Option<CandidateResume>)
    ensures |MessageText(msg)| < MinLength ==> r.None?
    ensures r.Some? <==> |MessageText(msg)| >= MinLength && !(IsVacancyText(MessageText(msg)) && !IsResumeText(MessageText(msg)))
    ensures r.Some? ==> WellFormed(r.value)
    ensures r.Some? ==> r.value.rawText == MessageText(msg)
    ensures r.Some? ==> r.value.messageLink == MessageLink(msg.id) && r.value.date == Some(CapturedAt(msg.date, now))
  {
    var text := MessageText(msg);
    if |text| < MinLength then None
    else if IsVacancyText(text) && !IsResumeText(text) then None
    else
      Some(CandidateResume(
        name := ExtractName(m, text),
        position := ExtractPosition(m, text),
        level := ExtractLevel(m, text),
        location := ExtractLocation(m, text),
        salary := ExtractSalary(m, text),
        skills := ExtractSkills(m, text),
        experience := ExtractExperience(m, text),
        contacts := ContactsOf(m, text),
        messageLink := MessageLink(msg.id),
        date := Some(CapturedAt(msg.date, now)),
        rawText := text))
  }

  /** Each field of a parsed record is what its extractor finds in the message text. */
  lemma ParseResumeFields(m: Matcher, msg: ChannelMessage, now: int)
    requires ParseResume(m, msg, now).Some?
    ensures var r, text := ParseResume(m, msg, now).value, MessageText(msg);
      && r.name == ExtractName(m, text)
      && r.position == ExtractPosition(m, text)
      && r.level == ExtractLevel(m, text)
      && r.location == ExtractLocation(m, text)
      && r.salary == ExtractSalary(m, text)
      && r.skills == ExtractSkills(m, text)
      && r.experience == ExtractExperience(m, text)
      && r.contacts == ContactsOf(m, text)
  {
  }

  /** Parsing is deterministic: the same message and clock give the same record. */
  lemma ParseDeterministic(m: Matcher, a: ChannelMessage, b: ChannelMessage, now: int)
    requires MessageText(a) == MessageText(b) && a.id == b.id && a.date == b.date
    ensures ParseResume(m, a, now) == ParseResume(m, b, now)
  {
  }

  /** A message whose text carries both kinds of marker is kept when it is long enough. */
  lemma MixedMarkersKept(m: Matcher, msg: ChannelMessage, now: int)
    requires |MessageText(msg)| >= MinLength
    requires Contains(Lower(MessageText(msg)), "резюме") && Contains(Lower(MessageText(msg)), "вакансия")
    ensures ParseResume(m, msg, now).Some?
  {
    assert ResumeMarkers[0] == "резюме";
  }

  /** The parser of one message at clock `now`, as a function value. */
  function Parser(m: Matcher, now: int): ChannelMessage -> Option<CandidateResume> {
    msg => ParseResume(m, msg, now)
  }

  /** The records of a batch of messages: the parses that succeeded, in message order. */
  function ParseAll(m: Matcher, msgs: seq<ChannelMessage>, now: int): (r: seq<CandidateResume>)
    ensures |r| <= |msgs|
    ensures forall k :: 0 <= k < |r| ==> WellFormed(r[k])
  {
    var f := Parser(m, now);
    forall x | x in msgs && f(x).Some? ensures WellFormed(f(x).value) {
      assert f(x) == ParseResume(m, x, now);
    }
    FilterMapKeeps(msgs, f, WellFormed);
    FilterMap(msgs, f)
  }

  /** Parsing a batch preserves message order: a batch in two parts parses to the two parts' records. */
  lemma ParseAllConcat(m: Matcher, a: seq<ChannelMessage>, b: seq<ChannelMessage>, now: int)
    ensures ParseAll(m, a + b, now) == ParseAll(m, a, now) + ParseAll(m, b, now)
  {
    FilterMapConcat(a, b, Parser(m, now));
  }

  /** A record is in the batch's result exactly when it is the parse of one of its messages. */
  lemma ParseAllMembership(m: Matcher, msgs: seq<ChannelMessage>, now: int, x: CandidateResume)
    ensures x in ParseAll(m, msgs, now) <==> exists k :: 0 <= k < |msgs| && ParseResume(m, msgs[k], now) == Some(x)
  {
    var f := Parser(m, now);
    FilterMapMembership(msgs, f, x);
    forall k | 0 <= k < |msgs| ensures f(msgs[k]) == ParseResume(m, msgs[k], now) {
    }
  }
}
