/** The display rules of components/NicheCard.tsx. The Tailwind class strings
    are abstracted to three tones; the score badge and the competition tag use
    different shades of the same three tones. */
module NicheCard {
  import opened Results
  import opened Json
  import opened Types
  import opened Service
  import opened Extract

  datatype Tone = Green | Amber | Rose {
    /** Position in the traffic-light order, worst first. */
    function Rank(): nat {
      match this
      case Rose => 0
      case Amber => 1
      case Green => 2
    }
  }

  /** getScoreColor: three bands cut at 50 and 80. */
  function ScoreColor(score: real): (t: Tone)
    ensures t == Green <==> score >= 80.0
    ensures t == Amber <==> 50.0 <= score < 80.0
    ensures t == Rose <==> score < 50.0
  {
    if score >= 80.0 then Green else if score >= 50.0 then Amber else Rose
  }

  /** A higher score never gets a worse tone. */
  lemma ScoreColorMonotone(a: real, b: real)
    requires a <= b
    ensures ScoreColor(a).Rank() <= ScoreColor(b).Rank()
  {
  }

  /** getCompetitionColor: 'Baixa' is green, 'Média' amber, anything else,
      'Alta' and unexpected strings alike, rose. */
  function CompetitionColor(level: string): (t: Tone)
    ensures t == Green <==> level == Competition.Baixa.Label()
    ensures t == Amber <==> level == Competition.Media.Label()
    ensures t == Rose <==> level != Competition.Baixa.Label() && level != Competition.Media.Label()
  {
    if level == "Baixa" then Green else if level == "Média" then Amber else Rose
  }

  /** The same rule on the member as the card receives it: the comparisons are
      strict, so a missing level, a number or any other non-string is rose. */
  function LevelColor(level: Option<Json>): (t: Tone)
    ensures t == Green <==> level == Some(Str(Competition.Baixa.Label()))
    ensures t == Amber <==> level == Some(Str(Competition.Media.Label()))
    ensures level.None? || !level.value.Str? ==> t == Rose
    ensures level.Some? && level.value.Str? ==> t == CompetitionColor(level.value.s)
  {
    if level.Some? && level.value.Str? then CompetitionColor(level.value.s) else Rose
  }

  /** On the three declared levels the colouring is a bijection onto the tones,
      lower competition getting the better tone. */
  lemma CompetitionColorOfLevels()
    ensures CompetitionColor(Competition.Baixa.Label()) == Green
    ensures CompetitionColor(Competition.Media.Label()) == Amber
    ensures CompetitionColor(Competition.Alta.Label()) == Rose
    ensures forall c1: Competition, c2: Competition ::
      CompetitionColor(c1.Label()) == CompetitionColor(c2.Label()) ==> c1 == c2
  {
  }

  /** The member holding a record's competition level. */
  const LevelKey: string := "competitionLevel"

  datatype Badge = RealData | AiAnalysis {
    function Text(): string {
      match this
      case RealData => "Dados Reais"
      case AiAnalysis => "AI Analysis"
    }
  }

  /** The badge rule: sources that are present and non-empty show 'Dados Reais',
      anything else 'AI Analysis'. */
  function BadgeFor(searchSources: Option<seq<Source>>): (b: Badge)
    ensures b == RealData <==> searchSources.Some? && |searchSources.value| > 0
    ensures b.Text() == "Dados Reais" <==> searchSources.Some? && |searchSources.value| > 0
  {
    if searchSources.Some? && |searchSources.value| > 0 then RealData else AiAnalysis
  }

  /** The cards fade in 100 ms apart, in list order. */
  function AnimationDelayMs(index: nat): (ms: nat)
    ensures ms % 100 == 0 && ms / 100 == index
  {
    index * 100
  }

  /** What one card shows that depends on data. */
  datatype CardStyle = CardStyle(scoreTone: Tone, competitionTone: Tone, badge: Badge, delayMs: nat)

  /** One card: each data-dependent part follows its own rule, independently of
      the others. */
  function Card(niche: NicheResult, index: nat): (c: CardStyle)
    ensures c.scoreTone == Green <==> niche.trendScore >= 80.0
    ensures c.scoreTone == Rose <==> niche.trendScore < 50.0
    ensures c.competitionTone == LevelColor(Some(Str(niche.competitionLevel)))
    ensures c.badge.Text() == "Dados Reais" <==> niche.searchSources.Some? && |niche.searchSources.value| > 0
    ensures c.delayMs == index * 100
  {
    CardStyle(ScoreColor(niche.trendScore), CompetitionColor(niche.competitionLevel),
              BadgeFor(niche.searchSources), AnimationDelayMs(index))
  }

  /** Among the records of one search, only the first can earn 'Dados Reais',
      and it does exactly when the response had a grounding chunk with a `web`
      field. This holds for every record, whatever the shape of its other
      members. */
  lemma SearchBadges(parse: Parser, response: Response, now: nat -> nat, i: nat)
    requires SearchViralNiches(parse, response, now).Ok?
    requires i < |SearchViralNiches(parse, response, now).value|
    ensures var r := SearchViralNiches(parse, response, now).value[i];
      && r.Object? && SourcesKey in r.members
      && (BadgeFor(SourcesFromJson(r.members[SourcesKey])) == RealData <==>
            && i == 0
            && GroundingChunksOf(response).Some?
            && exists k :: 0 <= k < |GroundingChunksOf(response).value| && GroundingChunksOf(response).value[k].web.Some?)
  {
    SearchSourcesNonEmpty(response);
    SearchTagsEveryElement(parse, response, now, i);
    var raw := ExtractJson(parse, ResponseText(response.text)).value;
    TagResultsSources(raw.items, SearchSources(response), now, i);
  }

  /** The same for a record that reads as a NicheResult and is drawn as card i. */
  lemma SearchBadgesTyped(parse: Parser, response: Response, now: nat -> nat, i: nat, niche: NicheResult)
    requires SearchViralNiches(parse, response, now).Ok?
    requires i < |SearchViralNiches(parse, response, now).value|
    requires AsNicheResult(SearchViralNiches(parse, response, now).value[i]) == Some(niche)
    ensures Card(niche, i).badge == RealData <==>
      && i == 0
      && GroundingChunksOf(response).Some?
      && exists k :: 0 <= k < |GroundingChunksOf(response).value| && GroundingChunksOf(response).value[k].web.Some?
  {
    SearchBadges(parse, response, now, i);
    var raw := ExtractJson(parse, ResponseText(response.text)).value;
    TaggedRecordReading(raw.items, SearchSources(response), now, i);
    TagResultsSources(raw.items, SearchSources(response), now, i);
  }

  /** Tagging leaves the competition level alone: a record's competition colour
      is the colour of the level its parsed element carried. */
  lemma SearchCompetitionColors(parse: Parser, response: Response, now: nat -> nat, i: nat)
    requires SearchViralNiches(parse, response, now).Ok?
    requires i < |SearchViralNiches(parse, response, now).value|
    ensures var r := SearchViralNiches(parse, response, now).value[i];
      var m := Spread(ExtractJson(parse, ResponseText(response.text)).value.items[i]);
      && r.Object?
      && LevelColor(if LevelKey in r.members then Some(r.members[LevelKey]) else None)
         == LevelColor(if LevelKey in m then Some(m[LevelKey]) else None)
  {
    SearchTagsEveryElement(parse, response, now, i);
  }
}
