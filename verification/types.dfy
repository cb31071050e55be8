/** The shapes of types.ts: a web source, the niche record the cards display,
    the three competition levels, and the region and category enumerations
    whose string values are interpolated into prompts. */
module Types {
  import opened Results

  datatype Source = Source(title: string, url: string)

  /** A niche as the cards read it. `competitionLevel` is declared as one of
      'Baixa' | 'Média' | 'Alta' but nothing checks that at run time, so it is
      kept as a string here; `searchSources` is optional. */
  datatype NicheResult = NicheResult(
    id: string,
    name: string,
    description: string,
    trendScore: real,
    competitionLevel: string,
    targetAudience: string,
    reasonForVirality: string,
    exampleChannels: seq<string>,
    monetizationPotential: string,
    searchSources: Option<seq<Source>>)

  datatype Competition = Baixa | Media | Alta {
    function Label(): string {
      match this
      case Baixa => "Baixa"
      case Media => "Média"
      case Alta => "Alta"
    }
  }

  datatype Region = Global | Brazil | Usa | LatinAmerica | Europe | Asia {
    function Value(): string {
      match this
      case Global => "Global (Mundo Todo)"
      case Brazil => "Brasil"
      case Usa => "Estados Unidos"
      case LatinAmerica => "América Latina"
      case Europe => "Europa"
      case Asia => "Ásia"
    }
  }

  datatype Category =
    | TrueCrime | Horror | History | Mythology | Biblical | Curiosities
    | Biographies | Stoicism | SciFi | Conspiracy | Emotional
  {
    function Value(): string {
      match this
      case TrueCrime => "True Crime & Mistérios"
      case Horror => "Terror, Lendas & Creepypastas"
      case History => "História & Guerras"
      case Mythology => "Mitologia & Folclore"
      case Biblical => "Histórias Bíblicas & Fé"
      case Curiosities => "Curiosidades Sombrias & Fatos"
      case Biographies => "Biografias & Superação"
      case Stoicism => "Estoicismo & Filosofia"
      case SciFi => "Futuro & Paradoxos"
      case Conspiracy => "Teorias & Enigmas"
      case Emotional => "Histórias Emocionantes de Vida"
    }
  }

  /** The enumerations are faithful: distinct members carry distinct, non-empty
      string values, so the value interpolated into a prompt identifies the
      member. */
  lemma EnumValuesDistinct()
    ensures forall c: Category :: |c.Value()| > 0
    ensures forall c1: Category, c2: Category :: c1 != c2 ==> c1.Value() != c2.Value()
    ensures forall r1: Region, r2: Region :: r1 != r2 ==> r1.Value() != r2.Value()
    ensures forall c1: Competition, c2: Competition :: c1 != c2 ==> c1.Label() != c2.Label()
  {
  }
}
