/** The two prompts of services/geminiService.ts. Each is a fixed template
    with the caller's values interpolated verbatim, and each demands a bare
    JSON array. */
module Prompts {
  import opened Results
  import opened Text
  import opened Types

  /** A template with two holes: `${x}` sits right after `head`, `${y}` right
      after `mid`, and `demand` right before `shape`. */
  function Fill(head: string, x: string, mid: string, y: string, goal: string, demand: string, shape: string): (p: string)
    ensures HasAt(p, |head|, x)
    ensures HasAt(p, |head| + |x| + |mid|, y)
    ensures HasAt(p, |p| - |shape| - |demand|, demand)
    ensures |p| == |head| + |x| + |mid| + |y| + |goal| + |demand| + |shape|
  {
    var p := head + x + mid + y + goal + demand + shape;
    assert p[|head|..|head| + |x|] == x;
    assert p[|head| + |x| + |mid|..|head| + |x| + |mid| + |y|] == y;
    assert p[|p| - |shape| - |demand|..|p| - |shape|] == demand;
    p
  }

  /** The query the search runs: the custom query when it is present and
      non-empty, otherwise the category's string value. */
  function EffectiveQuery(category: Category, customQuery: Option<string>): (q: string)
    ensures customQuery.Some? && customQuery.value != "" ==> q == customQuery.value
    ensures customQuery.None? || customQuery.value == "" ==> q == category.Value()
    ensures |q| > 0
  {
    if customQuery.Some? && customQuery.value != "" then customQuery.value else category.Value()
  }

  const NicheHead: string :=
    "\n"
    + "    Atue como um especialista em \"Canal Dark\" (Canais onde o criador não aparece) e Storytelling para YouTube.\n"
    + "    \n"
    + "    Contexto:\n"
    + "    - Região: "

  const NicheMid: string :=
    "\n"
    + "    - Categoria de História: "

  const NicheGoal: string :=
    "\n"
    + "    \n"
    + "    Objetivo:\n"
    + "    Encontre 5 sub-nichos virais específicos dentro desse tema que sejam perfeitos para canais de histórias narradas.\n"
    + "    Foque em temas com alto CPM ou alta retenção (watch time).\n"
    + "    \n"
    + "    Instruções:\n"
    + "    1. Pesquise tendências atuais de narrativa e documentários no YouTube.\n"
    + "    2. Identifique sub-nichos \"Oceano Azul\" ou tendências crescentes.\n"
    + "    3. O foco deve ser em conteúdo narrativo (histórias, casos, lendas, fatos).\n"
    + "\n"
    + "    Formato de Saída (JSON Obrigatório):\n"
    + "    "

  const NicheDemand: string := "Retorne APENAS um array JSON puro."

  const NicheShape: string :=
    "\n"
    + "    Estrutura do objeto no array:\n"
    + "    {\n"
    + "      \"name\": \"Nome do Sub-Nicho (Específico)\",\n"
    + "      \"description\": \"O que é contado e qual o estilo visual (ex: animação whiteboad, stock footage, imagens IA)\",\n"
    + "      \"trendScore\": numero_inteiro (0-100),\n"
    + "      \"competitionLevel\": \"Baixa\" | \"Média\" | \"Alta\",\n"
    + "      \"targetAudience\": \"Perfil do público\",\n"
    + "      \"reasonForVirality\": \"Por que esse tipo de história prende a atenção hoje\",\n"
    + "      \"exampleChannels\": [\"Canal Exemplo 1\", \"Canal Exemplo 2\"],\n"
    + "      \"monetizationPotential\": \"Ex: Adsense Alto, Venda de Ebook, Afiliados\"\n"
    + "    }\n"
    + "  "

  /** The niche-search prompt: the region's value and the effective query
      appear verbatim, in that order, at fixed offsets of the template, and the
      prompt demands a bare JSON array. */
  function NichePrompt(category: Category, region: Region, customQuery: Option<string>): (p: string)
    ensures HasAt(p, |NicheHead|, region.Value())
    ensures HasAt(p, |NicheHead| + |region.Value()| + |NicheMid|, EffectiveQuery(category, customQuery))
    ensures HasAt(p, |p| - |NicheShape| - |NicheDemand|, NicheDemand)
    ensures |p| == |NicheHead| + |NicheMid| + |NicheGoal| + |NicheDemand| + |NicheShape|
                   + |region.Value()| + |EffectiveQuery(category, customQuery)|
  {
    Fill(NicheHead, region.Value(), NicheMid, EffectiveQuery(category, customQuery),
         NicheGoal, NicheDemand, NicheShape)
  }

  const VideoHead: string :=
    "\n"
    + "    Para um Canal Dark (Faceless) no nicho \""

  const VideoMid: string :=
    "\" focado na região "

  const VideoGoal: string :=
    ", crie 3 roteiros de vídeos virais focados em Storytelling.\n"
    + "    \n"
    + "    O foco deve ser RETENÇÃO máxima.\n"
    + "    \n"
    + "    "

  const VideoDemand: string := "Retorne um array JSON puro com a seguinte estrutura:"

  const VideoShape: string :=
    "\n"
    + "    [\n"
    + "      {\n"
    + "        \"title\": \"Título altamente clicável (Clickbait ético e misterioso)\",\n"
    + "        \"thumbnailConcept\": \"Ideia visual dramática para a capa (focada em contraste e curiosidade)\",\n"
    + "        \"hook\": \"As primeiras 3 frases da narração para prender o espectador nos primeiros 5 segundos\",\n"
    + "        \"outline\": [\"Introdução do Mistério\", \"Desenvolvimento dos Fatos\", \"Plot Twist/Clímax\", \"Conclusão Reflexiva\"]\n"
    + "      }\n"
    + "    ]\n"
    + "  "


  /** The video-strategy prompt: the niche name (between double quotes) and
      the region's value appear verbatim, and the prompt demands a bare JSON
      array. */
  function VideoPrompt(nicheName: string, region: Region): (p: string)
    ensures HasAt(p, |VideoHead|, nicheName)
    ensures HasAt(p, |VideoHead| + |nicheName| + |VideoMid|, region.Value())
    ensures HasAt(p, |p| - |VideoShape| - |VideoDemand|, VideoDemand)
    ensures |p| == |VideoHead| + |VideoMid| + |VideoGoal| + |VideoDemand| + |VideoShape|
                   + |nicheName| + |region.Value()|
  {
    Fill(VideoHead, nicheName, VideoMid, region.Value(), VideoGoal, VideoDemand, VideoShape)
  }
}
