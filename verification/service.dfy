/** searchViralNiches and generateVideoStrategy of services/geminiService.ts,
    after the completion call: the call's response is a parameter, JSON.parse is
    the Parser parameter, and Date.now() is a clock `now` giving the reading
    taken while item i is mapped. */
module Service {
  import opened Results
  import opened Text
  import opened Json
  import opened Extract
  import opened Types

  // ---------------------------------------------------------------------------
  // The part of a generateContent response the code reads
  // ---------------------------------------------------------------------------

  datatype Web = Web(title: Option<string>, uri: Option<string>)
  datatype GroundingChunk = GroundingChunk(web: Option<Web>)
  datatype GroundingMetadata = GroundingMetadata(groundingChunks: Option<seq<GroundingChunk>>)
  datatype Candidate = Candidate(groundingMetadata: Option<GroundingMetadata>)
  datatype Response = Response(text: Option<string>, candidates: Option<seq<Candidate>>)

  const DefaultText: string := "[]"
  const DefaultTitle: string := "Fonte Web"
  const DefaultUrl: string := "#"
  const IdPrefix: string := "niche-"
  const IdKey: string := "id"
  const SourcesKey: string := "searchSources"

  /** The reply text with its fallback: a missing or empty text becomes an
      empty JSON array; any other text, whitespace-only included, is used as it is. */
  function ResponseText(text: Option<string>): (t: string)
    ensures text.Some? && text.value != "" ==> t == text.value
    ensures text.None? || text.value == "" ==> t == DefaultText
    ensures t != ""
  {
    if text.Some? && text.value != "" then text.value else DefaultText
  }

  // ---------------------------------------------------------------------------
  // Grounding chunks to sources
  // ---------------------------------------------------------------------------

  /** A web chunk becomes a source: a title or uri that is present and non-empty
      is kept as it is, a missing or empty one falls back to its default, so
      neither field is ever empty. */
  function SourceOf(w: Web): (src: Source)
    ensures src.title != "" && src.url != ""
    ensures src.title == DefaultTitle || (w.title.Some? && src.title == w.title.value)
    ensures src.url == DefaultUrl || (w.uri.Some? && src.url == w.uri.value)
    ensures !(w.title.Some? && w.title.value != "") ==> src.title == DefaultTitle
    ensures !(w.uri.Some? && w.uri.value != "") ==> src.url == DefaultUrl
    ensures w.title.Some? && w.title.value != "" ==> src.title == w.title.value
    ensures w.uri.Some? && w.uri.value != "" ==> src.url == w.uri.value
  {
    Source(if w.title.Some? && w.title.value != "" then w.title.value else DefaultTitle,
           if w.uri.Some? && w.uri.value != "" then w.uri.value else DefaultUrl)
  }

  /** The map-then-filter over grounding chunks: chunks without a `web` field are
      dropped, the others become sources in their original order, duplicates
      kept. */
  function ToSources(chunks: seq<GroundingChunk>): (r: seq<Source>)
    ensures |r| <= |chunks|
    ensures forall k :: 0 <= k < |chunks| && chunks[k].web.Some? ==> SourceOf(chunks[k].web.value) in r
    ensures forall src :: src in r ==> exists k :: 0 <= k < |chunks| && chunks[k].web.Some? && src == SourceOf(chunks[k].web.value)
    decreases |chunks|
  {
    if |chunks| == 0 then []
    else
      var head := match chunks[0].web case Some(w) => [SourceOf(w)] case None => [];
      var r := head + ToSources(chunks[1..]);
      assert forall k :: 1 <= k < |chunks| ==> chunks[k] == chunks[1..][k - 1];
      r
  }

  /** Sources of a concatenation are the concatenation of the sources: together
      with the one-chunk cases this pins ToSources down as the order-preserving
      filter-map, with no deduplication. */
  lemma {:induction false} ToSourcesAppend(a: seq<GroundingChunk>, b: seq<GroundingChunk>)
    ensures ToSources(a + b) == ToSources(a) + ToSources(b)
    decreases |a|
  {
    if |a| == 0 {
      assert a + b == b;
    } else {
      assert (a + b)[1..] == a[1..] + b;
      ToSourcesAppend(a[1..], b);
    }
  }

  /** One chunk yields its source when it has a `web` field and nothing
      otherwise; a repeated chunk yields a repeated source. */
  lemma ToSourcesSingle(c: GroundingChunk)
    ensures c.web.Some? ==> ToSources([c]) == [SourceOf(c.web.value)]
    ensures c.web.None? ==> ToSources([c]) == []
    ensures c.web.Some? ==> ToSources([c, c]) == [SourceOf(c.web.value), SourceOf(c.web.value)]
  {
    assert [c, c] == [c] + [c];
    ToSourcesAppend([c], [c]);
  }

  /** The optional chain from the response to the grounding chunks: it is
      undefined as soon as one link is missing (no candidates, an empty
      candidate list, no metadata on the first candidate, no chunks). Only the
      first candidate is ever consulted. */
  function GroundingChunksOf(response: Response): (r: Option<seq<GroundingChunk>>)
    ensures r.Some? <==>
      && response.candidates.Some? && |response.candidates.value| > 0
      && response.candidates.value[0].groundingMetadata.Some?
      && response.candidates.value[0].groundingMetadata.value.groundingChunks.Some?
    ensures r.Some? ==> r == response.candidates.value[0].groundingMetadata.value.groundingChunks
  {
    if response.candidates.None? || |response.candidates.value| == 0 then None
    else
      match response.candidates.value[0].groundingMetadata
      case None => None
      case Some(meta) => meta.groundingChunks
  }

  /** The sources of a response: `[]` when the chain above is undefined. */
  function SearchSources(response: Response): (r: seq<Source>)
    ensures GroundingChunksOf(response).None? ==> r == []
    ensures GroundingChunksOf(response).Some? ==> r == ToSources(GroundingChunksOf(response).value)
  {
    match GroundingChunksOf(response)
    case None => []
    case Some(chunks) => ToSources(chunks)
  }

  /** A response has sources exactly when its first candidate's grounding
      chunks include one with a `web` field. */
  lemma SearchSourcesNonEmpty(response: Response)
    ensures |SearchSources(response)| > 0 <==>
      GroundingChunksOf(response).Some? &&
      exists k :: 0 <= k < |GroundingChunksOf(response).value| && GroundingChunksOf(response).value[k].web.Some?
  {
    var r := SearchSources(response);
    if |r| > 0 {
      assert r[0] in r;
    }
  }

  // ---------------------------------------------------------------------------
  // Sources as JSON
  // ---------------------------------------------------------------------------

  function SourceToJson(src: Source): Json {
    Object(map["title" := Str(src.title), "url" := Str(src.url)])
  }

  function SourceFromJson(v: Json): Option<Source> {
    if v.Object? && "title" in v.members && "url" in v.members
       && v.members["title"].Str? && v.members["url"].Str?
    then Some(Source(v.members["title"].s, v.members["url"].s))
    else None
  }

  function SourcesToJson(sources: seq<Source>): Json {
    Array(seq(|sources|, k requires 0 <= k < |sources| => SourceToJson(sources[k])))
  }

  function DecodeSources(items: seq<Json>): Option<seq<Source>>
    decreases |items|
  {
    if |items| == 0 then Some([])
    else
      match SourceFromJson(items[0])
      case None => None
      case Some(src) =>
        match DecodeSources(items[1..])
        case None => None
        case Some(rest) => Some([src] + rest)
  }

  function SourcesFromJson(v: Json): Option<seq<Source>> {
    if v.Array? then DecodeSources(v.items) else None
  }

  /** Reading back an encoded source list gives the list. */
  lemma {:induction false} SourcesRoundTrip(sources: seq<Source>)
    ensures SourcesFromJson(SourcesToJson(sources)) == Some(sources)
    decreases |sources|
  {
    var items := SourcesToJson(sources).items;
    if |sources| > 0 {
      assert SourceFromJson(items[0]) == Some(sources[0]);
      assert items[1..] == SourcesToJson(sources[1..]).items;
      SourcesRoundTrip(sources[1..]);
      assert [sources[0]] + sources[1..] == sources;
    }
  }

  // ---------------------------------------------------------------------------
  // Ids
  // ---------------------------------------------------------------------------

  /** The id of a result: the prefix "niche-", the clock reading in decimal, a
      hyphen and the item's index in decimal. Distinctness and the round trip
      through ParseNicheId are the lemmas below. */
  function NicheId(timestamp: nat, index: nat): (r: string)
    ensures |r| > |IdPrefix| + 2 && r[..|IdPrefix|] == IdPrefix
    ensures forall k :: |IdPrefix| <= k < |r| ==> IsDigit(r[k]) || r[k] == '-'
  {
    IdPrefix + Decimal(timestamp) + "-" + Decimal(index)
  }

  /** Splits an id back into its timestamp and index. */
  function ParseNicheId(id: string): Option<(nat, nat)> {
    if |id| < |IdPrefix| || id[..|IdPrefix|] != IdPrefix then None
    else
      var rest := id[|IdPrefix|..];
      match IndexOf(rest, "-", 0)
      case None => None
      case Some(k) =>
        var t := rest[..k];
        var n := rest[k + 1..];
        if |t| > 0 && |n| > 0 && AllDigits(t) && AllDigits(n)
        then Some((DecimalValue(t), DecimalValue(n)))
        else None
  }

  /** An id records its timestamp and index: reading it back gives both. */
  lemma NicheIdRoundTrip(timestamp: nat, index: nat)
    ensures ParseNicheId(NicheId(timestamp, index)) == Some((timestamp, index))
  {
    var id := NicheId(timestamp, index);
    var dt, di := Decimal(timestamp), Decimal(index);
    assert id[..|IdPrefix|] == IdPrefix;
    var rest := id[|IdPrefix|..];
    assert rest == dt + "-" + di;
    assert rest[|dt|..|dt| + 1] == "-";
    forall k | 0 <= k < |dt|
      ensures !HasAt(rest, k, "-")
    {
      assert rest[k..k + 1][0] == rest[k] == dt[k];
    }
    assert HasAt(rest, |dt|, "-");
    assert IndexOf(rest, "-", 0) == Some(|dt|);
    assert rest[..|dt|] == dt;
    assert rest[|dt| + 1..] == di;
    DecimalRoundTrip(timestamp);
    DecimalRoundTrip(index);
  }

  /** Ids with different indices differ, whatever the clock read. */
  lemma NicheIdsDistinct(t1: nat, i1: nat, t2: nat, i2: nat)
    requires i1 != i2
    ensures NicheId(t1, i1) != NicheId(t2, i2)
  {
    NicheIdRoundTrip(t1, i1);
    NicheIdRoundTrip(t2, i2);
  }

  // ---------------------------------------------------------------------------
  // Tagging the parsed items
  // ---------------------------------------------------------------------------

  /** A tagged record: the item's spread members with the two injected members
      (the id and the sources) added, overriding any members of the same names. */
  function Tag(item: Json, id: string, sources: seq<Source>): (r: Json)
    ensures r.Object? && r.members.Keys == Spread(item).Keys + {IdKey, SourcesKey}
    ensures r.members[IdKey] == Str(id) && r.members[SourcesKey] == SourcesToJson(sources)
    ensures forall key :: key in Spread(item) && key != IdKey && key != SourcesKey ==>
      r.members[key] == Spread(item)[key]
  {
    Object(Spread(item)[IdKey := Str(id)][SourcesKey := SourcesToJson(sources)])
  }

  /** The `rawData.map` of searchViralNiches: item i gets the id built from the
      clock reading taken for it and its index, and the sources if it is the
      first item, an empty list otherwise. */
  function TagResults(items: seq<Json>, sources: seq<Source>, now: nat -> nat): (r: seq<Json>)
    ensures |r| == |items|
    ensures forall i :: 0 <= i < |r| ==> r[i].Object? && IdKey in r[i].members && SourcesKey in r[i].members
  {
    var r := seq(|items|, i requires 0 <= i < |items| =>
      Tag(items[i], NicheId(now(i), i), if i == 0 then sources else []));
    assert forall i :: 0 <= i < |r| ==> r[i] == Tag(items[i], NicheId(now(i), i), if i == 0 then sources else []);
    r
  }

  /** Removing the two injected members. */
  function Untag(v: Json): map<string, Json>
    requires v.Object?
  {
    v.members - {IdKey, SourcesKey}
  }

  /** Tagging keeps every other member of the item: removing the injected
      members gives back what the spread copied, and for an object item that had
      neither member, the item itself. */
  lemma TagResultsKeepsFields(items: seq<Json>, sources: seq<Source>, now: nat -> nat, i: nat)
    requires i < |items|
    ensures var r := TagResults(items, sources, now);
      && r[i].members.Keys == Spread(items[i]).Keys + {IdKey, SourcesKey}
      && Untag(r[i]) == Spread(items[i]) - {IdKey, SourcesKey}
    ensures items[i].Object? && IdKey !in items[i].members && SourcesKey !in items[i].members ==>
      Untag(TagResults(items, sources, now)[i]) == items[i].members
  {
    var r := TagResults(items, sources, now);
    assert r[i] == Tag(items[i], NicheId(now(i), i), if i == 0 then sources else []);
  }

  /** Item ids are pairwise distinct, whatever the clock reads at each item. */
  lemma TagResultsIdsDistinct(items: seq<Json>, sources: seq<Source>, now: nat -> nat, i: nat, j: nat)
    requires i < |items| && j < |items| && i != j
    ensures var r := TagResults(items, sources, now);
      r[i].members[IdKey] != r[j].members[IdKey]
  {
    NicheIdsDistinct(now(i), i, now(j), j);
  }

  /** Each item's id reads back as the clock reading and its own index. */
  lemma TagResultsIdReadsBack(items: seq<Json>, sources: seq<Source>, now: nat -> nat, i: nat)
    requires i < |items|
    ensures var r := TagResults(items, sources, now);
      r[i].members[IdKey].Str? && ParseNicheId(r[i].members[IdKey].s) == Some((now(i), i))
  {
    NicheIdRoundTrip(now(i), i);
  }

  /** The first item carries the sources and every other item an empty list. */
  lemma TagResultsSources(items: seq<Json>, sources: seq<Source>, now: nat -> nat, i: nat)
    requires i < |items|
    ensures var r := TagResults(items, sources, now);
      SourcesFromJson(r[i].members[SourcesKey]) == Some(if i == 0 then sources else [])
  {
    var r := TagResults(items, sources, now);
    assert r[i] == Tag(items[i], NicheId(now(i), i), if i == 0 then sources else []);
    SourcesRoundTrip(if i == 0 then sources else []);
  }

  // ---------------------------------------------------------------------------
  // The two service calls
  // ---------------------------------------------------------------------------

  datatype SearchError =
    | ExtractionError(message: string)  // thrown by extractJson
    | NotAnArray                        // `rawData.map` is not a function

  /** searchViralNiches after the completion call. */
  function SearchViralNiches(parse: Parser, response: Response, now: nat -> nat): (r: Result<seq<Json>, SearchError>)
    ensures var x := ExtractJson(parse, ResponseText(response.text));
      && (r.Ok? <==> x.Ok? && x.value.Array?)
      && (x.Err? ==> r == Err(ExtractionError(ExtractionFailed)))
      && (r.Ok? ==> |r.value| == |x.value.items|)
      && (x.Ok? && !x.value.Array? ==> r == Err(NotAnArray))
  {
    match ExtractJson(parse, ResponseText(response.text))
    case Err(msg) => Err(ExtractionError(msg))
    case Ok(raw) =>
      if raw.Array? then Ok(TagResults(raw.items, SearchSources(response), now)) else Err(NotAnArray)
  }

  /** A missing or empty response text yields an empty list, not an error. */
  lemma SearchEmptyText(parse: Parser, response: Response, now: nat -> nat)
    requires response.text.None? || response.text.value == ""
    requires parse(DefaultText) == Some(Array([]))
    ensures SearchViralNiches(parse, response, now) == Ok([])
  {
  }

  /** A whitespace-only text is not defaulted: when JSON.parse rejects it, the
      search fails. */
  lemma SearchWhitespaceTextFails(parse: Parser, response: Response, now: nat -> nat)
    requires response.text.Some? && response.text.value != ""
    requires AllSpace(response.text.value, 0, |response.text.value|)
    requires parse(response.text.value).None?
    ensures SearchViralNiches(parse, response, now) == Err(ExtractionError(ExtractionFailed))
  {
    var t := response.text.value;
    assert forall i, g0, g1, e :: !FenceMatch(t, i, g0, g1, e) by {
      forall i, g0, g1, e ensures !FenceMatch(t, i, g0, g1, e) {
        NoMatchWithout(t, i, g0, g1, e, 0, 0, 0);
      }
    }
    assert forall i, j, p, k :: !ArrayMatch(t, i, j, p, k) by {
      forall i, j, p, k ensures !ArrayMatch(t, i, j, p, k) {
        NoMatchWithout(t, i, 0, 0, 0, j, p, k);
      }
    }
    ExtractFailsIff(parse, t);
  }

  /** A successful search returns one record per parsed element, in order:
      element i becomes record i. */
  lemma SearchTagsEveryElement(parse: Parser, response: Response, now: nat -> nat, i: nat)
    requires SearchViralNiches(parse, response, now).Ok?
    requires i < |SearchViralNiches(parse, response, now).value|
    ensures var raw := ExtractJson(parse, ResponseText(response.text)).value;
      SearchViralNiches(parse, response, now).value[i]
        == Tag(raw.items[i], NicheId(now(i), i), if i == 0 then SearchSources(response) else [])
  {
  }

  /** generateVideoStrategy after the completion call: the extracted value is
      returned as it is, whatever its shape. */
  function GenerateVideoStrategy(parse: Parser, text: Option<string>): (r: Result<Json, string>)
    ensures text.Some? && text.value != "" && parse(text.value).Some? ==> r == Ok(parse(text.value).value)
    ensures (text.None? || text.value == "") && parse(DefaultText).Some? ==> r == Ok(parse(DefaultText).value)
    ensures r.Err? ==> r.error == ExtractionFailed
    ensures text.Some? && text.value != "" ==> r == ExtractJson(parse, text.value)
    ensures text.None? || text.value == "" ==> r == ExtractJson(parse, DefaultText)
  {
    ExtractJson(parse, ResponseText(text))
  }

  /** The video reply goes through the same fallbacks: a reply that does not
      parse as a whole but holds a fenced block that does yields the block. */
  lemma VideoStrategyFromFence(parse: Parser, text: Option<string>, i: int, g0: int, g1: int, e: int)
    requires text.Some? && text.value != "" && parse(text.value).None?
    requires SelectedFence(text.value, i, g0, g1, e) && g0 < g1 && parse(text.value[g0..g1]).Some?
    ensures GenerateVideoStrategy(parse, text) == Ok(parse(text.value[g0..g1]).value)
  {
    ExtractFromFence(parse, text.value, i, g0, g1, e);
  }

  // ---------------------------------------------------------------------------
  // Reading a record as a NicheResult
  // ---------------------------------------------------------------------------

  function StrAt(m: map<string, Json>, key: string): Option<string> {
    if key in m && m[key].Str? then Some(m[key].s) else None
  }

  function Strings(items: seq<Json>): Option<seq<string>>
    decreases |items|
  {
    if |items| == 0 then Some([])
    else if !items[0].Str? then None
    else
      match Strings(items[1..])
      case None => None
      case Some(rest) => Some([items[0].s] + rest)
  }

  /** The members a NicheResult declares besides `id` and `searchSources` are
      present with the declared JSON kinds. */
  predicate HasNicheFields(m: map<string, Json>) {
    && StrAt(m, "name").Some?
    && StrAt(m, "description").Some?
    && "trendScore" in m && m["trendScore"].Number?
    && StrAt(m, "competitionLevel").Some?
    && StrAt(m, "targetAudience").Some?
    && StrAt(m, "reasonForVirality").Some?
    && "exampleChannels" in m && m["exampleChannels"].Array? && Strings(m["exampleChannels"].items).Some?
    && StrAt(m, "monetizationPotential").Some?
  }

  function ReadNiche(m: map<string, Json>, id: string, sources: Option<seq<Source>>): NicheResult
    requires HasNicheFields(m)
  {
    NicheResult(id, StrAt(m, "name").value, StrAt(m, "description").value, m["trendScore"].n,
                StrAt(m, "competitionLevel").value, StrAt(m, "targetAudience").value,
                StrAt(m, "reasonForVirality").value, Strings(m["exampleChannels"].items).value,
                StrAt(m, "monetizationPotential").value, sources)
  }

  /** The NicheResult a JSON value is when its members have the declared kinds;
      None otherwise. The code only casts, so this is how the model reads a record
      as the cards see it. */
  function AsNicheResult(v: Json): (r: Option<NicheResult>)
    ensures r.Some? ==> v.Object? && IdKey in v.members && v.members[IdKey] == Str(r.value.id)
    ensures r.Some? ==> "name" in v.members && v.members["name"] == Str(r.value.name)
    ensures r.Some? ==> "trendScore" in v.members && v.members["trendScore"] == Number(r.value.trendScore)
    ensures r.Some? ==> "competitionLevel" in v.members && v.members["competitionLevel"] == Str(r.value.competitionLevel)
    ensures r.Some? ==> (r.value.searchSources.Some? <==> SourcesKey in v.members)
    ensures r.Some? && r.value.searchSources.Some? ==> SourcesFromJson(v.members[SourcesKey]) == r.value.searchSources
  {
    if && v.Object? && HasNicheFields(v.members) && StrAt(v.members, IdKey).Some?
       && (SourcesKey in v.members ==> SourcesFromJson(v.members[SourcesKey]).Some?)
    then Some(ReadNiche(v.members, StrAt(v.members, IdKey).value,
                        if SourcesKey in v.members then SourcesFromJson(v.members[SourcesKey]) else None))
    else None
  }

  /** A tagged record reads as a NicheResult exactly when its item's members have
      the declared kinds (the shape is not checked, so records of other shapes
      pass through as they are); it then carries the item's fields, its id, and
      the sources on the first record only. */
  lemma TaggedRecordReading(items: seq<Json>, sources: seq<Source>, now: nat -> nat, i: nat)
    requires i < |items|
    ensures var r := TagResults(items, sources, now); var m := Spread(items[i]);
      && (AsNicheResult(r[i]).Some? <==> HasNicheFields(m))
      && (HasNicheFields(m) ==>
            AsNicheResult(r[i]) == Some(ReadNiche(m, NicheId(now(i), i), Some(if i == 0 then sources else []))))
  {
    var m := Spread(items[i]);
    var r := TagResults(items, sources, now);
    assert r[i] == Tag(items[i], NicheId(now(i), i), if i == 0 then sources else []);
    var m' := r[i].members;
    TagResultsSources(items, sources, now, i);
    assert forall key :: key != IdKey && key != SourcesKey ==> (key in m' <==> key in m);
    assert forall key :: key in m && key != IdKey && key != SourcesKey ==> m'[key] == m[key];
    assert HasNicheFields(m') <==> HasNicheFields(m);
    if HasNicheFields(m) {
      assert Strings(m'["exampleChannels"].items) == Strings(m["exampleChannels"].items);
    }
  }
}
