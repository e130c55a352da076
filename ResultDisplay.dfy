/** The result screen: the overall verdict, the preview images, the five
    detail cards and the list of cited sources. */
module ResultDisplay {
  import opened Wrappers
  import opened JsString
  import opened Types
  import opened ReportCard
  import GeminiService

  datatype Icon = CheckIcon | WarningIcon | QuestionIcon

  datatype OverallStyle = OverallStyle(tone: Tone, icon: Icon)

  /** `getOverallStyles`: the inconclusive arm doubles as the catch-all. */
  function OverallStyleOf(status: string): (style: OverallStyle)
    ensures style == OverallStyle(Green, CheckIcon) <==> status == "AUTHENTIC"
    ensures style == OverallStyle(Red, WarningIcon) <==> status == "POTENTIALLY_COUNTERFEIT"
    ensures style == OverallStyle(Yellow, QuestionIcon) <==> status != "AUTHENTIC" && status != "POTENTIALLY_COUNTERFEIT"
  {
    match OverallAssessmentStatusOf(status)
    case OverallAuthentic => OverallStyle(Green, CheckIcon)
    case PotentiallyCounterfeit => OverallStyle(Red, WarningIcon)
    case Inconclusive | UnrecognizedOverall(_) => OverallStyle(Yellow, QuestionIcon)
  }

  /** The icon for a detail status: a check for the good statuses, a warning
      for the suspicious and failed ones, a question mark otherwise. */
  function IconFor(status: string): (icon: Icon)
    ensures icon == CheckIcon <==> status == "VERIFIED" || status == "AUTHENTIC"
    ensures icon == WarningIcon <==> status == "SUSPICIOUS"
  {
    match VerificationStatusOf(status)
    case Verified | Authentic => CheckIcon
    case Suspicious => WarningIcon
    case NotFound | UnableToVerify => QuestionIcon
    case UnrecognizedStatus(_) => QuestionIcon
  }

  /** A card's colour and its icon never disagree: green goes with the check,
      yellow with the warning, red and slate with the question mark. */
  lemma ToneMatchesIcon(status: string)
    ensures StatusTone(status) == Green <==> IconFor(status) == CheckIcon
    ensures StatusTone(status) == Yellow <==> IconFor(status) == WarningIcon
    ensures StatusTone(status) in {Red, Slate} <==> IconFor(status) == QuestionIcon
  {
  }

  /** The details text of the two numbered cards. */
  function NumberDetail(number: string): (detail: string)
    ensures StartsWith(detail, "Nº: ")
    ensures detail[|"Nº: "|..] == if number == "" then "N/A" else number
  {
    "Nº: " + (if number == "" then "N/A" else number)
  }

  /** The numbered cards always show their details line, "N/A" standing in
      for an empty number. */
  lemma NumberDetailShown(number: string)
    ensures ShownDetails(Some(NumberDetail(number))) == Some(NumberDetail(number))
    ensures number == "" ==> NumberDetail(number) == "Nº: N/A"
  {
  }

  /** A card shows the given title and takes its colour, icon and label
      from the given status. */
  predicate CardFor(card: CardView<Icon>, title: string, status: string) {
    && card.title == title
    && card.tone == StatusTone(status) && card.icon == IconFor(status)
    && card.statusLabel == StatusLabel(status)
  }

  /** One detail entry of the report as a card receives it. */
  datatype Entry = Entry(title: string, status: string, notes: string, details: Option<string>)

  /** The five entries in display order: the registration and the barcode
      with their number lines, then the three visual checks. */
  function Entries(report: VerificationReport): seq<Entry> {
    var r := report;
    var v := r.visualAuthenticity;
    [ Entry("Registro INVIMA", r.invimaRegistration.status, r.invimaRegistration.notes, Some(NumberDetail(r.invimaRegistration.number))),
      Entry("Código de Barras", r.barcode.status, r.barcode.notes, Some(NumberDetail(r.barcode.number))),
      Entry("Colores", v.colors.status, v.colors.notes, None),
      Entry("Tipografía", v.typography.status, v.typography.notes, None),
      Entry("Calidad de Impresión", v.printQuality.status, v.printQuality.notes, None) ]
  }

  /** The card for one entry: its title, and the colour, icon and label of
      its own status. */
  function EntryCard(entry: Entry): (card: CardView<Icon>)
    ensures CardFor(card, entry.title, entry.status)
    ensures card.details == ShownDetails(entry.details) && card.notes == entry.notes
  {
    RenderCard(entry.title, entry.status, entry.notes, entry.details, IconFor(entry.status))
  }

  /** The five detail cards: card k is built from entry k alone, so its
      colour, icon and label come from that entry's own status. */
  function DetailCards(report: VerificationReport): (cards: seq<CardView<Icon>>)
    ensures |cards| == |Entries(report)| == 5
    ensures forall k :: 0 <= k < 5 ==>
      && CardFor(cards[k], Entries(report)[k].title, Entries(report)[k].status)
      && cards[k].details == ShownDetails(Entries(report)[k].details)
      && cards[k].notes == Entries(report)[k].notes
  {
    var entries := Entries(report);
    seq(5, k requires 0 <= k < 5 => EntryCard(entries[k]))
  }

  /** Each of the report's five checks appears exactly once, under its own
      title, with its own status and notes; only the two numbered checks
      carry a details line. */
  lemma EntriesOfReport(report: VerificationReport)
    ensures var entries := Entries(report);
      && |entries| == 5
      && (forall i, j :: 0 <= i < j < 5 ==> entries[i].title != entries[j].title)
      && (forall k :: 0 <= k < 5 ==> (entries[k].details.Some? <==> k < 2))
    ensures var e := Entries(report);
      && e[0].status == report.invimaRegistration.status && e[0].notes == report.invimaRegistration.notes
      && e[1].status == report.barcode.status && e[1].notes == report.barcode.notes
    ensures var e := Entries(report); var v := report.visualAuthenticity;
      && e[2].status == v.colors.status && e[2].notes == v.colors.notes
      && e[3].status == v.typography.status && e[3].notes == v.typography.notes
      && e[4].status == v.printQuality.status && e[4].notes == v.printQuality.notes
  {
  }

  /** Only the two numbered entries give their card a details line, and
      they always do. */
  lemma EntriesNumberLines(report: VerificationReport)
    ensures ShownDetails(Entries(report)[0].details) == Some(NumberDetail(report.invimaRegistration.number))
    ensures ShownDetails(Entries(report)[1].details) == Some(NumberDetail(report.barcode.number))
    ensures forall k :: 2 <= k < 5 ==> ShownDetails(Entries(report)[k].details).None?
  {
    NumberDetailShown(report.invimaRegistration.number);
    NumberDetailShown(report.barcode.number);
  }

  /** A card's colour and icon tell the same story. */
  predicate Consistent(card: CardView<Icon>) {
    && (card.tone == Green <==> card.icon == CheckIcon)
    && (card.tone == Yellow <==> card.icon == WarningIcon)
    && (card.tone in {Red, Slate} <==> card.icon == QuestionIcon)
  }

  /** A card built for a status is consistent. */
  lemma CardForConsistent(card: CardView<Icon>, title: string, status: string)
    requires CardFor(card, title, status)
    ensures Consistent(card)
  {
    ToneMatchesIcon(status);
  }

  /** Every detail card of every report is consistent. */
  lemma DetailCardsConsistent(report: VerificationReport)
    ensures forall card <- DetailCards(report) :: Consistent(card)
  {
    var cards := DetailCards(report);
    forall k | 0 <= k < |cards|
      ensures Consistent(cards[k])
    {
      CardForConsistent(cards[k], Entries(report)[k].title, Entries(report)[k].status);
    }
  }

  datatype SourceLink = SourceLink(href: string, text: string, tooltip: string)

  /** A source's link: `title || uri` as its text. */
  function LinkFor(source: GroundingSource): (link: SourceLink)
    ensures link.href == source.web.uri && link.tooltip == source.web.uri
    ensures link.text == source.web.title || (source.web.title == "" && link.text == source.web.uri)
    ensures link.text == "" ==> source.web.uri == ""
  {
    SourceLink(source.web.uri, if source.web.title != "" then source.web.title else source.web.uri, source.web.uri)
  }

  /** The sources section: absent when there are no sources, otherwise one
      link per source, in order. */
  function SourceLinks(sources: seq<GroundingSource>): (section: Option<seq<SourceLink>>)
    ensures section.None? <==> sources == []
    ensures section.Some? ==>
      && |section.value| == |sources|
      && forall k :: 0 <= k < |sources| ==> section.value[k] == LinkFor(sources[k])
  {
    if |sources| > 0 then Some(seq(|sources|, k requires 0 <= k < |sources| => LinkFor(sources[k])))
    else None
  }

  /** For sources the pipeline extracted, every link has visible text. */
  lemma ExtractedLinksHaveText(chunks: seq<GeminiService.GroundingChunk>)
    ensures var section := SourceLinks(GeminiService.ExtractSources(chunks));
      section.Some? ==> forall k :: 0 <= k < |section.value| ==> section.value[k].text != ""
  {
  }

  datatype ResultView<U> = ResultView(
    overall: OverallStyle, overallLabel: string, summary: string,
    images: seq<U>, cards: seq<CardView<Icon>>, sources: Option<seq<SourceLink>>)

  /** `ResultDisplay`: nothing for a missing report; otherwise the verdict,
      the previews in list order, the cards and the sources section. */
  function Render<U>(report: Option<VerificationReport>, imagePreviewUrls: seq<U>, sources: seq<GroundingSource>): (view: Option<ResultView<U>>)
    ensures view.None? <==> report.None?
    ensures view.Some? ==>
      && view.value.images == imagePreviewUrls
      && view.value.overall == OverallStyleOf(report.value.overallAssessment.status)
      && view.value.overallLabel == StatusLabel(report.value.overallAssessment.status)
      && view.value.summary == report.value.overallAssessment.summary
      && view.value.cards == DetailCards(report.value)
      && view.value.sources == SourceLinks(sources)
  {
    match report
    case None => None
    case Some(r) =>
      Some(ResultView(
        OverallStyleOf(r.overallAssessment.status), StatusLabel(r.overallAssessment.status),
        r.overallAssessment.summary, imagePreviewUrls, DetailCards(r), SourceLinks(sources)))
  }
}
