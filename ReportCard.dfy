/** One card of the report: the colour for a verification status, the status
    label, and whether the details line is rendered. */
module ReportCard {
  import opened Wrappers
  import opened JsString
  import opened Types

  /** The four colour schemes, in place of their CSS classes. */
  datatype Tone = Green | Yellow | Red | Slate

  /** `getStatusStyles`: the switch over the status string, with its
      catch-all arm, so every string gets a colour. */
  function StatusTone(status: string): (tone: Tone)
    ensures tone == Green <==> status == "VERIFIED" || status == "AUTHENTIC"
    ensures tone == Yellow <==> status == "SUSPICIOUS"
    ensures tone == Red <==> status == "NOT_FOUND" || status == "UNABLE_TO_VERIFY"
    ensures tone == Slate <==> status !in VerificationStatusNames
  {
    match VerificationStatusOf(status)
    case Verified | Authentic => Green
    case Suspicious => Yellow
    case NotFound | UnableToVerify => Red
    case UnrecognizedStatus(_) => Slate
  }

  /** Underscores shown as spaces: same length, no underscore left, every
      other character where it was. */
  function StatusLabel(status: string): (text: string)
    ensures |text| == |status| && '_' !in text
    ensures forall k :: 0 <= k < |status| ==> text[k] == if status[k] == '_' then ' ' else status[k]
  {
    ReplaceChar(status, '_', ' ')
  }

  /** Relabelling is idempotent, and a label without underscores is its own
      label. */
  lemma StatusLabelIdempotent(status: string)
    ensures StatusLabel(StatusLabel(status)) == StatusLabel(status)
    ensures '_' !in status ==> StatusLabel(status) == status
  {
  }

  /** The details line is rendered only when the details are present and
      truthy, which for a string means non-empty. */
  function ShownDetails(details: Option<string>): (shown: Option<string>)
    ensures shown.Some? <==> details.Some? && details.value != ""
    ensures shown.Some? ==> shown == details
  {
    if details.Some? && details.value != "" then details else None
  }

  /** What a card shows; the icon is whatever the caller passes. */
  datatype CardView<I> = CardView(title: string, tone: Tone, icon: I, statusLabel: string, details: Option<string>, notes: string)

  function RenderCard<I>(title: string, status: string, notes: string, details: Option<string>, icon: I): (card: CardView<I>)
    ensures card.tone == StatusTone(status) && card.statusLabel == StatusLabel(status)
    ensures card.details == ShownDetails(details)
    ensures card.title == title && card.notes == notes && card.icon == icon
  {
    CardView(title, StatusTone(status), icon, StatusLabel(status), ShownDetails(details), notes)
  }
}
