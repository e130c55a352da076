/** The data model of the verifier: the application phases, the two status
    enumerations with their string values, and the report records. */
module Types {

  /** The four phases of the user interface; the string values equal the names. */
  datatype AppStatus = Idle | Loading | Success | Error {
    function Name(): string {
      match this
      case Idle => "IDLE"
      case Loading => "LOADING"
      case Success => "SUCCESS"
      case Error => "ERROR"
    }
  }

  /** The four phases have four distinct string values. */
  lemma AppStatusNamesDistinct(a: AppStatus, b: AppStatus)
    ensures a.Name() == b.Name() <==> a == b
  {
  }

  /** The string values of the five verification statuses, in declaration order. */
  const VerificationStatusNames: seq<string> :=
    ["VERIFIED", "AUTHENTIC", "SUSPICIOUS", "NOT_FOUND", "UNABLE_TO_VERIFY"]

  /** A verification status as the presentation code sees it: one of the five
      declared values, or whatever other string the model wrote, since the
      parsed reply is never checked against the enumeration. */
  datatype VerificationStatus =
    | Verified | Authentic | Suspicious | NotFound | UnableToVerify
    | UnrecognizedStatus(raw: string)
  {
    /** The string carried on the wire. */
    function Name(): string {
      match this
      case Verified => "VERIFIED"
      case Authentic => "AUTHENTIC"
      case Suspicious => "SUSPICIOUS"
      case NotFound => "NOT_FOUND"
      case UnableToVerify => "UNABLE_TO_VERIFY"
      case UnrecognizedStatus(raw) => raw
    }
  }

  /** Reads a wire string as a verification status. Every string is read
      back to itself, and exactly the five declared strings are recognised. */
  function VerificationStatusOf(s: string): (v: VerificationStatus)
    ensures v.Name() == s
    ensures v.UnrecognizedStatus? <==> s !in VerificationStatusNames
  {
    if s == "VERIFIED" then Verified
    else if s == "AUTHENTIC" then Authentic
    else if s == "SUSPICIOUS" then Suspicious
    else if s == "NOT_FOUND" then NotFound
    else if s == "UNABLE_TO_VERIFY" then UnableToVerify
    else UnrecognizedStatus(s)
  }

  /** Each declared verification status is read back from its own name, and
      there are exactly five distinct names. */
  lemma VerificationStatusNamesRoundTrip(v: VerificationStatus)
    requires !v.UnrecognizedStatus?
    ensures v.Name() in VerificationStatusNames
    ensures VerificationStatusOf(v.Name()) == v
    ensures |set n | n in VerificationStatusNames| == 5
  {
    var names := set n | n in VerificationStatusNames;
    assert names == {"VERIFIED", "AUTHENTIC", "SUSPICIOUS", "NOT_FOUND", "UNABLE_TO_VERIFY"};
  }

  const OverallAssessmentStatusNames: seq<string> :=
    ["AUTHENTIC", "POTENTIALLY_COUNTERFEIT", "INCONCLUSIVE"]

  /** The overall verdict, with the same catch-all arm as VerificationStatus. */
  datatype OverallAssessmentStatus =
    | OverallAuthentic | PotentiallyCounterfeit | Inconclusive
    | UnrecognizedOverall(raw: string)
  {
    function Name(): string {
      match this
      case OverallAuthentic => "AUTHENTIC"
      case PotentiallyCounterfeit => "POTENTIALLY_COUNTERFEIT"
      case Inconclusive => "INCONCLUSIVE"
      case UnrecognizedOverall(raw) => raw
    }
  }

  function OverallAssessmentStatusOf(s: string): (v: OverallAssessmentStatus)
    ensures v.Name() == s
    ensures v.UnrecognizedOverall? <==> s !in OverallAssessmentStatusNames
  {
    if s == "AUTHENTIC" then OverallAuthentic
    else if s == "POTENTIALLY_COUNTERFEIT" then PotentiallyCounterfeit
    else if s == "INCONCLUSIVE" then Inconclusive
    else UnrecognizedOverall(s)
  }

  /** Status fields hold the string the model wrote. */
  datatype VerificationDetail = VerificationDetail(status: string, notes: string)

  /** The sanitary-registry entry: a detail plus its number, which is always
      present as a field even when empty. */
  datatype InvimaRegistration = InvimaRegistration(number: string, status: string, notes: string)

  datatype Barcode = Barcode(number: string, status: string, notes: string)

  /** The three independent visual checks. */
  datatype VisualAuthenticity = VisualAuthenticity(
    colors: VerificationDetail,
    typography: VerificationDetail,
    printQuality: VerificationDetail)

  datatype OverallAssessment = OverallAssessment(status: string, summary: string)

  datatype VerificationReport = VerificationReport(
    invimaRegistration: InvimaRegistration,
    barcode: Barcode,
    visualAuthenticity: VisualAuthenticity,
    overallAssessment: OverallAssessment)

  datatype WebReference = WebReference(uri: string, title: string)

  /** A cited web page. */
  datatype GroundingSource = GroundingSource(web: WebReference)
}
