/** A stored event, and the ten ways to group events in a report. */
module TrackedEvent {
  import opened Wrappers

  newtype byte = x: int | 0 <= x < 256
  type Bytes = seq<byte>

  datatype EventType = Pageview | Engagement | Custom | Outbound | Vitals

  /**
   One stored event. `ts` is in epoch seconds. `value` is any number a client
   may send, counted in an arbitrary fixed unit; it is None for SQL NULL.
   */
  datatype Event = Event(
    ts: int,
    site: string,
    visitor: Bytes,
    session: Bytes,
    kind: EventType,
    path: string,
    referrerSource: Option<string>,
    utmSource: Option<string>,
    utmMedium: Option<string>,
    utmCampaign: Option<string>,
    utmContent: Option<string>,
    utmTerm: Option<string>,
    country: string,
    deviceType: string,
    browser: string,
    os: string,
    lang: Option<string>,
    screenBucket: Option<string>,
    colorScheme: Option<string>,
    name: Option<string>,
    props: Option<string>,
    value: Option<int>)
  {
    predicate IsPageview() { kind.Pageview? }
    predicate IsScroll() { kind.Custom? && name == Some("scroll") }
  }

  datatype Dimension =
    | PathDim | ReferrerDim | CountryDim | DeviceDim | BrowserDim
    | OsDim | CampaignDim | ScreenDim | LanguageDim | ColorSchemeDim

  const DIMENSIONS: seq<Dimension> :=
    [PathDim, ReferrerDim, CountryDim, DeviceDim, BrowserDim, OsDim, CampaignDim, ScreenDim, LanguageDim, ColorSchemeDim]

  /** The rebuild loop visits every dimension. */
  lemma EveryDimensionIsListed(d: Dimension)
    ensures d in DIMENSIONS
  {
    match d
    case PathDim => assert DIMENSIONS[0] == d;
    case ReferrerDim => assert DIMENSIONS[1] == d;
    case CountryDim => assert DIMENSIONS[2] == d;
    case DeviceDim => assert DIMENSIONS[3] == d;
    case BrowserDim => assert DIMENSIONS[4] == d;
    case OsDim => assert DIMENSIONS[5] == d;
    case CampaignDim => assert DIMENSIONS[6] == d;
    case ScreenDim => assert DIMENSIONS[7] == d;
    case LanguageDim => assert DIMENSIONS[8] == d;
    case ColorSchemeDim => assert DIMENSIONS[9] == d;
  }

  /** The raw column a dimension reads. */
  function RawColumn(d: Dimension, e: Event): Option<string> {
    match d
    case PathDim => Some(e.path)
    case ReferrerDim => e.referrerSource
    case CountryDim => Some(e.country)
    case DeviceDim => Some(e.deviceType)
    case BrowserDim => Some(e.browser)
    case OsDim => Some(e.os)
    case CampaignDim => e.utmCampaign
    case ScreenDim => e.screenBucket
    case LanguageDim => e.lang
    case ColorSchemeDim => e.colorScheme
  }

  /** The grouping key: a missing value counts as the empty string. */
  function Key(d: Dimension, e: Event): string {
    RawColumn(d, e).GetOr("")
  }
}
