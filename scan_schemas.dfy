/**
 * Request bodies for scans (backend/app/schemas/scan.py): the create request with
 * its URL check and defaults, and the partial update with its progress bound.
 */
module ScanSchemas {
  import opened Wrappers
  import opened Text
  import opened ScanModel

  /** A URL the create request accepts: it starts with an http or https scheme. */
  predicate HasWebScheme(url: string) {
    StartsWith(url, "http://") || StartsWith(url, "https://")
  }

  /** The `target_url` validator: returns the URL string unchanged or raises. */
  function ValidateUrl(v: string): (r: Result<string>)
    ensures r.Ok? <==> HasWebScheme(v)
    ensures r.Ok? ==> r.value == v
    ensures r.Err? ==> r.message == "URL must start with http:// or https://"
  {
    if !HasWebScheme(v) then Err("URL must start with http:// or https://") else Ok(v)
  }

  /** The create request. `scanType` is the kind's wire value, read by the create operation. */
  datatype ScanCreate = ScanCreate(targetUrl: string, scanType: string, scanConfig: Option<ScanConfig>)

  /**
   * The `HttpUrl` field type, as a parameter: it parses and normalises the submitted
   * URL, or refuses it. The validator then sees the parsed URL's text.
   */
  type UrlParser = string -> Option<string>

  /** The message of a URL the field type refuses. */
  const InvalidUrl := "Input should be a valid URL"

  /** The message of a kind the `ScanType` field type refuses. */
  const InvalidKind := "Input should be 'basic' or 'full'"

  /** A kind the `ScanType` field accepts: absent (the default applies) or one of the enum's values. */
  predicate KindAccepted(scanType: Option<string>) {
    scanType.Some? ==> ParseScanType(scanType.value).Some?
  }

  /**
   * Builds a create request from the fields a client sent, in field order: the URL is
   * parsed by the field type, then checked by the validator; then the kind must be one
   * of the `ScanType` values. The kind and config take their defaults when absent.
   */
  function MakeScanCreate(targetUrl: string, parse: UrlParser, scanType: Option<string>, scanConfig: Option<ScanConfig>): (r: Result<ScanCreate>)
    ensures parse(targetUrl).None? ==> r == Err(InvalidUrl)
    ensures r.Ok? <==> parse(targetUrl).Some? && HasWebScheme(parse(targetUrl).value) && KindAccepted(scanType)
    ensures parse(targetUrl).Some? && HasWebScheme(parse(targetUrl).value) && !KindAccepted(scanType) ==> r == Err(InvalidKind)
    ensures r.Ok? ==> r.value.targetUrl == parse(targetUrl).value && r.value.scanConfig == scanConfig
    ensures r.Ok? ==> ParseScanType(r.value.scanType).Some?
    ensures r.Ok? && scanType.None? ==> ParseScanType(r.value.scanType) == Some(Basic)
    ensures r.Ok? && scanType.Some? ==> r.value.scanType == scanType.value
  {
    match parse(targetUrl)
    case None => Err(InvalidUrl)
    case Some(parsed) =>
      match ValidateUrl(parsed)
      case Err(m) => Err(m)
      case Ok(url) =>
        if !KindAccepted(scanType) then Err(InvalidKind)
        else Ok(ScanCreate(url, scanType.GetOr(TypeValue(Basic)), scanConfig))
  }

  /**
   * When the field type only ever yields http or https URLs, the validator refuses
   * nothing more: a request exists exactly when the URL parses and the kind is accepted.
   */
  lemma ParsedUrlPassesValidator(targetUrl: string, parse: UrlParser, scanType: Option<string>, scanConfig: Option<ScanConfig>)
    requires parse(targetUrl).Some? ==> HasWebScheme(parse(targetUrl).value)
    ensures MakeScanCreate(targetUrl, parse, scanType, scanConfig).Ok? <==> parse(targetUrl).Some? && KindAccepted(scanType)
  {
  }

  /** The partial update: every field optional, `None` meaning "leave as is". */
  datatype ScanUpdate = ScanUpdate(
    status: Option<ScanStatus>,
    progress: Option<int>,
    currentStep: Option<string>,
    errorMessage: Option<string>
  )

  /** The field bound of the update schema: a progress, when present, lies in 0..100. */
  predicate ValidUpdate(u: ScanUpdate) {
    u.progress.Some? ==> 0 <= u.progress.value <= 100
  }

  /** Builds an update from the fields a client sent, refusing a progress outside 0..100. */
  function MakeScanUpdate(status: Option<ScanStatus>, progress: Option<int>, currentStep: Option<string>, errorMessage: Option<string>): (r: Result<ScanUpdate>)
    ensures r.Ok? <==> (progress.Some? ==> 0 <= progress.value <= 100)
    ensures r.Ok? ==> ValidUpdate(r.value) && r.value.progress == progress && r.value.status == status
    ensures r.Ok? ==> r.value.currentStep == currentStep && r.value.errorMessage == errorMessage
  {
    if progress.Some? && !(0 <= progress.value <= 100) then Err("progress_percentage must lie in 0..100")
    else Ok(ScanUpdate(status, progress, currentStep, errorMessage))
  }

  /** An update with no field given: every field defaults to `None`. */
  function EmptyUpdate(): (u: ScanUpdate)
    ensures u.status.None? && u.progress.None? && u.currentStep.None? && u.errorMessage.None?
    ensures ValidUpdate(u)
  {
    ScanUpdate(None, None, None, None)
  }
}
