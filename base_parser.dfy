/**
 * What every modem parser declares: the capability tags, the static
 * descriptor (name, manufacturer, models, priority, provenance, URL patterns,
 * authentication configuration, capabilities) with the base-class defaults,
 * and the shape of the dictionary `parse` returns.
 */
module BaseParser {
  import opened Wrappers
  import opened PyJson

  /** `ModemCapability`: a string-valued enumeration. */
  datatype ModemCapability =
    | SystemUptime | LastBootTime | CurrentTime | HardwareVersion | SoftwareVersion
    | DownstreamChannels | UpstreamChannels | OfdmDownstream | OfdmUpstream
    | Restart
  {
    /** The string each member stands for. */
    function Value(): string {
      match this
      case SystemUptime => "system_uptime"
      case LastBootTime => "last_boot_time"
      case CurrentTime => "current_time"
      case HardwareVersion => "hardware_version"
      case SoftwareVersion => "software_version"
      case DownstreamChannels => "downstream_channels"
      case UpstreamChannels => "upstream_channels"
      case OfdmDownstream => "ofdm_downstream"
      case OfdmUpstream => "ofdm_upstream"
      case Restart => "restart"
    }
  }

  /** The members in declaration order. */
  const AllCapabilities: seq<ModemCapability> :=
    [SystemUptime, LastBootTime, CurrentTime, HardwareVersion, SoftwareVersion,
     DownstreamChannels, UpstreamChannels, OfdmDownstream, OfdmUpstream, Restart]

  /** `ModemCapability(value)`: the member with that string, None where Python raises ValueError. */
  function CapabilityOf(value: string): (c: Option<ModemCapability>)
    ensures c.Some? ==> c.value.Value() == value
  {
    if value == "system_uptime" then Some(SystemUptime)
    else if value == "last_boot_time" then Some(LastBootTime)
    else if value == "current_time" then Some(CurrentTime)
    else if value == "hardware_version" then Some(HardwareVersion)
    else if value == "software_version" then Some(SoftwareVersion)
    else if value == "downstream_channels" then Some(DownstreamChannels)
    else if value == "upstream_channels" then Some(UpstreamChannels)
    else if value == "ofdm_downstream" then Some(OfdmDownstream)
    else if value == "ofdm_upstream" then Some(OfdmUpstream)
    else if value == "restart" then Some(Restart)
    else None
  }

  /** The enumeration lists every tag once, and each tag's string leads back to it. */
  lemma CapabilitiesEnumerated()
    ensures |AllCapabilities| == 10
    ensures forall c: ModemCapability :: c in AllCapabilities && CapabilityOf(c.Value()) == Some(c)
    ensures forall i, j :: 0 <= i < j < |AllCapabilities| ==> AllCapabilities[i].Value() != AllCapabilities[j].Value()
  {
    forall c: ModemCapability ensures c in AllCapabilities && CapabilityOf(c.Value()) == Some(c) {
      match c
      case SystemUptime => assert AllCapabilities[0] == c;
      case LastBootTime => assert AllCapabilities[1] == c;
      case CurrentTime => assert AllCapabilities[2] == c;
      case HardwareVersion => assert AllCapabilities[3] == c;
      case SoftwareVersion => assert AllCapabilities[4] == c;
      case DownstreamChannels => assert AllCapabilities[5] == c;
      case UpstreamChannels => assert AllCapabilities[6] == c;
      case OfdmDownstream => assert AllCapabilities[7] == c;
      case OfdmUpstream => assert AllCapabilities[8] == c;
      case Restart => assert AllCapabilities[9] == c;
    }
  }

  /** One entry of `url_patterns`: the page to fetch, how to authenticate, whether that is needed. */
  datatype UrlPattern = UrlPattern(path: string, authMethod: string, authRequired: bool)

  datatype AuthStrategy = HnapSession

  /** An HNAP `auth_config`: login page, HNAP endpoint, session-timeout marker, SOAPAction namespace. */
  datatype AuthConfig = HnapAuthConfig(strategy: AuthStrategy, loginUrl: string, hnapEndpoint: string,
                                       sessionTimeoutIndicator: string, soapActionNamespace: string)

  /** The class attributes of a parser. */
  datatype ParserDescriptor = ParserDescriptor(
    name: string,
    manufacturer: string,
    models: seq<string>,
    priority: int,
    verified: bool,
    verificationSource: Option<string>,
    urlPatterns: seq<UrlPattern>,
    authType: string,
    authConfig: Option<AuthConfig>,
    capabilities: set<ModemCapability>)

  /** The attributes of `ModemParser` itself, which a parser inherits unless it overrides them. */
  const Defaults: ParserDescriptor :=
    ParserDescriptor("Unknown", "Unknown", [], 50, false, None, [], "form", None, {})

  /** `has_capability(capability)`. */
  predicate HasCapability(d: ParserDescriptor, c: ModemCapability) {
    c in d.capabilities
  }

  /** A parser that declares nothing has no capability and sorts as an "Unknown" manufacturer with the fallback priority. */
  lemma DefaultsDeclareNothing()
    ensures forall c :: !HasCapability(Defaults, c)
    ensures Defaults.manufacturer == "Unknown" && Defaults.priority == 50 && !Defaults.verified
  {
  }

  /** `_diagnostic_context` of a parse that failed on authentication. */
  datatype DiagnosticContext = DiagnosticContext(parser: string, error: string, errorType: string)

  /**
   * The dictionary `parse` returns: downstream and upstream channel lists, the
   * system-info dictionary and, after an authentication failure, the
   * `_auth_failure`, `_login_page_detected` and `_diagnostic_context` entries.
   */
  datatype ParseResult<Down, Up> = ParseResult(
    downstream: seq<Down>,
    upstream: seq<Up>,
    systemInfo: seq<(string, Json)>,
    authFailure: Option<DiagnosticContext>)
  {
    function Keys(): (ks: seq<string>)
      ensures |ks| == if authFailure.Some? then 6 else 3
      ensures ks[..3] == ["downstream", "upstream", "system_info"]
    {
      ["downstream", "upstream", "system_info"]
        + (if authFailure.Some? then ["_auth_failure", "_login_page_detected", "_diagnostic_context"] else [])
    }
  }
}
