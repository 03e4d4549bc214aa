/** The Motorola MB7621 parser's declarations and model detection. */
module Mb7621 {
  import opened Wrappers
  import opened Text
  import opened BaseParser

  const Descriptor: ParserDescriptor := ParserDescriptor(
    "Motorola MB7621",
    "Motorola",
    ["MB7621"],
    100,
    true,
    Some("kwschulz (maintainer's personal modem)"),
    [UrlPattern("/MotoSwInfo.asp", "form", false),
     UrlPattern("/MotoConnection.asp", "form", true),
     UrlPattern("/MotoHome.asp", "form", true)],
    Defaults.authType,
    Defaults.authConfig,
    {DownstreamChannels, UpstreamChannels, SystemUptime, SoftwareVersion, Restart})

  /** `can_parse(soup, url, html)`. */
  predicate CanParse(html: string) {
    Contains(html, "MB7621") || Contains(html, "MB 7621") || Contains(html, "2480-MB7621")
  }

  /** The "2480-MB7621" test adds nothing: the page is recognised exactly when it names "MB7621" or "MB 7621". */
  lemma CanParseIff(html: string)
    ensures CanParse(html) <==> Contains(html, "MB7621") || Contains(html, "MB 7621")
  {
    if Contains(html, "2480-MB7621") {
      assert "2480-MB7621"[5..][..6] == "MB7621";
      ContainsAt("2480-MB7621", "MB7621", 5);
      ContainsTrans(html, "2480-MB7621", "MB7621");
    }
  }

  /** The software-information page, which names the model, is tried first and without logging in; the other two need a login. */
  lemma UrlPatternsOrder()
    ensures |Descriptor.urlPatterns| == 3
    ensures Descriptor.urlPatterns[0].path == "/MotoSwInfo.asp" && !Descriptor.urlPatterns[0].authRequired
    ensures forall i :: 1 <= i < 3 ==> Descriptor.urlPatterns[i].authRequired
    ensures forall i :: 0 <= i < 3 ==> Descriptor.urlPatterns[i].authMethod == "form"
  {
  }

  /** A model-specific parser: tried before the Motorola generic one, and able to restart the modem. */
  lemma DeclaredCapabilities()
    ensures Descriptor.priority > Defaults.priority
    ensures HasCapability(Descriptor, Restart) && HasCapability(Descriptor, SoftwareVersion)
    ensures !HasCapability(Descriptor, OfdmDownstream) && !HasCapability(Descriptor, OfdmUpstream)
    ensures |Descriptor.capabilities| == 5
  {
  }
}
