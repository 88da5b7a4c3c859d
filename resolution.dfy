/** Platform selection for a redirect, from the user-agent flags of the request. */
module Resolution {
  import opened Links

  /**
   * The flags the user-agent parser sets on a request; a request without a parsed
   * user agent has every flag false.
   */
  datatype Agent = Agent(isAndroid: bool, isiPhone: bool, isiPad: bool, isMac: bool)

  /** iPhone, iPad and Mac clients all belong to the iOS family. */
  predicate IsApple(a: Agent) {
    a.isiPhone || a.isiPad || a.isMac
  }

  /** The platform whose target a visitor is sent to; Android is tested first. */
  function Classify(a: Agent): (p: Platform)
    ensures p == Android <==> a.isAndroid
    ensures p == Ios <==> !a.isAndroid && IsApple(a)
    ensures p == Default <==> !a.isAndroid && !IsApple(a)
  {
    if a.isAndroid then Android
    else if IsApple(a) then Ios
    else Default
  }
}
