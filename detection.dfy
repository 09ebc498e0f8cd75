/** The response classifier of backend/scraper.py (`detect_blocking`): an
    ordered list of first-match-wins rules over the lower-cased page text,
    ending with a structural rule about missing result nodes. */
module Detection {
  import opened Wrappers
  import opened Text

  /** Every reason a fetch attempt reports in its `blocked_reason`. The first
      seven come from the classifier; the fetch itself adds the last two. */
  datatype BlockReason =
    | EmptyHtml
    | UnusualTrafficMessage
    | Recaptcha
    | CloudflareJsChallenge
    | SorryUnusual
    | RobotChallenge
    | NoResultNodes
    | NoResults
    | Exception
  {
    /** The string the source stores under `blocked_reason`. */
    function Name(): string {
      match this
      case EmptyHtml => "empty_html"
      case UnusualTrafficMessage => "unusual_traffic_message"
      case Recaptcha => "recaptcha"
      case CloudflareJsChallenge => "cloudflare_js_challenge"
      case SorryUnusual => "sorry_unusual"
      case RobotChallenge => "robot_challenge"
      case NoResultNodes => "no_result_nodes"
      case NoResults => "no_results"
      case Exception => "exception"
    }

    /** The reasons `detect_blocking` itself can produce. */
    predicate FromClassifier() {
      !NoResults? && !Exception?
    }
  }

  /** The stored `blocked_reason` strings tell the reasons apart. */
  lemma ReasonNamesDistinct(a: BlockReason, b: BlockReason)
    ensures a.Name() == b.Name() <==> a == b
  {
  }

  const SystemsDetected: string := "our systems have detected unusual traffic"

  /** Rule 1: unusual-traffic phrasing. */
  predicate UnusualTrafficRule(lower: string) {
    Contains(lower, "unusual traffic") || Contains(lower, SystemsDetected)
  }

  /** Rule 2: reCAPTCHA markers. */
  predicate RecaptchaRule(lower: string) {
    Contains(lower, "recaptcha") || Contains(lower, "g-recaptcha")
  }

  /** Rule 3: a Cloudflare JavaScript challenge. */
  predicate CloudflareRule(lower: string) {
    Contains(lower, "please enable javascript") && Contains(lower, "cloudflare")
  }

  /** Rule 4: Google's "sorry" interstitial. */
  predicate SorryRule(lower: string) {
    Contains(lower, "sorry") && Contains(lower, SystemsDetected)
  }

  /** Rule 5: generic robot-check phrasing. */
  predicate RobotRule(lower: string) {
    Contains(lower, "are you a robot") || Contains(lower, "press and hold")
  }

  /** Some adversarial-signal rule (1 to 5) fires on the lower-cased text. */
  predicate AnyMarker(lower: string) {
    UnusualTrafficRule(lower) || RecaptchaRule(lower) || CloudflareRule(lower)
    || SorryRule(lower) || RobotRule(lower)
  }

  /** `detect_blocking(html)`. The parse-dependent last rule (no `h3`, no
      `.VwiC3b`, no `div.g`) is the input `hasResultNodes`. The result is the
      pair `(is_blocked, reason)`. */
  function DetectBlocking(html: string, hasResultNodes: bool): (r: (bool, Option<BlockReason>))
    ensures r.0 <==> r.1.Some?
    ensures r.1.Some? ==> r.1.value.FromClassifier()
  {
    if html == [] then (true, Some(EmptyHtml))
    else
      var lower := Lower(html);
      if UnusualTrafficRule(lower) then (true, Some(UnusualTrafficMessage))
      else if RecaptchaRule(lower) then (true, Some(Recaptcha))
      else if CloudflareRule(lower) then (true, Some(CloudflareJsChallenge))
      else if SorryRule(lower) then (true, Some(SorryUnusual))
      else if RobotRule(lower) then (true, Some(RobotChallenge))
      else if !hasResultNodes then (true, Some(NoResultNodes))
      else (false, None)
  }

  /** How many rules the classifier tests. */
  const RuleCount: nat := 7

  /** The classifier's rules as a list, in the order the source tests them,
      numbered from 0 (rule 0 is the empty-content test, rule 6 the
      structural one): rule `k` fires on `html` (with the given parse result, see `RuleFires`)
      and reports `RuleReason(k)`. */
  function RuleReason(k: nat): BlockReason
    requires k < RuleCount
  {
    [EmptyHtml, UnusualTrafficMessage, Recaptcha, CloudflareJsChallenge,
     SorryUnusual, RobotChallenge, NoResultNodes][k]
  }

  predicate RuleFires(k: nat, html: string, hasResultNodes: bool)
    requires k < RuleCount
  {
    if k == 0 then html == []
    else if html == [] then false
    else if k == 1 then UnusualTrafficRule(Lower(html))
    else if k == 2 then RecaptchaRule(Lower(html))
    else if k == 3 then CloudflareRule(Lower(html))
    else if k == 4 then SorryRule(Lower(html))
    else if k == 5 then RobotRule(Lower(html))
    else !hasResultNodes
  }

  /** The first rule, from rule `from` on, that fires: the reference reading
      of "an ordered list of rules, first match wins". */
  function FirstFiring(html: string, hasResultNodes: bool, from: nat): (r: Option<nat>)
    requires from <= RuleCount
    ensures r.Some? ==> from <= r.value < RuleCount && RuleFires(r.value, html, hasResultNodes)
    ensures r.Some? ==> forall j :: from <= j < r.value ==> !RuleFires(j, html, hasResultNodes)
    ensures r.None? ==> forall j :: from <= j < RuleCount ==> !RuleFires(j, html, hasResultNodes)
    decreases RuleCount - from
  {
    if from == RuleCount then None
    else if RuleFires(from, html, hasResultNodes) then Some(from)
    else FirstFiring(html, hasResultNodes, from + 1)
  }

  /** First match wins: `detect_blocking` reports the reason of the first rule
      that fires, and reports a clean page exactly when no rule fires. */
  lemma FirstMatchWins(html: string, hasResultNodes: bool)
    ensures DetectBlocking(html, hasResultNodes)
         == match FirstFiring(html, hasResultNodes, 0)
            case Some(k) => (true, Some(RuleReason(k)))
            case None => (false, None)
  {
    var h := hasResultNodes;
    if html != [] {
      assert !RuleFires(0, html, h);
      assert FirstFiring(html, h, 0) == FirstFiring(html, h, 1);
    }
  }

  /** Empty content is always `(True, "empty_html")`, whatever the parse says. */
  lemma EmptyIsBlocked(hasResultNodes: bool)
    ensures DetectBlocking("", hasResultNodes) == (true, Some(EmptyHtml))
  {
  }

  /** The adversarial-signal rules are checked before the structural one: when
      any of them fires the verdict does not depend on the result nodes, and
      the reason is never `no_result_nodes`. */
  lemma MarkersOutrankStructure(html: string)
    requires html != [] && AnyMarker(Lower(html))
    ensures DetectBlocking(html, true) == DetectBlocking(html, false)
    ensures DetectBlocking(html, false).0
    ensures DetectBlocking(html, false).1 != Some(NoResultNodes)
  {
  }

  /** The phrase of the `sorry` rule contains the phrase of the unusual-traffic rule. */
  lemma SystemsDetectedMentionsUnusualTraffic()
    ensures Contains(SystemsDetected, "unusual traffic")
  {
    assert SystemsDetected[26..26 + |"unusual traffic"|] == "unusual traffic";
    assert OccursAt(SystemsDetected, "unusual traffic", 26);
  }

  /** The `sorry_unusual` rule is dead: any text it matches contains
      "unusual traffic" and was already reported by the unusual-traffic rule. */
  lemma SorryUnusualUnreachable(html: string, hasResultNodes: bool)
    ensures DetectBlocking(html, hasResultNodes).1 != Some(SorryUnusual)
  {
    if html != [] {
      var lower := Lower(html);
      if SorryRule(lower) {
        SystemsDetectedMentionsUnusualTraffic();
        ContainsTransitive(lower, SystemsDetected, "unusual traffic");
      }
    }
  }

  /** A page with a reCAPTCHA marker and no unusual-traffic phrasing is
      reported as `recaptcha`, even when it also lacks result containers. */
  lemma RecaptchaBeatsMissingResults(html: string)
    requires html != [] && Contains(Lower(html), "recaptcha")
    requires !UnusualTrafficRule(Lower(html))
    ensures DetectBlocking(html, false) == (true, Some(Recaptcha))
  {
  }
}
