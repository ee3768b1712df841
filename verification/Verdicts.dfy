/**
 From a verification request to a verdict: the engine's orchestration, which
 reports failures instead of guessing, and the aggregator's rules in priority
 order.
 */
module Verdicts {
  import opened Prelude
  import opened SmtpProbe
  import ResultCodec

  type Verdict = ResultCodec.Verdict

  // --------------------------------------------------------------- the engine

  /** The resolver's answer: no such name, a failure, or a domain with or without mail servers. */
  datatype MxLookup = NameNotFound | LookupFailed(cause: Cause) | Answered(hasMx: bool)

  datatype Cause = DeadlineExceeded | Cancelled | ProbeRefused(kind: Kind, code: string) | Message(text: string)

  /** Hosts of the domain as the probe resolves them, or why that failed. */
  datatype Route = Unresolved(cause: Cause) | Hosts(hosts: seq<Host>, ifUnreached: Cause)

  datatype Request = Request(smtp: bool, catchAll: bool)

  datatype Syntax = Syntax(valid: bool, hasUsername: bool)

  /** Everything the outside world answers for one address. */
  datatype Outside = Outside(
    syntax: Syntax, disposable: bool, roleAccount: bool, mx: MxLookup, smtpEnabled: bool, timeoutText: string, route: Route)

  datatype Smtp = Smtp(attempted: bool, mailboxAccepted: bool, catchAll: bool, fullInbox: bool, disabled: bool, error: string)

  datatype Response = Response(
    syntaxValid: bool, hasMx: Option<bool>, mxError: string, disposable: bool, roleAccount: bool, smtp: Option<Smtp>)

  /** describeLookupError: a category, never empty. */
  function Describe(cause: Cause, timeoutText: string): (s: string)
    ensures s != ""
  {
    match cause
    case DeadlineExceeded => "timeout: lookup exceeded the " + timeoutText + " verify deadline"
    case Cancelled => "cancelled: request aborted before the lookup finished"
    case ProbeRefused(kind, code) =>
      (match kind
       case Blocked => "probe blocked by the mail server"
       case Temporary => "mail server asked to try again later"
       case Other => "mail server gave an unexpected reply"
       case _ => "probe failed") + " at " + code
    case Message(text) => if Contains(LowerAll(text), "timeout") then "timeout: " + text else "lookup failed: " + text
  }

  const NOT_ATTEMPTED := Smtp(false, false, false, false, false, "")

  function CheckSmtp(route: Route, opts: Options): Probe {
    match route
    case Unresolved(_) => Failed(Unreached)
    case Hosts(hosts, _) => ProbeHosts(hosts, opts)
  }

  function ProbeCause(route: Route, failure: Failure): Cause {
    if failure.Refused? then ProbeRefused(failure.kind, "")
    else match route case Unresolved(cause) => cause case Hosts(_, cause) => cause
  }

  function ProbeSmtp(o: Outside, req: Request, hasMx: Option<bool>, mxError: string): Smtp {
    if !o.smtpEnabled then NOT_ATTEMPTED.(disabled := true)
    else if mxError != "" then NOT_ATTEMPTED.(error := "smtp probe skipped: mx lookup failed")
    else if hasMx == Some(false) then NOT_ATTEMPTED.(error := "smtp probe skipped: domain has no MX records")
    else
      match CheckSmtp(o.route, Options(req.catchAll, o.syntax.hasUsername))
      case Failed(failure) => NOT_ATTEMPTED.(attempted := true, error := Describe(ProbeCause(o.route, failure), o.timeoutText))
      case Found(m) => Smtp(true, m.deliverable, req.catchAll && m.catchAll, m.fullInbox, m.disabled, "")
  }

  /** runVerify */
  function Verify(o: Outside, req: Request): Response {
    if !o.syntax.valid then
      Response(false, Some(false), "", false, false, if req.smtp then Some(NOT_ATTEMPTED) else None)
    else
      var (hasMx, mxError) :=
        match o.mx
        case NameNotFound => (Some(false), "")
        case LookupFailed(cause) => (None, Describe(cause, o.timeoutText))
        case Answered(has) => (Some(has), "");
      Response(true, hasMx, mxError, o.disposable, o.roleAccount,
               if req.smtp then Some(ProbeSmtp(o, req, hasMx, mxError)) else None)
  }

  // ------------------------------------------------------------ the aggregator

  datatype Reason =
    | SyntaxInvalid | PossibleTypo | MxLookupUnavailable | DomainNoMx | SmtpDisabled | CircuitOpen
    | CatchAllDomain | SmtpUnavailable | SmtpNotChecked | MailboxRejected | MailboxFull | MailboxDisabled
    | DisposableDomain | RoleAccount

  datatype Decision = Decision(verdict: Verdict, score: nat, reason: Option<Reason>)

  /** Why the worker could not probe at all. */
  datatype Outage = ProbesOff | BreakerOpen

  datatype Signals = Signals(typo: bool, operational: Option<Outage>)

  function OutageReason(outage: Outage): Reason {
    match outage
    case ProbesOff => SmtpDisabled
    case BreakerOpen => CircuitOpen
  }

  predicate LookupUnavailable(e: Response) {
    e.mxError != "" || e.hasMx.None?
  }

  function DecideSmtp(s: Smtp): Option<Decision> {
    if s.catchAll then Some(Decision(ResultCodec.Unknown, 50, Some(CatchAllDomain)))
    else if s.error != "" then Some(Decision(ResultCodec.Unknown, 50, Some(SmtpUnavailable)))
    else if !s.attempted && s.disabled then Some(Decision(ResultCodec.Unknown, 50, Some(SmtpNotChecked)))
    else if !s.attempted then None
    else if !s.mailboxAccepted && !s.disabled then Some(Decision(ResultCodec.Invalid, 10, Some(MailboxRejected)))
    else if s.fullInbox then Some(Decision(ResultCodec.Risky, 45, Some(MailboxFull)))
    else if s.disabled then Some(Decision(ResultCodec.Invalid, 10, Some(MailboxDisabled)))
    else None
  }

  function DecideCautions(e: Response, g: Signals): Decision {
    if e.disposable then Decision(ResultCodec.Risky, 50, Some(DisposableDomain))
    else if e.roleAccount then Decision(ResultCodec.Risky, 60, Some(RoleAccount))
    else if g.typo then Decision(ResultCodec.Risky, 65, Some(PossibleTypo))
    else if e.smtp.None? then Decision(ResultCodec.Unknown, 50, Some(SmtpNotChecked))
    else Decision(ResultCodec.Valid, 95, None)
  }

  function Decide(e: Response, g: Signals): Decision {
    if !e.syntaxValid then Decision(ResultCodec.Invalid, 0, Some(SyntaxInvalid))
    else if g.typo && LookupUnavailable(e) then Decision(ResultCodec.Risky, 65, Some(PossibleTypo))
    else if LookupUnavailable(e) then Decision(ResultCodec.Unknown, 50, Some(MxLookupUnavailable))
    else if e.hasMx == Some(false) then Decision(ResultCodec.Invalid, 5, Some(DomainNoMx))
    else if g.operational.Some? then Decision(ResultCodec.Unknown, 50, Some(OutageReason(g.operational.value)))
    else if e.smtp.Some? && DecideSmtp(e.smtp.value).Some? then DecideSmtp(e.smtp.value).value
    else DecideCautions(e, g)
  }

  predicate ProbeSkipped(e: Response) {
    e.smtp.None? || (!e.smtp.value.attempted && e.smtp.value.disabled)
  }

  /** [code] when its signal is present and it did not already decide. */
  function Caution(code: Reason, applies: bool, d: Decision): seq<Reason> {
    if applies && d.reason != Some(code) then [code] else []
  }

  function SecondaryReasons(e: Response, g: Signals, d: Decision): seq<Reason> {
    if d.verdict != ResultCodec.Risky && d.verdict != ResultCodec.Unknown then []
    else
      Caution(MxLookupUnavailable, LookupUnavailable(e), d) + Caution(DisposableDomain, e.disposable, d)
      + Caution(RoleAccount, e.roleAccount, d) + Caution(PossibleTypo, g.typo, d)
      + Caution(SmtpNotChecked, ProbeSkipped(e), d)
  }

  function ReasonCodes(e: Response, g: Signals): seq<Reason> {
    var d := Decide(e, g);
    if d.reason.None? then [] else [d.reason.value] + SecondaryReasons(e, g, d)
  }

  // ------------------------------------------------------------ the composition

  function DecisionFor(o: Outside, req: Request, g: Signals): Decision {
    Decide(Verify(o, req), g)
  }

  function VerdictFor(o: Outside, req: Request, g: Signals): Verdict {
    DecisionFor(o, req, g).verdict
  }

  function OptionsFor(o: Outside, req: Request): Options {
    Options(req.catchAll, o.syntax.hasUsername)
  }

  // ---------------------------------------- what the outside world says, in its terms

  /** The domain has mail servers, as far as the resolver could tell. */
  ghost predicate Usable(o: Outside) {
    o.syntax.valid && o.mx == Answered(true)
  }

  ghost predicate NoMailServers(o: Outside) {
    o.mx == NameNotFound || o.mx == Answered(false)
  }

  /** A probe was asked for and possible. */
  ghost predicate Probing(o: Outside, req: Request, g: Signals) {
    Usable(o) && g.operational.None? && req.smtp
  }

  /** The conversation with host `k`, the first that answered, says something about the mailbox. */
  ghost predicate Heeded(o: Outside, req: Request, k: nat) {
    && o.route.Hosts? && FirstReached(o.route.hosts, k)
    && Conclusive(Heard(o.route.hosts[k]), OptionsFor(o, req))
  }

  ghost predicate RandomAccepted(o: Outside, req: Request, k: nat) {
    Heeded(o, req, k) && req.catchAll && ClassifyReply(Heard(o.route.hosts[k]).rcptRandom) == Accepted
  }

  /** The random recipient, if asked about, was refused, and the real one got a reply among `kinds`. */
  ghost predicate RealReply(o: Outside, req: Request, k: nat, kinds: set<Kind>) {
    && Heeded(o, req, k) && TellsMailboxesApart(Heard(o.route.hosts[k]), OptionsFor(o, req))
    && o.syntax.hasUsername && ClassifyReply(Heard(o.route.hosts[k]).rcptReal) in kinds
  }

  /** Reachable but with nobody to ask for: the probe stops before the real recipient. */
  ghost predicate NobodyAsked(o: Outside, req: Request, k: nat) {
    Heeded(o, req, k) && TellsMailboxesApart(Heard(o.route.hosts[k]), OptionsFor(o, req)) && !o.syntax.hasUsername
  }

  ghost predicate SomeoneHeeded(o: Outside, req: Request) {
    exists k: nat :: Heeded(o, req, k)
  }

  ghost predicate CatchesAll(o: Outside, req: Request) {
    exists k: nat :: RandomAccepted(o, req, k)
  }

  ghost predicate RealAccepted(o: Outside, req: Request) {
    exists k: nat :: RealReply(o, req, k, {Accepted})
  }

  /** Refused as unknown or full. */
  ghost predicate RealRefused(o: Outside, req: Request) {
    exists k: nat :: RealReply(o, req, k, {UnknownMailbox, Full})
  }

  ghost predicate RealDisabled(o: Outside, req: Request) {
    exists k: nat :: RealReply(o, req, k, {Disabled})
  }

  ghost predicate NobodyToAsk(o: Outside, req: Request) {
    exists k: nat :: NobodyAsked(o, req, k)
  }

  /** Nothing so far speaks against the address: the mailbox was accepted, or not asked about at all. */
  ghost predicate Clear(o: Outside, req: Request, g: Signals) {
    Usable(o) && g.operational.None? && (req.smtp ==> o.smtpEnabled && RealAccepted(o, req))
  }

  ghost predicate NoCaution(o: Outside, g: Signals) {
    !o.disposable && !o.roleAccount && !g.typo
  }

  // -------------------------------------------------------------- the SMTP result

  /** Only one host can be the first that answered. */
  lemma HeededOnce(o: Outside, req: Request, j: nat, k: nat)
    requires Heeded(o, req, j) && Heeded(o, req, k)
    ensures j == k
  {
    hide Reached, Conclusive;
  }

  /** What the engine reports of a probe that found something out. */
  lemma ProbeReported(o: Outside, req: Request, k: nat)
    requires Usable(o) && req.smtp && o.smtpEnabled && Heeded(o, req, k)
    ensures Verify(o, req).smtp == Some(Smtp(true, RealReply(o, req, k, {Accepted}), RandomAccepted(o, req, k),
                                             RealReply(o, req, k, {Full}), RealReply(o, req, k, {Disabled}), ""))
  {
    var hosts, opts := o.route.hosts, OptionsFor(o, req);
    WalkExactly(hosts, opts);
    hide ClassifyReply, ProbeHosts, Reached, Heard;
    assert ComesTo(Heard(hosts[k]), opts, ProbeHosts(hosts, opts));
  }

  lemma FoundIsHeeded(o: Outside, req: Request)
    ensures CheckSmtp(o.route, OptionsFor(o, req)).Found? <==> SomeoneHeeded(o, req)
  {
    hide ClassifyReply, ProbeHosts, Reached, Heard, ProbeHost;
    if o.route.Hosts? {
      var hosts, opts := o.route.hosts, OptionsFor(o, req);
      if CheckSmtp(o.route, opts).Found? {
        var k := SomeoneReached(hosts, opts);
        FirstReachedDecides(hosts, opts, k);
        HostComesTo(hosts[k], opts);
        assert Heeded(o, req, k);
      }
      forall k: nat | Heeded(o, req, k)
        ensures CheckSmtp(o.route, opts).Found?
      {
        FirstReachedDecides(hosts, opts, k);
        HostComesTo(hosts[k], opts);
      }
    }
  }

  /** A probe that found nothing out is reported with an error. */
  lemma SilenceReported(o: Outside, req: Request)
    requires Usable(o) && req.smtp && o.smtpEnabled && !SomeoneHeeded(o, req)
    ensures var s := Verify(o, req).smtp;
      s.Some? && s.value.error != "" && s.value == Smtp(true, false, false, false, false, s.value.error)
  {
    FoundIsHeeded(o, req);
    hide CheckSmtp, SomeoneHeeded;
  }

  // ---------------------------------------------------------------- the decision

  /** With a conversation heeded: which of its replies decide. */
  lemma HeededReplies(o: Outside, req: Request, k: nat)
    requires Heeded(o, req, k)
    ensures CatchesAll(o, req) == RandomAccepted(o, req, k) && NobodyToAsk(o, req) == NobodyAsked(o, req, k)
    ensures RealAccepted(o, req) == RealReply(o, req, k, {Accepted}) && RealRefused(o, req) == RealReply(o, req, k, {UnknownMailbox, Full})
    ensures RealDisabled(o, req) == RealReply(o, req, k, {Disabled})
    ensures RandomAccepted(o, req, k) || NobodyAsked(o, req, k) || RealReply(o, req, k, {Accepted, UnknownMailbox, Full, Disabled})
    ensures RandomAccepted(o, req, k) ==> !NobodyAsked(o, req, k) && forall kinds :: !RealReply(o, req, k, kinds)
    ensures NobodyAsked(o, req, k) ==> forall kinds :: !RealReply(o, req, k, kinds)
  {
    forall j: nat | Heeded(o, req, j) { HeededOnce(o, req, j, k); }
    hide ClassifyReply, Reached, Heard, FirstReached;
  }

  lemma NoneHeeded(o: Outside, req: Request)
    requires !SomeoneHeeded(o, req)
    ensures !CatchesAll(o, req) && !NobodyToAsk(o, req) && !RealAccepted(o, req) && !RealRefused(o, req) && !RealDisabled(o, req)
  {
    hide Conclusive, FirstReached, ClassifyReply, Heard;
  }

  /** Each leading reason, exactly: what the outside world must have said. */
  ghost predicate Leads(o: Outside, req: Request, g: Signals, lead: Option<Reason>) {
    match lead
    case Some(SyntaxInvalid) => !o.syntax.valid
    case Some(MxLookupUnavailable) => o.syntax.valid && o.mx.LookupFailed? && !g.typo
    case Some(DomainNoMx) => o.syntax.valid && NoMailServers(o)
    case Some(SmtpDisabled) => Usable(o) && g.operational == Some(ProbesOff)
    case Some(CircuitOpen) => Usable(o) && g.operational == Some(BreakerOpen)
    case Some(CatchAllDomain) => Probing(o, req, g) && o.smtpEnabled && CatchesAll(o, req)
    case Some(SmtpUnavailable) => Probing(o, req, g) && o.smtpEnabled && !SomeoneHeeded(o, req)
    case Some(MailboxRejected) =>
      Probing(o, req, g) && o.smtpEnabled && (RealRefused(o, req) || NobodyToAsk(o, req))
    case Some(MailboxFull) => false
    case Some(MailboxDisabled) => Probing(o, req, g) && o.smtpEnabled && RealDisabled(o, req)
    case Some(DisposableDomain) => Clear(o, req, g) && o.disposable
    case Some(RoleAccount) => Clear(o, req, g) && !o.disposable && o.roleAccount
    case Some(PossibleTypo) =>
      || (o.syntax.valid && o.mx.LookupFailed? && g.typo)
      || (Clear(o, req, g) && !o.disposable && !o.roleAccount && g.typo)
    case Some(SmtpNotChecked) =>
      (Probing(o, req, g) && !o.smtpEnabled) || (Clear(o, req, g) && NoCaution(o, g) && !req.smtp)
    case None => Clear(o, req, g) && NoCaution(o, g) && req.smtp
  }

  /** A conversation that was heeded says exactly one thing. */
  lemma OneThingSaid(o: Outside, req: Request)
    ensures SomeoneHeeded(o, req) ==>
      CatchesAll(o, req) || RealRefused(o, req) || NobodyToAsk(o, req)
      || RealDisabled(o, req) || RealAccepted(o, req)
    ensures !SomeoneHeeded(o, req) ==> !CatchesAll(o, req) && !NobodyToAsk(o, req) && !RealAccepted(o, req) && !RealRefused(o, req) && !RealDisabled(o, req)
    ensures CatchesAll(o, req) ==> !NobodyToAsk(o, req) && !RealAccepted(o, req) && !RealRefused(o, req) && !RealDisabled(o, req)
    ensures NobodyToAsk(o, req) ==> !RealAccepted(o, req) && !RealRefused(o, req) && !RealDisabled(o, req)
    ensures RealRefused(o, req) ==> !RealDisabled(o, req) && !RealAccepted(o, req)
    ensures RealDisabled(o, req) ==> !RealAccepted(o, req)
  {
    if k: nat :| Heeded(o, req, k) {
      HeededReplies(o, req, k);
      KindsSplit(o, req, k);
      assert SomeoneHeeded(o, req);
    } else {
      assert !SomeoneHeeded(o, req);
      NoneHeeded(o, req);
    }
    hide SomeoneHeeded, CatchesAll, RealAccepted, RealRefused, RealDisabled, NobodyToAsk, Heeded, RandomAccepted, RealReply, NobodyAsked;
  }

  /** No two reasons lead at once. */
  lemma LeadsOnce(o: Outside, req: Request, g: Signals, lead: Option<Reason>, other: Option<Reason>)
    requires Leads(o, req, g, lead) && Leads(o, req, g, other)
    ensures lead == other
  {
    OneThingSaid(o, req);
    hide SomeoneHeeded, CatchesAll, RealAccepted, RealRefused, RealDisabled, NobodyToAsk;
  }

  lemma BeforeTheProbe(o: Outside, req: Request, g: Signals)
    requires !Usable(o) || g.operational.Some? || !req.smtp || !o.smtpEnabled
    ensures Leads(o, req, g, DecisionFor(o, req, g).reason)
  {
    hide CatchesAll, SomeoneHeeded, RealAccepted, RealRefused, RealDisabled, NobodyToAsk, CheckSmtp;
  }

  /** What the SMTP part of the response makes of the one thing said. */
  lemma ProbeFields(o: Outside, req: Request)
    requires Usable(o) && req.smtp && o.smtpEnabled
    ensures var s := Verify(o, req).smtp;
      && s.Some? && s.value.attempted && s.value.catchAll == CatchesAll(o, req)
      && (s.value.error == "" <==> SomeoneHeeded(o, req))
      && s.value.mailboxAccepted == RealAccepted(o, req) && s.value.disabled == RealDisabled(o, req)
      && (s.value.fullInbox ==> RealRefused(o, req))
  {
    if k: nat :| Heeded(o, req, k) {
      ProbeReported(o, req, k);
      HeededReplies(o, req, k);
      KindsSplit(o, req, k);
      assert SomeoneHeeded(o, req);
    } else {
      assert !SomeoneHeeded(o, req);
      NoneHeeded(o, req);
      SilenceReported(o, req);
    }
    hide SomeoneHeeded, CatchesAll, RealAccepted, RealRefused, RealDisabled, Heeded, RandomAccepted, RealReply, Verify;
  }

  lemma AfterTheProbe(o: Outside, req: Request, g: Signals)
    requires Probing(o, req, g) && o.smtpEnabled
    ensures Leads(o, req, g, DecisionFor(o, req, g).reason)
  {
    hide CatchesAll, SomeoneHeeded, RealAccepted, RealRefused, RealDisabled, NobodyToAsk, Verify, DecideSmtp, DecideCautions;
    ProbeFields(o, req);
    OneThingSaid(o, req);
    UsableResponse(o, req);
    var e := Verify(o, req);
    SmtpDecides(e.smtp.value);
    CautionsDecide(e, g);
  }

  lemma UsableResponse(o: Outside, req: Request)
    requires Usable(o)
    ensures var e := Verify(o, req);
      && e.syntaxValid && !LookupUnavailable(e) && e.hasMx == Some(true)
      && e.disposable == o.disposable && e.roleAccount == o.roleAccount && (e.smtp.Some? <==> req.smtp)
  {
    hide CheckSmtp;
  }

  lemma SmtpDecides(s: Smtp)
    requires s.attempted && (s.fullInbox ==> !s.mailboxAccepted && !s.disabled)
    ensures var d := DecideSmtp(s);
      if s.catchAll then d.Some? && d.value.reason == Some(CatchAllDomain)
      else if s.error != "" then d.Some? && d.value.reason == Some(SmtpUnavailable)
      else if s.disabled then d.Some? && d.value.reason == Some(MailboxDisabled)
      else if s.mailboxAccepted then d.None?
      else d.Some? && d.value.reason == Some(MailboxRejected)
  {
  }

  lemma CautionsDecide(e: Response, g: Signals)
    ensures DecideCautions(e, g).reason ==
      if e.disposable then Some(DisposableDomain)
      else if e.roleAccount then Some(RoleAccount)
      else if g.typo then Some(PossibleTypo)
      else if e.smtp.None? then Some(SmtpNotChecked)
      else None
  {
  }

  lemma KindsSplit(o: Outside, req: Request, k: nat)
    ensures RealReply(o, req, k, {Accepted, UnknownMailbox, Full, Disabled}) <==>
      RealReply(o, req, k, {Accepted}) || RealReply(o, req, k, {UnknownMailbox, Full}) || RealReply(o, req, k, {Disabled})
    ensures !(RealReply(o, req, k, {Accepted}) && RealReply(o, req, k, {UnknownMailbox, Full}))
    ensures !(RealReply(o, req, k, {Accepted}) && RealReply(o, req, k, {Disabled}))
    ensures !(RealReply(o, req, k, {UnknownMailbox, Full}) && RealReply(o, req, k, {Disabled}))
    ensures RealReply(o, req, k, {Full}) ==> RealReply(o, req, k, {UnknownMailbox, Full})
    ensures RealReply(o, req, k, {UnknownMailbox, Full, Disabled}) <==>
      RealReply(o, req, k, {UnknownMailbox, Full}) || RealReply(o, req, k, {Disabled})
  {
    hide ClassifyReply, Heard, Heeded, TellsMailboxesApart;
  }

  /** Over every conversation and host list, each reason leads exactly when the outside world says so. */
  lemma ReasonExactly(o: Outside, req: Request, g: Signals)
    ensures forall lead :: DecisionFor(o, req, g).reason == lead <==> Leads(o, req, g, lead)
  {
    hide Leads, DecisionFor;
    if Probing(o, req, g) && o.smtpEnabled { AfterTheProbe(o, req, g); } else { BeforeTheProbe(o, req, g); }
    var lead := DecisionFor(o, req, g).reason;
    forall other | Leads(o, req, g, other) { LeadsOnce(o, req, g, lead, other); }
  }

  /** The verdict and the score each leading reason stands for. */
  lemma ReasonFixesVerdict(e: Response, g: Signals)
    ensures var d := Decide(e, g);
      (d.verdict, d.score) ==
        match d.reason
        case Some(SyntaxInvalid) => (ResultCodec.Invalid, 0)
        case Some(DomainNoMx) => (ResultCodec.Invalid, 5)
        case Some(MailboxRejected) => (ResultCodec.Invalid, 10)
        case Some(MailboxDisabled) => (ResultCodec.Invalid, 10)
        case Some(MailboxFull) => (ResultCodec.Risky, 45)
        case Some(DisposableDomain) => (ResultCodec.Risky, 50)
        case Some(RoleAccount) => (ResultCodec.Risky, 60)
        case Some(PossibleTypo) => (ResultCodec.Risky, 65)
        case Some(_) => (ResultCodec.Unknown, 50)
        case None => (ResultCodec.Valid, 95)
  {
  }

  /** What may follow the leading reason, in this order. */
  ghost predicate Follows(o: Outside, req: Request, g: Signals, code: Reason) {
    match code
    case MxLookupUnavailable => o.mx.LookupFailed?
    case DisposableDomain => o.disposable
    case RoleAccount => o.roleAccount
    case PossibleTypo => g.typo
    case SmtpNotChecked => !req.smtp || (!o.smtpEnabled && o.syntax.valid)
    case _ => false
  }

  ghost predicate InOrder(codes: seq<Reason>) {
    forall i, j :: 1 <= i < j < |codes| ==> Place(codes[i]) < Place(codes[j])
  }

  /** Where a secondary reason stands in the list. */
  function Place(code: Reason): nat {
    match code
    case MxLookupUnavailable => 0
    case DisposableDomain => 1
    case RoleAccount => 2
    case PossibleTypo => 3
    case SmtpNotChecked => 4
    case _ => 5
  }

  /**
   The reason codes of an address: the leading one, and after it, for risky and
   unknown only, every other secondary reason that applies, once and in order.
   */
  lemma CodesExactly(o: Outside, req: Request, g: Signals)
    ensures var codes, d := ReasonCodes(Verify(o, req), g), DecisionFor(o, req, g);
      && (codes == [] <==> d.verdict == ResultCodec.Valid)
      && (codes != [] ==> d.reason == Some(codes[0]))
      && (d.verdict == ResultCodec.Invalid ==> |codes| == 1)
      && (d.verdict == ResultCodec.Risky || d.verdict == ResultCodec.Unknown ==>
            forall code :: code in codes[1..] <==> Follows(o, req, g, code) && d.reason != Some(code))
      && InOrder(codes)
  {
    hide Decide;
    ReasonFixesVerdict(Verify(o, req), g);
    CodesFollow(Verify(o, req), g);
    var e, d := Verify(o, req), DecisionFor(o, req, g);
    if d.verdict == ResultCodec.Risky || d.verdict == ResultCodec.Unknown {
      BadSyntaxIsInvalid(o, req, g);
      SignalsOutside(o, req);
    }
    hide Verify;
  }

  lemma BadSyntaxIsInvalid(o: Outside, req: Request, g: Signals)
    ensures !o.syntax.valid ==> DecisionFor(o, req, g).verdict == ResultCodec.Invalid
  {
  }

  /** The same of an engine response. */
  lemma CodesFollow(e: Response, g: Signals)
    ensures var codes, d := ReasonCodes(e, g), Decide(e, g);
      && (codes == [] <==> d.reason.None?)
      && (codes != [] ==> d.reason == Some(codes[0]))
      && (d.verdict != ResultCodec.Risky && d.verdict != ResultCodec.Unknown ==> |codes| <= 1)
      && (d.reason.Some? && (d.verdict == ResultCodec.Risky || d.verdict == ResultCodec.Unknown) ==>
            forall code :: code in codes[1..] <==>
              && d.reason != Some(code)
              && match code
                 case MxLookupUnavailable => LookupUnavailable(e)
                 case DisposableDomain => e.disposable
                 case RoleAccount => e.roleAccount
                 case PossibleTypo => g.typo
                 case SmtpNotChecked => ProbeSkipped(e)
                 case _ => false)
      && InOrder(codes)
  {
    hide Decide, LookupUnavailable, ProbeSkipped, Placed, SecondaryReasons, InOrder;
    var d := Decide(e, g);
    NoCodesInOrder();
    if d.reason.Some? {
      var rest := SecondaryReasons(e, g, d);
      assert ReasonCodes(e, g)[1..] == rest;
      SecondaryPlaced(e, g, d);
      PlacedInOrder(ReasonCodes(e, g), 5);
      SecondaryMembers(e, g, d);
    }
  }

  lemma NoCodesInOrder()
    ensures InOrder([])
  {
  }

  lemma SecondaryMembers(e: Response, g: Signals, d: Decision)
    ensures var rest := SecondaryReasons(e, g, d);
      if d.verdict != ResultCodec.Risky && d.verdict != ResultCodec.Unknown then rest == []
      else
        forall code :: code in rest <==>
          && d.reason != Some(code)
          && match code
             case MxLookupUnavailable => LookupUnavailable(e)
             case DisposableDomain => e.disposable
             case RoleAccount => e.roleAccount
             case PossibleTypo => g.typo
             case SmtpNotChecked => ProbeSkipped(e)
             case _ => false
  {
    hide LookupUnavailable, ProbeSkipped;
  }

  /** In order, and all placed between `from` and `to`. */
  ghost predicate Placed(codes: seq<Reason>, from: nat, to: nat) {
    && (forall i, j :: 0 <= i < j < |codes| ==> Place(codes[i]) < Place(codes[j]))
    && (forall i :: 0 <= i < |codes| ==> from <= Place(codes[i]) < to)
  }

  lemma PlacedInOrder(codes: seq<Reason>, to: nat)
    requires codes != [] && Placed(codes[1..], 0, to)
    ensures InOrder(codes)
  {
    hide Place;
    assert forall i :: 1 <= i < |codes| ==> codes[i] == codes[1..][i - 1];
  }

  lemma PlacedConcat(xs: seq<Reason>, ys: seq<Reason>, a: nat, b: nat, c: nat)
    requires Placed(xs, a, b) && Placed(ys, b, c) && a <= b <= c
    ensures Placed(xs + ys, a, c)
  {
    hide Place;
  }

  lemma SecondaryPlaced(e: Response, g: Signals, d: Decision)
    ensures Placed(SecondaryReasons(e, g, d), 0, 5)
  {
    hide LookupUnavailable, ProbeSkipped, Placed, Caution;
    var c0, c1 := Caution(MxLookupUnavailable, LookupUnavailable(e), d), Caution(DisposableDomain, e.disposable, d);
    var c2, c3 := Caution(RoleAccount, e.roleAccount, d), Caution(PossibleTypo, g.typo, d);
    var c4 := Caution(SmtpNotChecked, ProbeSkipped(e), d);
    CautionPlaced(MxLookupUnavailable, LookupUnavailable(e), d);
    CautionPlaced(DisposableDomain, e.disposable, d);
    CautionPlaced(RoleAccount, e.roleAccount, d);
    CautionPlaced(PossibleTypo, g.typo, d);
    CautionPlaced(SmtpNotChecked, ProbeSkipped(e), d);
    PlacedConcat(c0, c1, 0, 1, 2);
    PlacedConcat(c0 + c1, c2, 0, 2, 3);
    PlacedConcat(c0 + c1 + c2, c3, 0, 3, 4);
    PlacedConcat(c0 + c1 + c2 + c3, c4, 0, 4, 5);
    NothingPlaced();
  }

  lemma CautionPlaced(code: Reason, applies: bool, d: Decision)
    ensures Placed(Caution(code, applies, d), Place(code), Place(code) + 1)
  {
    hide Place;
  }

  lemma NothingPlaced()
    ensures Placed([], 0, 5)
  {
  }

  /** The signals of a response, traced to the outside. */
  lemma SignalsOutside(o: Outside, req: Request)
    requires o.syntax.valid
    ensures var e := Verify(o, req);
      && (LookupUnavailable(e) <==> o.mx.LookupFailed?)
      && e.disposable == o.disposable && e.roleAccount == o.roleAccount
      && (ProbeSkipped(e) <==> !req.smtp || !o.smtpEnabled)
  {
    hide CheckSmtp;
  }

  /**
   The verdict is `valid` exactly when the first mail host that answered refused
   the random recipient, if asked, and accepted the real one, and no caution
   applies. It is `invalid` exactly for bad syntax, an authoritative absence of
   mail servers, or a refusal of the real recipient as unknown, full or disabled
   (or, for an address without a local part, without asking).
   */
  lemma VerdictsAreEarned(o: Outside, req: Request, g: Signals)
    ensures VerdictFor(o, req, g) == ResultCodec.Valid <==>
      Probing(o, req, g) && o.smtpEnabled && RealAccepted(o, req) && NoCaution(o, g)
    ensures VerdictFor(o, req, g) == ResultCodec.Invalid <==>
      || !o.syntax.valid || NoMailServers(o)
      || (Probing(o, req, g) && o.smtpEnabled && (RealRefused(o, req) || RealDisabled(o, req) || NobodyToAsk(o, req)))
  {
    ReasonExactly(o, req, g);
    ReasonFixesVerdict(Verify(o, req), g);
    hide CatchesAll, SomeoneHeeded, RealAccepted, RealRefused, RealDisabled, NobodyToAsk, Decide, Verify;
    var lead := DecisionFor(o, req, g).reason;
    assert Leads(o, req, g, lead);
    hide DecisionFor;
    assert Leads(o, req, g, Some(SyntaxInvalid)) ==> lead == Some(SyntaxInvalid);
    assert Leads(o, req, g, Some(DomainNoMx)) ==> lead == Some(DomainNoMx);
    assert Leads(o, req, g, Some(MailboxRejected)) ==> lead == Some(MailboxRejected);
    assert Leads(o, req, g, Some(MailboxDisabled)) ==> lead == Some(MailboxDisabled);
    assert Leads(o, req, g, None) ==> lead == None;
  }

  /** Hosts after the first that answers make no difference to the decision. */
  lemma LaterHostsDecideNothing(o: Outside, req: Request, g: Signals, k: nat, others: seq<Host>)
    requires o.route.Hosts? && FirstReached(o.route.hosts, k)
    ensures var o' := o.(route := o.route.(hosts := o.route.hosts[..k + 1] + others));
      DecisionFor(o', req, g) == DecisionFor(o, req, g)
  {
    hide FirstReached, ProbeHosts;
    LaterHostsUnasked(o.route.hosts, k, others, OptionsFor(o, req));
  }
}
