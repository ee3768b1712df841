/**
 The engine's SMTP mailbox probe: reply classification (reply codes as in
 section 4.2 of RFC 5321, enhanced codes as in RFC 3463), one conversation, and
 the walk over a domain's mail hosts. What servers say is input.
 */
module SmtpProbe {
  /** The error of one SMTP command: none, a server reply, or anything else. */
  datatype Err = NoError | Protocol(code: int, msg: string) | Transport(text: string)

  datatype Kind = Accepted | UnknownMailbox | Full | Disabled | Blocked | Temporary | Other

  // ------------------------------------------------------------- reply texts

  predicate Digit(c: char) {
    '0' <= c <= '9'
  }

  function SkipSpace(s: string): string {
    if s != [] && s[0] in {' ', '\t', '\n', '\r', '\U{0C}'} then SkipSpace(s[1..]) else s
  }

  /** How many characters of `s` are leading digits. */
  function DigitRun(s: string): (n: nat)
    ensures n <= |s|
  {
    if s != [] && Digit(s[0]) then 1 + DigitRun(s[1..]) else 0
  }

  /** The leading d.d+.d+ of a message, or the empty string. */
  function EnhancedCode(msg: string): string {
    var s := SkipSpace(msg);
    if |s| < 2 || !Digit(s[0]) || s[1] != '.' then ""
    else
      var subject := DigitRun(s[2..]);
      if subject == 0 || 2 + subject >= |s| || s[2 + subject] != '.' then ""
      else
        var detail := DigitRun(s[3 + subject..]);
        if detail == 0 then "" else s[..3 + subject + detail]
  }

  /** strings.ToLower as far as ASCII goes: no other character becomes an ASCII one. */
  function Lower(c: char): char {
    if 'A' <= c <= 'Z' then (c as int - 'A' as int + 'a' as int) as char
    else if c == '\U{0130}' then 'i'
    else if c == '\U{212A}' then 'k'
    else c
  }

  function LowerAll(s: string): string {
    seq(|s|, i requires 0 <= i < |s| => Lower(s[i]))
  }

  predicate Contains(s: string, word: string) {
    word <= s || (s != [] && Contains(s[1..], word))
  }

  predicate ContainsAny(s: string, words: seq<string>) {
    exists i :: 0 <= i < |words| && Contains(s, words[i])
  }

  const BLOCKED_WORDS := ["blocked", "blacklist", "block list", "spamhaus", "denied", "policy", "spam", "reputation", "not permitted", "banned"]
  const FULL_WORDS := ["full", "quota", "over limit", "storage"]
  const DISABLED_WORDS := ["disabled", "suspended", "inactive", "deactivated", "locked"]
  const UNKNOWN_WORDS := ["does not exist", "no such user", "unknown user", "user unknown", "no such recipient",
    "recipient rejected", "not found", "invalid recipient", "unknown recipient", "no mailbox", "bad destination"]

  function ClassifyReply(err: Err): Kind {
    match err
    case NoError => Accepted
    case Transport(_) => Other
    case Protocol(code, text) =>
      var msg, enhanced := LowerAll(text), EnhancedCode(text);
      if 200 <= code < 300 then Accepted
      else if 400 <= code < 500 then
        if "4.2.2" <= enhanced || ContainsAny(msg, FULL_WORDS) then Full
        else if "4.1.1" <= enhanced || ContainsAny(msg, UNKNOWN_WORDS) then UnknownMailbox
        else Temporary
      else if "5.7." <= enhanced || ContainsAny(msg, BLOCKED_WORDS) then Blocked
      else if "5.2.2" <= enhanced || ContainsAny(msg, FULL_WORDS) then Full
      else if "5.2.1" <= enhanced || ContainsAny(msg, DISABLED_WORDS) then Disabled
      else if "5.1." <= enhanced || ContainsAny(msg, UNKNOWN_WORDS) || code in {550, 551, 553} then UnknownMailbox
      else Other
  }

  /** The mailbox itself was refused, whatever the reason. */
  predicate RefusesMailbox(k: Kind) {
    k == UnknownMailbox || k == Full || k == Disabled
  }

  // --------------------------------------------------------- one conversation

  /** Everything one server would answer. */
  datatype Dialogue = Dialogue(
    dial: Err, greeting: Err, hello: Err, offersTls: bool, startTls: Err, mail: Err, rcptRandom: Err, rcptReal: Err)

  datatype Mailbox = Mailbox(catchAll: bool, deliverable: bool, fullInbox: bool, disabled: bool)

  datatype Failure = Refused(kind: Kind) | RetryWithoutTls | Unreached

  datatype Probe = Found(mailbox: Mailbox) | Failed(failure: Failure)

  datatype Options = Options(catchAll: bool, hasUsername: bool)

  /** stageError: a refused preliminary command says nothing about a mailbox. */
  function StageError(err: Err): Failure {
    var kind := ClassifyReply(err);
    if kind == Accepted then Unreached
    else if RefusesMailbox(kind) then Refused(Other)
    else Refused(kind)
  }

  function ProbeReal(d: Dialogue, opts: Options): Probe {
    if !opts.hasUsername then Found(Mailbox(false, false, false, false))
    else
      match ClassifyReply(d.rcptReal)
      case Accepted => Found(Mailbox(false, true, false, false))
      case UnknownMailbox => Found(Mailbox(false, false, false, false))
      case Full => Found(Mailbox(false, false, true, false))
      case Disabled => Found(Mailbox(false, false, false, true))
      case other => Failed(Refused(other))
  }

  function ProbeOneHost(d: Dialogue, opts: Options, tryTls: bool): Probe {
    if d.dial != NoError then Failed(Unreached)
    else if d.greeting != NoError then Failed(if d.greeting.Protocol? then StageError(d.greeting) else Unreached)
    else if d.hello != NoError then Failed(StageError(d.hello))
    else if d.offersTls && tryTls && d.startTls != NoError then Failed(RetryWithoutTls)
    else if d.mail != NoError then Failed(StageError(d.mail))
    else if opts.catchAll then
      var kind := ClassifyReply(d.rcptRandom);
      if kind == Accepted then Found(Mailbox(true, false, false, false))
      else if RefusesMailbox(kind) then ProbeReal(d, opts)
      else Failed(Refused(kind))
    else ProbeReal(d, opts)
  }

  // -------------------------------------------------------------- all the hosts

  /** A host, spoken to with TLS and, if the upgrade fails, without; and whether the request was cancelled meanwhile. */
  datatype Host = Host(withTls: Dialogue, plain: Dialogue, cancelled: bool)

  function ProbeHost(h: Host, opts: Options): Probe {
    var first := ProbeOneHost(h.withTls, opts, true);
    if first == Failed(RetryWithoutTls) then ProbeOneHost(h.plain, opts, false) else first
  }

  /** Hosts are tried in order until one answers; a cancelled request stops there. */
  function ProbeHosts(hosts: seq<Host>, opts: Options): Probe {
    if hosts == [] then Failed(Unreached)
    else
      var r := ProbeHost(hosts[0], opts);
      if r.Failed? && r.failure == Unreached && !hosts[0].cancelled then ProbeHosts(hosts[1..], opts) else r
  }

  method ProbeMailbox(hosts: seq<Host>, opts: Options) returns (r: Probe)
    ensures r == ProbeHosts(hosts, opts)
  {
    for i := 0 to |hosts|
      invariant ProbeHosts(hosts, opts) == ProbeHosts(hosts[i..], opts)
    {
      var h := hosts[i];
      assert hosts[i..][1..] == hosts[i + 1..];
      r := ProbeOneHost(h.withTls, opts, true);
      if r == Failed(RetryWithoutTls) { r := ProbeOneHost(h.plain, opts, false); }
      if r.Found? { return; }
      NeverRetriesTwice(h, opts);
      if r.failure.Refused? { return; }
      if h.cancelled { return; }
    }
    r := Failed(Unreached);
  }

  lemma NeverRetriesTwice(h: Host, opts: Options)
    ensures ProbeHost(h, opts) != Failed(RetryWithoutTls)
  {
  }

  // ------------------------------------- what a walk proves, from the replies alone

  /** The upgrade was tried and failed, which leaves the connection unusable. */
  ghost predicate TlsFails(d: Dialogue) {
    d.dial == NoError && d.greeting == NoError && d.hello == NoError && d.offersTls && d.startTls != NoError
  }

  /** The conversation that counts: the plain one once the upgrade failed. */
  ghost function Heard(h: Host): Dialogue {
    if TlsFails(h.withTls) then h.plain else h.withTls
  }

  /** A positive reply where the command yet reported an error. */
  ghost predicate Positive(err: Err) {
    err.Protocol? && 200 <= err.code < 300
  }

  /**
   The server answered: it took the connection and then either refused the
   greeting with a reply, or got as far as any outcome of HELO, MAIL or RCPT.
   */
  ghost predicate Reached(h: Host) {
    var d := Heard(h);
    && d.dial == NoError
    && (d.greeting == NoError || (d.greeting.Protocol? && !Positive(d.greeting)))
    && (d.greeting == NoError ==> !Positive(d.hello))
    && (d.greeting == NoError && d.hello == NoError ==> !Positive(d.mail))
  }

  /** The kind reported for a refused preliminary command: ours, never a mailbox's. */
  ghost function Blamed(err: Err): Kind {
    var kind := ClassifyReply(err);
    if kind in {UnknownMailbox, Full, Disabled} then Other else kind
  }

  /** The random recipient, if asked about, was refused as a mailbox. */
  ghost predicate TellsMailboxesApart(d: Dialogue, opts: Options) {
    opts.catchAll ==> ClassifyReply(d.rcptRandom) in {UnknownMailbox, Full, Disabled}
  }

  /** The conversation says something about the mailbox. */
  ghost predicate Conclusive(d: Dialogue, opts: Options) {
    && d.dial == NoError && d.greeting == NoError && d.hello == NoError && d.mail == NoError
    && ((opts.catchAll && ClassifyReply(d.rcptRandom) == Accepted)
        || (TellsMailboxesApart(d, opts)
            && (!opts.hasUsername || ClassifyReply(d.rcptReal) in {Accepted, UnknownMailbox, Full, Disabled})))
  }

  /** What a conversation with a server that answered comes to. */
  ghost predicate ComesTo(d: Dialogue, opts: Options, p: Probe) {
    if d.greeting != NoError then p == Failed(Refused(Blamed(d.greeting)))
    else if d.hello != NoError then p == Failed(Refused(Blamed(d.hello)))
    else if d.mail != NoError then p == Failed(Refused(Blamed(d.mail)))
    else if opts.catchAll && ClassifyReply(d.rcptRandom) == Accepted then p == Found(Mailbox(true, false, false, false))
    else if !TellsMailboxesApart(d, opts) then p == Failed(Refused(ClassifyReply(d.rcptRandom)))
    else if !opts.hasUsername then p == Found(Mailbox(false, false, false, false))
    else
      var kind := ClassifyReply(d.rcptReal);
      if kind == Accepted then p == Found(Mailbox(false, true, false, false))
      else if kind == UnknownMailbox then p == Found(Mailbox(false, false, false, false))
      else if kind == Full then p == Found(Mailbox(false, false, true, false))
      else if kind == Disabled then p == Found(Mailbox(false, false, false, true))
      else p == Failed(Refused(kind))
  }

  lemma AcceptedIsPositive(err: Err)
    ensures ClassifyReply(err) == Accepted <==> err == NoError || Positive(err)
  {
    hide ContainsAny, LowerAll, EnhancedCode;
  }

  /** A host that was not reached yields nothing; one that was comes to what its replies say. */
  lemma HostComesTo(h: Host, opts: Options)
    ensures ProbeHost(h, opts) == Failed(Unreached) <==> !Reached(h)
    ensures Reached(h) ==> ComesTo(Heard(h), opts, ProbeHost(h, opts))
    ensures ProbeHost(h, opts).Found? <==> Conclusive(Heard(h), opts)
  {
    AcceptedIsPositive(Heard(h).greeting);
    AcceptedIsPositive(Heard(h).hello);
    AcceptedIsPositive(Heard(h).mail);
    hide ClassifyReply;
  }

  /** Host `k` is the first that answered, and the request was not cancelled before. */
  ghost predicate FirstReached(hosts: seq<Host>, k: nat) {
    k < |hosts| && Reached(hosts[k]) && forall i :: 0 <= i < k ==> !Reached(hosts[i]) && !hosts[i].cancelled
  }

  /** The first host that answers ends the walk. */
  lemma {:induction false} FirstReachedDecides(hosts: seq<Host>, opts: Options, k: nat)
    requires FirstReached(hosts, k)
    ensures ProbeHosts(hosts, opts) == ProbeHost(hosts[k], opts)
    decreases k
  {
    hide ProbeHost, Reached;
    HostComesTo(hosts[0], opts);
    if k > 0 {
      assert !Reached(hosts[0]) && !hosts[0].cancelled;
      FirstReachedDecides(hosts[1..], opts, k - 1);
    }
  }

  lemma {:induction false} SomeoneReached(hosts: seq<Host>, opts: Options) returns (k: nat)
    requires ProbeHosts(hosts, opts) != Failed(Unreached)
    ensures FirstReached(hosts, k)
  {
    hide ProbeHost, Reached;
    HostComesTo(hosts[0], opts);
    if Reached(hosts[0]) {
      k := 0;
    } else {
      k := SomeoneReached(hosts[1..], opts);
      k := k + 1;
    }
  }

  /**
   The walk comes to exactly what the first host that answers comes to, and to
   nothing if none answers before the request is cancelled.
   */
  lemma WalkExactly(hosts: seq<Host>, opts: Options)
    ensures ProbeHosts(hosts, opts) == Failed(Unreached) <==> !exists k: nat :: FirstReached(hosts, k)
    ensures forall k: nat :: FirstReached(hosts, k) ==> ComesTo(Heard(hosts[k]), opts, ProbeHosts(hosts, opts))
  {
    hide ProbeHosts, ComesTo;
    forall k: nat | FirstReached(hosts, k)
      ensures ProbeHosts(hosts, opts) != Failed(Unreached) && ComesTo(Heard(hosts[k]), opts, ProbeHosts(hosts, opts))
    {
      hide ProbeHost, Reached;
      FirstReachedDecides(hosts, opts, k);
      HostComesTo(hosts[k], opts);
    }
    if ProbeHosts(hosts, opts) != Failed(Unreached) {
      var k := SomeoneReached(hosts, opts);
    }
  }

  /** Whatever hosts follow the first that answers, they are never asked. */
  lemma LaterHostsUnasked(hosts: seq<Host>, k: nat, others: seq<Host>, opts: Options)
    requires FirstReached(hosts, k)
    ensures FirstReached(hosts[..k + 1] + others, k)
    ensures ProbeHosts(hosts[..k + 1] + others, opts) == ProbeHosts(hosts, opts)
  {
    hide ProbeHosts, ProbeHost, Reached;
    var changed := hosts[..k + 1] + others;
    assert forall i :: 0 <= i <= k ==> changed[i] == hosts[i];
    FirstReachedDecides(hosts, opts, k);
    FirstReachedDecides(changed, opts, k);
  }
}
