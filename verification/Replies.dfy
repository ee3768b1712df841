/**
 What reply classification means: enhanced status codes as RFC 3463 structures
 them, keywords as substrings, and which of the two wins.
 */
module Replies {
  import opened Prelude
  import opened SmtpProbe
  import ResultCodec
  import Verdicts

  /** class.subject.detail (section 2 of RFC 3463) */
  datatype Status = Status(class_: char, subject: string, detail: string)

  ghost predicate Digits(s: string) {
    forall i :: 0 <= i < |s| ==> Digit(s[i])
  }

  ghost predicate WellFormed(st: Status) {
    Digit(st.class_) && st.subject != [] && Digits(st.subject) && st.detail != [] && Digits(st.detail)
  }

  function Write(st: Status): string {
    [st.class_] + "." + st.subject + "." + st.detail
  }

  ghost predicate EndsDigits(rest: string) {
    rest == [] || !Digit(rest[0])
  }

  lemma {:induction false} RunOfDigits(digits: string, rest: string)
    requires Digits(digits) && EndsDigits(rest)
    ensures DigitRun(digits + rest) == |digits|
  {
    if digits == [] {
      assert digits + rest == rest;
    } else {
      assert (digits + rest)[1..] == digits[1..] + rest;
      RunOfDigits(digits[1..], rest);
    }
  }

  predicate Blank(c: char) {
    c in {' ', '\t', '\n', '\r', '\U{0C}'}
  }

  lemma {:induction false} BlanksSkipped(space: string, s: string)
    requires (forall i :: 0 <= i < |space| ==> Blank(space[i])) && (s == [] || !Blank(s[0]))
    ensures SkipSpace(space + s) == s
  {
    if space == [] {
      assert space + s == s;
    } else {
      assert (space + s)[1..] == space[1..] + s;
      BlanksSkipped(space[1..], s);
    }
  }

  /** A status code at the head of a reply's text is found, whole, whatever follows it. */
  lemma EnhancedCodeFound(space: string, st: Status, rest: string)
    requires (forall i :: 0 <= i < |space| ==> Blank(space[i])) && WellFormed(st) && EndsDigits(rest)
    ensures EnhancedCode(space + (Write(st) + rest)) == Write(st)
  {
    hide DigitRun, SkipSpace;
    var s := Write(st) + rest;
    BlanksSkipped(space, s);
    var n := |st.subject|;
    assert s[2..] == st.subject + ("." + st.detail + rest);
    RunOfDigits(st.subject, "." + st.detail + rest);
    assert s[2 + n] == '.' && s[3 + n..] == st.detail + rest;
    RunOfDigits(st.detail, rest);
    assert s[..3 + n + |st.detail|] == Write(st);
  }

  /** A prefix with both dots names class and subject, and begins the detail. */
  lemma PrefixNamesStatus(st: Status, class_: char, subject: char, detail: string)
    requires WellFormed(st) && Digit(class_) && Digit(subject)
    ensures [class_, '.', subject, '.'] + detail <= Write(st) <==>
      st.class_ == class_ && st.subject == [subject] && detail <= st.detail
  {
    var w, p := Write(st), [class_, '.', subject, '.'] + detail;
    if |st.subject| == 1 {
      assert w[4..] == st.detail && w[..4] == [st.class_, '.', st.subject[0], '.'];
      assert p <= w <==> p[..4] == w[..4] && p[4..] <= w[4..] by {
        assert w == w[..4] + w[4..] && p == p[..4] + p[4..];
        if p <= w { assert p[4..] == w[4..|p|] == w[4..][..|p| - 4]; }
      }
      assert p[4..] == detail;
      assert st.subject == [st.subject[0]];
    } else {
      assert w[3] == st.subject[1] && p[3] == '.';
    }
  }

  /** What an enhanced status alone says, for replies without any telling word. */
  function KindOfStatus(code: int, st: Status): Kind
    requires st.detail != []
  {
    var about := (st.class_, st.subject);
    if 400 <= code < 500 then
      if about == ('4', "2") && st.detail[0] == '2' then Full
      else if about == ('4', "1") && st.detail[0] == '1' then UnknownMailbox
      else Temporary
    else if about == ('5', "7") then Blocked
    else if about == ('5', "2") && st.detail[0] == '2' then Full
    else if about == ('5', "2") && st.detail[0] == '1' then Disabled
    else if about == ('5', "1") || code in {550, 551, 553} then UnknownMailbox
    else Other
  }

  ghost predicate Wordless(text: string) {
    var msg := LowerAll(text);
    !ContainsAny(msg, BLOCKED_WORDS) && !ContainsAny(msg, FULL_WORDS)
    && !ContainsAny(msg, DISABLED_WORDS) && !ContainsAny(msg, UNKNOWN_WORDS)
  }

  lemma DetailBegins(st: Status, c: char)
    requires WellFormed(st)
    ensures [c] <= st.detail <==> st.detail[0] == c
  {}

  /** The prefixes the classifier looks for, read as status fields. */
  lemma PrefixesRead(st: Status)
    requires WellFormed(st)
    ensures "4.2.2" <= Write(st) <==> st.class_ == '4' && st.subject == "2" && st.detail[0] == '2'
    ensures "4.1.1" <= Write(st) <==> st.class_ == '4' && st.subject == "1" && st.detail[0] == '1'
    ensures "5.7." <= Write(st) <==> st.class_ == '5' && st.subject == "7"
    ensures "5.2.2" <= Write(st) <==> st.class_ == '5' && st.subject == "2" && st.detail[0] == '2'
    ensures "5.2.1" <= Write(st) <==> st.class_ == '5' && st.subject == "2" && st.detail[0] == '1'
    ensures "5.1." <= Write(st) <==> st.class_ == '5' && st.subject == "1"
  {
    hide Write;
    DetailBegins(st, '1');
    DetailBegins(st, '2');
    hide WellFormed;
    PrefixNamesStatus(st, '4', '2', "2");
    PrefixNamesStatus(st, '4', '1', "1");
    PrefixNamesStatus(st, '5', '7', "");
    PrefixNamesStatus(st, '5', '2', "2");
    PrefixNamesStatus(st, '5', '2', "1");
    PrefixNamesStatus(st, '5', '1', "");
    assert ['4', '.', '2', '.'] + "2" == "4.2.2" && ['4', '.', '1', '.'] + "1" == "4.1.1";
    assert ['5', '.', '2', '.'] + "2" == "5.2.2" && ['5', '.', '2', '.'] + "1" == "5.2.1";
    assert ['5', '.', '7', '.'] + "" == "5.7." && ['5', '.', '1', '.'] + "" == "5.1.";
  }

  /** A refusal that carries a status and no telling word is classified by the status alone. */
  lemma StatusDecides(code: int, space: string, st: Status, rest: string)
    requires !(200 <= code < 300)
    requires (forall i :: 0 <= i < |space| ==> Blank(space[i])) && WellFormed(st) && EndsDigits(rest)
    requires Wordless(space + (Write(st) + rest))
    ensures ClassifyReply(Protocol(code, space + (Write(st) + rest))) == KindOfStatus(code, st)
  {
    hide Write, EnhancedCode, ContainsAny, LowerAll;
    EnhancedCodeFound(space, st, rest);
    PrefixesRead(st);
  }

  /** strings.Contains */
  lemma {:induction false} ContainsIsSubstring(s: string, word: string)
    ensures Contains(s, word) <==> exists i: nat :: i + |word| <= |s| && s[i..][..|word|] == word
  {
    if word <= s {
      assert s[0..][..|word|] == word;
    } else if s == [] {
    } else {
      ContainsIsSubstring(s[1..], word);
      if Contains(s[1..], word) {
        var i: nat :| i + |word| <= |s[1..]| && s[1..][i..][..|word|] == word;
        assert s[i + 1..] == s[1..][i..];
      }
      if i: nat :| i + |word| <= |s| && s[i..][..|word|] == word {
        assert i != 0 by { assert s[0..] == s; }
        var k: nat := i - 1;
        assert s[1..][k..] == s[i..];
      }
    }
  }

  /** The reply's text begins with a status of this class and subject whose detail begins so. */
  ghost predicate Carries(text: string, class_: char, subject: string, detail: string) {
    exists st :: WellFormed(st) && EnhancedCode(text) == Write(st) && st.class_ == class_ && st.subject == subject && detail <= st.detail
  }

  /** An enhanced code is none, or the text of a status. */
  lemma EnhancedCodeIsStatus(text: string)
    ensures EnhancedCode(text) == "" || exists st :: WellFormed(st) && EnhancedCode(text) == Write(st)
  {
    var s := SkipSpace(text);
    if EnhancedCode(text) != "" {
      var n := DigitRun(s[2..]);
      var m := DigitRun(s[3 + n..]);
      AreDigits(s[2..]);
      AreDigits(s[3 + n..]);
      var st := Status(s[0], s[2..][..n], s[3 + n..][..m]);
      assert s[..3 + n + m] == Write(st);
      assert WellFormed(st);
    }
  }

  lemma {:induction false} AreDigits(s: string)
    ensures Digits(s[..DigitRun(s)])
  {
    if s != [] && Digit(s[0]) {
      AreDigits(s[1..]);
      assert s[..DigitRun(s)] == [s[0]] + s[1..][..DigitRun(s[1..])];
    }
  }

  /** The prefixes the classifier tests for are statuses the text carries. */
  lemma PrefixIsStatus(text: string, class_: char, subject: char, detail: string)
    requires Digit(class_) && Digit(subject)
    ensures [class_, '.', subject, '.'] + detail <= EnhancedCode(text) <==> Carries(text, class_, [subject], detail)
  {
    hide EnhancedCode, Write, WellFormed;
    EnhancedCodeIsStatus(text);
    forall st | WellFormed(st) && EnhancedCode(text) == Write(st)
      ensures [class_, '.', subject, '.'] + detail <= EnhancedCode(text) <==>
        st.class_ == class_ && st.subject == [subject] && detail <= st.detail
    {
      PrefixNamesStatus(st, class_, subject, detail);
    }
  }

  lemma PrefixesAreStatuses(text: string)
    ensures "4.2.2" <= EnhancedCode(text) <==> Carries(text, '4', "2", "2")
    ensures "4.1.1" <= EnhancedCode(text) <==> Carries(text, '4', "1", "1")
    ensures "5.7." <= EnhancedCode(text) <==> Carries(text, '5', "7", "")
    ensures "5.2.2" <= EnhancedCode(text) <==> Carries(text, '5', "2", "2")
    ensures "5.2.1" <= EnhancedCode(text) <==> Carries(text, '5', "2", "1")
    ensures "5.1." <= EnhancedCode(text) <==> Carries(text, '5', "1", "")
  {
    hide EnhancedCode, Carries;
    PrefixIsStatus(text, '4', '2', "2");
    PrefixIsStatus(text, '4', '1', "1");
    PrefixIsStatus(text, '5', '7', "");
    PrefixIsStatus(text, '5', '2', "2");
    PrefixIsStatus(text, '5', '2', "1");
    PrefixIsStatus(text, '5', '1', "");
    assert ['4', '.', '2', '.'] + "2" == "4.2.2" && ['4', '.', '1', '.'] + "1" == "4.1.1";
    assert ['5', '.', '2', '.'] + "2" == "5.2.2" && ['5', '.', '2', '.'] + "1" == "5.2.1";
    assert ['5', '.', '7', '.'] + "" == "5.7." && ['5', '.', '1', '.'] + "" == "5.1.";
  }

  ghost predicate SaysBlocked(text: string) {
    || Carries(text, '5', "7", "")
    || ContainsAny(LowerAll(text), ["blocked", "blacklist", "block list", "spamhaus", "denied", "policy", "spam", "reputation", "not permitted", "banned"])
  }

  ghost predicate SaysFull(text: string, class_: char) {
    Carries(text, class_, "2", "2") || ContainsAny(LowerAll(text), ["full", "quota", "over limit", "storage"])
  }

  ghost predicate SaysDisabled(text: string) {
    Carries(text, '5', "2", "1") || ContainsAny(LowerAll(text), ["disabled", "suspended", "inactive", "deactivated", "locked"])
  }

  ghost predicate SaysUnknown(text: string, class_: char) {
    || Carries(text, class_, "1", if class_ == '4' then "1" else "")
    || ContainsAny(LowerAll(text), ["does not exist", "no such user", "unknown user", "user unknown", "no such recipient",
         "recipient rejected", "not found", "invalid recipient", "unknown recipient", "no mailbox", "bad destination"])
  }

  /** Each kind of reply, exactly: 2xx, then 4xx by what it says, then refusals with blocks before full before disabled before unknown. */
  lemma ReplyExactly(code: int, text: string)
    ensures var k := ClassifyReply(Protocol(code, text));
      var later, refusal := 400 <= code < 500, !(200 <= code < 300) && !(400 <= code < 500);
      && (k == Accepted <==> 200 <= code < 300)
      && (k == Temporary <==> later && !SaysFull(text, '4') && !SaysUnknown(text, '4'))
      && (k == Blocked <==> refusal && SaysBlocked(text))
      && (k == Full <==> (later && SaysFull(text, '4')) || (refusal && !SaysBlocked(text) && SaysFull(text, '5')))
      && (k == Disabled <==> refusal && !SaysBlocked(text) && !SaysFull(text, '5') && SaysDisabled(text))
      && (k == UnknownMailbox <==>
            || (later && !SaysFull(text, '4') && SaysUnknown(text, '4'))
            || (refusal && !SaysBlocked(text) && !SaysFull(text, '5') && !SaysDisabled(text)
                && (SaysUnknown(text, '5') || code == 550 || code == 551 || code == 553)))
  {
    hide ContainsAny, LowerAll, EnhancedCode, Carries;
    PrefixesAreStatuses(text);
  }

  /**
   A policy refusal is never a verdict: if the first host that answers refuses the
   real recipient for good and names a block, or with a 4xx that says neither full
   nor unknown, the address is neither valid nor invalid.
   */
  lemma BlocksAreNoVerdict(o: Verdicts.Outside, req: Verdicts.Request, g: Verdicts.Signals, k: nat)
    requires Verdicts.Usable(o) && o.syntax.hasUsername && o.route.Hosts? && FirstReached(o.route.hosts, k)
    requires var reply := Heard(o.route.hosts[k]).rcptReal;
      && reply.Protocol? && !(200 <= reply.code < 300)
      && (if 400 <= reply.code < 500 then !SaysFull(reply.msg, '4') && !SaysUnknown(reply.msg, '4') else SaysBlocked(reply.msg))
    ensures Verdicts.VerdictFor(o, req, g) != ResultCodec.Valid && Verdicts.VerdictFor(o, req, g) != ResultCodec.Invalid
  {
    hide ClassifyReply, SaysFull, SaysUnknown, SaysBlocked, SaysDisabled, Heard, Reached, Verdicts.VerdictFor;
    var reply := Heard(o.route.hosts[k]).rcptReal;
    ReplyExactly(reply.code, reply.msg);
    Verdicts.VerdictsAreEarned(o, req, g);
  }
}
