/**
  The portfolio's contact form: the four fields are trimmed, checked in a fixed order with the
  first failure reported, and only a fully valid message is posted to the back end, whose
  reply decides the notification shown and whether the form is cleared.
 */
module ContactForm {
  import opened Wrappers
  import opened Text

  /** A run of the character class `[^\s@]+`: non-empty, no whitespace, no `@`. */
  predicate Plain(s: string) {
    s != [] && NoWhitespace(s) && '@' !in s
  }

  /** The address splits at the `@` at `i` and the dot at `j` into a local part, a domain part
      and a final part, each a plain run. */
  ghost predicate SplitsAt(s: string, i: int, j: int) {
    0 < i && i + 1 < j && j + 1 < |s| && s[i] == '@' && s[j] == '.'
    && Plain(s[..i]) && Plain(s[i + 1..j]) && Plain(s[j + 1..])
  }

  /** The form's e-mail pattern `^[^\s@]+@[^\s@]+\.[^\s@]+$`: a local part, `@`, a domain part,
      a dot and a final part, where the dot may be any dot after the `@` that leaves both
      sides non-empty. */
  ghost predicate EmailPatternMatches(s: string) {
    exists i, j :: SplitsAt(s, i, j)
  }

  predicate NoWhitespace(s: string) {
    forall i :: 0 <= i < |s| ==> !IsWhitespace(s[i])
  }

  /** The position of the first `c` in `s`. */
  function IndexOf(s: string, c: char): (r: Option<nat>)
    ensures r.Some? ==> r.value < |s| && s[r.value] == c && c !in s[..r.value]
    ensures r.None? ==> c !in s
    decreases |s|
  {
    if s == [] then None
    else if s[0] == c then Some(0)
    else match IndexOf(s[1..], c) {
      case None => None
      case Some(k) => assert s[..k + 1] == [s[0]] + s[1..][..k]; Some(k + 1)
    }
  }

  /** The domain side of an address has a dot with something on both sides. */
  predicate HasInnerDot(d: string) {
    |d| >= 3 && '.' in d[1..|d| - 1]
  }

  /** The e-mail check written as a scan: no whitespace, exactly one `@` with something before
      it, and a dot strictly inside what follows it. It accepts exactly what the pattern does. */
  function ValidEmail(s: string): (b: bool)
    ensures b <==> EmailPatternMatches(s)
  {
    var at := IndexOf(s, '@');
    var b := NoWhitespace(s) && at.Some? && at.value > 0 && '@' !in s[at.value + 1..]
      && HasInnerDot(s[at.value + 1..]);
    PatternFromScan(s);
    ScanFromPattern(s);
    b
  }

  lemma PatternFromScan(s: string)
    ensures NoWhitespace(s) && IndexOf(s, '@').Some? && IndexOf(s, '@').value > 0
      && '@' !in s[IndexOf(s, '@').value + 1..] && HasInnerDot(s[IndexOf(s, '@').value + 1..])
      ==> EmailPatternMatches(s)
  {
    if NoWhitespace(s) && IndexOf(s, '@').Some? && IndexOf(s, '@').value > 0
      && '@' !in s[IndexOf(s, '@').value + 1..] && HasInnerDot(s[IndexOf(s, '@').value + 1..]) {
      PatternWitness(s);
    }
  }

  lemma PatternWitness(s: string)
    requires NoWhitespace(s) && IndexOf(s, '@').Some?
    requires var i := IndexOf(s, '@').value; i > 0 && '@' !in s[i + 1..] && HasInnerDot(s[i + 1..])
    ensures EmailPatternMatches(s)
  {
    var i := IndexOf(s, '@').value;
    var d := s[i + 1..];
    var m := d[1..|d| - 1];
    var k :| 0 <= k < |m| && m[k] == '.';
    assert s[i + 2 + k] == m[k];
    PatternAt(s, i, i + 2 + k);
  }

  /** The scan's `@` and a dot strictly inside the domain side split the address into three
      plain runs. */
  lemma PatternAt(s: string, i: nat, j: nat)
    requires NoWhitespace(s) && 0 < i < |s| && s[i] == '@' && '@' !in s[..i] && '@' !in s[i + 1..]
    requires i + 1 < j && j + 1 < |s| && s[j] == '.'
    ensures EmailPatternMatches(s)
  {
    var d := s[i + 1..];
    assert s[i + 1..j] == d[..j - i - 1];
    assert s[j + 1..] == d[j - i..];
    SliceAvoids(d, '@', 0, j - i - 1);
    SliceAvoids(d, '@', j - i, |d|);
    SliceHasNoWhitespace(s, 0, i);
    SliceHasNoWhitespace(s, i + 1, j);
    SliceHasNoWhitespace(s, j + 1, |s|);
    assert s[..i] == s[0..i];
    assert s[j + 1..] == s[j + 1..|s|];
    assert SplitsAt(s, i, j);
  }

  /** A slice of a string without whitespace has none. */
  lemma SliceHasNoWhitespace(s: string, lo: int, hi: int)
    requires NoWhitespace(s) && 0 <= lo <= hi <= |s|
    ensures NoWhitespace(s[lo..hi])
  {
    forall p | 0 <= p < hi - lo ensures !IsWhitespace(s[lo..hi][p]) {
      assert s[lo..hi][p] == s[lo + p];
    }
  }

  /** A slice of a string without `c` has none. */
  lemma SliceAvoids(s: string, c: char, lo: int, hi: int)
    requires c !in s && 0 <= lo <= hi <= |s|
    ensures c !in s[lo..hi]
  {
    forall p | 0 <= p < hi - lo ensures s[lo..hi][p] != c {
      assert s[lo..hi][p] == s[lo + p];
    }
  }

  /** The three runs of a match have no whitespace, so neither has the whole address. */
  lemma PatternHasNoWhitespace(s: string, i: int, j: int)
    requires 0 < i && i + 1 < j && j + 1 < |s| && s[i] == '@' && s[j] == '.'
    requires Plain(s[..i]) && Plain(s[i + 1..j]) && Plain(s[j + 1..])
    ensures NoWhitespace(s)
  {
    forall p | 0 <= p < |s| ensures !IsWhitespace(s[p]) {
      if p < i {
        assert s[p] == s[..i][p];
      } else if i < p < j {
        assert s[p] == s[i + 1..j][p - i - 1];
      } else if j < p {
        assert s[p] == s[j + 1..][p - j - 1];
      }
    }
  }

  /** The `@` of a match is the first and only one. */
  lemma PatternHasOneAt(s: string, i: int, j: int)
    requires 0 < i && i + 1 < j && j + 1 < |s| && s[i] == '@' && s[j] == '.'
    requires Plain(s[..i]) && Plain(s[i + 1..j]) && Plain(s[j + 1..])
    ensures IndexOf(s, '@') == Some(i)
    ensures '@' !in s[i + 1..]
  {
    var at := IndexOf(s, '@');
    assert at.Some? && at.value <= i by {
      assert s[i] == '@';
    }
    forall p | 0 <= p < i ensures s[p] != '@' {
      assert s[p] == s[..i][p];
    }
    var d := s[i + 1..];
    forall p | 0 <= p < |d| ensures d[p] != '@' {
      if i + 1 + p < j {
        assert d[p] == s[i + 1..j][p];
      } else if i + 1 + p > j {
        assert d[p] == s[j + 1..][p - (j - i)];
      }
    }
  }

  lemma ScanFromPattern(s: string)
    ensures EmailPatternMatches(s) ==>
      NoWhitespace(s) && IndexOf(s, '@').Some? && IndexOf(s, '@').value > 0
      && '@' !in s[IndexOf(s, '@').value + 1..] && HasInnerDot(s[IndexOf(s, '@').value + 1..])
  {
    if EmailPatternMatches(s) {
      var i, j :| SplitsAt(s, i, j);
      ScanAt(s, i, j);
    }
  }

  /** A match's `@` is the one the scan finds, and its dot lies strictly inside the domain side. */
  lemma ScanAt(s: string, i: int, j: int)
    requires 0 < i && i + 1 < j && j + 1 < |s| && s[i] == '@' && s[j] == '.'
    requires Plain(s[..i]) && Plain(s[i + 1..j]) && Plain(s[j + 1..])
    ensures NoWhitespace(s) && IndexOf(s, '@') == Some(i) && '@' !in s[i + 1..] && HasInnerDot(s[i + 1..])
  {
    PatternHasNoWhitespace(s, i, j);
    PatternHasOneAt(s, i, j);
    var d := s[i + 1..];
    assert d[1..|d| - 1][j - i - 2] == '.';
  }

  const NameMissing: string := "Please enter your name"
  const EmailMissing: string := "Please enter your email"
  const EmailInvalid: string := "Please enter a valid email address"
  const SubjectMissing: string := "Please enter your subject"
  const MessageMissing: string := "Please enter your message"

  /** The validation ladder over the trimmed fields: the first failing check, in the order name,
      e-mail present, e-mail well-formed, subject, message, gives the only error shown. */
  function Validate(name: string, email: string, subject: string, message: string): (error: Option<string>)
    ensures error.None? <==> name != [] && email != [] && EmailPatternMatches(email) && subject != [] && message != []
    ensures name == [] ==> error == Some(NameMissing)
    ensures name != [] && email == [] ==> error == Some(EmailMissing)
    ensures name != [] && email != [] && !EmailPatternMatches(email) ==> error == Some(EmailInvalid)
    ensures name != [] && EmailPatternMatches(email) && subject == [] ==> error == Some(SubjectMissing)
    ensures name != [] && EmailPatternMatches(email) && subject != [] && message == [] ==> error == Some(MessageMissing)
  {
    if name == [] then Some(NameMissing)
    else if email == [] then Some(EmailMissing)
    else if !ValidEmail(email) then Some(EmailInvalid)
    else if subject == [] then Some(SubjectMissing)
    else if message == [] then Some(MessageMissing)
    else None
  }

  /** The JSON body posted to the back end. */
  datatype ContactPayload = ContactPayload(name: string, email: string, subject: string, message: string)

  /** How the back end's request ended: a successful reply with its optional `message`, a
      refusal with its optional `error`, or a request or parse that threw. */
  datatype Reply = Accepted(message: Option<string>) | Refused(error: Option<string>) | Unreachable

  datatype Kind = Success | Failure

  datatype Notification = Notification(text: string, kind: Kind)

  /** What one press of the submit button leads to: the notification, the payload posted (if
      any) and whether the form was cleared. */
  datatype Submission = Submission(notice: Notification, posted: Option<ContactPayload>, cleared: bool)

  /** The fixed notices: for an accepted post without a message, for a refused post without
      an error, and for a request that failed outright. */
  const SentText := "Message sent successfully!"
  const RefusedText := "Failed to send message."
  const UnreachableText := "Failed to send message. Please try again."

  /** `result.message || fallback`: an absent or empty string gives the fallback. */
  function OrElse(field: Option<string>, fallback: string): (r: string)
    ensures r == fallback || (field.Some? && r == field.value)
    ensures field.Some? && field.value != [] ==> r == field.value
    ensures field.None? || field.value == [] ==> r == fallback
    ensures r == [] ==> fallback == []
  {
    if field.Some? && field.value != [] then field.value else fallback
  }

  /** The notification for the back end's reply: its own text when it gave one, a fixed text
      otherwise; success exactly when the request was accepted. */
  function ReplyNotice(reply: Reply): (n: Notification)
    ensures n.kind == Success <==> reply.Accepted?
    ensures |n.text| > 0
    ensures reply.Accepted? && reply.message.Some? && reply.message.value != [] ==> n.text == reply.message.value
    ensures reply.Accepted? && (reply.message.None? || reply.message.value == []) ==> n.text == SentText
    ensures reply.Refused? && reply.error.Some? && reply.error.value != [] ==> n.text == reply.error.value
    ensures reply.Refused? && (reply.error.None? || reply.error.value == []) ==> n.text == RefusedText
    ensures reply.Unreachable? ==> n.text == UnreachableText
  {
    match reply
    case Accepted(m) => Notification(OrElse(m, SentText), Success)
    case Refused(e) => Notification(OrElse(e, RefusedText), Failure)
    case Unreachable => Notification(UnreachableText, Failure)
  }

  /** The second submit handler, which validates and posts. `reply` is what the back end would
      answer; it is only consulted when something is posted, and the form is cleared only after an
      accepted post. */
  function Submit(rawName: string, rawEmail: string, rawSubject: string, rawMessage: string, reply: Reply): (r: Submission)
    ensures r.posted.None? <==> Validate(Trim(rawName), Trim(rawEmail), Trim(rawSubject), Trim(rawMessage)).Some?
    ensures r.posted.None? ==>
      r.notice == Notification(Validate(Trim(rawName), Trim(rawEmail), Trim(rawSubject), Trim(rawMessage)).value, Failure)
    ensures r.posted.Some? ==>
      r.posted.value == ContactPayload(Trim(rawName), Trim(rawEmail), Trim(rawSubject), Trim(rawMessage))
    ensures r.posted.Some? ==> r.notice == ReplyNotice(reply)
    ensures r.cleared <==> r.notice.kind == Success
    ensures r.cleared <==> r.posted.Some? && reply.Accepted?
    ensures |r.notice.text| > 0
  {
    var name, email, subject, message := Trim(rawName), Trim(rawEmail), Trim(rawSubject), Trim(rawMessage);
    var error := Validate(name, email, subject, message);
    if error.Some? then Submission(Notification(error.value, Failure), None, false)
    else Submission(ReplyNotice(reply), Some(ContactPayload(name, email, subject, message)), reply.Accepted?)
  }
}

module ContactFormProperties {
  import opened Wrappers
  import opened Text
  import opened ContactForm

  /** A name of only spaces counts as missing, whatever the other fields hold. */
  lemma BlankNameRejected(rawName: string, rawEmail: string, rawSubject: string, rawMessage: string, reply: Reply)
    requires AllWhitespace(rawName)
    ensures Submit(rawName, rawEmail, rawSubject, rawMessage, reply)
      == Submission(Notification(NameMissing, Failure), None, false)
  {
  }

  /** Everything that is posted is clean: every field trimmed and non-empty, and the address
      matches the pattern. */
  lemma PostedPayloadIsClean(rawName: string, rawEmail: string, rawSubject: string, rawMessage: string, reply: Reply)
    requires Submit(rawName, rawEmail, rawSubject, rawMessage, reply).posted.Some?
    ensures var p := Submit(rawName, rawEmail, rawSubject, rawMessage, reply).posted.value;
      p.name != [] && Trimmed(p.name) && p.subject != [] && Trimmed(p.subject)
      && p.message != [] && Trimmed(p.message) && Trimmed(p.email) && EmailPatternMatches(p.email)
  {
  }

  /** An address with whitespace inside is never valid. */
  lemma SpaceMakesEmailInvalid(email: string, k: int)
    requires 0 <= k < |email| && IsWhitespace(email[k])
    ensures !EmailPatternMatches(email)
  {
    ScanFromPattern(email);
  }

  /** An address with two `@` signs is never valid. */
  lemma SecondAtMakesEmailInvalid(email: string, k1: int, k2: int)
    requires 0 <= k1 < k2 < |email| && email[k1] == '@' && email[k2] == '@'
    ensures !EmailPatternMatches(email)
  {
    ScanFromPattern(email);
    var at := IndexOf(email, '@');
    if at.Some? && at.value < k2 {
      assert email[at.value + 1..][k2 - at.value - 1] == '@';
    }
  }

  /** Some concrete addresses. */
  lemma EmailExamples()
    ensures ValidEmail("a@b.co")
    ensures !ValidEmail("a@b")
    ensures !ValidEmail("@b.co")
    ensures !ValidEmail("a@.co")
  {
    assert IndexOf("a@b.co", '@') == Some(1);
    assert "a@b.co"[2..] == "b.co";
    assert "b.co"[1..3][0] == '.';
    assert IndexOf("a@b", '@') == Some(1);
    assert IndexOf("@b.co", '@') == Some(0);
    assert IndexOf("a@.co", '@') == Some(1);
    assert "a@.co"[2..] == ".co";
  }
}
