/**
 * The contact form of components/contact/contactForm.tsx: the client-side
 * email pattern, the send condition, and the state changes `sendMessage`
 * makes to the form's fields. The network reply is a parameter.
 */
module ContactForm {
  import opened Wrappers
  import opened Strings
  import ContactApi

  // ---------------------------------------------------------------------------
  // The pattern /^[A-Z0-9._%+-]+@[A-Z0-9.-]+\.[A-Z]{2,}$/i

  /** `[A-Z]` under the `i` flag (without `u`, only ASCII letters fold onto it). */
  predicate IsLetter(c: char)
  {
    'A' <= c <= 'Z' || 'a' <= c <= 'z'
  }

  predicate IsDigit(c: char)
  {
    '0' <= c <= '9'
  }

  /** `[A-Z0-9._%+-]`: a character of the part before `@`. */
  predicate IsLocalChar(c: char)
  {
    IsLetter(c) || IsDigit(c) || c == '.' || c == '_' || c == '%' || c == '+' || c == '-'
  }

  /** `[A-Z0-9.-]`: a character of the domain. */
  predicate IsDomainChar(c: char)
  {
    IsLetter(c) || IsDigit(c) || c == '.' || c == '-'
  }

  predicate AllLocal(s: string) { forall i :: 0 <= i < |s| ==> IsLocalChar(s[i]) }
  predicate AllDomain(s: string) { forall i :: 0 <= i < |s| ==> IsDomainChar(s[i]) }
  predicate AllLetters(s: string) { forall i :: 0 <= i < |s| ==> IsLetter(s[i]) }

  /**
   * One way the whole string matches: `s[..at]` is the local part, `s[at]` is
   * `@`, `s[at + 1..dot]` is the domain, `s[dot]` is `.`, and the rest is
   * at least two letters.
   */
  ghost predicate EmailSplit(s: string, at: int, dot: int)
  {
    && 0 < at && at + 1 < dot && dot + 3 <= |s|
    && s[at] == '@' && s[dot] == '.'
    && AllLocal(s[..at]) && AllDomain(s[at + 1..dot]) && AllLetters(s[dot + 1..])
  }

  /** The regular expression matches `s`. */
  ghost predicate MatchesEmailPattern(s: string)
  {
    exists at, dot :: EmailSplit(s, at, dot)
  }

  /** Index of the last `c` in `s`, or -1. */
  function LastIndexOf(s: string, c: char): (r: int)
    ensures -1 <= r < |s|
    ensures r >= 0 ==> s[r] == c
    ensures forall j :: r < j < |s| ==> s[j] != c
  {
    if s == [] then -1
    else if s[|s| - 1] == c then |s| - 1
    else LastIndexOf(s[..|s| - 1], c)
  }

  /** `emailRegex.test(s)`, decided by locating the (only) `@` and the last `.`. */
  predicate IsValidEmail(s: string)
  {
    var at := IndexOf(s, "@");
    && at > 0
    && AllLocal(s[..at])
    && var rest := s[at + 1..];
    && var dot := LastIndexOf(rest, '.');
    && dot > 0
    && AllDomain(rest[..dot])
    && |rest| - dot - 1 >= 2
    && AllLetters(rest[dot + 1..])
  }

  /** The scan agrees with the pattern on every string. */
  lemma IsValidEmailMatchesPattern(s: string)
    ensures IsValidEmail(s) <==> MatchesEmailPattern(s)
  {
    if IsValidEmail(s) { ScanFindsSplit(s); }
    if MatchesEmailPattern(s) {
      var a, d :| EmailSplit(s, a, d);
      SplitPassesScan(s, a, d);
    }
  }

  lemma ScanFindsSplit(s: string)
    requires IsValidEmail(s)
    ensures MatchesEmailPattern(s)
  {
    var at := IndexOf(s, "@");
    IndexOfCharFirst(s, '@');
    var rest := s[at + 1..];
    var dot := LastIndexOf(rest, '.');
    assert rest[..dot] == s[at + 1..at + 1 + dot];
    assert rest[dot + 1..] == s[at + 1 + dot + 1..];
    assert EmailSplit(s, at, at + 1 + dot);
  }

  /** Any split has the first `@` and the last `.` after it, the two the scan looks at. */
  lemma SplitPassesScan(s: string, a: int, d: int)
    requires EmailSplit(s, a, d)
    ensures IsValidEmail(s)
  {
    forall j | 0 <= j < a ensures s[j] != '@' {
      assert s[..a][j] == s[j];
    }
    IndexOfCharAt(s, '@', a);
    var rest := s[a + 1..];
    var dot := d - a - 1;
    assert rest[dot] == '.';
    forall j | dot < j < |rest| ensures rest[j] != '.' {
      assert rest[j] == s[d + 1..][j - dot - 1];
    }
    assert LastIndexOf(rest, '.') == dot;
    assert rest[..dot] == s[a + 1..d];
    assert rest[dot + 1..] == s[d + 1..];
  }

  /** A string the pattern accepts is never empty; the separate `enteredEmail` test adds nothing. */
  lemma ValidEmailNonEmpty(s: string)
    requires IsValidEmail(s)
    ensures |s| >= 6
  {
  }

  lemma ValidEmailExample()
    ensures IsValidEmail("ann@site.io")
  {
    var s := "ann@site.io";
    IndexOfCharAt(s, '@', 3);
    var rest := s[4..];
    assert rest == "site.io";
    assert rest[4] == '.' && rest[5] != '.' && rest[6] != '.';
    assert LastIndexOf(rest, '.') == 4;
    assert rest[..4] == "site" && rest[5..] == "io";
  }

  /** A top-level domain of one letter is refused. */
  lemma ShortDomainExample()
    ensures !IsValidEmail("a@b.c")
  {
    IndexOfCharAt("a@b.c", '@', 1);
    var rest := "a@b.c"[2..];
    assert rest == "b.c";
    assert rest[1] == '.' && rest[2] != '.';
    assert LastIndexOf(rest, '.') == 1;
  }

  /** Without a dot after the `@` there is no match. */
  lemma NoDotExample()
    ensures !IsValidEmail("ann@site")
  {
    IndexOfCharAt("ann@site", '@', 3);
    assert "ann@site"[4..] == "site";
    assert forall j :: 0 <= j < 4 ==> "site"[j] != '.';
    assert LastIndexOf("site", '.') == -1;
  }

  /** An empty local part is refused. */
  lemma EmptyLocalPartExample()
    ensures !IsValidEmail("@site.io")
  {
    IndexOfCharAt("@site.io", '@', 0);
  }

  // ---------------------------------------------------------------------------
  // sendMessage

  /** `isValidEmail && enteredEmail && enteredName && enteredMessage`. */
  predicate CanSend(email: string, name: string, message: string)
  {
    IsValidEmail(email) && email != "" && name != "" && message != ""
  }

  /** The payload `sendData` posts. */
  datatype Payload = Payload(email: string, name: string, message: string)

  /** What `fetch` comes back with: no reply at all, or a reply with its `ok` flag and whether its body is JSON. */
  datatype Reply = NetworkFailure | Reply(ok: bool, jsonBody: bool)

  /** `sendData` completes without throwing. It throws when `fetch` or `res.json()` fails, or when `!res.ok`. */
  predicate SendCompletes(reply: Reply)
  {
    reply.Reply? && reply.jsonBody && reply.ok
  }

  const InputError := "Please check your inputs and try again!"

  class Form {
    var enteredEmail: string
    var enteredName: string
    var enteredMessage: string
    var error: string

    constructor ()
      ensures enteredEmail == "" && enteredName == "" && enteredMessage == "" && error == ""
    {
      enteredEmail, enteredName, enteredMessage, error := "", "", "", "";
    }

    /** The inputs' `onChange` handlers. */
    method SetEmail(v: string)
      modifies this`enteredEmail
      ensures enteredEmail == v
    {
      enteredEmail := v;
    }

    method SetName(v: string)
      modifies this`enteredName
      ensures enteredName == v
    {
      enteredName := v;
    }

    method SetMessage(v: string)
      modifies this`enteredMessage
      ensures enteredMessage == v
    {
      enteredMessage := v;
    }

    /**
     * `sendMessage`: sends the three fields when they pass the client check.
     * `sent` is the payload posted, if any; `reply` is how the post ended.
     */
    method SendMessage(reply: Reply) returns (sent: Option<Payload>)
      modifies this
      ensures sent.Some? <==> CanSend(old(enteredEmail), old(enteredName), old(enteredMessage))
      ensures sent.Some? ==> sent.value == Payload(old(enteredEmail), old(enteredName), old(enteredMessage))
      ensures sent.None? ==>
        && enteredEmail == old(enteredEmail) && enteredName == old(enteredName)
        && enteredMessage == old(enteredMessage) && error == InputError
      ensures sent.Some? && SendCompletes(reply) ==>
        enteredEmail == "" && enteredName == "" && enteredMessage == "" && error == old(error)
      ensures sent.Some? && !SendCompletes(reply) ==>
        && enteredEmail == old(enteredEmail) && enteredName == old(enteredName)
        && enteredMessage == old(enteredMessage) && error == old(error)
    {
      if CanSend(enteredEmail, enteredName, enteredMessage) {
        sent := Some(Payload(enteredEmail, enteredName, enteredMessage));
        if SendCompletes(reply) {
          enteredEmail := "";
          enteredMessage := "";
          enteredName := "";
        }
        // a thrown error is caught and dropped
      } else {
        sent := None;
        error := InputError;
      }
    }
  }

  // ---------------------------------------------------------------------------
  // The form and the endpoint together

  /**
   * Whatever the form sends has an `@` and a non-empty name, so the endpoint
   * (with its name check as intended) judges only whether the name and the
   * message have content.
   */
  lemma SentPassesServerUnlessBlank(email: string, name: string, message: string)
    requires CanSend(email, name, message)
    ensures ContactApi.HandlerIntended(ContactApi.RequestBody(Some(email), Some(name), Some(message)))
      == ContactApi.Accepted
      <==> ContactApi.HasContent(name) && ContactApi.HasContent(message)
  {
    IsValidEmailMatchesPattern(email);
    var at, dot :| EmailSplit(email, at, dot);
    assert ContactApi.HasAt(email);
  }

  /**
   * A message of white space only passes the form, but the endpoint answers
   * 422, which the form then swallows.
   */
  lemma BlankMessageRefusedAfterSend(email: string, name: string, message: string)
    requires IsValidEmail(email) && name != ""
    requires message != "" && !ContactApi.HasContent(message)
    ensures CanSend(email, name, message)
    ensures ContactApi.HandlerIntended(ContactApi.RequestBody(Some(email), Some(name), Some(message)))
      == ContactApi.InvalidInput
  {
    ValidEmailNonEmpty(email);
    ContactApi.IntendedRefusesBlankMessage(email, name, message);
  }
}
