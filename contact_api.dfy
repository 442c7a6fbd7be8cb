/**
 * The contact endpoint of pages/api/contact.ts: one validation predicate over
 * the request body chooses between status 422 `{msg: "invalid input"}` and
 * status 200 `{name: "John Doe"}`. A body field is `None` when it is missing.
 */
module ContactApi {
  import opened Wrappers
  import opened Strings

  datatype RequestBody = RequestBody(email: Option<string>, name: Option<string>, message: Option<string>)

  /** The response body type `Data`: both fields optional. */
  datatype Data = Data(name: Option<string>, msg: Option<string>)

  datatype Response = Response(status: int, body: Data)

  const InvalidInput := Response(422, Data(None, Some("invalid input")))
  const Accepted := Response(200, Data(Some("John Doe"), None))

  /** `!field`: missing, or the empty string. */
  predicate Falsy(f: Option<string>)
  {
    f.None? || f.value == ""
  }

  /** The guard exactly as written; `name.trim === ""` compares a function with a string and is always false. */
  predicate Invalid(req: RequestBody)
  {
    || Falsy(req.email)
    || !Contains(req.email.value, "@")
    || Falsy(req.name)
    || false
    || Falsy(req.message)
    || Trim(req.message.value) == ""
  }

  /** `s` has an `@` somewhere. */
  ghost predicate HasAt(s: string)
  {
    exists i :: 0 <= i < |s| && s[i] == '@'
  }

  /** `s` has a character that is not white space. */
  ghost predicate HasContent(s: string)
  {
    exists i :: 0 <= i < |s| && !IsJsWhitespace(s[i])
  }

  /** What the handler accepts, stated without `trim`. */
  ghost predicate Acceptable(req: RequestBody)
  {
    && req.email.Some? && HasAt(req.email.value)
    && req.name.Some? && req.name.value != ""
    && req.message.Some? && HasContent(req.message.value)
  }

  lemma ContainsAtIff(s: string)
    ensures Contains(s, "@") <==> HasAt(s)
  {
    ContainsIff(s, "@");
    var k := IndexOf(s, "@");
    if k >= 0 {
      assert s[k] == s[k..k + 1][0];
    }
    if HasAt(s) {
      var i :| 0 <= i < |s| && s[i] == '@';
      assert OccursAt(s, "@", i);
    }
  }

  lemma TrimNonEmptyIff(s: string)
    ensures Trim(s) != "" <==> HasContent(s)
  {
    TrimEmptyIff(s);
  }

  /** The request handler: 422 on invalid input, otherwise 200 with a fixed body. */
  function Handler(req: RequestBody): (r: Response)
    ensures r == InvalidInput || r == Accepted
    ensures r == Accepted <==> Acceptable(req)
  {
    GuardMeaning(req);
    if Invalid(req) then InvalidInput else Accepted
  }

  lemma GuardMeaning(req: RequestBody)
    ensures Invalid(req) <==> !Acceptable(req)
  {
    EmailField(req.email);
    TextField(req.message);
  }

  lemma GuardMeaningIntended(req: RequestBody)
    ensures InvalidIntended(req) <==> !AcceptableIntended(req)
  {
    EmailField(req.email);
    TextField(req.name);
    TextField(req.message);
  }

  /** The email clauses `!email || !email.includes("@")`. */
  lemma EmailField(f: Option<string>)
    ensures (Falsy(f) || !Contains(f.value, "@")) <==> !(f.Some? && HasAt(f.value))
  {
    if f.Some? { ContainsAtIff(f.value); }
  }

  /** The clauses `!field || field.trim() === ""`. */
  lemma TextField(f: Option<string>)
    ensures (Falsy(f) || Trim(f.value) == "") <==> !(f.Some? && HasContent(f.value))
  {
    if f.Some? { TrimNonEmptyIff(f.value); }
  }

  /** A name made only of spaces passes, since the name's `trim` is never called. */
  lemma WhitespaceNameAccepted()
    ensures Handler(RequestBody(Some("a@b"), Some("   "), Some("hello"))) == Accepted
  {
    var req := RequestBody(Some("a@b"), Some("   "), Some("hello"));
    assert req.email.value[1] == '@';
    assert !IsJsWhitespace(req.message.value[0]);
    assert HasAt(req.email.value) && HasContent(req.message.value);
  }

  /** A message made only of white space is refused. */
  lemma WhitespaceMessageRefused(email: string, name: string)
    ensures Handler(RequestBody(Some(email), Some(name), Some("   "))) == InvalidInput
  {
    var m := "   ";
    assert forall i :: 0 <= i < |m| ==> IsJsWhitespace(m[i]);
    assert !HasContent(m);
  }

  // ---------------------------------------------------------------------------
  // The guard as evidently intended: `name.trim() === ""`.

  predicate InvalidIntended(req: RequestBody)
  {
    || Falsy(req.email)
    || !Contains(req.email.value, "@")
    || Falsy(req.name)
    || Trim(req.name.value) == ""
    || Falsy(req.message)
    || Trim(req.message.value) == ""
  }

  ghost predicate AcceptableIntended(req: RequestBody)
  {
    && Acceptable(req)
    && HasContent(req.name.value)
  }

  /** The handler with the name trimmed like the message: blank names get 422. */
  function HandlerIntended(req: RequestBody): (r: Response)
    ensures r == InvalidInput || r == Accepted
    ensures r == Accepted <==> AcceptableIntended(req)
  {
    GuardMeaningIntended(req);
    if InvalidIntended(req) then InvalidInput else Accepted
  }

  lemma IntendedRefusesWhitespaceName(email: string, name: string, message: string)
    requires !HasContent(name)
    ensures HandlerIntended(RequestBody(Some(email), Some(name), Some(message))) == InvalidInput
  {
  }

  lemma IntendedRefusesBlankMessage(email: string, name: string, message: string)
    requires !HasContent(message)
    ensures HandlerIntended(RequestBody(Some(email), Some(name), Some(message))) == InvalidInput
  {
  }

  /** The two guards differ only on names that are non-empty white space. */
  lemma IntendedDiffersOnlyOnBlankNames(req: RequestBody)
    ensures HandlerIntended(req) != Handler(req) <==>
      Acceptable(req) && !HasContent(req.name.value)
  {
  }
}
