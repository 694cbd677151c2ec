/** The WebDAV client side of the synchroniser: the options every request is
    built from, and how the reply's status code to each of the three requests
    (DELETE, MKCOL and PUT of RFC 4918, sections 9.6, 9.3 and 9.7) becomes
    success or an error record. */
module Remote {
  import opened Wrappers
  import opened Text

  type StatusCode = nat

  // ---------------------------------------------------------------------
  // Request options

  datatype Method = Delete | Mkcol | Put

  /** The parts of a parsed URL the synchroniser looks at. `auth` is the
      `user:pass` text before `@` (`None` is the parser's `null`); `rest`
      stands for protocol, host, path and the other components, which are
      passed through untouched. */
  datatype Url = Url(auth: Option<string>, rest: string)

  /** HTTP Basic credentials (RFC 7617). `pass` is `None` when the auth text
      has no colon, where JavaScript would leave it `undefined`. */
  datatype Credentials = Credentials(user: string, pass: Option<string>, sendImmediately: bool)

  datatype RequestOptions = RequestOptions(
    uri: Url,
    verb: Method,
    auth: Option<Credentials>,
    body: Option<string>)

  /** The credentials carried by the auth text `a` of a URL: the text is
      split on ':', the user is the first part and the password the second,
      so anything after a second colon is dropped. They are presented only
      once the server challenges (not preemptively). */
  function BasicCredentials(a: string): (cred: Credentials)
    // the user is the text before the first colon
    ensures cred.user <= a && ':' !in cred.user
    ensures |cred.user| == |a| || a[|cred.user|] == ':'
    // the password is present exactly when there is a colon, and is the
    // text between the first colon and the next one (or the end)
    ensures cred.pass.Some? <==> ':' in a
    ensures cred.pass.Some? ==>
      var p := cred.pass.value;
      var n := |cred.user| + 1 + |p|;
      && cred.user + ":" + p <= a && ':' !in p
      && (n == |a| || a[n] == ':')
    ensures !cred.sendImmediately
  {
    var parts := Split(a, ':');
    FirstPartIsTextBeforeSeparator(a, ':');
    SplitIsSingleIff(a, ':');
    JoinOfSplit(a, ':');
    if |parts| > 1 then
      JoinStartsWithTwoParts(parts, ':');
      Credentials(parts[0], Some(parts[1]), false)
    else
      Credentials(parts[0], None, false)
  }

  /** Builds the options of a request from the parsed remote URL: when the
      URL has auth text it becomes Basic credentials, and the URL itself is
      left with an empty auth so the credentials do not travel inside it. */
  function CreateRequestOptions(parsed: Url, verb: Method): (o: RequestOptions)
    ensures o.verb == verb && o.body == None
    ensures o.uri == parsed.(auth := Some(""))
    ensures o.auth.Some? <==> parsed.auth.Some?
    ensures parsed.auth.Some? ==> o.auth.value == BasicCredentials(parsed.auth.value)
  {
    var auth := if parsed.auth.None? then None else Some(BasicCredentials(parsed.auth.value));
    RequestOptions(parsed.(auth := Some("")), verb, auth, None)
  }

  /** The options of a PUT: the common options with the file content as body. */
  function PutRequestOptions(parsed: Url, data: string): (o: RequestOptions)
    ensures o.verb == Put && o.body == Some(data)
    ensures o.(body := None) == CreateRequestOptions(parsed, Put)
  {
    CreateRequestOptions(parsed, Put).(body := Some(data))
  }

  // ---------------------------------------------------------------------
  // Outcomes

  /** The error object handed to the callback; the PUT 500 error has no
      `status` member. */
  datatype RemoteError = RemoteError(status: Option<StatusCode>, message: string)

  /** A callback invocation: `callback(null, url)` or `callback(err, null)`. */
  datatype Outcome = Done(url: string) | Failed(error: RemoteError)

  const LockedFolderMessage := "Could not remove the locked folder For url: "
  const UnknownDeleteMessage := "Unknown error while deleting a dir gave statuscode: "
  const UnauthorizedMessage := "Resource requires authorization or authorization was denied. For url: "
  const ForbiddenMessage := "The server does not allow collections to be created at the specified location, or the parent collection of the specified request URI exists but cannot accept members."
  const ConflictMessage := "A resource cannot be created at the destination URI until one or more intermediate collections are created. For url: "
  const UnsupportedBodyMessage := "The request type of the body is not supported by the server."
  const InsufficientStorageMessage := "The destination resource does not have sufficient storage space."
  const UnknownMkcolMessage := "Unknown error while uploading a dir."
  const ServerErrorPrefix := "Error got a "
  const ServerErrorInfix := " Trying to upload a file to: "

  /** Classifies the reply to DELETE of a folder. */
  function DeleteOutcome(code: StatusCode, url: string): (r: Outcome)
    // 204 and 404 succeed, and identically: a folder already gone counts as removed
    ensures r.Done? <==> code == 204 || code == 404
    ensures r.Done? ==> r == Done(url)
    ensures r.Failed? ==> r.error.status == Some(code)
    // 423 Locked names the folder
    ensures code == 423 ==> r.Failed? && EndsWith(r.error.message, url)
    // any other code is reported in the message, readable back as a number
    ensures r.Failed? && code != 423 ==>
      var m := r.error.message;
      && UnknownDeleteMessage <= m
      && IsCanonicalNumeral(m[|UnknownDeleteMessage|..])
      && NumeralValue(m[|UnknownDeleteMessage|..]) == code
  {
    if code == 204 || code == 404 then Done(url)
    else if code == 423 then Failed(RemoteError(Some(code), LockedFolderMessage + url))
    else
      var m := UnknownDeleteMessage + Decimal(code);
      assert m[|UnknownDeleteMessage|..] == Decimal(code);
      NumeralValueOfDecimal(code);
      Failed(RemoteError(Some(code), m))
  }

  /** Classifies the reply to MKCOL of a folder. The chain tests 409 twice;
      the second test, whose message is the one for 507 Insufficient Storage,
      is kept as written and can never be reached. */
  function MkcolOutcome(code: StatusCode, url: string): (r: Outcome)
    // 201 Created and 405 (already exists) succeed, identically
    ensures r.Done? <==> code == 201 || code == 405
    ensures r.Done? ==> r == Done(url)
    // every failure carries the status code
    ensures r.Failed? ==> r.error.status == Some(code)
    ensures code == 401 ==> r.Failed? && r.error.message == UnauthorizedMessage + url
    ensures code == 403 ==> r.Failed? && r.error.message == ForbiddenMessage
    ensures code == 409 ==> r.Failed? && r.error.message == ConflictMessage + url
    ensures code == 415 ==> r.Failed? && r.error.message == UnsupportedBodyMessage
    ensures r.Failed? && code !in {401, 403, 409, 415} ==> r.error.message == UnknownMkcolMessage
    // the insufficient-storage message is never produced
    ensures r.Failed? ==> r.error.message != InsufficientStorageMessage
  {
    if code == 201 then Done(url)
    else if code == 401 then Failed(RemoteError(Some(code), UnauthorizedMessage + url))
    else if code == 403 then Failed(RemoteError(Some(code), ForbiddenMessage))
    else if code == 405 then Done(url)
    else if code == 409 then Failed(RemoteError(Some(code), ConflictMessage + url))
    else if code == 415 then Failed(RemoteError(Some(code), UnsupportedBodyMessage))
    else if code == 409 then Failed(RemoteError(Some(code), InsufficientStorageMessage))
    else Failed(RemoteError(Some(code), UnknownMkcolMessage))
  }

  /** As written, a 507 Insufficient Storage reply to MKCOL is reported as
      an unknown error, since the test meant for it repeats the 409 test. */
  lemma MkcolInsufficientStorageIsUnknown(url: string)
    ensures MkcolOutcome(507, url) == Failed(RemoteError(Some(507), UnknownMkcolMessage))
  {
  }

  /** The MKCOL classifier with the second 409 test read as the 507 test its
      message belongs to. */
  function MkcolOutcomeIntended(code: StatusCode, url: string): (r: Outcome)
    ensures r.Done? <==> code == 201 || code == 405
    ensures r.Failed? ==> r.error.status == Some(code)
    // 507 Insufficient Storage gets its own message
    ensures code == 507 ==> r == Failed(RemoteError(Some(507), InsufficientStorageMessage))
    ensures r.Failed? && code !in {401, 403, 409, 415, 507} ==> r.error.message == UnknownMkcolMessage
  {
    if code == 201 then Done(url)
    else if code == 401 then Failed(RemoteError(Some(code), UnauthorizedMessage + url))
    else if code == 403 then Failed(RemoteError(Some(code), ForbiddenMessage))
    else if code == 405 then Done(url)
    else if code == 409 then Failed(RemoteError(Some(code), ConflictMessage + url))
    else if code == 415 then Failed(RemoteError(Some(code), UnsupportedBodyMessage))
    else if code == 507 then Failed(RemoteError(Some(code), InsufficientStorageMessage))
    else Failed(RemoteError(Some(code), UnknownMkcolMessage))
  }

  /** The intended classifier differs from the written one on 507 only. */
  lemma MkcolIntendedDiffersOnlyAt507(code: StatusCode, url: string)
    ensures MkcolOutcomeIntended(code, url) == MkcolOutcome(code, url) <==> code != 507
  {
    if code == 507 {
      MkcolInsufficientStorageIsUnknown(url);
    }
  }

  /** Classifies the reply to PUT of a file: only 500 and 401 fail. */
  function PutOutcome(code: StatusCode, url: string): (r: Outcome)
    ensures r.Failed? <==> code == 500 || code == 401
    ensures r.Done? ==> r == Done(url)
    // the 500 error record has no status member, the 401 one does
    ensures code == 500 ==> r.Failed? && r.error.status == None
    ensures code == 401 ==> r.Failed? && r.error.status == Some(401)
    ensures r.Failed? ==> EndsWith(r.error.message, url)
  {
    if code == 500 then
      Failed(RemoteError(None, ServerErrorPrefix + Decimal(code) + ServerErrorInfix + url))
    else if code == 401 then
      Failed(RemoteError(Some(code), UnauthorizedMessage + url))
    else Done(url)
  }

  /** The permissive upload rule: success codes, a missing resource and
      redirects all count as a successful upload. */
  lemma PutAcceptsOtherCodes(url: string)
    ensures PutOutcome(200, url) == PutOutcome(201, url) == PutOutcome(204, url) == Done(url)
    ensures PutOutcome(404, url) == Done(url)
    ensures forall code: StatusCode :: 300 <= code < 400 ==> PutOutcome(code, url) == Done(url)
  {
  }
}
