/**
 One weather request and the message it leads to (main.py, get_weather).

 The network call, `raise_for_status` and JSON decoding are not modelled; what
 they produce is the input `Outcome`: either a decoded response body, or a
 raised exception of the `requests` library. An exception is described by the
 set of caught classes it is an instance of, because one exception can be an
 instance of several (a connect timeout is both a `Timeout` and a
 `ConnectionError`); that is what makes the order of the `except` clauses
 observable. Every exception of the library is a `RequestException`, so the
 last clause catches whatever the earlier ones let through.
 */
module Fetch {
  import opened Wrappers

  /** The exception classes named by the handler's specific `except` clauses,
      in the order the clauses appear. */
  datatype ExceptionClass = HTTPError | Timeout | ConnectionError | TooManyRedirects

  const ClauseOrder: seq<ExceptionClass> := [HTTPError, Timeout, ConnectionError, TooManyRedirects]

  /** Position of a class's clause in the handler. */
  function Rank(c: ExceptionClass): (k: nat)
    ensures k < |ClauseOrder| && ClauseOrder[k] == c
  {
    match c
    case HTTPError => 0
    case Timeout => 1
    case ConnectionError => 2
    case TooManyRedirects => 3
  }

  /** A raised exception: the specific classes it is an instance of, the status
      code of the response (read only by the HTTP error clause) and its text
      (what formatting the exception into a string gives). */
  datatype RequestError = RequestError(classes: set<ExceptionClass>, status: int, text: string)

  /** The decoded fields of a response body the program reads. `temperature`
      is the Fahrenheit temperature already rendered with no decimals. */
  datatype Reading = Reading(temperature: string, description: string, weatherId: int)

  datatype Body = Body(cod: int, reading: Reading)

  /** What the request produced. */
  datatype Outcome = Received(body: Body) | Raised(error: RequestError)

  /** The display update a request asks for. */
  datatype Update = ShowError(message: string) | ShowWeather(reading: Reading) {
    /** What the update writes into the temperature label: the message, or the
        temperature followed by a degree sign. */
    function Text(): string {
      match this
      case ShowError(message) => message
      case ShowWeather(r) => r.temperature + "°"
    }
  }

  /** The `except` clause that handles `e`: the class of the earliest clause `e`
      is an instance of, or `None` for the final `RequestException` clause. */
  function Handler(e: RequestError): (r: Option<ExceptionClass>)
    ensures r.None? <==> e.classes == {}
    ensures r.Some? ==> r.value in e.classes
    ensures r.Some? ==> forall c :: c in e.classes ==> Rank(r.value) <= Rank(c)
  {
    if HTTPError in e.classes then Some(HTTPError)
    else if Timeout in e.classes then Some(Timeout)
    else if ConnectionError in e.classes then Some(ConnectionError)
    else if TooManyRedirects in e.classes then Some(TooManyRedirects)
    else
      NoneOfFourIsEmpty(e.classes);
      None
  }

  lemma NoneOfFourIsEmpty(classes: set<ExceptionClass>)
    requires HTTPError !in classes && Timeout !in classes
    requires ConnectionError !in classes && TooManyRedirects !in classes
    ensures classes == {}
  {
    forall c | c in classes ensures false {
      match c
      case HTTPError =>
      case Timeout =>
      case ConnectionError =>
      case TooManyRedirects =>
    }
  }

  /** A two-line message: a heading, a line break, and a detail line. */
  function Lines(heading: string, detail: string): string {
    heading + "\n" + detail
  }

  /** The statuses the HTTP error clause names, with the heading and detail of
      the message it shows for each; `None` for every other status. */
  function StatusLines(status: int): Option<(string, string)> {
    match status
    case 400 => Some(("bad request", "Please check your input"))
    case 401 => Some(("Unauthorized", "Invalid API"))
    case 403 => Some(("Forbidden", "Access Denied"))
    case 404 => Some(("404 Not found", "City not found"))
    case 500 => Some(("Internal server error", "Please try again later"))
    case 502 => Some(("Bad Gateway", "Invalid response from the server"))
    case 503 => Some(("Service Unavailable", "Server is down"))
    case 504 => Some(("Gateway Timeout", "No response from the server"))
    case _ => None
  }

  const HttpFallbackHeading := "HTTP error occured"
  const RequestErrorHeading := "Request Error:"

  /** What a failure is reported as: the handling clause and, for the HTTP
      error clause, whether the status is one it names. */
  datatype Failure =
    | KnownStatus(status: int)
    | OtherStatus
    | TimedOut
    | ConnectionFailed
    | Redirected
    | OtherRequestError

  /** The handler's dispatch: the clause chosen by `Handler`, then the `match`
      on the response status inside the HTTP error clause. */
  function FailureOf(e: RequestError): (f: Failure)
    ensures f.KnownStatus? ==> f.status == e.status && StatusLines(e.status).Some?
  {
    match Handler(e)
    case Some(HTTPError) => if StatusLines(e.status).Some? then KnownStatus(e.status) else OtherStatus
    case Some(Timeout) => TimedOut
    case Some(ConnectionError) => ConnectionFailed
    case Some(TooManyRedirects) => Redirected
    case None => OtherRequestError
  }

  /** Heading and detail of the message reported for a failure; `text` is the
      exception's text, shown by the two fall-through cases. */
  function FailureLines(f: Failure, text: string): (string, string) {
    match f
    case KnownStatus(status) => StatusLines(status).GetOr((HttpFallbackHeading, text))
    case OtherStatus => (HttpFallbackHeading, text)
    case TimedOut => ("Timeout Error:", "The Request Timed Out")
    case ConnectionFailed => ("Connection Error:", "Check your internet connection")
    case Redirected => ("Too many Redirects:", "Check the URL")
    case OtherRequestError => (RequestErrorHeading, text)
  }

  /** The message `display_error` is given for a raised exception: the heading
      of the failure, a line break, then the detail, which for the two
      fall-through cases is the exception's text. */
  function ErrorMessage(e: RequestError): (m: string)
    ensures |FailureHeading(FailureOf(e))| < |m|
    ensures m[..|FailureHeading(FailureOf(e))|] == FailureHeading(FailureOf(e))
    ensures m[|FailureHeading(FailureOf(e))|] == '\n'
    ensures FailureOf(e) in {OtherStatus, OtherRequestError} ==> |e.text| < |m| && m[|m| - |e.text|..] == e.text
  {
    var (heading, detail) := FailureLines(FailureOf(e), e.text);
    Lines(heading, detail)
  }

  /** The update one request asks for: the weather of a body whose `cod` is 200,
      nothing for any other body, and an error message for every exception. */
  function Classify(o: Outcome): (u: Option<Update>)
    ensures o.Raised? ==> u.Some? && u.value.ShowError?
    ensures o.Received? ==> (u.Some? <==> o.body.cod == 200)
    ensures u.Some? && u.value.ShowWeather? ==> o == Received(Body(200, u.value.reading))
  {
    match o
    case Received(body) => if body.cod == 200 then Some(ShowWeather(body.reading)) else None
    case Raised(e) => Some(ShowError(ErrorMessage(e)))
  }

  /** The message for an HTTP error, whatever other classes the exception has,
      is fixed for each named status and is the fall-through heading followed by
      the exception's text for every other status. */
  lemma HttpErrorMessages(e: RequestError)
    requires HTTPError in e.classes
    ensures e.status == 400 ==> ErrorMessage(e) == Lines("bad request", "Please check your input")
    ensures e.status == 401 ==> ErrorMessage(e) == Lines("Unauthorized", "Invalid API")
    ensures e.status == 403 ==> ErrorMessage(e) == Lines("Forbidden", "Access Denied")
    ensures e.status == 404 ==> ErrorMessage(e) == Lines("404 Not found", "City not found")
    ensures e.status == 500 ==> ErrorMessage(e) == Lines("Internal server error", "Please try again later")
    ensures e.status == 502 ==> ErrorMessage(e) == Lines("Bad Gateway", "Invalid response from the server")
    ensures e.status == 503 ==> ErrorMessage(e) == Lines("Service Unavailable", "Server is down")
    ensures e.status == 504 ==> ErrorMessage(e) == Lines("Gateway Timeout", "No response from the server")
    ensures e.status !in {400, 401, 403, 404, 500, 502, 503, 504} ==>
      ErrorMessage(e) == Lines("HTTP error occured", e.text)
  {
  }

  /** The non-HTTP clauses in handler order: a timeout is reported as such even
      when it is also a connection error, and only an exception none of the
      specific clauses names gets the generic message with its text. */
  lemma OtherErrorMessages(e: RequestError)
    requires HTTPError !in e.classes
    ensures Timeout in e.classes ==> ErrorMessage(e) == Lines("Timeout Error:", "The Request Timed Out")
    ensures Timeout !in e.classes && ConnectionError in e.classes ==>
      ErrorMessage(e) == Lines("Connection Error:", "Check your internet connection")
    ensures Timeout !in e.classes && ConnectionError !in e.classes && TooManyRedirects in e.classes ==>
      ErrorMessage(e) == Lines("Too many Redirects:", "Check the URL")
    ensures e.classes == {} ==> ErrorMessage(e) == Lines("Request Error:", e.text)
  {
  }

  /** The first line of a message: everything before its first line break. */
  function Heading(m: string): string {
    if m == [] || m[0] == '\n' then [] else [m[0]] + Heading(m[1..])
  }

  lemma {:induction false} HeadingOfLines(heading: string, detail: string)
    requires '\n' !in heading
    ensures Heading(Lines(heading, detail)) == heading
  {
    if heading != [] {
      assert Lines(heading, detail)[1..] == Lines(heading[1..], detail);
      HeadingOfLines(heading[1..], detail);
    }
  }

  /** The first line of the message reported for a failure. */
  function FailureHeading(f: Failure): string {
    FailureLines(f, "").0
  }

  /** No heading holds a line break. The split on the named statuses puts each
      heading literal in front of the verifier on its own. */
  lemma HeadingHasNoBreak(f: Failure)
    ensures '\n' !in FailureHeading(f)
  {
    match f
    case KnownStatus(status) =>
      if status == 400 {} else if status == 401 {} else if status == 403 {} else if status == 404 {}
      else if status == 500 {} else if status == 502 {} else if status == 503 {} else if status == 504 {}
    case _ =>
  }

  /** Every error message has two lines, and its first line is the heading of
      the failure it reports, whatever text the exception carries. */
  lemma ErrorMessageIsTwoLines(e: RequestError)
    ensures Heading(ErrorMessage(e)) == FailureHeading(FailureOf(e))
    ensures |FailureHeading(FailureOf(e))| < |ErrorMessage(e)|
  {
    var f := FailureOf(e);
    HeadingHasNoBreak(f);
    HeadingOfLines(FailureLines(f, e.text).0, FailureLines(f, e.text).1);
  }

  /** Different failures have different headings. */
  lemma FailureHeadingInjective(f1: Failure, f2: Failure)
    requires f1.KnownStatus? ==> StatusLines(f1.status).Some?
    requires f2.KnownStatus? ==> StatusLines(f2.status).Some?
    ensures FailureHeading(f1) == FailureHeading(f2) ==> f1 == f2
  {
  }

  /** The first line of the message tells the user which clause handled the
      failure and, for an HTTP error, which of the named statuses it had. */
  lemma HeadingIdentifiesFailure(e1: RequestError, e2: RequestError)
    requires Heading(ErrorMessage(e1)) == Heading(ErrorMessage(e2))
    ensures FailureOf(e1) == FailureOf(e2)
  {
    ErrorMessageIsTwoLines(e1);
    ErrorMessageIsTwoLines(e2);
    FailureHeadingInjective(FailureOf(e1), FailureOf(e2));
  }
}
