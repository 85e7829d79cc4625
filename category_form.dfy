/** The controller of the category form: which request a submit sends, which
    parent callback its response leads to, and how the name field follows the
    category selected for editing.

    The network is abstracted: a request is a value, and the server is a
    function from requests to responses. A response is either a status with
    the error body the form would read from it, or the error that `fetch`
    threw. The parent callbacks are recorded as `Outcome` values:
    `Created` is `onCategoryAdded`, `Updated` is `onCategoryUpdated`,
    `Failed(m)` is `onError(m)` and `AuthFailed` is `handleAuthError`. */
module CategoryForm {
  import opened Wrappers
  import opened UrlSlug
  import opened NameRules
  import UrlSlugProperties

  /** A category as the parent supplies it for editing. */
  datatype Category = Category(catId: string, catName: string)

  datatype HttpMethod = Post | Put

  /** The JSON body `{CatName, CatURL}`. The form always sends the slug of
      `CatName` as `CatURL`, so a body is determined by its name and
      `catUrl` is derived from it. */
  datatype Payload = Payload(catName: string) {
    const catUrl: string := GenerateUrlSlug(catName)
  }

  /** What `fetch` is asked to send. */
  datatype Request = Request(
    verb: HttpMethod,      // the HTTP method
    url: string,
    contentType: string,   // the `Content-Type` header
    authToken: string,     // the `x-auth-token` header
    body: Payload)

  /** The body of a failed response as the form reads it: parsed JSON with or
      without a `msg` string, or a body whose reading threw `error`. */
  datatype ErrorBody = Json(msg: Option<string>) | Unreadable(error: string)

  datatype Response = Status(code: int, body: ErrorBody) | Threw(message: string)

  /** The parent callback a submit ends in. */
  datatype Outcome = AuthFailed | Failed(message: string) | Updated | Created

  const ApiPath := "/api/cat"
  const JsonContentType := "application/json"

  // ---------------------------------------------------------------------------
  // The request
  // ---------------------------------------------------------------------------

  /** The category collection, which a create request is sent to. */
  function CollectionUrl(backendUrl: string): string {
    backendUrl + ApiPath
  }

  function RequestUrl(backendUrl: string, editing: Option<Category>): string {
    match editing
    case Some(target) => CollectionUrl(backendUrl) + "/" + target.catId
    case None => CollectionUrl(backendUrl)
  }

  /** The request a submit of `name` sends: a PUT exactly when a category is
      being edited, to a URL under the collection, carrying the name and its
      slug. A missing token is sent as "". */
  function BuildRequest(backendUrl: string, authToken: Option<string>, editing: Option<Category>, name: string): (req: Request)
    ensures req.verb == Put <==> editing.Some?
    ensures CollectionUrl(backendUrl) <= req.url
    ensures req.body.catName == name
  {
    Request(
      if editing.Some? then Put else Post,
      RequestUrl(backendUrl, editing),
      JsonContentType,
      authToken.GetOr(""),
      Payload(name))
  }

  /** Reads back, from a request URL, the identifier of the category it
      addresses; None for the collection itself or a URL outside it. */
  function TargetOf(backendUrl: string, url: string): Option<string> {
    var base := CollectionUrl(backendUrl);
    if |url| > |base| && url[..|base|] == base && url[|base|] == '/' then Some(url[|base| + 1..])
    else None
  }

  /** With an editing target the submit is a PUT to that category's URL,
      without one a POST to the collection; the URL always lies under the
      collection and names exactly the edited category. */
  lemma RequestAddressesTarget(backendUrl: string, authToken: Option<string>, editing: Option<Category>, name: string)
    ensures var req := BuildRequest(backendUrl, authToken, editing, name);
      && (req.verb == Put <==> editing.Some?)
      && CollectionUrl(backendUrl) <= req.url
      && (editing.None? ==> req.url == CollectionUrl(backendUrl))
      && TargetOf(backendUrl, req.url) == (if editing.Some? then Some(editing.value.catId) else None)
  {
    var base := CollectionUrl(backendUrl);
    var url := RequestUrl(backendUrl, editing);
    if editing.Some? {
      assert url == base + ("/" + editing.value.catId);
      assert url[..|base|] == base;
      assert url[|base|] == '/';
      assert url[|base| + 1..] == editing.value.catId;
    } else {
      assert url[..|base|] == base;
    }
  }

  /** The headers and body are the same in both modes: JSON content type, the
      token or "", the name as typed and its slug. */
  lemma RequestHeadersAndBody(backendUrl: string, authToken: Option<string>, editing: Option<Category>, name: string)
    ensures var req := BuildRequest(backendUrl, authToken, editing, name);
      && req.contentType == JsonContentType
      && (authToken.None? ==> req.authToken == "")
      && (authToken.Some? ==> req.authToken == authToken.value)
      && req.body.catName == name
      && req.body.catUrl == GenerateUrlSlug(name)
      && IsSlug(req.body.catUrl)
      && GenerateUrlSlug(req.body.catUrl) == req.body.catUrl
      && |req.body.catUrl| <= |name|
  {
    UrlSlugProperties.SlugIsSlug(name);
    UrlSlugProperties.SlugIdempotent(name);
  }

  /** A name that passes validation yields a slug of at most 50 characters
      that is empty only when the name has no letter, digit or `_`. */
  lemma AcceptedNameSlug(name: string)
    requires Validate(name).Accepted?
    ensures |GenerateUrlSlug(name)| <= MaxLength
    ensures Filter(IsNotHyphen, GenerateUrlSlug(name)) == ToLower(UrlSlugProperties.Words(name))
  {
    UrlSlugProperties.SlugKeepsWordChars(name);
  }

  // ---------------------------------------------------------------------------
  // The response
  // ---------------------------------------------------------------------------

  /** `res.ok`: a status in the range 200 to 299. */
  predicate IsOk(code: int) {
    200 <= code <= 299
  }

  /** The message used when a failed response carries no usable `msg`; it
      names the operation that was attempted. */
  function FallbackMessage(updating: bool): string {
    if updating then "An unexpected error occurred during update."
    else "An unexpected error occurred during creation."
  }

  /** The message of a failed response: the server's `msg` when it is a
      non-empty string, the fallback naming the attempted operation otherwise,
      or the error thrown while reading the body. */
  function ErrorMessage(updating: bool, body: ErrorBody): (m: string)
    ensures body.Json? ==> m != ""
    ensures body.Json? && body.msg.Some? && body.msg.value != "" ==> m == body.msg.value
    ensures body.Json? && (body.msg.None? || body.msg.value == "") ==> m == FallbackMessage(updating)
    ensures body.Unreadable? ==> m == body.error
  {
    match body
    case Json(msg) => if msg.Some? && msg.value != "" then msg.value else FallbackMessage(updating)
    case Unreadable(error) => error
  }

  /** The callback a submit ends in, given whether a category was being
      edited and what the request produced. */
  function SubmitOutcome(updating: bool, response: Response): (o: Outcome)
    ensures o == AuthFailed <==> response.Status? && response.code == 401
    ensures o == Updated <==> updating && response.Status? && IsOk(response.code)
    ensures o == Created <==> !updating && response.Status? && IsOk(response.code)
    ensures o.Failed? <==> response.Threw? || (response.code != 401 && !IsOk(response.code))
    ensures o.Failed? && response.Threw? ==> o.message == response.message
    ensures o.Failed? && response.Status? ==> o.message == ErrorMessage(updating, response.body)
  {
    match response
    case Threw(message) => Failed(message)
    case Status(code, body) =>
      if code == 401 then AuthFailed
      else if !IsOk(code) then Failed(ErrorMessage(updating, body))
      else if updating then Updated
      else Created
  }

  /** The parent callbacks a submit invokes, in order. `callbackError` says
      whether a callback throws, and with which message. The callback chosen
      by `SubmitOutcome` runs inside the form's `try`; when it is not
      `onError` and it throws, the `catch` reports its error through
      `onError` as well. An `onError` that throws is not caught. */
  function Callbacks(updating: bool, response: Response, callbackError: Outcome -> Option<string>): (calls: seq<Outcome>)
    ensures 1 <= |calls| <= 2
    ensures calls[0] == SubmitOutcome(updating, response)
    ensures |calls| == 2 <==> !calls[0].Failed? && callbackError(calls[0]).Some?
    ensures |calls| == 2 ==> calls[1] == Failed(callbackError(calls[0]).value)
  {
    var outcome := SubmitOutcome(updating, response);
    if !outcome.Failed? && callbackError(outcome).Some? then [outcome, Failed(callbackError(outcome).value)]
    else [outcome]
  }

  /** When the parent callbacks return normally, a submit ends in exactly one
      callback; whatever they do, `onError` can only be the last callback. */
  lemma CallbacksOnce(updating: bool, response: Response, callbackError: Outcome -> Option<string>)
    ensures (forall o :: callbackError(o).None?) ==>
      Callbacks(updating, response, callbackError) == [SubmitOutcome(updating, response)]
    ensures var calls := Callbacks(updating, response, callbackError);
      forall i :: 0 <= i < |calls| - 1 ==> !calls[i].Failed?
  {
  }

  /** A failed response without a usable `msg` is reported with a message
      naming the operation that was attempted, and the two are different. */
  lemma FallbackNamesOperation(updating: bool, code: int, msg: Option<string>)
    requires code != 401 && !IsOk(code)
    requires msg.None? || msg.value == ""
    ensures SubmitOutcome(updating, Status(code, Json(msg)))
         == Failed(if updating then "An unexpected error occurred during update."
                   else "An unexpected error occurred during creation.")
    ensures FallbackMessage(true) != FallbackMessage(false)
  {
  }

  // ---------------------------------------------------------------------------
  // The name field and the editing target
  // ---------------------------------------------------------------------------

  /** The value the reset effect gives the name field for an editing target:
      the target's name, or an empty field, which validation then stops with
      the required-field message. */
  function ResetName(editing: Option<Category>): (r: string)
    ensures editing.Some? ==> r == editing.value.catName
    ensures editing.None? ==> r == "" && Validate(r) == Rejected(Required, RequiredMessage)
  {
    match editing
    case Some(target) => target.catName
    case None => ""
  }

  /** The form: the name field it owns, the editing target its parent owns,
      and the requests sent and callbacks invoked so far. */
  class Form {
    var name: string
    var editing: Option<Category>
    var requests: seq<Request>
    var outcomes: seq<Outcome>

    /** Mounting: the field starts at its default "" and the reset effect
        runs once for the initial target. */
    constructor (target: Option<Category>)
      ensures editing == target && name == ResetName(target)
      ensures requests == [] && outcomes == []
    {
      name := "";
      editing := target;
      requests := [];
      outcomes := [];
      name := ResetName(target);
    }

    /** The user types `value` into the field. */
    method Edit(value: string)
      modifies this`name
      ensures name == value
    {
      name := value;
    }

    /** The parent selects another editing target (or none). The reset effect
        runs only when the target actually changes; then the field takes the
        target's name, or "" when there is none. */
    method SetEditingCategory(target: Option<Category>)
      modifies this`name, this`editing
      ensures editing == target
      ensures name == if target == old(editing) then old(name) else ResetName(target)
    {
      var changed := target != editing;
      editing := target;
      if changed {
        if target.Some? {
          name := target.value.catName;
        } else {
          name := "";
        }
      }
    }

    /** The Cancel button: the parent's editing target is cleared, which empties
        the field; no request is sent and no callback is invoked. */
    method Cancel()
      modifies this`name, this`editing
      ensures editing == None
      ensures name == if old(editing).Some? then "" else old(name)
      ensures requests == old(requests) && outcomes == old(outcomes)
    {
      SetEditingCategory(None);
    }

    /** A submit: validation first; only a valid name is sent, and then exactly
        one request goes out and the callbacks `Callbacks` gives are invoked.
        The field and the editing target are left as they are. */
    method Submit(backendUrl: string, authToken: Option<string>, server: Request -> Response,
                  callbackError: Outcome -> Option<string>) returns (verdict: Verdict)
      modifies this`requests, this`outcomes
      ensures verdict == Validate(name)
      ensures verdict.Rejected? ==> requests == old(requests) && outcomes == old(outcomes)
      ensures verdict.Accepted? ==>
        var req := BuildRequest(backendUrl, authToken, editing, name);
        && requests == old(requests) + [req]
        && outcomes == old(outcomes) + Callbacks(editing.Some?, server(req), callbackError)
    {
      verdict := Validate(name);
      if verdict.Rejected? {
        return;
      }
      HandleFormSubmit(backendUrl, authToken, server, callbackError);
    }

    /** `handleFormSubmit`: send the request, report its result through the
        callback `Respond` picks and, when that callback throws, report the
        error through `onError`. */
    method HandleFormSubmit(backendUrl: string, authToken: Option<string>, server: Request -> Response,
                            callbackError: Outcome -> Option<string>)
      modifies this`requests, this`outcomes
      ensures var req := BuildRequest(backendUrl, authToken, editing, name);
        && requests == old(requests) + [req]
        && outcomes == old(outcomes) + Callbacks(editing.Some?, server(req), callbackError)
    {
      var updating := editing.Some?;
      var req := BuildRequest(backendUrl, authToken, editing, name);
      requests := requests + [req];
      var calls := Notify(updating, server(req), callbackError);
      outcomes := outcomes + calls;
    }
  }

  /** The callbacks of `handleFormSubmit`: the one `Respond` picks for the
      response and, when that one is not `onError` and throws, `onError`
      with its error. */
  method Notify(updating: bool, response: Response, callbackError: Outcome -> Option<string>) returns (calls: seq<Outcome>)
    ensures calls == Callbacks(updating, response, callbackError)
  {
    var outcome := Respond(updating, response);
    calls := [outcome];
    if !outcome.Failed? {
      var thrown := callbackError(outcome);
      if thrown.Some? {
        calls := calls + [Failed(thrown.value)];
      }
    }
  }

  /** The response handling of `handleFormSubmit`: which callback a response
      leads to, tested in the order the form tests them (a thrown error,
      401, a status outside 2xx, then success by mode). */
  method Respond(updating: bool, res: Response) returns (outcome: Outcome)
    ensures outcome == SubmitOutcome(updating, res)
  {
    match res {
      case Threw(message) =>
        outcome := Failed(message);
      case Status(code, body) =>
        if code == 401 {
          outcome := AuthFailed;
          return;
        }
        if !IsOk(code) {
          var message: string;
          match body {
            case Unreadable(error) =>
              message := error;
            case Json(msg) =>
              message := if msg.Some? && msg.value != "" then msg.value else FallbackMessage(updating);
          }
          outcome := Failed(message);
          return;
        }
        if updating {
          outcome := Updated;
        } else {
          outcome := Created;
        }
    }
  }
}
