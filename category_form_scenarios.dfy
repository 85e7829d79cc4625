/** The form driven through typical flows, each as a method that builds a
    fresh form and reports what it sent and which callbacks it invoked. */
module CategoryFormScenarios {
  import opened Wrappers
  import opened UrlSlug
  import opened NameRules
  import opened CategoryForm
  import UrlSlugExamples

  /** Parent callbacks that all return normally. */
  function ReturnNormally(o: Outcome): Option<string> {
    None
  }

  /** Validation does not look at the slug: a name of symbols only passes,
      and its request carries an empty `CatURL`. */
  lemma AcceptedNameMayHaveEmptySlug()
    ensures Validate("&&&").Accepted? && GenerateUrlSlug("&&&") == ""
  {
    UrlSlugExamples.ExampleSymbolsOnly();
  }

  /** The request a create sends, written out. */
  lemma CreateRequest(backendUrl: string, name: string)
    ensures BuildRequest(backendUrl, None, None, name)
         == Request(Post, backendUrl + "/api/cat", "application/json", "", Payload(name))
    ensures BuildRequest(backendUrl, None, None, name).body.catUrl == GenerateUrlSlug(name)
  {
  }

  /** The request an update sends, written out. */
  lemma UpdateRequest(backendUrl: string, token: string, target: Category, newName: string)
    ensures BuildRequest(backendUrl, Some(token), Some(target), newName)
         == Request(Put, backendUrl + "/api/cat" + "/" + target.catId, "application/json", token,
                    Payload(newName))
    ensures BuildRequest(backendUrl, Some(token), Some(target), newName).body.catUrl == GenerateUrlSlug(newName)
  {
  }

  /** With callbacks that return normally, a 2xx answer ends in exactly the
      success callback of the mode. */
  lemma SuccessCallsOnce(updating: bool, response: Response)
    requires response.Status? && IsOk(response.code)
    ensures Callbacks(updating, response, ReturnNormally) == [if updating then Updated else Created]
  {
  }

  /** Create: a valid name is sent by POST to the collection together with its
      slug; a 201 response ends in `onCategoryAdded` and nothing else. */
  method CreateFlow(backendUrl: string, name: string) returns (sent: seq<Request>, called: seq<Outcome>)
    requires 3 <= |name| <= 50
    ensures sent == [Request(Post, backendUrl + "/api/cat", "application/json", "", Payload(name))]
    ensures called == [Created]
  {
    var form := Typed(name);
    var verdict := form.Submit(backendUrl, None, req => Status(201, Json(None)), ReturnNormally);
    SuccessCallsOnce(false, Status(201, Json(None)));
    CreateRequest(backendUrl, name);
    sent, called := form.requests, form.outcomes;
  }

  /** Update: selecting a category fills the field with its name; renamed to
      a valid `newName`, the submit is a PUT to `/api/cat/{CatId}` with the
      new slug, and success ends in `onCategoryUpdated`. */
  method UpdateFlow(backendUrl: string, token: string, target: Category, newName: string)
    returns (prefilled: string, sent: seq<Request>, called: seq<Outcome>)
    requires 3 <= |newName| <= 50
    ensures prefilled == target.catName
    ensures sent == [Request(Put, backendUrl + "/api/cat" + "/" + target.catId, "application/json", token,
                             Payload(newName))]
    ensures called == [Updated]
  {
    var form: Form;
    form, prefilled := SelectAndRename(target, newName);
    var verdict := form.Submit(backendUrl, Some(token), req => Status(200, Json(None)), ReturnNormally);
    SuccessCallsOnce(true, Status(200, Json(None)));
    UpdateRequest(backendUrl, token, target, newName);
    sent, called := form.requests, form.outcomes;
  }

  /** The part of a create before the submit: a fresh form without an
      editing target, and the user types `name`. */
  method Typed(name: string) returns (form: Form)
    ensures fresh(form)
    ensures form.editing == None && form.name == name
    ensures form.requests == [] && form.outcomes == []
  {
    form := new Form(None);
    form.Edit(name);
  }

  /** The part of an update before the submit: a fresh form, the parent
      selects `target`, which fills the field with its name (`prefilled`,
      read from the field), and the user types `newName` over it. */
  method SelectAndRename(target: Category, newName: string) returns (form: Form, prefilled: string)
    ensures prefilled == target.catName
    ensures fresh(form)
    ensures form.editing == Some(target) && form.name == newName
    ensures form.requests == [] && form.outcomes == []
  {
    form := new Form(None);
    form.SetEditingCategory(Some(target));
    prefilled := form.name;
    form.Edit(newName);
  }

  /** A create whose `onCategoryAdded` throws: the form's `catch` reports
      that error through `onError` right after. */
  method ThrowingCallbackFlow(backendUrl: string, name: string) returns (called: seq<Outcome>)
    requires 3 <= |name| <= 50
    ensures called == [Created, Failed("list refresh failed")]
  {
    var form := new Form(None);
    form.Edit(name);
    var verdict := form.Submit(backendUrl, None, req => Status(201, Json(None)),
                               o => if o == Created then Some("list refresh failed") else None);
    called := form.outcomes;
  }

  /** A 401 ends in `handleAuthError` only, in either mode. */
  method AuthFailureFlow(backendUrl: string, editing: Option<Category>, name: string) returns (called: seq<Outcome>)
    requires 3 <= |name| <= 50
    ensures called == [AuthFailed]
  {
    var form := new Form(editing);
    form.Edit(name);
    var verdict := form.Submit(backendUrl, None, req => Status(401, Json(Some("expired"))), ReturnNormally);
    called := form.outcomes;
  }

  /** A failed update whose body has no `msg` is reported with the update
      fallback message. */
  method FailedUpdateFlow(backendUrl: string, target: Category) returns (called: seq<Outcome>)
    requires 3 <= |target.catName| <= 50
    ensures called == [Failed("An unexpected error occurred during update.")]
  {
    var form := new Form(Some(target));
    var verdict := form.Submit(backendUrl, None, req => Status(500, Json(None)), ReturnNormally);
    assert form.outcomes == [] + [Failed(FallbackMessage(true))];
    called := form.outcomes;
  }

  /** Cancel: selecting a category fills the field, Cancel clears the target
      and the field without sending anything, and a submit of the emptied
      field is stopped by the required rule. */
  method CancelFlow(backendUrl: string, target: Category) returns (prefilled: string, cleared: string, verdict: Verdict, sent: seq<Request>)
    ensures prefilled == target.catName && cleared == ""
    ensures verdict == Rejected(Required, "Please enter category name.")
    ensures sent == []
  {
    var form := new Form(None);
    form.SetEditingCategory(Some(target));
    prefilled := form.name;
    form.Cancel();
    cleared := form.name;
    verdict := form.Submit(backendUrl, None, req => Status(201, Json(None)), ReturnNormally);
    sent := form.requests;
  }
}
